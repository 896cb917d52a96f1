/** Fixed-width integers, optional values and the little-endian encodings every
    wire format here uses. */
module Bytes {

  datatype Option<T> = None | Some(value: T)

  type byte = x: int | 0 <= x < 256
  type u16 = x: int | 0 <= x < 0x1_0000
  type u32 = x: int | 0 <= x < 0x1_0000_0000

  const U32_SIZE: int := 0x1_0000_0000

  function Min(a: nat, b: nat): nat {
    if a < b then a else b
  }

  /** `mem` with `data` written at `at`. */
  function Patched(mem: seq<byte>, at: nat, data: seq<byte>): (r: seq<byte>)
    requires at + |data| <= |mem|
    ensures |r| == |mem|
  {
    mem[..at] + data + mem[at + |data|..]
  }

  /** A C `uint32_t` sum: truncated to 32 bits. */
  function Add32(x: u32, n: nat): u32 {
    (x + n) % U32_SIZE
  }

  function Le16(v: u16): (b: seq<byte>) {
    [v % 256, v / 256]
  }

  function FromLe16(b: seq<byte>): u16
    requires |b| >= 2
  {
    b[0] as int + 256 * (b[1] as int)
  }

  function Le32(v: u32): (b: seq<byte>) {
    [v % 256, v / 256 % 256, v / 0x1_0000 % 256, v / 0x100_0000]
  }

  function FromLe32(b: seq<byte>): u32
    requires |b| >= 4
  {
    b[0] as int + 256 * (b[1] as int) + 0x1_0000 * (b[2] as int) + 0x100_0000 * (b[3] as int)
  }

  lemma Le32RoundTrip(v: u32)
    ensures FromLe32(Le32(v)) == v
  {
    var q, r := v / 256, v % 256;
    var q2 := q / 256;
    assert v / 0x1_0000 == q2 && q2 / 256 == v / 0x100_0000;
  }
}
