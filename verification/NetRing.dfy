/** The receive ring of a network handle (src/net_service.c): 8192 bytes, proved
    to be a byte queue across wrap-around. */
module NetRing {
  import opened Bytes
  import opened Circular

  const RING_SIZE := 8192

  class ByteRing {
    const buf: array<byte>
    var head: nat                       // next cell to write
    var tail: nat                       // oldest byte
    var count: nat
    ghost var view: seq<byte>           // the queued bytes, oldest first

    ghost predicate Shape()
      reads this
    {
      buf.Length == RING_SIZE && tail < RING_SIZE && count <= RING_SIZE && head == Cell(RING_SIZE, tail, count)
    }

    ghost predicate Valid()
      reads this, buf
    {
      Shape() && view == Ring(buf[..], tail, count)
    }

    constructor ()
      ensures Valid() && fresh(buf) && view == []
    {
      buf := new byte[RING_SIZE];
      head, tail, count, view := 0, 0, 0, [];
    }

    function Free(): (n: int)
      reads this
    {
      RING_SIZE - count
    }

    /** Appends `src`; the caller has checked that it fits. */
    method Put(src: seq<byte>)
      requires Valid() && |src| <= Free()
      modifies this, buf
      ensures Valid() && view == old(view) + src
    {
      hide Ring;
      for i := 0 to |src|
        invariant buf.Length == RING_SIZE && tail == old(tail) && count == old(count)
        invariant tail < RING_SIZE && count + |src| <= RING_SIZE
        invariant head == Cell(RING_SIZE, tail, count + i)
        invariant Ring(buf[..], tail, count + i) == old(view) + src[..i]
      {
        Pushed(buf[..], tail, count + i, src[i]);
        assert src[..i + 1] == src[..i] + [src[i]];
        buf[head] := src[i];
        head := Cell(RING_SIZE, head, 1);
      }
      assert src[..|src|] == src;
      count := count + |src|;
      view := Ring(buf[..], tail, count);
    }

    /** Moves the oldest `n` bytes into `dst` at `at`. */
    method Move(dst: array<byte>, at: nat, n: nat)
      requires Valid() && dst != buf && n <= count && at + n <= dst.Length
      modifies this`tail, this`count, this`view, dst
      ensures Valid() && view == old(view)[n..]
      ensures dst[..] == Patched(old(dst[..]), at, old(view)[..n])
    {
      hide Ring;
      ghost var w := view;
      for i := 0 to n
        invariant buf.Length == RING_SIZE && tail < RING_SIZE && count == old(count) <= RING_SIZE
        invariant head == Cell(RING_SIZE, tail, count - i)
        invariant Ring(buf[..], tail, count - i) == w[i..]
        invariant dst[..] == Patched(old(dst[..]), at, w[..i])
      {
        Popped(buf[..], tail, count - i);
        dst[at + i] := buf[tail];
        assert w[..i + 1] == w[..i] + [w[i]] && w[i..][1..] == w[i + 1..];
        tail := Cell(RING_SIZE, tail, 1);
      }
      count := count - n;
      view := w[n..];
    }

    /** Drains up to `max` bytes. */
    method Get(dst: array<byte>, at: nat, max: nat) returns (n: nat)
      requires Valid() && dst != buf && at + max <= dst.Length
      modifies this`tail, this`count, this`view, dst
      ensures Valid() && n == Min(max, |old(view)|) && view == old(view)[n..]
      ensures dst[..] == Patched(old(dst[..]), at, old(view)[..n])
    {
      n := Min(max, count);
      Move(dst, at, n);
    }

    /** Discards `n` bytes, 64 at a time. */
    method Skip(n: nat)
      requires Valid() && n <= count
      modifies this`tail, this`count, this`view
      ensures Valid() && view == old(view)[n..]
    {
      var junk := new byte[64];
      var left := n;
      while left > 0
        invariant 0 <= left <= n && Valid() && left <= count && view == old(view)[n - left..]
      {
        var k := Min(left, 64);
        Move(junk, 0, k);
        left := left - k;
      }
    }
  }
}
