/** Constants, records and wire format of the AUN engine (src/AUN/aun.h). */
module AunTypes {
  import opened Bytes

  const DEFAULT_UDP_PORT: u16 := 32768
  const HDR_SIZE := 8
  const MAX_DATA := 8192

  const TYPE_BROADCAST: byte := 1
  const TYPE_DATA: byte := 2
  const TYPE_ACK: byte := 3
  const TYPE_NAK: byte := 4
  const TYPE_IMMEDIATE: byte := 5
  const TYPE_IMM_REPLY: byte := 6

  const CTRL_MACHINE_PEEK: byte := 8
  const CTRL_IMM4_FIRST: byte := 2
  const CTRL_IMM4_LAST: byte := 5
  const CTRL_POKE: byte := 2

  const AUN_OK: byte := 0
  const TX_NOT_LISTENING: byte := 1
  const TX_NET_ERROR: byte := 2
  const TX_NO_ROUTE: byte := 3
  const TX_BUSY: byte := 4
  const ERR_PARAM: byte := 5
  const ERR_NOT_READY: byte := 6
  const ERR_NO_BLOCK: byte := 7
  const PENDING: byte := 0x80

  const MAP_MAX := 32
  const RX_BLOCKS := 2
  const RX_QUEUE := 8
  const REJECT_RETRIES := 10
  const REJECT_TIMEOUT_MS := 10
  const NORESP_TIMEOUT_MS := 1000
  const NORESP_RETRIES := 0
  const HIMM_TIMEOUT_MS := 1000
  const HIMM_CACHE_MS := 6000
  const HIMM_MAX := 2048
  const DEFER_RETRIES := 250
  const DEFER_DELAY_MS := 8
  const CONDEMN_RETRIES := 12
  const CONDEMN_TTL_MS := 10000
  const CONDEMN_SLOTS := 4
  const DEFER_SLOTS := 8

  const WILDCARD: bv8 := 0xFF
  const LEARN_OFF: bv8 := 0xFF

  // ---- addresses ----------------------------------------------------------

  /** An IPv4 address as its four octets; `d` is the last one (the station octet). */
  datatype Ip = Ip(a: bv8, b: bv8, c: bv8, d: bv8)

  const NO_IP := Ip(0, 0, 0, 0)

  /** A UDP endpoint. */
  datatype Peer = Peer(ip: Ip, udp: u16)

  /** The source stamped on broadcast and loopback frames: never deferred, never ACKed. */
  const LOCAL := Peer(NO_IP, 0)

  predicate OnWire(p: Peer) {
    p.ip != NO_IP
  }

  function Masked(ip: Ip, mask: Ip): Ip {
    Ip(ip.a & mask.a, ip.b & mask.b, ip.c & mask.c, ip.d & mask.d)
  }

  // ---- wire format --------------------------------------------------------

  /** One datagram; `ctrl` is the control byte with bit 7 cleared. */
  datatype Datagram = Datagram(kind: byte, port: byte, ctrl: byte, seqNo: u32, data: seq<byte>)

  function Encode(d: Datagram): (b: seq<byte>) {
    [d.kind, d.port, d.ctrl % 128, 0] + Le32(d.seqNo) + d.data
  }

  function Decode(b: seq<byte>): Option<Datagram> {
    if |b| < HDR_SIZE then None
    else Some(Datagram(b[0], b[1], b[2] % 128, FromLe32(b[4..8]), b[8..]))
  }

  lemma DecodeEncode(d: Datagram)
    ensures Decode(Encode(d)) == Some(d.(ctrl := d.ctrl % 128))
  {
    var b := Encode(d);
    assert b[4..8] == Le32(d.seqNo);
    assert b[8..] == d.data;
    Le32RoundTrip(d.seqNo);
  }

  /** DATA to port 0 carrying Poke, JSR, UserProc or OSProc: a host-executed
      operation, not an ordinary delivery. */
  predicate IsImm4(port: byte, ctrl: byte) {
    port == 0 && CTRL_IMM4_FIRST <= ctrl <= CTRL_IMM4_LAST
  }

  // ---- engine records -----------------------------------------------------

  /** A station-map entry. `last` is the sequence number of the last frame
      collected from this peer, meaningful only when `valid`. */
  datatype Station = Station(net: bv8, stn: bv8, peer: Peer, last: u32, valid: bool)

  datatype Addressing = Addressing(broadcastIp: Ip, subnetBase: Ip, subnetMask: Ip, learnNet: bv8)

  /** A received frame waiting for the host. */
  datatype Frame = Frame(src: Peer, seqNo: u32, stn: bv8, net: bv8,
                         port: byte, ctrl: byte, rejects: nat, data: seq<byte>)

  /** The unit of ordering and of deferral: an Econet port and a source. */
  datatype Stream = Stream(port: byte, src: Peer)

  function StreamOf(f: Frame): Stream {
    Stream(f.port, f.src)
  }

  datatype Info = Info(stn: bv8, net: bv8, port: byte, ctrl: byte, len: nat)

  function InfoOf(f: Frame): Info {
    Info(f.stn, f.net, f.port, f.ctrl, |f.data|)
  }

  /** A slot of the condemned-stream table, or of a block's defer table. */
  datatype Slot = Slot(valid: bool, stream: Stream, until: nat)

  const NO_SLOT := Slot(false, Stream(0, LOCAL), 0)

  datatype Tx = Tx(state: byte, kind: byte, to: Peer, dgram: Datagram, deadline: nat,
                   norespLeft: nat, rejectLeft: nat, rejectPending: bool,
                   hasBuf: bool, replyMax: nat, replyLen: nat, reply: seq<byte>)

  const IDLE_TX := Tx(AUN_OK, 0, LOCAL, Datagram(0, 0, 0, 0, []), 0, 0, 0, false, false, 0, 0, [])

  /** The slot holding one inbound immediate for the host to execute. */
  datatype HostImm = HostImm(active: bool, fromData: bool, ctrl: byte, seqNo: u32, peer: Peer,
                             data: seq<byte>, due: nat, gen: u32, polledGen: u32)

  const NO_IMM := HostImm(false, false, 0, 0, LOCAL, [], 0, 0, 0)

  /** The outcome of the last resolved immediate, kept for replay. */
  datatype Cache = Cache(valid: bool, isNak: bool, fromData: bool, ctrl: byte, seqNo: u32,
                         peer: Peer, data: seq<byte>, due: nat)

  const NO_CACHE := Cache(false, false, false, 0, 0, LOCAL, [], 0)

  datatype Responder = Responder(enabled: bool, stn: bv8, net: bv8)

  /** What identifies one immediate to its originator: endpoint, sequence number
      and wire encoding (DATA to port 0, or a type-5 immediate). */
  datatype ImmKey = ImmKey(peer: Peer, seqNo: u32, fromData: bool)

  function KeyOf(h: HostImm): ImmKey {
    ImmKey(h.peer, h.seqNo, h.fromData)
  }

  function CacheKey(c: Cache): ImmKey {
    ImmKey(c.peer, c.seqNo, c.fromData)
  }

  // ---- history ------------------------------------------------------------

  /** Why a datagram was handed to the transport; a transmit carries the number
      of its transaction and the index of the sequence number it was given. */
  datatype Why = Answer | Transmit(txn: nat, alloc: nat) | Announce

  /** One observable event of a run. The log is a history variable: no
      operation reads it. */
  datatype Item =
    | Sent(to: Peer, d: Datagram, ok: bool, why: Why)
    | Accepted(f: Frame)
    | Shed(f: Frame)
    | Held(id: nat, key: ImmKey, at: nat, ctrl: byte, data: seq<byte>)
    | Resolved(id: nat, key: ImmKey, at: nat)
    | Reset

  /** What a call leaves behind: the new state and what it adds to the log. */
  datatype Out<S> = Out(st: S, items: seq<Item>)

  /** The 8-byte ACK or NAK echoing the sequence number it answers. */
  function Verdict(kind: byte, port: byte, ctrl: byte, seqNo: u32): Datagram {
    Datagram(kind, port, ctrl % 128, seqNo, [])
  }

  function Answered(to: Peer, d: Datagram, ok: bool): seq<Item> {
    [Sent(to, d, ok, Answer)]
  }
}
