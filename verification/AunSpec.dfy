/** The AUN engine as a state machine over values, and its runs: every call the
    firmware, the host and the network can make, in any order. */
module AunSpec {
  import opened Bytes
  import opened AunTypes
  import opened AunRx
  import opened AunTx
  import opened AunImm

  /** `log` is history: no operation reads it. */
  datatype Engine = Engine(clock: nat, initialised: bool, rx: Rx, tx: TxSide, imm: ImmSide,
                           machineId: seq<byte>, test: Responder, log: seq<Item>)

  const NO_ID: seq<byte> := [0, 0, 0, 0]

  /** The engine before its first initialisation: all memory zero. */
  const BOOT := Engine(0, false, EMPTY_RX.(routes := NO_ROUTES.(learnNet := 0)), EMPTY_TX, EMPTY_IMM,
                       NO_ID, Responder(false, 0, 0), [])

  /** The default machine-peek reply: a BBC B running NFS 3.60. */
  const BBC_B: seq<byte> := [0x01, 0x00, 0x60, 0x03]

  /** Everything but the clock and the history starts over. */
  function Init(e: Engine): Engine {
    Engine(e.clock, true, EMPTY_RX, EMPTY_TX.(nextSeq := 4, txns := e.tx.txns, base := e.tx.txns),
           EMPTY_IMM.(holds := e.imm.holds, polled := e.imm.holds),
           BBC_B, Responder(false, 0, 0), e.log + [Reset])
  }

  // ---- receive blocks -----------------------------------------------------

  function RxOpen(e: Engine, h: byte, port: byte, stn: bv8, net: bv8, buf: seq<byte>): (Engine, byte) {
    if !e.initialised then (e, ERR_NOT_READY)
    else if h >= |e.rx.blocks| || buf == [] then (e, ERR_PARAM)
    else (e.(rx := SetBlock(e.rx, h, OpenBlock(port, stn, net, buf))), AUN_OK)
  }

  function RxClose(e: Engine, h: byte): (Engine, byte) {
    if !IsOpen(e.rx, h) then (e, ERR_NO_BLOCK)
    else (e.(rx := SetBlock(e.rx, h, CLOSED)), AUN_OK)
  }

  function RxPoll(e: Engine, h: byte): (Engine, byte, Option<Info>) {
    if !IsOpen(e.rx, h) then (e, ERR_NO_BLOCK, None)
    else
      var b := e.rx.blocks[h];
      if HasTarget(b)
      then (e.(rx := SetBlock(e.rx, h, Present(b))), AUN_OK, Some(InfoOf(b.frames[Target(b)])))
      else (e, PENDING, None)
  }

  function RxReady(e: Engine, h: byte): nat {
    if !IsOpen(e.rx, h) then 0 else Ready(e.rx.blocks[h].frames, e.rx.blocks[h].deferred)
  }

  function RxCollect(e: Engine, h: byte, accept: bool, ok: bool): (Engine, byte) {
    var o := Collect(e.rx, h, accept, e.clock, ok);
    (e.(rx := o.st, log := e.log + o.items), if IsOpen(e.rx, h) then AUN_OK else ERR_NO_BLOCK)
  }

  // ---- transmit -----------------------------------------------------------

  /** The loopback test responder answers without touching the network. */
  function Loopback(e: Engine, kind: byte, ctrl: byte, port: byte, data: seq<byte>,
                    hasBuf: bool, replyMax: nat): Engine {
    if kind == TYPE_IMMEDIATE then
      var n := if replyMax < |e.machineId| then replyMax else |e.machineId|;
      e.(tx := Looped(e.tx, AUN_OK, n, if hasBuf then e.machineId[..n] else []))
    else if IsImm4(port, ctrl) then e.(tx := Looped(e.tx, AUN_OK, 0, []))
    else
      var f := NewFrame(LOCAL, 0, e.test.stn, e.test.net, Datagram(kind, port, ctrl, 0, data));
      var state := if DeliveryOf(e.rx.blocks, f) == Queued then AUN_OK else TX_NOT_LISTENING;
      e.(rx := e.rx.(blocks := Deliver(e.rx.blocks, f)), tx := Looped(e.tx, state, 0, []))
  }

  function TxBegin(e: Engine, kind: byte, net: bv8, stn: bv8, ctrl: byte, port: byte,
                   data: seq<byte>, hasBuf: bool, replyMax: nat, ok: bool): (Engine, byte) {
    if !e.initialised then (e, ERR_NOT_READY)
    else if |data| > MAX_DATA then (e, ERR_PARAM)
    else if e.tx.cur.state == PENDING then (e, TX_BUSY)
    else if e.test.enabled && stn == e.test.stn && net == e.test.net then
      (Loopback(e, kind, ctrl, port, data, hasBuf, replyMax), AUN_OK)
    else
      match Resolve(e.rx, net, stn)
      case None => (e, TX_NO_ROUTE)
      case Some(to) =>
        var o := Launch(e.tx, kind, to, ctrl, port, data, hasBuf, replyMax, e.clock, ok);
        (e.(tx := o.st, log := e.log + o.items), AUN_OK)
  }

  function TxStart(e: Engine, net: bv8, stn: bv8, ctrl: byte, port: byte, data: seq<byte>, ok: bool)
    : (Engine, byte)
  {
    TxBegin(e, TYPE_DATA, net, stn, ctrl, port, data, false, 0, ok)
  }

  /** A Poke's byte count goes on the wire between its address and its data. */
  function PokeOnWire(data: seq<byte>): seq<byte>
    requires 4 <= |data| <= MAX_DATA
  {
    data[..4] + Le32(|data| - 4) + data[4..]
  }

  /** The 4-way immediates travel as DATA to port 0, the rest as type 5. */
  function Immediate(e: Engine, net: bv8, stn: bv8, ctrl: byte, data: seq<byte>,
                     hasBuf: bool, replyMax: nat, ok: bool): (Engine, byte) {
    var c := ctrl % 128;
    if c == CTRL_POKE then
      if |data| < 4 || |data| > MAX_DATA - 4 then (e, ERR_PARAM)
      else TxBegin(e, TYPE_DATA, net, stn, ctrl, 0, PokeOnWire(data), false, 0, ok)
    else if CTRL_IMM4_FIRST <= c <= CTRL_IMM4_LAST then
      TxBegin(e, TYPE_DATA, net, stn, ctrl, 0, data, false, 0, ok)
    else
      TxBegin(e, TYPE_IMMEDIATE, net, stn, ctrl, 0, data, hasBuf, replyMax, ok)
  }

  /** One copy to every mapped peer, in table order, then the subnet broadcast. */
  function Copies(r: Rx, d: Datagram, oks: seq<bool>): seq<Item> {
    var n := |r.stations|;
    seq(n, i requires 0 <= i < n => Sent(r.stations[i].peer, d, i < |oks| && oks[i], Announce)) +
    if r.routes.broadcastIp == NO_IP then []
    else [Sent(Peer(r.routes.broadcastIp, DEFAULT_UDP_PORT), d, n < |oks| && oks[n], Announce)]
  }

  function Broadcast(e: Engine, ctrl: byte, port: byte, data: seq<byte>, oks: seq<bool>): (Engine, byte) {
    if !e.initialised then (e, ERR_NOT_READY)
    else if |data| > MAX_DATA then (e, ERR_PARAM)
    else
      var d := Datagram(TYPE_BROADCAST, port, ctrl % 128, e.tx.nextSeq, data);
      (e.(tx := AllocSeq(e.tx), log := e.log + Copies(e.rx, d, oks)), AUN_OK)
  }

  // ---- inbound ------------------------------------------------------------

  function Receive(e: Engine, src: Peer, d: Datagram, ok: bool): Engine {
    if d.kind == TYPE_ACK || d.kind == TYPE_NAK || d.kind == TYPE_IMM_REPLY then
      e.(tx := ReceiveReply(e.tx, src, d, e.clock))
    else if d.kind == TYPE_DATA && IsImm4(d.port, d.ctrl) then
      var o := ReceiveImm4(e.imm, src, d, e.clock, ok);
      e.(imm := o.st, log := e.log + o.items)
    else if d.kind == TYPE_DATA then
      var o := ReceiveData(e.rx, src, d, ok);
      e.(rx := o.st, log := e.log + o.items)
    else if d.kind == TYPE_BROADCAST then
      e.(rx := ReceiveBroadcast(e.rx, src, d))
    else if d.kind == TYPE_IMMEDIATE && d.ctrl == CTRL_MACHINE_PEEK then
      e.(log := e.log + Answered(src, ImmReply(d.ctrl, d.seqNo, e.machineId), ok))
    else if d.kind == TYPE_IMMEDIATE then
      var o := ReceiveImmediate(e.imm, src, d, e.clock, ok);
      e.(imm := o.st, log := e.log + o.items)
    else e
  }

  function UdpInput(e: Engine, src: Peer, buf: seq<byte>, ok: bool): Engine {
    var d := Decode(buf);
    if !e.initialised || d.None? then e else Receive(e, src, d.value, ok)
  }

  // ---- timers -------------------------------------------------------------

  function Poll(e: Engine, okNak: bool, okTx: bool): Engine {
    if !e.initialised then e
    else
      var m := Reap(e.imm, e.clock, okNak);
      var t := Timer(e.tx, e.clock, okTx);
      e.(imm := m.st, tx := t.st, log := e.log + m.items + t.items)
  }

  function Tick(e: Engine, ms: nat): Engine {
    e.(clock := e.clock + ms, rx := e.rx.(blocks := TickBlocks(e.rx.blocks, e.clock + ms)))
  }

  // ---- runs ---------------------------------------------------------------

  /** One call into the engine, with the transport's answer to what it sends. */
  datatype Event =
    | DoInit
    | DoMapAdd(net: bv8, stn: bv8, peer: Peer)
    | DoAddressing(routes: Addressing)
    | DoTest(test: Responder)
    | DoMachineId(id: seq<byte>)
    | DoHostImm(enable: bool)
    | DoOpen(h: byte, port: byte, stn: bv8, net: bv8, buf: seq<byte>)
    | DoRxPoll(h: byte)
    | DoCollect(h: byte, accept: bool, ok: bool)
    | DoClose(h: byte)
    | DoInput(src: Peer, dgram: seq<byte>, ok: bool)
    | DoTx(net: bv8, stn: bv8, ctrl: byte, port: byte, data: seq<byte>, ok: bool)
    | DoImmediate(net: bv8, stn: bv8, ctrl: byte, data: seq<byte>, hasBuf: bool, replyMax: nat, ok: bool)
    | DoBroadcast(ctrl: byte, port: byte, data: seq<byte>, oks: seq<bool>)
    | DoImmPoll
    | DoImmReply(data: seq<byte>, ok: bool)
    | DoPoll(okNak: bool, okTx: bool)
    | DoTick(ms: nat)

  function Step(e: Engine, ev: Event): Engine {
    match ev
    case DoInit => Init(e)
    case DoMapAdd(net, stn, peer) => e.(rx := e.rx.(stations := MapAdd(e.rx.stations, net, stn, peer).0))
    case DoAddressing(routes) => e.(rx := e.rx.(routes := routes))
    case DoTest(test) => e.(test := test)
    case DoMachineId(id) => e.(machineId := id)
    case DoHostImm(enable) => e.(imm := Configure(e.imm, enable), log := e.log + [Reset])
    case DoOpen(h, port, stn, net, buf) => RxOpen(e, h, port, stn, net, buf).0
    case DoRxPoll(h) => RxPoll(e, h).0
    case DoCollect(h, accept, ok) => RxCollect(e, h, accept, ok).0
    case DoClose(h) => RxClose(e, h).0
    case DoInput(src, dgram, ok) => UdpInput(e, src, dgram, ok)
    case DoTx(net, stn, ctrl, port, data, ok) => TxStart(e, net, stn, ctrl, port, data, ok).0
    case DoImmediate(net, stn, ctrl, data, hasBuf, replyMax, ok) =>
      Immediate(e, net, stn, ctrl, data, hasBuf, replyMax, ok).0
    case DoBroadcast(ctrl, port, data, oks) => Broadcast(e, ctrl, port, data, oks).0
    case DoImmPoll => e.(imm := Take(e.imm))
    case DoImmReply(data, ok) =>
      var o := ReplyCommand(e.imm, data, e.clock, ok);
      e.(imm := o.st, log := e.log + o.items)
    case DoPoll(okNak, okTx) => Poll(e, okNak, okTx)
    case DoTick(ms) => Tick(e, ms)
  }

  /** The state after a run from power-up. */
  function Exec(run: seq<Event>): Engine {
    if run == [] then BOOT else Step(Exec(run[..|run| - 1]), run[|run| - 1])
  }
}
