/** The receive side of the AUN engine (src/AUN/aun.c): station map, receive
    blocks, deferred and condemned streams.

    A queue is a plain sequence and the deferred streams of a block a map holding
    exactly the deferrals still running, so nothing here depends on how the engine
    stores them; module AunEngine proves the circular queue and the slot tables
    against these functions. Every call happens at one clock reading, and the
    outcome of a transport send is an argument (`ok`). */
module AunRx {
  import opened Bytes
  import opened AunTypes

  /** A receive block. */
  datatype Block = Block(open: bool, presented: bool, presOff: nat, port: byte, stn: bv8, net: bv8,
                         buf: seq<byte>, frames: seq<Frame>, deferred: map<Stream, nat>)

  const CLOSED := Block(false, false, 0, 0, 0, 0, [], [], map[])

  datatype Rx = Rx(stations: seq<Station>, routes: Addressing, blocks: seq<Block>, condemned: seq<Slot>)

  const NO_ROUTES := Addressing(NO_IP, NO_IP, NO_IP, LEARN_OFF)

  const EMPTY_RX := Rx([], NO_ROUTES, [CLOSED, CLOSED], [NO_SLOT, NO_SLOT, NO_SLOT, NO_SLOT])

  // ---- station map --------------------------------------------------------

  /** The first entry for a station, or -1. */
  function FindAddr(m: seq<Station>, net: bv8, stn: bv8, i: nat := 0): (r: int)
    requires i <= |m|
    ensures r == -1 || (i <= r < |m| && m[r].net == net && m[r].stn == stn)
    ensures forall k :: i <= k < (if r < 0 then |m| else r) ==> !(m[k].net == net && m[k].stn == stn)
    decreases |m| - i
  {
    if i == |m| then -1
    else if m[i].net == net && m[i].stn == stn then i
    else FindAddr(m, net, stn, i + 1)
  }

  /** The first entry for an endpoint, or -1. */
  function FindPeer(m: seq<Station>, p: Peer, i: nat := 0): (r: int)
    requires i <= |m|
    ensures r == -1 || (i <= r < |m| && m[r].peer == p)
    ensures forall k :: i <= k < (if r < 0 then |m| else r) ==> m[k].peer != p
    decreases |m| - i
  {
    if i == |m| then -1
    else if m[i].peer == p then i
    else FindPeer(m, p, i + 1)
  }

  function MapAdd(m: seq<Station>, net: bv8, stn: bv8, peer: Peer): (seq<Station>, bool) {
    var p := if peer.udp == 0 then peer.(udp := DEFAULT_UDP_PORT) else peer;
    var i := FindAddr(m, net, stn);
    if i >= 0 then (m[i := m[i].(peer := p, valid := false)], true)
    else if |m| >= MAP_MAX then (m, false)
    else (m + [Station(net, stn, p, 0, false)], true)
  }

  /** Records `seqNo` as the last one collected from `p`, if `p` is mapped. */
  function Stamp(m: seq<Station>, p: Peer, seqNo: u32): seq<Station> {
    var i := FindPeer(m, p);
    if i < 0 then m else m[i := m[i].(last := seqNo, valid := true)]
  }

  /** Outbound resolution: the station map, else the learn-mode convention. */
  function Resolve(r: Rx, net: bv8, stn: bv8): Option<Peer> {
    var i := FindAddr(r.stations, net, stn);
    if i >= 0 then Some(r.stations[i].peer)
    else if r.routes.learnNet == LEARN_OFF || net != r.routes.learnNet then None
    else Some(Peer(r.routes.subnetBase.(d := stn), DEFAULT_UDP_PORT))
  }

  /** Learn mode can attribute an unmapped in-subnet source. */
  predicate Learnable(r: Addressing, p: Peer) {
    && r.learnNet != LEARN_OFF && p.udp == DEFAULT_UDP_PORT
    && Masked(p.ip, r.subnetMask) == Masked(r.subnetBase, r.subnetMask)
    && p.ip.d != 0 && p.ip.d != 255
  }

  /** The station map a DATA datagram from `p` is judged against. */
  function Learn(r: Rx, p: Peer): seq<Station> {
    if FindPeer(r.stations, p) < 0 && Learnable(r.routes, p)
    then MapAdd(r.stations, r.routes.learnNet, p.ip.d, p).0
    else r.stations
  }

  // ---- presenting ---------------------------------------------------------

  predicate IsOpen(r: Rx, h: byte) {
    h < |r.blocks| && r.blocks[h].open
  }

  function SetBlock(r: Rx, h: byte, b: Block): Rx
    requires h < |r.blocks|
  {
    r.(blocks := r.blocks[h := b])
  }

  function OpenBlock(port: byte, stn: bv8, net: bv8, buf: seq<byte>): Block {
    Block(true, false, 0, port, stn, net, buf, [], map[])
  }

  /** Is the frame's stream free to be presented? */
  predicate Eligible(f: Frame, deferred: map<Stream, nat>) {
    OnWire(f.src) ==> StreamOf(f) !in deferred
  }

  /** The first eligible frame at or after `i`, or -1. */
  function FirstEligible(frames: seq<Frame>, deferred: map<Stream, nat>, i: nat := 0): (r: int)
    requires i <= |frames|
    ensures r == -1 || (i <= r < |frames| && Eligible(frames[r], deferred))
    ensures forall k :: i <= k < (if r < 0 then |frames| else r) ==> !Eligible(frames[k], deferred)
    decreases |frames| - i
  {
    if i == |frames| then -1
    else if Eligible(frames[i], deferred) then i
    else FirstEligible(frames, deferred, i + 1)
  }

  /** The frame a collect acts on: the presented one, else the one a poll
      would present. Out of range when there is none. */
  function Target(b: Block): int {
    if b.frames == [] then -1
    else if b.presented then b.presOff
    else FirstEligible(b.frames, b.deferred)
  }

  predicate HasTarget(b: Block) {
    0 <= Target(b) < |b.frames|
  }

  /** Copies the target frame into the host's buffer, once. */
  function Present(b: Block): Block {
    if b.presented || !HasTarget(b) then b
    else
      var data := b.frames[Target(b)].data;
      b.(presented := true, presOff := Target(b),
      buf := data + if |data| <= |b.buf| then b.buf[|data|..] else [])
  }

  /** How many queued frames could be presented now. */
  function Ready(frames: seq<Frame>, deferred: map<Stream, nat>): nat {
    if frames == [] then 0
    else Ready(frames[..|frames| - 1], deferred)
         + if Eligible(frames[|frames| - 1], deferred) then 1 else 0
  }

  // ---- slot tables --------------------------------------------------------

  /** The first valid slot of a stream, or -1. */
  function SlotOf(t: seq<Slot>, s: Stream, i: nat := 0): (r: int)
    requires i <= |t|
    ensures r == -1 || (i <= r < |t| && t[r].valid && t[r].stream == s)
    ensures forall k :: i <= k < (if r < 0 then |t| else r) ==> !(t[k].valid && t[k].stream == s)
    decreases |t| - i
  {
    if i == |t| then -1
    else if t[i].valid && t[i].stream == s then i
    else SlotOf(t, s, i + 1)
  }

  predicate Usable(s: Slot, clock: nat) {
    !s.valid || clock >= s.until
  }

  /** Looking a stream up frees its slot when that has expired. */
  function Expire(t: seq<Slot>, s: Stream, clock: nat): seq<Slot> {
    var i := SlotOf(t, s);
    if i >= 0 && clock >= t[i].until then t[i := t[i].(valid := false)] else t
  }

  /** Does the table hold a running entry for the stream? */
  predicate Listed(t: seq<Slot>, s: Stream, clock: nat) {
    var i := SlotOf(t, s);
    i >= 0 && clock < t[i].until
  }

  /** The slot a new entry takes: the first free or expired one, else the
      first of those closest to expiry. */
  function Victim(t: seq<Slot>, clock: nat, i: nat := 0, best: nat := 0): (r: nat)
    requires best < |t| && i <= |t|
    ensures r < |t|
    ensures (exists k :: i <= k < |t| && Usable(t[k], clock)) ==> Usable(t[r], clock)
    ensures Usable(t[r], clock) || (t[r].until <= t[best].until &&
                                    forall k :: i <= k < |t| ==> t[r].until <= t[k].until)
    decreases |t| - i
  {
    if i == |t| then best
    else if Usable(t[i], clock) then i
    else Victim(t, clock, i + 1, if t[best].until > t[i].until then i else best)
  }

  function SetSlot(t: seq<Slot>, s: Stream, clock: nat, until: nat): seq<Slot> {
    var i := SlotOf(t, s);
    if t == [] then t
    else t[(if i >= 0 then i else Victim(t, clock)) := Slot(true, s, until)]
  }

  /** An accepted frame disproves its stream's condemnation. */
  function Lift(t: seq<Slot>, s: Stream): seq<Slot> {
    var i := SlotOf(t, s);
    if i < 0 then t else t[i := t[i].(valid := false)]
  }

  // ---- collect ------------------------------------------------------------

  function Remove<T>(s: seq<T>, off: nat): (r: seq<T>)
    requires off < |s|
    ensures |r| == |s| - 1
    ensures forall i :: 0 <= i < off ==> r[i] == s[i]
    ensures forall i :: off <= i < |r| ==> r[i] == s[i + 1]
  {
    s[..off] + s[off + 1..]
  }

  /** The block once the frame at `off` has left the queue. */
  function Taken(b: Block, off: nat): Block
    requires off < |b.frames|
  {
    b.(frames := Remove(b.frames, off), presented := false)
  }

  /** The block once the frame at `off` was turned down and its stream deferred. */
  function Deferring(b: Block, off: nat, clock: nat): Block
    requires off < |b.frames|
  {
    var f := b.frames[off];
    b.(frames := b.frames[off := f.(rejects := f.rejects + 1)], presented := false,
    deferred := b.deferred[StreamOf(f) := clock + DEFER_DELAY_MS])
  }

  function AckFor(f: Frame, ok: bool): Item {
    Sent(f.src, Verdict(TYPE_ACK, f.port, f.ctrl, f.seqNo), ok, Answer)
  }

  /** The frame leaves the queue: the host took it. */
  function Accept(r: Rx, h: byte, off: nat, ok: bool): Out<Rx>
    requires IsOpen(r, h) && off < |r.blocks[h].frames|
  {
    var f := r.blocks[h].frames[off];
    var blocks := r.blocks[h := Taken(r.blocks[h], off)];
    if OnWire(f.src) then
      Out(Rx(Stamp(r.stations, f.src, f.seqNo), r.routes, blocks, Lift(r.condemned, StreamOf(f))),
          [Accepted(f), AckFor(f, ok)])
    else Out(r.(blocks := blocks), [Accepted(f)])
  }

  function Budget(r: Rx, f: Frame, clock: nat): nat {
    if Listed(r.condemned, StreamOf(f), clock) then CONDEMN_RETRIES else DEFER_RETRIES
  }

  /** The host found no listener: drop a local frame, shed one whose budget is
      spent, else keep it queued and defer its stream. */
  function Reject(r: Rx, h: byte, off: nat, clock: nat, ok: bool): Out<Rx>
    requires IsOpen(r, h) && off < |r.blocks[h].frames|
  {
    var b := r.blocks[h];
    var f := b.frames[off];
    var t := Expire(r.condemned, StreamOf(f), clock);
    if !OnWire(f.src) then Out(SetBlock(r, h, Taken(b, off)), [])
    else if f.rejects >= Budget(r, f, clock) then
      Out(Rx(Stamp(r.stations, f.src, f.seqNo), r.routes, r.blocks[h := Taken(b, off)],
             SetSlot(t, StreamOf(f), clock, clock + CONDEMN_TTL_MS)),
          [Shed(f), AckFor(f, ok)])
    else Out(SetBlock(r, h, Deferring(b, off, clock)).(condemned := t), [])
  }

  function Collect(r: Rx, h: byte, accept: bool, clock: nat, ok: bool): Out<Rx> {
    if !IsOpen(r, h) then Out(r, [])
    else if !HasTarget(r.blocks[h]) then Out(SetBlock(r, h, r.blocks[h].(presented := false)), [])
    else if accept then Accept(r, h, Target(r.blocks[h]), ok)
    else Reject(r, h, Target(r.blocks[h]), clock, ok)
  }

  // ---- arrivals -----------------------------------------------------------

  predicate Listens(b: Block, f: Frame) {
    && b.open && (b.port == 0 || b.port == f.port)
    && (b.stn == WILDCARD || b.stn == f.stn) && (b.net == WILDCARD || b.net == f.net)
  }

  predicate Takes(b: Block, f: Frame) {
    Listens(b, f) && |b.frames| < RX_QUEUE
  }

  /** The first listening block with room, or -1. */
  function Match(blocks: seq<Block>, f: Frame, i: nat := 0): (r: int)
    requires i <= |blocks|
    ensures r == -1 || (i <= r < |blocks| && Takes(blocks[r], f))
    ensures forall k :: i <= k < (if r < 0 then |blocks| else r) ==> !Takes(blocks[k], f)
    decreases |blocks| - i
  {
    if i == |blocks| then -1
    else if Takes(blocks[i], f) then i
    else Match(blocks, f, i + 1)
  }

  datatype Delivery = Queued | Full | Refused

  /** Full when a listener exists but has no room; refused when nobody listens
      or the payload can never fit. */
  function DeliveryOf(blocks: seq<Block>, f: Frame): Delivery {
    var i := Match(blocks, f);
    if i >= 0 then
      if |f.data| > |blocks[i].buf| || |f.data| > MAX_DATA then Refused else Queued
    else if exists k :: 0 <= k < |blocks| && Listens(blocks[k], f) then Full else Refused
  }

  /** Stages a payload into the queue of the first block that can take it. */
  function Deliver(blocks: seq<Block>, f: Frame): seq<Block> {
    var i := Match(blocks, f);
    if DeliveryOf(blocks, f) == Queued
    then blocks[i := blocks[i].(frames := blocks[i].frames + [f])] else blocks
  }

  /** The frame staged for a payload: control bit 7 set again, no rejections yet. */
  function NewFrame(src: Peer, seqNo: u32, stn: bv8, net: bv8, d: Datagram): Frame {
    Frame(src, seqNo, stn, net, d.port, d.ctrl % 128 + 128, 0, d.data)
  }

  /** Is a frame with this source and sequence number awaiting collect? */
  predicate Queueing(blocks: seq<Block>, src: Peer, seqNo: u32) {
    exists h, i :: 0 <= h < |blocks| && 0 <= i < |blocks[h].frames| &&
                   blocks[h].frames[i].src == src && blocks[h].frames[i].seqNo == seqNo
  }

  /** An ordinary DATA datagram: queued, re-ACKed, dropped or refused. */
  function ReceiveData(r: Rx, src: Peer, d: Datagram, ok: bool): Out<Rx> {
    var m := Learn(r, src);
    var r' := r.(stations := m);
    var i := FindPeer(m, src);
    if i < 0 || Queueing(r.blocks, src, d.seqNo) then Out(r', [])
    else if m[i].valid && d.seqNo == m[i].last then
      Out(r', Answered(src, Verdict(TYPE_ACK, d.port, d.ctrl, d.seqNo), ok))
    else
      var f := NewFrame(src, d.seqNo, m[i].stn, m[i].net, d);
      Out(r'.(blocks := Deliver(r.blocks, f)),
          if DeliveryOf(r.blocks, f) == Refused
          then Answered(src, Verdict(TYPE_NAK, d.port, d.ctrl, d.seqNo), ok) else [])
  }

  /** A broadcast is delivered unacknowledged, as from station 0.0 when unmapped. */
  function ReceiveBroadcast(r: Rx, src: Peer, d: Datagram): Rx {
    var i := FindPeer(r.stations, src);
    var f := if i < 0 then NewFrame(LOCAL, 0, 0, 0, d)
             else NewFrame(LOCAL, 0, r.stations[i].stn, r.stations[i].net, d);
    r.(blocks := Deliver(r.blocks, f))
  }

  // ---- time ---------------------------------------------------------------

  /** Deferrals that have run out by `clock` are gone. */
  function TickBlock(b: Block, clock: nat): Block {
    b.(deferred := map s | s in b.deferred && clock < b.deferred[s] :: b.deferred[s])
  }

  function TickBlocks(blocks: seq<Block>, clock: nat): seq<Block> {
    seq(|blocks|, i requires 0 <= i < |blocks| => TickBlock(blocks[i], clock))
  }
}
