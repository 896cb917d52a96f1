/** End to end: a stop-and-wait sender, a lossy and duplicating FIFO network, and
    the engine with whatever else goes on in it. Every message leaves the receive
    queue exactly once and in order, so the host accepts it at most once. */
module AunEndToEnd {
  import opened Bytes
  import opened AunTypes
  import opened AunRx
  import opened AunTx
  import opened AunImm
  import opened AunQueue
  import opened AunSpec
  import opened AunRxInv
  import opened AunDelivery
  import opened AunTxInv

  /** `fwd` holds indices of messages in flight to the engine, `rev` the sequence
      numbers of ACKs in flight to the sender, which is working on message `n`. */
  datatype Net = Net(e: Engine, n: nat, fwd: seq<nat>, rev: seq<u32>)

  /** What the sender's messages are. Only neighbours need differing sequence
      numbers, so a 32-bit counter may wrap. */
  ghost predicate Messages(msg: nat -> Datagram) {
    && (forall i: nat :: Ordinary(At(msg, i)))
    && (forall i: nat :: Differ(msg, i))
  }

  ghost function At(msg: nat -> Datagram, i: nat): Datagram {
    msg(i)
  }

  ghost predicate Ordinary(d: Datagram) {
    d.kind == TYPE_DATA && d.ctrl < 128 && !IsImm4(d.port, d.ctrl)
  }

  ghost predicate Differ(msg: nat -> Datagram, i: nat) {
    At(msg, i).seqNo != At(msg, i + 1).seqNo
  }

  datatype Move =
    | Send                              // the sender transmits, or repeats, its current message
    | LoseData | DeliverData(keep: bool, ok: bool)
    | LoseAck | DeliverAck(keep: bool)
    | Call(ev: Event)                   // any other call into the engine

  // ---- what concerns peer p in a log --------------------------------------

  ghost predicate IsAckTo(x: Item, p: Peer) {
    x.Sent? && x.to == p && x.d.kind == TYPE_ACK
  }

  ghost predicate IsReleaseOf(x: Item, p: Peer) {
    (x.Accepted? || x.Shed?) && x.f.src == p
  }

  /** The ACKs for `p` that the transport took. */
  ghost function Acks(items: seq<Item>, p: Peer): seq<u32> {
    if items == [] then []
    else (if IsAckTo(items[0], p) && items[0].ok then [items[0].d.seqNo] else []) + Acks(items[1..], p)
  }

  /** The frames of `p` that left the queue, accepted or shed, in order. */
  ghost function Releases(items: seq<Item>, p: Peer): seq<Frame> {
    if items == [] then []
    else (if IsReleaseOf(items[0], p) then [items[0].f] else []) + Releases(items[1..], p)
  }

  ghost predicate Irrelevant(items: seq<Item>, p: Peer) {
    forall k :: 0 <= k < |items| ==> !IsAckTo(items[k], p) && !IsReleaseOf(items[k], p)
  }

  lemma {:induction false} IrrelevantIsSilent(items: seq<Item>, p: Peer)
    requires Irrelevant(items, p)
    ensures Acks(items, p) == [] && Releases(items, p) == []
  {
    if items != [] {
      IrrelevantIsSilent(items[1..], p);
    }
  }

  lemma {:induction false} ReleasesAppend(a: seq<Item>, b: seq<Item>, p: Peer)
    ensures Releases(a + b, p) == Releases(a, p) + Releases(b, p)
  {
    if a == [] {
      assert a + b == b;
    } else {
      ReleasesAppend(a[1..], b, p);
      assert (a + b)[1..] == a[1..] + b;
    }
  }

  // ---- one move -----------------------------------------------------------

  ghost function Absorb(s: Net, e': Engine, p: Peer): Net {
    s.(e := e', rev := s.rev + if |s.e.log| <= |e'.log| then Acks(e'.log[|s.e.log|..], p) else [])
  }

  ghost function Next(s: Net, mv: Move, p: Peer, msg: nat -> Datagram): Net {
    match mv
    case Send => s.(fwd := s.fwd + [s.n])
    case LoseData => if s.fwd == [] then s else s.(fwd := s.fwd[1..])
    case DeliverData(keep, ok) =>
      if s.fwd == [] then s
      else Absorb(s, UdpInput(s.e, p, Encode(At(msg, s.fwd[0])), ok), p).(fwd := if keep then s.fwd else s.fwd[1..])
    case LoseAck => if s.rev == [] then s else s.(rev := s.rev[1..])
    case DeliverAck(keep) =>
      if s.rev == [] then s
      else s.(n := if s.rev[0] == At(msg, s.n).seqNo then s.n + 1 else s.n, rev := if keep then s.rev else s.rev[1..])
    case Call(ev) => Absorb(s, Step(s.e, ev), p)
  }

  /** A DATA datagram comes in. */
  predicate IsData(ev: Event) {
    ev.DoInput? && |ev.dgram| >= HDR_SIZE && ev.dgram[0] == TYPE_DATA
  }

  /** The station-map update a call makes, if any. */
  function MapUpdate(e: Engine, ev: Event): Option<(bv8, bv8, Peer)> {
    match ev
    case DoMapAdd(net, stn, peer) =>
      Some((net, stn, if peer.udp == 0 then peer.(udp := DEFAULT_UDP_PORT) else peer))
    case DoInput(src, dgram, _) =>
      if IsData(ev) && !IsImm4(dgram[1], dgram[2] % 128) && FindPeer(e.rx.stations, src) < 0 &&
         Learnable(e.rx.routes, src)
      then Some((e.rx.routes.learnNet, src.ip.d, src)) else None
    case _ => None
  }

  /** The peer's map entry is not rewritten. */
  ghost predicate KeepsEntry(e: Engine, ev: Event, p: Peer) {
    && !ev.DoInit?
    && var k := FindPeer(e.rx.stations, p);
    var u := MapUpdate(e, ev);
    (k >= 0 && u.Some? ==>
       u.value.2 != p && !(u.value.0 == e.rx.stations[k].net && u.value.1 == e.rx.stations[k].stn))
  }

  /** Open blocks stay open, the peer's map entry is not rewritten, and no DATA but the
      sender's comes in under the peer's address. The peer's ACKs, NAKs, replies,
      broadcasts and type-5 immediates may come at any time. */
  ghost predicate Allowed(e: Engine, ev: Event, p: Peer) {
    && KeepsEntry(e, ev, p)
    && !(ev.DoOpen? && IsOpen(e.rx, ev.h)) && !(ev.DoClose? && IsOpen(e.rx, ev.h))
    && !(IsData(ev) && ev.src == p)
  }

  // ---- what a call does to peer p -----------------------------------------

  /** The frame a message is queued as. */
  ghost predicate FrameFor(f: Frame, p: Peer, d: Datagram) {
    f.src == p && f.seqNo == d.seqNo && f.port == d.port && f.ctrl == d.ctrl + 128 && f.data == d.data
  }

  /** Every queued frame of `p` carries message `d`. */
  ghost predicate OnlyQueues(blocks: seq<Block>, p: Peer, d: Datagram) {
    forall h, i {:trigger InQueue(blocks, h, i)} ::
      InQueue(blocks, h, i) && blocks[h].frames[i].src == p ==> FrameFor(blocks[h].frames[i], p, d)
  }

  ghost predicate QueuesNone(blocks: seq<Block>, p: Peer) {
    forall h, i {:trigger InQueue(blocks, h, i)} :: InQueue(blocks, h, i) ==> blocks[h].frames[i].src != p
  }

  ghost predicate QueueKept(blocks: seq<Block>, blocks': seq<Block>, p: Peer, d: Datagram) {
    && (OnlyQueues(blocks, p, d) ==> OnlyQueues(blocks', p, d))
    && (QueuesNone(blocks, p) ==> QueuesNone(blocks', p))
  }

  /** The peer's map entry, as the duplicate filter sees it. */
  ghost predicate SameEntry(m: seq<Station>, m': seq<Station>, p: Peer) {
    var k := FindPeer(m, p);
    k >= 0 ==> FindPeer(m', p) == k && m'[k] == m[k]
  }

  ghost predicate HoldsNothingOf(m: ImmSide, p: Peer) {
    !(m.himm.active && m.himm.fromData && m.himm.peer == p)
  }

  lemma MapAddElsewhere(m: seq<Station>, net: bv8, stn: bv8, peer: Peer, p: Peer)
    requires var k := FindPeer(m, p);
             k >= 0 && (if peer.udp == 0 then peer.(udp := DEFAULT_UDP_PORT) else peer) != p &&
             !(m[k].net == net && m[k].stn == stn)
    ensures SameEntry(m, MapAdd(m, net, stn, peer).0, p)
  {
    var m' := MapAdd(m, net, stn, peer).0;
    var k := FindPeer(m, p);
    assert m'[k] == m[k];
    assert forall i :: 0 <= i < k ==> m'[i].peer != p;
  }

  lemma DeliverOther(blocks: seq<Block>, f: Frame, p: Peer, d: Datagram)
    requires f.src != p
    ensures QueueKept(blocks, Deliver(blocks, f), p, d)
  {
    var blocks' := Deliver(blocks, f);
    forall h, i {:trigger InQueue(blocks', h, i)} | InQueue(blocks', h, i)
      ensures blocks'[h].frames[i] == f || (InQueue(blocks, h, i) && blocks'[h].frames[i] == blocks[h].frames[i])
    {
    }
  }

  lemma SameFrames(blocks: seq<Block>, blocks': seq<Block>, p: Peer, d: Datagram)
    requires |blocks'| == |blocks|
    requires forall h :: 0 <= h < |blocks| ==> blocks'[h].frames == blocks[h].frames
    ensures QueueKept(blocks, blocks', p, d)
  {
    forall h, i {:trigger InQueue(blocks', h, i)} | InQueue(blocks', h, i)
      ensures InQueue(blocks, h, i) && blocks'[h].frames[i] == blocks[h].frames[i]
    {
    }
  }

  /** Deferring a frame, or removing one, brings no new frame of `p`. */
  lemma CollectedFrames(blocks: seq<Block>, h: nat, off: nat, clock: nat, p: Peer, d: Datagram)
    requires h < |blocks| && off < |blocks[h].frames|
    ensures QueueKept(blocks, blocks[h := Taken(blocks[h], off)], p, d)
    ensures QueueKept(blocks, blocks[h := Deferring(blocks[h], off, clock)], p, d)
  {
    var taken := blocks[h := Taken(blocks[h], off)];
    forall k, i {:trigger InQueue(taken, k, i)} | InQueue(taken, k, i)
      ensures var i' := if k != h || i < off then i else i + 1;
              InQueue(blocks, k, i') && taken[k].frames[i] == blocks[k].frames[i']
    {
    }
    var deferred := blocks[h := Deferring(blocks[h], off, clock)];
    forall k, i {:trigger InQueue(deferred, k, i)} | InQueue(deferred, k, i)
      ensures InQueue(blocks, k, i) &&
              deferred[k].frames[i] == blocks[k].frames[i].(rejects := deferred[k].frames[i].rejects)
    {
    }
  }

  /** What a call other than the peer's own datagrams can do to it: nothing, or
      release one queued frame, confirm it and remember its number. */
  ghost predicate Effect(e: Engine, e': Engine, items: seq<Item>, rel: Option<Frame>, ok: bool, p: Peer, d: Datagram) {
    && e'.log == e.log + items
    && HoldsNothingOf(e'.imm, p) && QueueKept(e.rx.blocks, e'.rx.blocks, p, d)
    && (rel.None? ==> Irrelevant(items, p) && SameEntry(e.rx.stations, e'.rx.stations, p))
    && (rel.Some? ==>
          && (items == [Accepted(rel.value), AckFor(rel.value, ok)] ||
              items == [Shed(rel.value), AckFor(rel.value, ok)])
          && rel.value.src == p && (OnlyQueues(e.rx.blocks, p, d) ==> FrameFor(rel.value, p, d))
          && !QueuesNone(e.rx.blocks, p)
          && !Queueing(e'.rx.blocks, p, rel.value.seqNo)
          && e'.rx.stations == Stamp(e.rx.stations, p, rel.value.seqNo))
  }

  lemma StampOther(m: seq<Station>, q: Peer, seqNo: u32, p: Peer)
    requires q != p
    ensures SameEntry(m, Stamp(m, q, seqNo), p)
  {
    var m' := Stamp(m, q, seqNo);
    var k := FindPeer(m, p);
    if k >= 0 {
      assert m'[k] == m[k];
      assert forall i :: 0 <= i < k ==> m'[i].peer != p;
    }
  }

  lemma AcceptEffect(r: Rx, h: byte, off: nat, ok: bool, p: Peer)
    requires IsOpen(r, h) && off < |r.blocks[h].frames| && OnWire(p)
    ensures var f, o := r.blocks[h].frames[off], Accept(r, h, off, ok);
            if f.src == p
            then o.items == [Accepted(f), AckFor(f, ok)] && o.st.stations == Stamp(r.stations, p, f.seqNo) &&
                 o.st.blocks == r.blocks[h := Taken(r.blocks[h], off)]
            else Irrelevant(o.items, p) && SameEntry(r.stations, o.st.stations, p)
  {
    hide Lift, Taken;
    EntryRefl(r.stations, p);
    if r.blocks[h].frames[off].src != p {
      StampOther(r.stations, r.blocks[h].frames[off].src, r.blocks[h].frames[off].seqNo, p);
    }
  }

  lemma RejectEffect(r: Rx, h: byte, off: nat, clock: nat, ok: bool, p: Peer)
    requires IsOpen(r, h) && off < |r.blocks[h].frames| && OnWire(p)
    ensures var f, o := r.blocks[h].frames[off], Reject(r, h, off, clock, ok);
            if f.src == p && o.items != []
            then o.items == [Shed(f), AckFor(f, ok)] && o.st.stations == Stamp(r.stations, p, f.seqNo) &&
                 o.st.blocks == r.blocks[h := Taken(r.blocks[h], off)]
            else Irrelevant(o.items, p) && SameEntry(r.stations, o.st.stations, p)
  {
    hide SetSlot, Expire, Budget, Taken, Deferring;
    EntryRefl(r.stations, p);
    if r.blocks[h].frames[off].src != p {
      StampOther(r.stations, r.blocks[h].frames[off].src, r.blocks[h].frames[off].seqNo, p);
    }
  }

  lemma CollectEffect(e: Engine, h: byte, accept: bool, okAck: bool, p: Peer, d: Datagram)
    returns (items: seq<Item>, rel: Option<Frame>)
    requires RxOk(e) && OnWire(p) && HoldsNothingOf(e.imm, p)
    ensures Effect(e, RxCollect(e, h, accept, okAck).0, items, rel, okAck, p, d)
  {
    hide RxInv, DistinctKeys, Target, SameEntry, Stamp, QueueKept, Queueing, Irrelevant, Accept, Reject;
    var r := e.rx;
    var o := Collect(r, h, accept, e.clock, okAck);
    items, rel := o.items, None;
    EntryRefl(r.stations, p);
    KeysDistinct(r, e.clock);
    if IsOpen(r, h) && HasTarget(r.blocks[h]) {
      var off := Target(r.blocks[h]);
      var f := r.blocks[h].frames[off];
      CollectedFrames(r.blocks, h, off, e.clock, p, d);
      CollectOnBlock(r, h, accept, e.clock, okAck);
      AcceptEffect(r, h, off, okAck, p);
      RejectEffect(r, h, off, e.clock, okAck, p);
      assert InQueue(r.blocks, h, off);
      if f.src == p && o.items != [] {
        rel := Some(f);
        DropFrame(r.blocks, h, off);
      }
    } else {
      NothingIrrelevant(p);
      SameFrames(r.blocks, o.st.blocks, p, d);
    }
  }

  lemma KeysDistinct(r: Rx, clock: nat)
    requires RxInv(r, clock)
    ensures DistinctKeys(r.blocks)
  {
  }

  lemma NothingIrrelevant(p: Peer)
    ensures Irrelevant([], p)
  {
  }

  lemma EntryRefl(m: seq<Station>, p: Peer)
    ensures SameEntry(m, m, p)
  {
  }

  lemma DataEffect(r: Rx, src: Peer, x: Datagram, ok: bool, p: Peer, d: Datagram)
    requires src != p && SameEntry(r.stations, Learn(r, src), p)
    ensures var o := ReceiveData(r, src, x, ok);
            Irrelevant(o.items, p) && SameEntry(r.stations, o.st.stations, p) && QueueKept(r.blocks, o.st.blocks, p, d)
  {
    hide Deliver, DeliveryOf, Learn, Queueing, SameEntry, QueueKept;
    var m := Learn(r, src);
    var i := FindPeer(m, src);
    SameFrames(r.blocks, r.blocks, p, d);
    if i >= 0 {
      DeliverOther(r.blocks, NewFrame(src, x.seqNo, m[i].stn, m[i].net, x), p, d);
    }
  }

  lemma Imm4Effect(m: ImmSide, src: Peer, x: Datagram, clock: nat, ok: bool, p: Peer)
    requires src != p && HoldsNothingOf(m, p)
    ensures var o := ReceiveImm4(m, src, x, clock, ok); Irrelevant(o.items, p) && HoldsNothingOf(o.st, p)
  {
    hide ImmLenOk;
  }

  /** A type-5 immediate is never answered with an ACK, whoever sends it. */
  lemma Imm5Effect(m: ImmSide, src: Peer, x: Datagram, clock: nat, ok: bool, p: Peer)
    requires HoldsNothingOf(m, p)
    ensures var o := ReceiveImmediate(m, src, x, clock, ok); Irrelevant(o.items, p) && HoldsNothingOf(o.st, p)
  {
    hide ImmLenOk;
  }

  lemma ReceiveEffect(e: Engine, src: Peer, x: Datagram, ok: bool, p: Peer, d: Datagram) returns (items: seq<Item>)
    requires OnWire(p) && HoldsNothingOf(e.imm, p) && (src != p || x.kind != TYPE_DATA)
    requires x.kind == TYPE_DATA && !IsImm4(x.port, x.ctrl) ==> SameEntry(e.rx.stations, Learn(e.rx, src), p)
    ensures Effect(e, Receive(e, src, x, ok), items, None, ok, p, d)
  {
    hide ReceiveData, ReceiveImm4, ReceiveImmediate, ReceiveReply, Deliver, Learn, SameEntry, QueueKept;
    items := if x.kind != TYPE_DATA && x.kind != TYPE_IMMEDIATE then []
    else if x.kind == TYPE_DATA then
      if IsImm4(x.port, x.ctrl) then ReceiveImm4(e.imm, src, x, e.clock, ok).items
      else ReceiveData(e.rx, src, x, ok).items
    else if x.ctrl == CTRL_MACHINE_PEEK then Answered(src, ImmReply(x.ctrl, x.seqNo, e.machineId), ok)
    else ReceiveImmediate(e.imm, src, x, e.clock, ok).items;
    if x.kind == TYPE_DATA {
      Imm4Effect(e.imm, src, x, e.clock, ok, p);
      if !IsImm4(x.port, x.ctrl) {
        DataEffect(e.rx, src, x, ok, p, d);
      }
    }
    Imm5Effect(e.imm, src, x, e.clock, ok, p);
    EntryRefl(e.rx.stations, p);
    SameFrames(e.rx.blocks, e.rx.blocks, p, d);
    var j := FindPeer(e.rx.stations, src);
    DeliverOther(e.rx.blocks, if j < 0 then NewFrame(LOCAL, 0, 0, 0, x)
                 else NewFrame(LOCAL, 0, e.rx.stations[j].stn, e.rx.stations[j].net, x), p, d);
    assert e.log + [] == e.log;
  }

  lemma TransmitEffect(e: Engine, kind: byte, net: bv8, stn: bv8, ctrl: byte, port: byte, data: seq<byte>,
                       hasBuf: bool, replyMax: nat, ok: bool, p: Peer, d: Datagram) returns (items: seq<Item>)
    requires OnWire(p) && HoldsNothingOf(e.imm, p) && kind != TYPE_ACK
    ensures Effect(e, TxBegin(e, kind, net, stn, ctrl, port, data, hasBuf, replyMax, ok).0, items, None, ok, p, d)
  {
    hide Deliver, DeliveryOf, Looped, Resolve, Finish, AllocSeq, SameEntry, QueueKept;
    var to := Resolve(e.rx, net, stn);
    EntryRefl(e.rx.stations, p);
    SameFrames(e.rx.blocks, e.rx.blocks, p, d);
    DeliverOther(e.rx.blocks, NewFrame(LOCAL, 0, e.test.stn, e.test.net, Datagram(kind, port, ctrl, 0, data)), p, d);
    assert e.log + [] == e.log;
    items := if !e.initialised || |data| > MAX_DATA || e.tx.cur.state == PENDING || to.None? ||
                (e.test.enabled && stn == e.test.stn && net == e.test.net) then []
    else Launch(e.tx, kind, to.value, ctrl, port, data, hasBuf, replyMax, e.clock, ok).items;
  }

  lemma TimersEffect(e: Engine, data: seq<byte>, okNak: bool, ok: bool, p: Peer)
    requires TxInvOf(e) && HoldsNothingOf(e.imm, p)
    ensures var m := Reap(e.imm, e.clock, okNak); Irrelevant(m.items, p) && HoldsNothingOf(m.st, p)
    ensures Irrelevant(Timer(e.tx, e.clock, ok).items, p)
    ensures var m := ReplyCommand(e.imm, data, e.clock, ok); Irrelevant(m.items, p) && HoldsNothingOf(m.st, p)
  {
    assert e.tx.cur.dgram.kind != TYPE_ACK;
    hide TxInv, Finish;
  }

  lemma TimeEffect(e: Engine, ev: Event, p: Peer, d: Datagram) returns (items: seq<Item>)
    requires TxInvOf(e) && HoldsNothingOf(e.imm, p) && (ev.DoPoll? || ev.DoImmReply? || ev.DoTick?)
    ensures Effect(e, Step(e, ev), items, None, true, p, d)
  {
    hide TxInv, SameEntry, QueueKept, Reap, Timer, ReplyCommand;
    EntryRefl(e.rx.stations, p);
    SameFrames(e.rx.blocks, e.rx.blocks, p, d);
    assert e.log + [] == e.log;
    match ev
    case DoPoll(okNak, okTx) =>
      TimersEffect(e, [], okNak, okTx, p);
      items := if e.initialised then Reap(e.imm, e.clock, okNak).items + Timer(e.tx, e.clock, okTx).items else [];
    case DoImmReply(data, ok) =>
      TimersEffect(e, data, false, ok, p);
      items := ReplyCommand(e.imm, data, e.clock, ok).items;
    case DoTick(ms) =>
      items := [];
      SameFrames(e.rx.blocks, TickBlocks(e.rx.blocks, e.clock + ms), p, d);
  }

  lemma BlockEffect(e: Engine, ev: Event, p: Peer, d: Datagram) returns (items: seq<Item>)
    requires RxOk(e) && HoldsNothingOf(e.imm, p) && Allowed(e, ev, p) && (ev.DoOpen? || ev.DoClose? || ev.DoRxPoll?)
    ensures Effect(e, Step(e, ev), items, None, true, p, d)
  {
    items := [];
    hide DistinctKeys, DistinctStreams, SameEntry, QueueKept, PresentedOk, DeferralsOk;
    EntryRefl(e.rx.stations, p);
    SameFrames(e.rx.blocks, Step(e, ev).rx.blocks, p, d);
    assert e.log + [] == e.log;
  }

  lemma ConfigEffect(e: Engine, ev: Event, p: Peer, d: Datagram) returns (items: seq<Item>)
    requires FindPeer(e.rx.stations, p) >= 0 && HoldsNothingOf(e.imm, p) && Allowed(e, ev, p)
    requires ev.DoMapAdd? || ev.DoAddressing? || ev.DoTest? || ev.DoMachineId? || ev.DoHostImm? || ev.DoImmPoll? ||
             ev.DoBroadcast?
    ensures Effect(e, Step(e, ev), items, None, true, p, d)
  {
    hide SameEntry, QueueKept, MapAdd, AllocSeq;
    EntryRefl(e.rx.stations, p);
    SameFrames(e.rx.blocks, e.rx.blocks, p, d);
    assert e.log + [] == e.log;
    items := if ev.DoHostImm? then [Reset]
    else if ev.DoBroadcast? && e.initialised && |ev.data| <= MAX_DATA
    then Copies(e.rx, Datagram(TYPE_BROADCAST, ev.port, ev.ctrl % 128, e.tx.nextSeq, ev.data), ev.oks) else [];
    if ev.DoMapAdd? {
      MapAddElsewhere(e.rx.stations, ev.net, ev.stn, ev.peer, p);
    }
  }

  lemma CallEffect(e: Engine, ev: Event, p: Peer, d: Datagram) returns (items: seq<Item>, rel: Option<Frame>, ok: bool)
    requires RxOk(e) && TxInvOf(e) && OnWire(p) && FindPeer(e.rx.stations, p) >= 0 && HoldsNothingOf(e.imm, p)
    requires Allowed(e, ev, p)
    ensures Effect(e, Step(e, ev), items, rel, ok, p, d)
  {
    hide Effect, RxCollect, Receive, TxBegin, Immediate, RxInv, TxInv;
    rel, ok := None, true;
    match ev
    case DoCollect(h, accept, okAck) =>
      items, rel := CollectEffect(e, h, accept, okAck, p, d);
      ok := okAck;
    case DoInput(src, dgram, okAnswer) =>
      ok := okAnswer;
      if e.initialised && |dgram| >= HDR_SIZE {
        if IsData(ev) && !IsImm4(dgram[1], dgram[2] % 128) {
          LearnElsewhere(e, ev, p);
        }
        items := ReceiveEffect(e, src, Decode(dgram).value, okAnswer, p, d);
      } else {
        items := [];
        NoEffect(e, okAnswer, p, d);
      }
    case DoTx(net, stn, ctrl, port, data, okTx) =>
      ok := okTx;
      items := TransmitEffect(e, TYPE_DATA, net, stn, ctrl, port, data, false, 0, okTx, p, d);
    case DoImmediate(net, stn, ctrl, data, hasBuf, replyMax, okTx) =>
      ok := okTx;
      items := ImmediateEffect(e, net, stn, ctrl, data, hasBuf, replyMax, okTx, p, d);
    case _ =>
      hide Step;
      if ev.DoOpen? || ev.DoClose? || ev.DoRxPoll? {
        items := BlockEffect(e, ev, p, d);
      } else if ev.DoPoll? || ev.DoImmReply? || ev.DoTick? {
        items := TimeEffect(e, ev, p, d);
      } else {
        items := ConfigEffect(e, ev, p, d);
      }
  }

  lemma NoEffect(e: Engine, ok: bool, p: Peer, d: Datagram)
    requires HoldsNothingOf(e.imm, p)
    ensures Effect(e, e, [], None, ok, p, d)
  {
    assert e.log + [] == e.log;
    EntryRefl(e.rx.stations, p);
    SameFrames(e.rx.blocks, e.rx.blocks, p, d);
  }

  lemma LearnElsewhere(e: Engine, ev: Event, p: Peer)
    requires IsData(ev) && !IsImm4(ev.dgram[1], ev.dgram[2] % 128)
    requires FindPeer(e.rx.stations, p) >= 0 && KeepsEntry(e, ev, p)
    ensures SameEntry(e.rx.stations, Learn(e.rx, ev.src), p)
  {
    hide MapAdd;
    EntryRefl(e.rx.stations, p);
    if Learn(e.rx, ev.src) != e.rx.stations {
      MapAddElsewhere(e.rx.stations, e.rx.routes.learnNet, ev.src.ip.d, ev.src, p);
    }
  }

  lemma ImmediateEffect(e: Engine, net: bv8, stn: bv8, ctrl: byte, data: seq<byte>, hasBuf: bool, replyMax: nat,
                        ok: bool, p: Peer, d: Datagram) returns (items: seq<Item>)
    requires OnWire(p) && HoldsNothingOf(e.imm, p)
    ensures Effect(e, Immediate(e, net, stn, ctrl, data, hasBuf, replyMax, ok).0, items, None, ok, p, d)
  {
    hide TxBegin, PokeOnWire, Effect;
    if ctrl % 128 == CTRL_POKE {
      if 4 <= |data| <= MAX_DATA - 4 {
        items := TransmitEffect(e, TYPE_DATA, net, stn, ctrl, 0, PokeOnWire(data), false, 0, ok, p, d);
      } else {
        items := [];
        NoEffect(e, ok, p, d);
      }
    } else if CTRL_IMM4_FIRST <= ctrl % 128 <= CTRL_IMM4_LAST {
      items := TransmitEffect(e, TYPE_DATA, net, stn, ctrl, 0, data, false, 0, ok, p, d);
    } else {
      items := TransmitEffect(e, TYPE_IMMEDIATE, net, stn, ctrl, 0, data, hasBuf, replyMax, ok, p, d);
    }
  }

  // ---- what the peer's own datagrams do -----------------------------------

  /** The duplicate filter remembers `seqNo` for `p`. */
  ghost predicate Remembered(e: Engine, p: Peer, seqNo: u32) {
    var k := FindPeer(e.rx.stations, p);
    k >= 0 && e.rx.stations[k].valid && e.rx.stations[k].last == seqNo
  }

  /** A message that is queued is ignored, a remembered one only re-ACKed, and
      anything else is queued, dropped or refused. */
  ghost predicate Arrival(e: Engine, e': Engine, p: Peer, d: Datagram, ok: bool) {
    && e'.imm == e.imm && e'.rx.stations == e.rx.stations
    && (|| e' == e
        || (e'.rx.blocks == e.rx.blocks && Remembered(e, p, d.seqNo) && !Queueing(e.rx.blocks, p, d.seqNo) &&
            e'.log == e.log + Answered(p, Verdict(TYPE_ACK, d.port, d.ctrl, d.seqNo), ok))
        || (e'.rx.blocks == e.rx.blocks &&
            e'.log == e.log + Answered(p, Verdict(TYPE_NAK, d.port, d.ctrl, d.seqNo), ok))
        || (e'.log == e.log && !Remembered(e, p, d.seqNo) && !Queueing(e.rx.blocks, p, d.seqNo) &&
            exists f :: FrameFor(f, p, d) && e'.rx.blocks == Deliver(e.rx.blocks, f)))
  }

  lemma MessageArrives(e: Engine, p: Peer, d: Datagram, ok: bool)
    requires FindPeer(e.rx.stations, p) >= 0
    requires d.kind == TYPE_DATA && d.ctrl < 128 && !IsImm4(d.port, d.ctrl)
    ensures Arrival(e, UdpInput(e, p, Encode(d), ok), p, d, ok)
  {
    DecodeEncode(d);
    hide Decode, Encode, Queueing;
    var e' := UdpInput(e, p, Encode(d), ok);
    if e.initialised {
      assert e' == Receive(e, p, d, ok);
      var k := FindPeer(e.rx.stations, p);
      var f := NewFrame(p, d.seqNo, e.rx.stations[k].stn, e.rx.stations[k].net, d);
      assert FrameFor(f, p, d);
      assert Learn(e.rx, p) == e.rx.stations;
      assert e.log + [] == e.log;
    }
  }

  // ---- the invariant ------------------------------------------------------

  /** The frames of `p` released since the log had length `start`. */
  ghost function Released(s: Net, p: Peer, start: nat): seq<Frame> {
    if start <= |s.e.log| then Releases(s.e.log[start..], p) else []
  }

  ghost predicate EngineOk(e: Engine, p: Peer) {
    RxOk(e) && TxInvOf(e) && OnWire(p) && FindPeer(e.rx.stations, p) >= 0 && HoldsNothingOf(e.imm, p)
  }

  /** `r` messages have been released; the sender is at `n`. */
  ghost predicate QueueOk(e: Engine, n: nat, r: nat, p: Peer, msg: nat -> Datagram) {
    && n <= r <= n + 1
    && OnlyQueues(e.rx.blocks, p, At(msg, n)) && (r == n + 1 ==> QueuesNone(e.rx.blocks, p))
    && (if r == 0 then !Remembered(e, p, At(msg, 0).seqNo) else Remembered(e, p, At(msg, r - 1).seqNo))
  }

  /** In flight to the engine: the current message, behind copies of the one
      before as long as the current one has not arrived. */
  ghost predicate FwdOk(fwd: seq<nat>, n: nat, arrived: bool) {
    && (forall j :: 0 <= j < |fwd| ==> fwd[j] == n || (!arrived && fwd[j] + 1 == n))
    && (forall i, j :: 0 <= i < j < |fwd| ==> fwd[i] <= fwd[j])
  }

  ghost predicate Arrived(e: Engine, n: nat, r: nat, p: Peer) {
    r == n + 1 || !QueuesNone(e.rx.blocks, p)
  }

  /** In flight to the sender: ACKs of the message before (`prev`, if there is
      one), then of the current one once that was released. */
  ghost predicate RevOk(rev: seq<u32>, prev: Option<u32>, cur: u32, released: bool) {
    && (forall j :: 0 <= j < |rev| ==> (released && rev[j] == cur) || prev == Some(rev[j]))
    && (forall i, j :: 0 <= i < j < |rev| && released && rev[i] == cur ==> rev[j] == cur)
  }

  ghost function Before(msg: nat -> Datagram, n: nat): Option<u32> {
    if n == 0 then None else Some(At(msg, n - 1).seqNo)
  }

  ghost predicate Inv(s: Net, p: Peer, msg: nat -> Datagram, start: nat) {
    var rel := Released(s, p, start);
    && start <= |s.e.log| && EngineOk(s.e, p)
    && (forall i :: 0 <= i < |rel| ==> FrameFor(rel[i], p, At(msg, i)))
    && QueueOk(s.e, s.n, |rel|, p, msg)
    && FwdOk(s.fwd, s.n, Arrived(s.e, s.n, |rel|, p))
    && RevOk(s.rev, Before(msg, s.n), At(msg, s.n).seqNo, |rel| == s.n + 1)
  }

  lemma LogGrows(s: Net, items: seq<Item>, e': Engine, p: Peer, start: nat)
    requires start <= |s.e.log| && e'.log == s.e.log + items
    ensures Released(Absorb(s, e', p), p, start) == Released(s, p, start) + Releases(items, p)
    ensures Absorb(s, e', p).rev == s.rev + Acks(items, p)
  {
    assert e'.log[start..] == s.e.log[start..] + items;
    assert e'.log[|s.e.log|..] == items;
    ReleasesAppend(s.e.log[start..], items, p);
  }

  /** A release empties the peer's queue, since all its frames had one key. */
  lemma NoneLeft(blocks: seq<Block>, p: Peer, d: Datagram)
    requires OnlyQueues(blocks, p, d) && !Queueing(blocks, p, d.seqNo)
    ensures QueuesNone(blocks, p)
  {
  }

  lemma StampRemembers(e: Engine, e': Engine, p: Peer, seqNo: u32)
    requires FindPeer(e.rx.stations, p) >= 0 && e'.rx.stations == Stamp(e.rx.stations, p, seqNo)
    ensures Remembered(e', p, seqNo)
  {
    var k := FindPeer(e.rx.stations, p);
    assert forall i :: 0 <= i < k ==> e'.rx.stations[i].peer != p;
    assert e'.rx.stations[k].peer == p;
    assert FindPeer(e'.rx.stations, p) == k;
  }

  lemma ReleaseItems(x: Item, ok: bool, p: Peer)
    requires IsReleaseOf(x, p)
    ensures Releases([x, AckFor(x.f, ok)], p) == [x.f]
    ensures Acks([x, AckFor(x.f, ok)], p) == if ok then [x.f.seqNo] else []
  {
    var two, one := [x, AckFor(x.f, ok)], [AckFor(x.f, ok)];
    assert two[1..] == one && one[1..] == [];
    assert Releases(one, p) == Releases([], p);
    assert Acks(one, p) == (if ok then [x.f.seqNo] else []) + Acks([], p);
  }

  lemma CallKeepsEngine(e: Engine, ev: Event, items: seq<Item>, rel: Option<Frame>, ok: bool, p: Peer, d: Datagram)
    requires EngineOk(e, p) && Effect(e, Step(e, ev), items, rel, ok, p, d)
    ensures EngineOk(Step(e, ev), p)
  {
    hide Step, RxInv, TxInv, QueueKept;
    StepKeepsRx(e, ev);
    StepKeepsTx(e, ev);
    if rel.Some? {
      StampRemembers(e, Step(e, ev), p, rel.value.seqNo);
    }
  }

  lemma QuietKeepsInv(s: Net, e': Engine, items: seq<Item>, ok: bool, p: Peer, msg: nat -> Datagram, start: nat)
    requires Inv(s, p, msg, start) && EngineOk(e', p) && Effect(s.e, e', items, None, ok, p, At(msg, s.n))
    ensures Inv(Absorb(s, e', p), p, msg, start)
  {
    hide RxInv, TxInv, Releases, Acks;
    LogGrows(s, items, e', p, start);
    IrrelevantIsSilent(items, p);
    assert FindPeer(s.e.rx.stations, p) >= 0;
    hide EngineOk, Released, FwdOk, RevOk, QueuesNone, OnlyQueues, FrameFor;
    assert Released(Absorb(s, e', p), p, start) == Released(s, p, start);
    assert s.rev + [] == s.rev;
    assert !Arrived(s.e, s.n, |Released(s, p, start)|, p) ==> !Arrived(e', s.n, |Released(s, p, start)|, p);
    FwdWeaken(s.fwd, s.n, Arrived(s.e, s.n, |Released(s, p, start)|, p), Arrived(e', s.n, |Released(s, p, start)|, p));
  }

  lemma FwdWeaken(fwd: seq<nat>, n: nat, arrived: bool, arrived': bool)
    requires FwdOk(fwd, n, arrived) && (arrived' ==> arrived)
    ensures FwdOk(fwd, n, arrived')
  {
  }

  lemma ReleaseKeepsInv(s: Net, e': Engine, items: seq<Item>, f: Frame, ok: bool, p: Peer, msg: nat -> Datagram,
                        start: nat)
    requires Inv(s, p, msg, start) && EngineOk(e', p) && Messages(msg)
    requires Effect(s.e, e', items, Some(f), ok, p, At(msg, s.n))
    ensures Inv(Absorb(s, e', p), p, msg, start)
  {
    hide RxInv, TxInv, Stamp, Queueing, Releases, Acks;
    var rel := Released(s, p, start);
    var s' := Absorb(s, e', p);
    assert FindPeer(s.e.rx.stations, p) >= 0 && OnlyQueues(s.e.rx.blocks, p, At(msg, s.n));
    assert |rel| == s.n && Arrived(s.e, s.n, |rel|, p);
    LogGrows(s, items, e', p, start);
    assert IsReleaseOf(items[0], p) && items == [items[0], AckFor(f, ok)];
    ReleaseItems(items[0], ok, p);
    StampRemembers(s.e, e', p, f.seqNo);
    NoneLeft(e'.rx.blocks, p, At(msg, s.n));
    assert s.n > 0 ==> Differ(msg, s.n - 1);
    RevGrows(s.rev, Before(msg, s.n), At(msg, s.n).seqNo, ok);
    hide EngineOk, Released, QueuesNone, OnlyQueues, Remembered, RevOk, QueueKept;
    assert Released(s', p, start) == rel + [f];
  }

  /** The ACK of the message just released goes behind those of the one before. */
  lemma RevGrows(rev: seq<u32>, prev: Option<u32>, cur: u32, ok: bool)
    requires RevOk(rev, prev, cur, false) && prev != Some(cur)
    ensures RevOk(rev + (if ok then [cur] else []), prev, cur, true)
  {
  }

  lemma CallKeeps(s: Net, ev: Event, p: Peer, msg: nat -> Datagram, start: nat)
    requires Inv(s, p, msg, start) && Messages(msg) && Allowed(s.e, ev, p)
    ensures Inv(Absorb(s, Step(s.e, ev), p), p, msg, start)
  {
    hide Step, Allowed, RxInv, TxInv;
    assert EngineOk(s.e, p);
    hide Inv;
    var items, rel, ok := CallEffect(s.e, ev, p, At(msg, s.n));
    hide Effect;
    CallKeepsEngine(s.e, ev, items, rel, ok, p, At(msg, s.n));
    if rel.None? {
      QuietKeepsInv(s, Step(s.e, ev), items, ok, p, msg, start);
    } else {
      ReleaseKeepsInv(s, Step(s.e, ev), items, rel.value, ok, p, msg, start);
    }
  }

  lemma InputKeepsEngine(e: Engine, p: Peer, d: Datagram, ok: bool)
    requires EngineOk(e, p) && Ordinary(d)
    ensures EngineOk(UdpInput(e, p, Encode(d), ok), p) && Arrival(e, UdpInput(e, p, Encode(d), ok), p, d, ok)
  {
    var ev := DoInput(p, Encode(d), ok);
    assert Step(e, ev) == UdpInput(e, p, Encode(d), ok);
    hide Step, UdpInput, RxInv, TxInv, Encode;
    StepKeepsRx(e, ev);
    StepKeepsTx(e, ev);
    MessageArrives(e, p, d, ok);
  }

  lemma AnswerItems(p: Peer, d: Datagram, ok: bool)
    ensures var items := Answered(p, d, ok);
            Releases(items, p) == [] && Acks(items, p) == if d.kind == TYPE_ACK && ok then [d.seqNo] else []
  {
    var items := Answered(p, d, ok);
    assert items[1..] == [];
    assert Acks(items[1..], p) == [] && Releases(items[1..], p) == [];
  }

  /** What a message in flight finds: only the current one can be new, and only
      a released one is remembered. */
  lemma WhichMessage(s: Net, p: Peer, msg: nat -> Datagram, start: nat)
    requires Inv(s, p, msg, start) && Messages(msg) && s.fwd != []
    ensures var m, r := s.fwd[0], |Released(s, p, start)|;
            && (!Remembered(s.e, p, At(msg, m).seqNo) ==> m == s.n && r == s.n)
            && (Remembered(s.e, p, At(msg, m).seqNo) ==> m + 1 == r)
            && (m == s.n ==> forall j :: 0 <= j < |s.fwd| ==> s.fwd[j] == s.n)
  {
    hide EngineOk, Released, OnlyQueues, QueuesNone, RevOk, FrameFor;
    if s.n > 0 {
      assert Differ(msg, s.n - 1);
    }
  }

  lemma QueuedMessage(blocks: seq<Block>, f: Frame, p: Peer, d: Datagram)
    requires OnlyQueues(blocks, p, d) && FrameFor(f, p, d)
    ensures OnlyQueues(Deliver(blocks, f), p, d)
  {
    var blocks' := Deliver(blocks, f);
    forall h, i {:trigger InQueue(blocks', h, i)} | InQueue(blocks', h, i)
      ensures blocks'[h].frames[i] == f || (InQueue(blocks, h, i) && blocks'[h].frames[i] == blocks[h].frames[i])
    {
    }
  }

  /** Repeating the ACK of the message released last keeps the ACKs in order. */
  lemma RevRepeat(rev: seq<u32>, prev: Option<u32>, cur: u32, released: bool)
    requires RevOk(rev, prev, cur, released)
    ensures released ==> RevOk(rev + [cur], prev, cur, released)
    ensures !released && prev.Some? ==> RevOk(rev + [prev.value], prev, cur, released)
  {
  }

  lemma DeliveryKeeps(s: Net, p: Peer, msg: nat -> Datagram, start: nat, ok: bool)
    requires Inv(s, p, msg, start) && Messages(msg) && s.fwd != []
    ensures Inv(Absorb(s, UdpInput(s.e, p, Encode(At(msg, s.fwd[0])), ok), p), p, msg, start)
  {
    hide RxInv, TxInv, UdpInput, Encode, Releases, Acks, Deliver, Queueing;
    var d := At(msg, s.fwd[0]);
    var e' := UdpInput(s.e, p, Encode(d), ok);
    var s' := Absorb(s, e', p);
    var rel := Released(s, p, start);
    assert Ordinary(d);
    InputKeepsEngine(s.e, p, d, ok);
    WhichMessage(s, p, msg, start);
    AnswerItems(p, Verdict(TYPE_ACK, d.port, d.ctrl, d.seqNo), ok);
    AnswerItems(p, Verdict(TYPE_NAK, d.port, d.ctrl, d.seqNo), ok);
    IrrelevantIsSilent([], p);
    assert s.e.log + [] == s.e.log && s.rev + [] == s.rev;
    var items := e'.log[|s.e.log|..];
    assert e'.log == s.e.log + items;
    LogGrows(s, items, e', p, start);
    assert Released(s', p, start) == rel;
    if e'.rx.blocks == s.e.rx.blocks {
      assert s'.rev == s.rev || (Remembered(s.e, p, d.seqNo) && s'.rev == s.rev + [d.seqNo]);
      if Remembered(s.e, p, d.seqNo) {
        RevRepeat(s.rev, Before(msg, s.n), At(msg, s.n).seqNo, |rel| == s.n + 1);
      }
      hide EngineOk, Released, Arrival;
    } else {
      var f :| FrameFor(f, p, d) && e'.rx.blocks == Deliver(s.e.rx.blocks, f);
      QueuedMessage(s.e.rx.blocks, f, p, d);
      assert s'.rev == s.rev && |rel| == s.n == s.fwd[0];
      hide EngineOk, Released, Arrival, OnlyQueues, QueuesNone;
    }
  }

  lemma RevTail(rev: seq<u32>, prev: Option<u32>, cur: u32, released: bool)
    requires RevOk(rev, prev, cur, released) && rev != []
    ensures RevOk(rev[1..], prev, cur, released)
  {
  }

  /** Once the current message is confirmed, everything in flight is old. */
  lemma Advance(fwd: seq<nat>, n: nat, rev: seq<u32>, prev: Option<u32>, cur: u32, next: u32)
    requires FwdOk(fwd, n, true) && RevOk(rev, prev, cur, true) && rev != [] && rev[0] == cur
    ensures FwdOk(fwd, n + 1, false) && RevOk(rev, Some(cur), next, false)
  {
  }

  lemma AckKeeps(s: Net, p: Peer, msg: nat -> Datagram, start: nat, keep: bool)
    requires Inv(s, p, msg, start) && Messages(msg)
    ensures Inv(Next(s, DeliverAck(keep), p, msg), p, msg, start)
  {
    hide EngineOk, Releases, Step, UdpInput;
    var s' := Next(s, DeliverAck(keep), p, msg);
    var r := |Released(s, p, start)|;
    assert Released(s', p, start) == Released(s, p, start);
    if s.rev != [] {
      if s.rev[0] == At(msg, s.n).seqNo {
        assert s.n > 0 ==> Differ(msg, s.n - 1);
        assert r == s.n + 1 && OnlyQueues(s.e.rx.blocks, p, At(msg, s.n + 1));
        hide FwdOk, RevOk, OnlyQueues, QueuesNone, Released;
        Advance(s.fwd, s.n, s.rev, Before(msg, s.n), At(msg, s.n).seqNo, At(msg, s.n + 1).seqNo);
        RevTail(s.rev, Before(msg, s.n + 1), At(msg, s.n + 1).seqNo, false);
      } else {
        hide FwdOk, RevOk, OnlyQueues, QueuesNone, Released;
        RevTail(s.rev, Before(msg, s.n), At(msg, s.n).seqNo, r == s.n + 1);
      }
    }
  }

  ghost predicate MoveAllowed(s: Net, mv: Move, p: Peer) {
    mv.Call? ==> Allowed(s.e, mv.ev, p)
  }

  /** Sending, losing and consuming messages keeps those in flight in order. */
  lemma FwdKeeps(s: Net, p: Peer, msg: nat -> Datagram, start: nat)
    requires Inv(s, p, msg, start)
    ensures Inv(s.(fwd := s.fwd + [s.n]), p, msg, start)
    ensures s.fwd != [] ==> Inv(s.(fwd := s.fwd[1..]), p, msg, start)
  {
    hide EngineOk, QueueOk, RevOk, Releases, QueuesNone, FrameFor;
  }

  lemma RevKeeps(s: Net, p: Peer, msg: nat -> Datagram, start: nat)
    requires Inv(s, p, msg, start) && s.rev != []
    ensures Inv(s.(rev := s.rev[1..]), p, msg, start)
  {
    hide EngineOk, QueueOk, FwdOk, RevOk, Releases, QueuesNone, FrameFor;
    RevTail(s.rev, Before(msg, s.n), At(msg, s.n).seqNo, |Released(s, p, start)| == s.n + 1);
  }

  lemma MoveKeeps(s: Net, mv: Move, p: Peer, msg: nat -> Datagram, start: nat)
    requires Inv(s, p, msg, start) && Messages(msg) && MoveAllowed(s, mv, p)
    ensures Inv(Next(s, mv, p, msg), p, msg, start)
  {
    hide Inv, UdpInput, Step, Allowed, Encode;
    match mv
    case Send => FwdKeeps(s, p, msg, start);
    case LoseData => FwdKeeps(s, p, msg, start);
    case DeliverData(keep, ok) =>
      if s.fwd != [] {
        DeliveryKeeps(s, p, msg, start, ok);
        FwdKeeps(Absorb(s, UdpInput(s.e, p, Encode(At(msg, s.fwd[0])), ok), p), p, msg, start);
      }
    case LoseAck => if s.rev != [] { RevKeeps(s, p, msg, start); }
    case DeliverAck(keep) => AckKeeps(s, p, msg, start, keep);
    case Call(ev) => CallKeeps(s, ev, p, msg, start);
  }

  ghost function RunNet(s: Net, moves: seq<Move>, p: Peer, msg: nat -> Datagram): Net
    decreases |moves|
  {
    if moves == [] then s else RunNet(Next(s, moves[0], p, msg), moves[1..], p, msg)
  }

  ghost predicate AllAllowed(s: Net, moves: seq<Move>, p: Peer, msg: nat -> Datagram)
    decreases |moves|
  {
    moves != [] ==> MoveAllowed(s, moves[0], p) && AllAllowed(Next(s, moves[0], p, msg), moves[1..], p, msg)
  }

  lemma {:induction false} RunKeeps(s: Net, moves: seq<Move>, p: Peer, msg: nat -> Datagram, start: nat)
    requires Inv(s, p, msg, start) && Messages(msg) && AllAllowed(s, moves, p, msg)
    ensures Inv(RunNet(s, moves, p, msg), p, msg, start)
    decreases |moves|
  {
    hide Inv, Next, MoveAllowed;
    if moves != [] {
      MoveKeeps(s, moves[0], p, msg, start);
      RunKeeps(Next(s, moves[0], p, msg), moves[1..], p, msg, start);
    }
  }

  /** From any reachable engine state with nothing of the peer queued and its
      first number not remembered, and over every run: the frames of the peer that
      left the queue are the first `r` messages, once each, in order and intact;
      the sender has got past exactly those, or all but the last. */
  lemma AtMostOnceInOrder(before: seq<Event>, moves: seq<Move>, p: Peer, msg: nat -> Datagram)
    requires Messages(msg) && OnWire(p)
    requires var e := Exec(before);
             && FindPeer(e.rx.stations, p) >= 0 && QueuesNone(e.rx.blocks, p) && HoldsNothingOf(e.imm, p)
             && !Remembered(e, p, At(msg, 0).seqNo)
    requires AllAllowed(Net(Exec(before), 0, [], []), moves, p, msg)
    ensures var s := RunNet(Net(Exec(before), 0, [], []), moves, p, msg);
            var rel := Released(s, p, |Exec(before).log|);
            && (forall i :: 0 <= i < |rel| ==> FrameFor(rel[i], p, At(msg, i)))
            && s.n <= |rel| <= s.n + 1
  {
    hide Step, RxInv, TxInv, Next;
    var s := Net(Exec(before), 0, [], []);
    RxInvHolds(before);
    TxInvHolds(before);
    assert Exec(before).log[|Exec(before).log|..] == [];
    assert Inv(s, p, msg, |s.e.log|);
    RunKeeps(s, moves, p, msg, |s.e.log|);
    hide RunNet, AllAllowed, EngineOk, QueuesNone, OnlyQueues;
  }

  // ---- what the host accepts ----------------------------------------------

  /** A release in the log is the one its position among the releases says. */
  lemma {:induction false} ReleaseAt(items: seq<Item>, x: nat, p: Peer)
    requires x < |items| && IsReleaseOf(items[x], p)
    ensures |Releases(items[..x], p)| < |Releases(items, p)|
    ensures Releases(items, p)[|Releases(items[..x], p)|] == items[x].f
  {
    ReleasesAppend(items[..x], items[x..], p);
    assert items == items[..x] + items[x..];
  }

  /** Two frames of the peer that the host accepts, one before the other, are two
      different messages in the order they were sent. */
  lemma AcceptedInOrder(before: seq<Event>, moves: seq<Move>, p: Peer, msg: nat -> Datagram, x: nat, y: nat)
    requires Messages(msg) && OnWire(p)
    requires var e := Exec(before);
             && FindPeer(e.rx.stations, p) >= 0 && QueuesNone(e.rx.blocks, p) && HoldsNothingOf(e.imm, p)
             && !Remembered(e, p, At(msg, 0).seqNo)
    requires AllAllowed(Net(Exec(before), 0, [], []), moves, p, msg)
    requires var log := RunNet(Net(Exec(before), 0, [], []), moves, p, msg).e.log;
             |Exec(before).log| <= x < y < |log| && log[x].Accepted? && log[y].Accepted? &&
             log[x].f.src == log[y].f.src == p
    ensures var log := RunNet(Net(Exec(before), 0, [], []), moves, p, msg).e.log;
            exists a: nat, b: nat :: a < b && FrameFor(log[x].f, p, At(msg, a)) && FrameFor(log[y].f, p, At(msg, b))
  {
    hide Step, AllAllowed;
    AtMostOnceInOrder(before, moves, p, msg);
    hide RunNet, Exec;
    var start := |Exec(before).log|;
    var items := RunNet(Net(Exec(before), 0, [], []), moves, p, msg).e.log[start..];
    ReleaseAt(items, x - start, p);
    ReleaseAt(items, y - start, p);
    var a, b := |Releases(items[..x - start], p)|, |Releases(items[..y - start], p)|;
    ReleaseAt(items[..y - start], x - start, p);
    assert items[..y - start][..x - start] == items[..x - start];
    assert a < b;
  }
}
