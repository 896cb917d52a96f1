/** What the host sees of the receive side, in every reachable state. */
module AunDelivery {
  import opened Bytes
  import opened AunTypes
  import opened AunRx
  import opened AunTx
  import opened AunImm
  import opened AunQueue
  import opened AunSpec
  import opened AunRxInv

  /** A poll presents the oldest frame of a stream, byte for byte; it answers
      pending exactly when every queued frame's stream is deferred. */
  lemma PollPresentsOldest(run: seq<Event>, h: byte)
    requires IsOpen(Exec(run).rx, h)
    ensures var b := Exec(run).rx.blocks[h];
            var (e', status, info) := RxPoll(Exec(run), h);
            var b' := e'.rx.blocks[h];
            && (status == AUN_OK ==>
                  && b'.presented && b'.frames == b.frames && Oldest(b.frames, b'.presOff)
                  && var f := b.frames[b'.presOff];
                  && info == Some(Info(f.stn, f.net, f.port, f.ctrl, |f.data|)) && f.data <= b'.buf)
            && (status != AUN_OK ==>
                  && status == PENDING && e' == Exec(run)
                  && forall i :: 0 <= i < |b.frames| ==> StreamOf(b.frames[i]) in b.deferred)
            && (status == PENDING <== forall i :: 0 <= i < |b.frames| ==> StreamOf(b.frames[i]) in b.deferred)
  {
    hide Step;
    RxInvHolds(run);
    var b := Exec(run).rx.blocks[h];
    TargetIsOldest(b, Exec(run).clock);
    PresentKeeps(b, Exec(run).clock);
  }

  /** The calls that may take the presented frame of block `h` away. */
  predicate Disturbs(ev: Event, h: byte) {
    ev.DoInit? || (ev.DoCollect? && ev.h == h) || (ev.DoOpen? && ev.h == h) || (ev.DoClose? && ev.h == h)
  }

  /** The presented frame and the host's buffer are as before. */
  ghost predicate SamePresented(b: Block, b': Block) {
    && b'.open && b.presented && b'.presented && b'.presOff == b.presOff && b'.buf == b.buf
    && b.presOff < |b.frames| && b.presOff < |b'.frames| && b'.frames[b.presOff] == b.frames[b.presOff]
  }

  lemma DeliverKeepsPresented(blocks: seq<Block>, f: Frame, h: nat)
    requires h < |blocks| && blocks[h].open && blocks[h].presented && blocks[h].presOff < |blocks[h].frames|
    ensures h < |Deliver(blocks, f)| && SamePresented(blocks[h], Deliver(blocks, f)[h])
  {
  }

  lemma ReceiveKeepsPresented(e: Engine, src: Peer, d: Datagram, ok: bool, h: byte)
    requires IsOpen(e.rx, h) && SamePresented(e.rx.blocks[h], e.rx.blocks[h])
    ensures IsOpen(Receive(e, src, d, ok).rx, h)
    ensures SamePresented(e.rx.blocks[h], Receive(e, src, d, ok).rx.blocks[h])
  {
    hide Deliver, ReceiveReply, ReceiveImm4, ReceiveImmediate, MapAdd, Queueing, DeliveryOf;
    var m := Learn(e.rx, src);
    var i := FindPeer(m, src);
    if i >= 0 {
      DeliverKeepsPresented(e.rx.blocks, NewFrame(src, d.seqNo, m[i].stn, m[i].net, d), h);
    }
    var j := FindPeer(e.rx.stations, src);
    DeliverKeepsPresented(e.rx.blocks, if j < 0 then NewFrame(LOCAL, 0, 0, 0, d)
                          else NewFrame(LOCAL, 0, e.rx.stations[j].stn, e.rx.stations[j].net, d), h);
  }

  lemma TransmitKeepsPresented(e: Engine, kind: byte, net: bv8, stn: bv8, ctrl: byte, port: byte,
                               data: seq<byte>, hasBuf: bool, replyMax: nat, ok: bool, h: byte)
    requires IsOpen(e.rx, h) && SamePresented(e.rx.blocks[h], e.rx.blocks[h])
    ensures var e' := TxBegin(e, kind, net, stn, ctrl, port, data, hasBuf, replyMax, ok).0;
            IsOpen(e'.rx, h) && SamePresented(e.rx.blocks[h], e'.rx.blocks[h])
  {
    hide Deliver, DeliveryOf, Looped, Launch, Resolve;
    var d := Datagram(kind, port, ctrl, 0, data);
    DeliverKeepsPresented(e.rx.blocks, NewFrame(LOCAL, 0, e.test.stn, e.test.net, d), h);
  }

  lemma OtherCollectKeepsPresented(r: Rx, k: byte, accept: bool, clock: nat, ok: bool, h: byte)
    requires IsOpen(r, h) && SamePresented(r.blocks[h], r.blocks[h]) && k != h
    ensures var r' := Collect(r, k, accept, clock, ok).st;
            IsOpen(r', h) && r'.blocks[h] == r.blocks[h]
  {
    hide Taken, Deferring, Lift, SetSlot, Expire, Budget, Stamp, HasTarget, Target;
  }

  lemma ImmediateKeepsPresented(e: Engine, net: bv8, stn: bv8, ctrl: byte, data: seq<byte>,
                                hasBuf: bool, replyMax: nat, ok: bool, h: byte)
    requires IsOpen(e.rx, h) && SamePresented(e.rx.blocks[h], e.rx.blocks[h])
    ensures var r := Immediate(e, net, stn, ctrl, data, hasBuf, replyMax, ok).0.rx;
            IsOpen(r, h) && SamePresented(e.rx.blocks[h], r.blocks[h])
  {
    hide TxBegin, PokeOnWire;
    if 4 <= |data| <= MAX_DATA - 4 {
      TransmitKeepsPresented(e, TYPE_DATA, net, stn, ctrl, 0, PokeOnWire(data), false, 0, ok, h);
    }
    TransmitKeepsPresented(e, TYPE_DATA, net, stn, ctrl, 0, data, false, 0, ok, h);
    TransmitKeepsPresented(e, TYPE_IMMEDIATE, net, stn, ctrl, 0, data, hasBuf, replyMax, ok, h);
  }

  lemma BlockCallsKeepPresented(e: Engine, k: byte, port: byte, stn: bv8, net: bv8, buf: seq<byte>, h: byte)
    requires IsOpen(e.rx, h) && SamePresented(e.rx.blocks[h], e.rx.blocks[h])
    ensures var r := RxPoll(e, k).0.rx; IsOpen(r, h) && SamePresented(e.rx.blocks[h], r.blocks[h])
    ensures var r := RxOpen(e, k, port, stn, net, buf).0.rx;
            k != h ==> IsOpen(r, h) && SamePresented(e.rx.blocks[h], r.blocks[h])
    ensures var r := RxClose(e, k).0.rx; k != h ==> IsOpen(r, h) && SamePresented(e.rx.blocks[h], r.blocks[h])
  {
  }

  lemma StepKeepsPresented(e: Engine, ev: Event, h: byte)
    requires IsOpen(e.rx, h) && SamePresented(e.rx.blocks[h], e.rx.blocks[h]) && !Disturbs(ev, h)
    ensures IsOpen(Step(e, ev).rx, h) && SamePresented(e.rx.blocks[h], Step(e, ev).rx.blocks[h])
  {
    hide Collect, Receive, TxBegin, Reap, Timer, ReplyCommand, Configure, Copies, MapAdd, AllocSeq, PokeOnWire,
      RxOpen, RxClose, RxPoll, Immediate, FromLe32;
    match ev
    case DoRxPoll(k) => BlockCallsKeepPresented(e, k, 0, 0, 0, [], h);
    case DoClose(k) => BlockCallsKeepPresented(e, k, 0, 0, 0, [], h);
    case DoOpen(k, port, stn, net, buf) => BlockCallsKeepPresented(e, k, port, stn, net, buf, h);
    case DoCollect(k, accept, ok) => OtherCollectKeepsPresented(e.rx, k, accept, e.clock, ok, h);
    case DoInput(src, dgram, ok) =>
      if |dgram| >= HDR_SIZE { ReceiveKeepsPresented(e, src, Decode(dgram).value, ok, h); }
    case DoTx(net, stn, ctrl, port, data, ok) =>
      TransmitKeepsPresented(e, TYPE_DATA, net, stn, ctrl, port, data, false, 0, ok, h);
    case DoImmediate(net, stn, ctrl, data, hasBuf, replyMax, ok) =>
      ImmediateKeepsPresented(e, net, stn, ctrl, data, hasBuf, replyMax, ok, h);
    case _ =>
      hide Step;
      OthersKeepPresented(e, ev, h);
  }

  lemma OthersKeepPresented(e: Engine, ev: Event, h: byte)
    requires IsOpen(e.rx, h) && SamePresented(e.rx.blocks[h], e.rx.blocks[h]) && !Disturbs(ev, h)
    requires !(ev.DoRxPoll? || ev.DoClose? || ev.DoOpen? || ev.DoCollect? || ev.DoInput? || ev.DoTx? || ev.DoImmediate?)
    ensures IsOpen(Step(e, ev).rx, h) && SamePresented(e.rx.blocks[h], Step(e, ev).rx.blocks[h])
  {
    hide Collect, Receive, TxBegin, Reap, Timer, ReplyCommand, Configure, Copies, MapAdd, AllocSeq, RxOpen, RxClose,
      RxPoll, Immediate;
  }

  function Continue(e: Engine, run: seq<Event>): Engine
    decreases |run|
  {
    if run == [] then e else Continue(Step(e, run[0]), run[1..])
  }

  lemma {:induction false} PresentedStays(e: Engine, run: seq<Event>, h: byte)
    requires IsOpen(e.rx, h) && SamePresented(e.rx.blocks[h], e.rx.blocks[h])
    requires forall i :: 0 <= i < |run| ==> !Disturbs(run[i], h)
    ensures IsOpen(Continue(e, run).rx, h)
    ensures SamePresented(e.rx.blocks[h], Continue(e, run).rx.blocks[h])
    decreases |run|
  {
    hide Step;
    if run != [] {
      StepKeepsPresented(e, run[0], h);
      PresentedStays(Step(e, run[0]), run[1..], h);
    }
  }

  /** What the host saw is what is collected: whatever happens between a poll and the
      collect that follows, the polled frame's bytes are still in the buffer, and it
      is that frame which the collect accepts and ACKs, or turns down: a local one is
      dropped, one whose budget is spent is shed and ACKed, any other keeps its place
      with one more rejection counted and its stream deferred. */
  lemma SeenIsAcked(before: seq<Event>, between: seq<Event>, h: byte, accept: bool, ok: bool)
    requires IsOpen(Exec(before).rx, h) && RxPoll(Exec(before), h).1 == AUN_OK
    requires forall i :: 0 <= i < |between| ==> !Disturbs(between[i], h)
    ensures var b := RxPoll(Exec(before), h).0.rx.blocks[h];
            var e := Continue(RxPoll(Exec(before), h).0, between);
            && b.presOff < |b.frames| && IsOpen(e.rx, h) && b.presOff < |e.rx.blocks[h].frames|
            && b.frames[b.presOff].data <= e.rx.blocks[h].buf
            && ActsOn(e, RxCollect(e, h, accept, ok).0, h, b.presOff, b.frames[b.presOff], accept, ok)
  {
    hide Step;
    PollPresentsOldest(before, h);
    var e0 := RxPoll(Exec(before), h).0;
    hide RxPoll;
    PresentedStays(e0, between, h);
    PollThenRun(before, between, h);
    hide Continue, RxInv;
    CollectActsOn(Continue(e0, between), h, accept, ok);
    hide RxCollect, ActsOn;
  }

  lemma PollThenRun(before: seq<Event>, between: seq<Event>, h: byte)
    ensures RxOk(Continue(RxPoll(Exec(before), h).0, between))
  {
    RxInvHolds(before);
    StepKeepsRx(Exec(before), DoRxPoll(h));
    PolledStep(Exec(before), h);
    hide Exec, Step, RxPoll, RxInv;
    ContinueKeepsRx(RxPoll(Exec(before), h).0, between);
  }

  lemma PolledStep(e: Engine, h: byte)
    ensures Step(e, DoRxPoll(h)) == RxPoll(e, h).0
  {
    hide RxPoll;
  }

  lemma {:induction false} ContinueKeepsRx(e: Engine, run: seq<Event>)
    requires RxOk(e)
    ensures RxOk(Continue(e, run))
    decreases |run|
  {
    hide Step, RxInv;
    if run != [] {
      StepKeepsRx(e, run[0]);
      ContinueKeepsRx(Step(e, run[0]), run[1..]);
    }
  }

  /** A stream is condemned while a slot names it whose time has not run out. */
  ghost predicate Condemned(t: seq<Slot>, s: Stream, clock: nat) {
    exists k :: 0 <= k < |t| && t[k].valid && t[k].stream == s && clock < t[k].until
  }

  /** How often a frame may be turned down: 12 times if its stream is condemned, else 250. */
  ghost function Limit(r: Rx, f: Frame, clock: nat): nat {
    if Condemned(r.condemned, StreamOf(f), clock) then 12 else 250
  }

  lemma BudgetIsLimit(r: Rx, f: Frame, clock: nat)
    requires DistinctStreams(r.condemned)
    ensures Budget(r, f, clock) == Limit(r, f, clock)
  {
    var i := SlotOf(r.condemned, StreamOf(f));
    if Condemned(r.condemned, StreamOf(f), clock) {
      var k :| 0 <= k < |r.condemned| && r.condemned[k].valid && r.condemned[k].stream == StreamOf(f) &&
               clock < r.condemned[k].until;
      assert i == k;
    }
  }

  /** The ACK of a frame: to its source, with its port, control byte and number. */
  function AckOf(f: Frame, ok: bool): Item {
    Sent(f.src, Datagram(3, f.port, f.ctrl % 128, f.seqNo, []), ok, Answer)
  }

  /** The collect that led from `e` to `e'` acted on frame `f` at `off` of block `h`. */
  ghost predicate ActsOn(e: Engine, e': Engine, h: byte, off: nat, f: Frame, accept: bool, ok: bool)
    requires IsOpen(e.rx, h) && off < |e.rx.blocks[h].frames|
  {
    && IsOpen(e'.rx, h) && !e'.rx.blocks[h].presented
    && var b, b' := e.rx.blocks[h], e'.rx.blocks[h];
    if accept then
      && b'.frames == Remove(b.frames, off)
      && e'.log == e.log + [Accepted(f)] + (if OnWire(f.src) then [AckOf(f, ok)] else [])
    else if !OnWire(f.src) then b'.frames == Remove(b.frames, off) && e'.log == e.log
    else if f.rejects >= Limit(e.rx, f, e.clock) then
      && b'.frames == Remove(b.frames, off) && e'.log == e.log + [Shed(f), AckOf(f, ok)]
      && exists k :: 0 <= k < |e'.rx.condemned| && e'.rx.condemned[k] == Slot(true, StreamOf(f), e.clock + 10000)
    else
      && b'.frames == b.frames[off := f.(rejects := f.rejects + 1)] && e'.log == e.log
      && b'.deferred == b.deferred[StreamOf(f) := e.clock + 8]
  }

  lemma CollectActsOn(e: Engine, h: byte, accept: bool, ok: bool)
    requires RxOk(e) && IsOpen(e.rx, h) && HasTarget(e.rx.blocks[h])
    ensures var b := e.rx.blocks[h];
            ActsOn(e, RxCollect(e, h, accept, ok).0, h, Target(b), b.frames[Target(b)], accept, ok)
  {
    hide RxInv, Stamp, Lift, SetSlot, Expire, Target, Budget, Limit, Listed, DistinctStreams;
    var f := e.rx.blocks[h].frames[Target(e.rx.blocks[h])];
    assert e.log + [] == e.log;
    if !accept {
      CondemnTable(e.rx, f, e.clock);
      BudgetIsLimit(e.rx, f, e.clock);
      SetSlotSets(Expire(e.rx.condemned, StreamOf(f), e.clock), StreamOf(f), e.clock, e.clock + 10000);
    }
  }

  lemma CondemnTable(r: Rx, f: Frame, clock: nat)
    requires RxInv(r, clock)
    ensures DistinctStreams(r.condemned) && Expire(r.condemned, StreamOf(f), clock) != []
  {
  }

  lemma SetSlotSets(t: seq<Slot>, s: Stream, clock: nat, until: nat)
    requires t != []
    ensures exists k :: 0 <= k < |SetSlot(t, s, clock, until)| && SetSlot(t, s, clock, until)[k] == Slot(true, s, until)
  {
    var i := SlotOf(t, s);
    var v := if i >= 0 then i else Victim(t, clock);
    assert SetSlot(t, s, clock, until)[v] == Slot(true, s, until);
  }

  lemma CollectDrainsQueue(r: Rx, h: byte, accept: bool, clock: nat, ok: bool)
    requires RxInv(r, clock) && IsOpen(r, h) && HasTarget(r.blocks[h])
    ensures h < |Collect(r, h, accept, clock, ok).st.blocks|
    ensures Patience(Collect(r, h, accept, clock, ok).st.blocks[h].frames) < Patience(r.blocks[h].frames)
  {
    var b := r.blocks[h];
    assert FrameOk(b.frames[Target(b)], b);
    CollectOnBlock(r, h, accept, clock, ok);
    hide RxInv, Patience, Collect, Remove, Target;
    RemoveDrains(b.frames, Target(b));
    RejectDrains(b.frames, Target(b));
  }

  lemma CollectOnBlock(r: Rx, h: byte, accept: bool, clock: nat, ok: bool)
    requires IsOpen(r, h) && HasTarget(r.blocks[h])
    ensures var b, b' := r.blocks[h], Collect(r, h, accept, clock, ok).st.blocks;
            b' == r.blocks[h := Taken(b, Target(b))] || b' == r.blocks[h := Deferring(b, Target(b), clock)]
  {
    hide Taken, Deferring, Lift, SetSlot, Expire, Budget, Stamp, Target;
  }

  /** A collect that acts on a frame uses up the queue's patience, which never
      exceeds 251 per frame: no frame is turned down more than 251 times. */
  lemma CollectDrains(run: seq<Event>, h: byte, accept: bool, ok: bool)
    requires IsOpen(Exec(run).rx, h) && HasTarget(Exec(run).rx.blocks[h])
    ensures var frames := Exec(run).rx.blocks[h].frames;
            var frames' := RxCollect(Exec(run), h, accept, ok).0.rx.blocks[h].frames;
            0 <= Patience(frames') < Patience(frames) <= RX_QUEUE * (DEFER_RETRIES + 1)
  {
    hide Step, Collect, Patience;
    RxInvHolds(run);
    var r, clock := Exec(run).rx, Exec(run).clock;
    CollectKeeps(r, h, accept, clock, ok);
    CollectDrainsQueue(r, h, accept, clock, ok);
    PatienceBounds(r.blocks[h].frames);
    PatienceBounds(Collect(r, h, accept, clock, ok).st.blocks[h].frames);
  }

  /** One accepted frame lifts its stream's condemnation, whatever the table held. */
  lemma AcceptLifts(run: seq<Event>, h: byte, ok: bool)
    requires IsOpen(Exec(run).rx, h) && HasTarget(Exec(run).rx.blocks[h])
    requires OnWire(Exec(run).rx.blocks[h].frames[Target(Exec(run).rx.blocks[h])].src)
    ensures var f := Exec(run).rx.blocks[h].frames[Target(Exec(run).rx.blocks[h])];
            var t := RxCollect(Exec(run), h, true, ok).0.rx.condemned;
            forall k :: 0 <= k < |t| ==> !(t[k].valid && t[k].stream == StreamOf(f))
  {
    hide Step, BlocksOk, DistinctKeys, Taken, Stamp;
    RxInvHolds(run);
    var r := Exec(run).rx;
    SlotTablesKeep(r.condemned, StreamOf(r.blocks[h].frames[Target(r.blocks[h])]), 0, 0);
  }

  // ---- only collects release, and only the oldest ---------------------------

  ghost predicate IsRelease(x: Item) {
    x.Accepted? || x.Shed?
  }

  ghost predicate NoRelease(items: seq<Item>) {
    forall k :: 0 <= k < |items| ==> !IsRelease(items[k])
  }

  lemma PartsReleaseNothing(e: Engine, src: Peer, d: Datagram, data: seq<byte>, oks: seq<bool>, ok: bool)
    ensures NoRelease(ReceiveData(e.rx, src, d, ok).items) && NoRelease(Copies(e.rx, d, oks))
    ensures NoRelease(ReceiveImm4(e.imm, src, d, e.clock, ok).items)
    ensures NoRelease(ReceiveImmediate(e.imm, src, d, e.clock, ok).items)
    ensures NoRelease(Reap(e.imm, e.clock, ok).items) && NoRelease(ReplyCommand(e.imm, data, e.clock, ok).items)
    ensures NoRelease(Timer(e.tx, e.clock, ok).items)
  {
    hide ReceiveData, ReceiveImm4, ReceiveImmediate, Reap, ReplyCommand, NoRelease, Finish;
    DataReleasesNothing(e.rx, src, d, oks, ok);
    ImmediatesReleaseNothing(e.imm, src, d, data, e.clock, ok);
    NoneReleased();
  }

  lemma NoneReleased()
    ensures NoRelease([])
    ensures forall to: Peer, d: Datagram, ok: bool, why: Why :: NoRelease([Sent(to, d, ok, why)])
  {
  }

  lemma DataReleasesNothing(r: Rx, src: Peer, d: Datagram, oks: seq<bool>, ok: bool)
    ensures NoRelease(ReceiveData(r, src, d, ok).items) && NoRelease(Copies(r, d, oks))
  {
    hide Learn, Queueing, Deliver, DeliveryOf;
  }

  lemma ImmediatesReleaseNothing(m: ImmSide, src: Peer, d: Datagram, data: seq<byte>, clock: nat, ok: bool)
    ensures NoRelease(ReceiveImm4(m, src, d, clock, ok).items) &&
            NoRelease(ReceiveImmediate(m, src, d, clock, ok).items)
    ensures NoRelease(Reap(m, clock, ok).items) && NoRelease(ReplyCommand(m, data, clock, ok).items)
  {
    hide ImmLenOk, Replays, Imm4Payload;
  }

  lemma TransmitReleasesNothing(e: Engine, kind: byte, net: bv8, stn: bv8, ctrl: byte, port: byte,
                                data: seq<byte>, hasBuf: bool, replyMax: nat, ok: bool)
    ensures var log' := TxBegin(e, kind, net, stn, ctrl, port, data, hasBuf, replyMax, ok).0.log;
            e.log <= log' && NoRelease(log'[|e.log|..])
  {
    hide Deliver, DeliveryOf, Looped, Resolve, Finish, AllocSeq;
  }

  lemma ImmediateReleasesNothing(e: Engine, net: bv8, stn: bv8, ctrl: byte, data: seq<byte>,
                                 hasBuf: bool, replyMax: nat, ok: bool)
    ensures var log' := Immediate(e, net, stn, ctrl, data, hasBuf, replyMax, ok).0.log;
            e.log <= log' && NoRelease(log'[|e.log|..])
  {
    hide TxBegin;
    if 4 <= |data| <= MAX_DATA - 4 {
      TransmitReleasesNothing(e, TYPE_DATA, net, stn, ctrl, 0, PokeOnWire(data), false, 0, ok);
    }
    TransmitReleasesNothing(e, TYPE_DATA, net, stn, ctrl, 0, data, false, 0, ok);
    TransmitReleasesNothing(e, TYPE_IMMEDIATE, net, stn, ctrl, 0, data, hasBuf, replyMax, ok);
  }

  lemma InputReleasesNothing(e: Engine, src: Peer, dgram: seq<byte>, ok: bool)
    ensures var log' := UdpInput(e, src, dgram, ok).log; e.log <= log' && NoRelease(log'[|e.log|..])
  {
    hide ReceiveData, ReceiveImm4, ReceiveImmediate, ReceiveReply, ReceiveBroadcast;
    if |dgram| >= HDR_SIZE {
      PartsReleaseNothing(e, src, Decode(dgram).value, [], [], ok);
    }
  }

  lemma PollReleasesNothing(e: Engine, okNak: bool, okTx: bool)
    ensures var log' := Poll(e, okNak, okTx).log; e.log <= log' && NoRelease(log'[|e.log|..])
  {
    hide Reap, Timer;
    PartsReleaseNothing(e, LOCAL, e.tx.cur.dgram, [], [], okNak);
    PartsReleaseNothing(e, LOCAL, e.tx.cur.dgram, [], [], okTx);
  }

  /** Nothing but a collect takes a frame off a queue for good. */
  lemma OthersReleaseNothing(e: Engine, ev: Event)
    requires !ev.DoCollect?
    ensures e.log <= Step(e, ev).log && NoRelease(Step(e, ev).log[|e.log|..])
  {
    hide Collect, UdpInput, TxBegin, Immediate, Poll, Configure, Present, TickBlocks, AllocSeq, MapAdd, HasTarget,
      ReplyCommand, Take, Copies;
    match ev
    case DoInput(src, dgram, ok) => InputReleasesNothing(e, src, dgram, ok);
    case DoTx(net, stn, ctrl, port, data, ok) =>
      TransmitReleasesNothing(e, TYPE_DATA, net, stn, ctrl, port, data, false, 0, ok);
    case DoImmediate(net, stn, ctrl, data, hasBuf, replyMax, ok) =>
      ImmediateReleasesNothing(e, net, stn, ctrl, data, hasBuf, replyMax, ok);
    case DoPoll(okNak, okTx) => PollReleasesNothing(e, okNak, okTx);
    case DoImmReply(data, ok) => PartsReleaseNothing(e, LOCAL, e.tx.cur.dgram, data, [], ok);
    case DoBroadcast(ctrl, port, data, oks) =>
      PartsReleaseNothing(e, LOCAL, Datagram(TYPE_BROADCAST, port, ctrl % 128, e.tx.nextSeq, data), [], oks, true);
    case _ =>
      hide Step;
      PassiveReleases(e, ev);
  }

  lemma PassiveReleases(e: Engine, ev: Event)
    requires ev.DoInit? || ev.DoMapAdd? || ev.DoAddressing? || ev.DoTest? || ev.DoMachineId? || ev.DoOpen? ||
             ev.DoRxPoll? || ev.DoClose? || ev.DoHostImm? || ev.DoImmPoll? || ev.DoTick?
    ensures e.log <= Step(e, ev).log && NoRelease(Step(e, ev).log[|e.log|..])
  {
    hide Configure, Present, TickBlocks, MapAdd, HasTarget, Take;
  }

  lemma CollectReleases(r: Rx, h: byte, accept: bool, clock: nat, ok: bool, k: nat)
    requires k < |Collect(r, h, accept, clock, ok).items| && IsRelease(Collect(r, h, accept, clock, ok).items[k])
    ensures IsOpen(r, h) && HasTarget(r.blocks[h])
    ensures Collect(r, h, accept, clock, ok).items[k].f == r.blocks[h].frames[Target(r.blocks[h])]
    ensures Collect(r, h, accept, clock, ok).st.blocks == r.blocks[h := Taken(r.blocks[h], Target(r.blocks[h]))]
    ensures var x := Collect(r, h, accept, clock, ok).items[k];
            if accept then x.Accepted? else x.Shed? && x.f.rejects >= Budget(r, x.f, clock)
  {
    hide Taken, Deferring, Lift, SetSlot, Expire, Budget, Stamp, Target;
  }

  /** Over every run: a frame is accepted only by an accepting collect, and shed only by
      a rejecting one that finds its budget spent; it is then the oldest queued frame
      of its stream, and leaves the queue with all others in place. */
  lemma OnlyOldestReleased(run: seq<Event>, ev: Event, k: nat)
    requires |Exec(run).log| <= k < |Step(Exec(run), ev).log| && IsRelease(Step(Exec(run), ev).log[k])
    ensures ev.DoCollect? && IsOpen(Exec(run).rx, ev.h)
    ensures var x := Step(Exec(run), ev).log[k];
            if ev.accept then x.Accepted? else x.Shed? && x.f.rejects >= Limit(Exec(run).rx, x.f, Exec(run).clock)
    ensures var frames := Exec(run).rx.blocks[ev.h].frames;
            exists off :: Oldest(frames, off) && frames[off] == Step(Exec(run), ev).log[k].f &&
                          Step(Exec(run), ev).rx.blocks[ev.h].frames == Remove(frames, off)
  {
    var e := Exec(run);
    RxInvHolds(run);
    hide Exec, Budget, Limit;
    if ev.DoCollect? {
      BudgetIsLimit(e.rx, Step(e, ev).log[k].f, e.clock);
      hide Collect, Target, BlockInv;
      CollectReleases(e.rx, ev.h, ev.accept, e.clock, ev.ok, k - |e.log|);
      TargetIsOldest(e.rx.blocks[ev.h], e.clock);
    } else {
      hide Step;
      OthersReleaseNothing(e, ev);
      assert false;
    }
  }
}
