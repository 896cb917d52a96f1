/** When a frame is queued a second time. The engine remembers one sequence number for
    each station: over every run that keeps a peer's map entry, whatever the peer
    sends, a repeat gets past the duplicate filter exactly when another frame of that
    peer left the queue after it. */
module AunRepeats {
  import opened Bytes
  import opened AunTypes
  import opened AunRx
  import opened AunTx
  import opened AunImm
  import opened AunSpec
  import opened AunRxInv
  import opened AunDelivery
  import opened AunEndToEnd

  /** No call of the run rewrites the peer's map entry. */
  ghost predicate KeepsEntryAll(e: Engine, run: seq<Event>, p: Peer)
    decreases |run|
  {
    run != [] ==> KeepsEntry(e, run[0], p) && KeepsEntryAll(Step(e, run[0]), run[1..], p)
  }

  /** The frames of `p` that left the queue between two states of a run. */
  ghost function ReleasedSince(e: Engine, e': Engine, p: Peer): seq<Frame> {
    if |e.log| <= |e'.log| then Releases(e'.log[|e.log|..], p) else []
  }

  /** The last release is what the filter remembers, and is not queued again; no two
      releases in a row carry one number. */
  ghost predicate Traced(e: Engine, p: Peer, rel: seq<Frame>) {
    && RxOk(e) && OnWire(p) && FindPeer(e.rx.stations, p) >= 0
    && (rel != [] ==> Remembered(e, p, Last(rel).seqNo) && !Queueing(e.rx.blocks, p, Last(rel).seqNo))
    && Alternates(rel)
  }

  ghost function Last(rel: seq<Frame>): Frame
    requires rel != []
  {
    rel[|rel| - 1]
  }

  ghost predicate Alternates(rel: seq<Frame>) {
    forall i :: 0 < i < |rel| ==> rel[i - 1].seqNo != rel[i].seqNo
  }

  // ---- one call ---------------------------------------------------------------

  /** What a collect does to the peer's frames and entry; `f` is the one it releases. */
  lemma CollectTraced(r: Rx, h: byte, accept: bool, clock: nat, ok: bool, p: Peer, s: u32) returns (f: Option<Frame>)
    requires RxInv(r, clock) && OnWire(p)
    ensures var o := Collect(r, h, accept, clock, ok);
            if f.None?
            then Releases(o.items, p) == [] && SameEntry(r.stations, o.st.stations, p) &&
                 (!Queueing(r.blocks, p, s) ==> !Queueing(o.st.blocks, p, s))
            else Releases(o.items, p) == [f.value] && Queueing(r.blocks, p, f.value.seqNo) &&
                 o.st.stations == Stamp(r.stations, p, f.value.seqNo) && !Queueing(o.st.blocks, p, f.value.seqNo)
  {
    hide RxInv, DistinctKeys, Target, SameEntry, Stamp, Queueing, Irrelevant, Accept, Reject, Releases;
    var o := Collect(r, h, accept, clock, ok);
    f := None;
    EntryRefl(r.stations, p);
    KeysDistinct(r, clock);
    if IsOpen(r, h) && HasTarget(r.blocks[h]) {
      var off := Target(r.blocks[h]);
      var g := r.blocks[h].frames[off];
      AcceptEffect(r, h, off, ok, p);
      RejectEffect(r, h, off, clock, ok, p);
      if g.src == p && o.items != [] {
        f := Some(g);
        DropFrame(r.blocks, h, off);
        IsQueued(r.blocks, h, off);
        ReleaseItems(o.items[0], ok, p);
      } else {
        IrrelevantIsSilent(o.items, p);
        CollectOnBlock(r, h, accept, clock, ok);
        CollectQueuesNothing(r.blocks, h, off, clock, p, s);
      }
    } else {
      NothingIrrelevant(p);
      IrrelevantIsSilent([], p);
      FewerFrames(r.blocks, o.st.blocks, p, s);
    }
  }

  lemma IsQueued(blocks: seq<Block>, h: nat, off: nat)
    requires h < |blocks| && off < |blocks[h].frames|
    ensures Queueing(blocks, blocks[h].frames[off].src, blocks[h].frames[off].seqNo)
  {
  }

  lemma CollectQueuesNothing(blocks: seq<Block>, h: nat, off: nat, clock: nat, p: Peer, s: u32)
    requires h < |blocks| && off < |blocks[h].frames|
    ensures !Queueing(blocks, p, s) ==> !Queueing(blocks[h := Taken(blocks[h], off)], p, s)
    ensures !Queueing(blocks, p, s) ==> !Queueing(blocks[h := Deferring(blocks[h], off, clock)], p, s)
  {
  }

  /** Blocks that lose frames, or keep them, queue nothing new. */
  lemma FewerFrames(blocks: seq<Block>, blocks': seq<Block>, p: Peer, s: u32)
    requires |blocks'| == |blocks|
    requires forall h :: 0 <= h < |blocks| ==> blocks'[h].frames == blocks[h].frames || blocks'[h].frames == []
    ensures !Queueing(blocks, p, s) ==> !Queueing(blocks', p, s)
  {
  }

  lemma DeliverQueues(blocks: seq<Block>, f: Frame, p: Peer, s: u32)
    requires !(f.src == p && f.seqNo == s)
    ensures !Queueing(blocks, p, s) ==> !Queueing(Deliver(blocks, f), p, s)
  {
    var blocks' := Deliver(blocks, f);
    forall h, i | 0 <= h < |blocks'| && 0 <= i < |blocks'[h].frames|
      ensures blocks'[h].frames[i] == f || (i < |blocks[h].frames| && blocks'[h].frames[i] == blocks[h].frames[i])
    {
    }
  }

  lemma {:induction false} NoReleaseSilent(items: seq<Item>, p: Peer)
    requires NoRelease(items)
    ensures Releases(items, p) == []
  {
    if items != [] {
      assert !IsRelease(items[0]);
      forall k | 0 <= k < |items[1..]| ensures !IsRelease(items[1..][k]) {
        assert items[1..][k] == items[k + 1];
      }
      NoReleaseSilent(items[1..], p);
    }
  }

  /** What a call other than a collect does to the peer's entry, and to a number that is
      remembered and not queued. */
  ghost predicate Undisturbed(e: Engine, e': Engine, p: Peer, s: u32) {
    && SameEntry(e.rx.stations, e'.rx.stations, p)
    && (Remembered(e, p, s) && !Queueing(e.rx.blocks, p, s) ==> !Queueing(e'.rx.blocks, p, s))
  }

  lemma DataUndisturbed(e: Engine, src: Peer, d: Datagram, ok: bool, p: Peer, s: u32)
    requires FindPeer(e.rx.stations, p) >= 0 && SameEntry(e.rx.stations, Learn(e.rx, src), p)
    ensures Undisturbed(e, e.(rx := ReceiveData(e.rx, src, d, ok).st), p, s)
  {
    hide Deliver, DeliveryOf, Learn, Queueing;
    var m := Learn(e.rx, src);
    var i := FindPeer(m, src);
    if i >= 0 {
      var f := NewFrame(src, d.seqNo, m[i].stn, m[i].net, d);
      if f.src != p || f.seqNo != s {
        DeliverQueues(e.rx.blocks, f, p, s);
      }
    }
  }

  lemma InputUndisturbed(e: Engine, ev: Event, p: Peer, s: u32)
    requires ev.DoInput? && OnWire(p) && FindPeer(e.rx.stations, p) >= 0 && KeepsEntry(e, ev, p)
    ensures Undisturbed(e, Step(e, ev), p, s)
  {
    hide ReceiveData, ReceiveImm4, ReceiveImmediate, ReceiveReply, Deliver, Learn, SameEntry, Queueing;
    EntryRefl(e.rx.stations, p);
    if e.initialised && |ev.dgram| >= HDR_SIZE {
      var d := Decode(ev.dgram).value;
      if IsData(ev) && !IsImm4(d.port, d.ctrl) {
        LearnElsewhere(e, ev, p);
        DataUndisturbed(e, ev.src, d, ev.ok, p, s);
      } else if d.kind == TYPE_BROADCAST {
        var j := FindPeer(e.rx.stations, ev.src);
        DeliverQueues(e.rx.blocks, if j < 0 then NewFrame(LOCAL, 0, 0, 0, d)
                      else NewFrame(LOCAL, 0, e.rx.stations[j].stn, e.rx.stations[j].net, d), p, s);
      }
    }
  }

  lemma TransmitUndisturbed(e: Engine, kind: byte, net: bv8, stn: bv8, ctrl: byte, port: byte, data: seq<byte>,
                            hasBuf: bool, replyMax: nat, ok: bool, p: Peer, s: u32)
    requires OnWire(p)
    ensures Undisturbed(e, TxBegin(e, kind, net, stn, ctrl, port, data, hasBuf, replyMax, ok).0, p, s)
  {
    hide Deliver, DeliveryOf, Looped, Resolve, Finish, AllocSeq, SameEntry, Queueing;
    EntryRefl(e.rx.stations, p);
    DeliverQueues(e.rx.blocks, NewFrame(LOCAL, 0, e.test.stn, e.test.net, Datagram(kind, port, ctrl, 0, data)), p, s);
  }

  lemma BlocksUndisturbed(e: Engine, ev: Event, p: Peer, s: u32)
    requires ev.DoOpen? || ev.DoClose? || ev.DoRxPoll? || ev.DoTick?
    ensures Undisturbed(e, Step(e, ev), p, s)
  {
    hide SameEntry, Queueing, HasTarget, TickBlock;
    EntryRefl(e.rx.stations, p);
    var blocks' := Step(e, ev).rx.blocks;
    if ev.DoTick? {
      assert forall h :: 0 <= h < |e.rx.blocks| ==> blocks'[h] == TickBlock(e.rx.blocks[h], e.clock + ev.ms);
      TickKeepsFrames(e.rx.blocks, e.clock + ev.ms);
    }
    FewerFrames(e.rx.blocks, blocks', p, s);
  }

  lemma TickKeepsFrames(blocks: seq<Block>, clock: nat)
    ensures forall h :: 0 <= h < |blocks| ==> TickBlock(blocks[h], clock).frames == blocks[h].frames
  {
  }

  lemma OthersUndisturbed(e: Engine, ev: Event, p: Peer, s: u32)
    requires !ev.DoCollect? && OnWire(p) && FindPeer(e.rx.stations, p) >= 0 && KeepsEntry(e, ev, p)
    ensures Undisturbed(e, Step(e, ev), p, s)
  {
    hide Undisturbed, TxBegin, PokeOnWire, UdpInput;
    match ev
    case DoInput(_, _, _) => InputUndisturbed(e, ev, p, s);
    case DoTx(net, stn, ctrl, port, data, ok) =>
      TransmitUndisturbed(e, TYPE_DATA, net, stn, ctrl, port, data, false, 0, ok, p, s);
    case DoImmediate(net, stn, ctrl, data, hasBuf, replyMax, ok) =>
      SameUndisturbed(e, e, p, s);
      if 4 <= |data| <= MAX_DATA - 4 {
        TransmitUndisturbed(e, TYPE_DATA, net, stn, ctrl, 0, PokeOnWire(data), false, 0, ok, p, s);
      }
      TransmitUndisturbed(e, TYPE_DATA, net, stn, ctrl, 0, data, false, 0, ok, p, s);
      TransmitUndisturbed(e, TYPE_IMMEDIATE, net, stn, ctrl, 0, data, hasBuf, replyMax, ok, p, s);
    case _ =>
      if ev.DoOpen? || ev.DoClose? || ev.DoRxPoll? || ev.DoTick? {
        hide Step;
        BlocksUndisturbed(e, ev, p, s);
      } else {
        ConfigUndisturbed(e, ev, p, s);
      }
  }

  lemma SameUndisturbed(e: Engine, e': Engine, p: Peer, s: u32)
    requires e'.rx.stations == e.rx.stations && e'.rx.blocks == e.rx.blocks
    ensures Undisturbed(e, e', p, s)
  {
    hide Queueing;
    EntryRefl(e.rx.stations, p);
  }

  lemma ConfigUndisturbed(e: Engine, ev: Event, p: Peer, s: u32)
    requires FindPeer(e.rx.stations, p) >= 0 && KeepsEntry(e, ev, p)
    requires ev.DoMapAdd? || ev.DoAddressing? || ev.DoTest? || ev.DoMachineId? || ev.DoHostImm? || ev.DoImmPoll? ||
             ev.DoBroadcast? || ev.DoImmReply? || ev.DoPoll?
    ensures Undisturbed(e, Step(e, ev), p, s)
  {
    hide Queueing, MapAdd, Copies, Reap, Timer, ReplyCommand, SameEntry, AllocSeq;
    EntryRefl(e.rx.stations, p);
    if ev.DoMapAdd? {
      MapAddElsewhere(e.rx.stations, ev.net, ev.stn, ev.peer, p);
    }
  }

  // ---- whole runs -------------------------------------------------------------

  lemma CollectStep(e: Engine, ev: Event)
    requires ev.DoCollect?
    ensures var o := Collect(e.rx, ev.h, ev.accept, e.clock, ev.ok);
            Step(e, ev).rx == o.st && Step(e, ev).log == e.log + o.items
  {
    hide Collect;
  }

  lemma CollectKeepsTraced(e: Engine, ev: Event, p: Peer, rel: seq<Frame>)
    requires ev.DoCollect? && Traced(e, p, rel)
    ensures e.log <= Step(e, ev).log && Traced(Step(e, ev), p, rel + ReleasedSince(e, Step(e, ev), p))
  {
    hide Step, Collect, RxInv, Queueing, Releases;
    StepKeepsRx(e, ev);
    CollectStep(e, ev);
    var e' := Step(e, ev);
    var o := Collect(e.rx, ev.h, ev.accept, e.clock, ev.ok);
    assert e'.log[|e.log|..] == o.items;
    var s := if rel == [] then 0 else Last(rel).seqNo;
    var f := CollectTraced(e.rx, ev.h, ev.accept, e.clock, ev.ok, p, s);
    if f.None? {
      assert rel + [] == rel;
    } else {
      StampRemembers(e, e', p, f.value.seqNo);
      assert Last(rel + [f.value]) == f.value;
    }
  }

  lemma StepKeepsTraced(e: Engine, ev: Event, p: Peer, rel: seq<Frame>)
    requires Traced(e, p, rel) && KeepsEntry(e, ev, p)
    ensures e.log <= Step(e, ev).log && Traced(Step(e, ev), p, rel + ReleasedSince(e, Step(e, ev), p))
  {
    hide Step, RxInv, Queueing, Releases, KeepsEntry;
    if ev.DoCollect? {
      hide Traced;
      CollectKeepsTraced(e, ev, p, rel);
    } else {
      StepKeepsRx(e, ev);
      OthersReleaseNothing(e, ev);
      NoReleaseSilent(Step(e, ev).log[|e.log|..], p);
      OthersUndisturbed(e, ev, p, if rel == [] then 0 else Last(rel).seqNo);
      assert rel + [] == rel;
    }
  }

  lemma SinceAppends(e: Engine, e': Engine, e'': Engine, p: Peer)
    requires e.log <= e'.log <= e''.log
    ensures ReleasedSince(e, e'', p) == ReleasedSince(e, e', p) + ReleasedSince(e', e'', p)
  {
    hide Releases;
    assert e''.log[|e.log|..] == e'.log[|e.log|..] + e''.log[|e'.log|..];
    ReleasesAppend(e'.log[|e.log|..], e''.log[|e'.log|..], p);
  }

  lemma {:induction false} RunKeepsTraced(e: Engine, run: seq<Event>, p: Peer, rel: seq<Frame>)
    requires Traced(e, p, rel) && KeepsEntryAll(e, run, p)
    ensures e.log <= Continue(e, run).log && Traced(Continue(e, run), p, rel + ReleasedSince(e, Continue(e, run), p))
    decreases |run|
  {
    hide Step, Traced, ReleasedSince, KeepsEntry;
    if run == [] {
      NothingSince(e, p);
      assert rel + [] == rel;
    } else {
      var e' := Step(e, run[0]);
      StepKeepsTraced(e, run[0], p, rel);
      RunKeepsTraced(e', run[1..], p, rel + ReleasedSince(e, e', p));
      SinceAppends(e, e', Continue(e, run), p);
      assert rel + ReleasedSince(e, e', p) + ReleasedSince(e', Continue(e, run), p)
          == rel + (ReleasedSince(e, e', p) + ReleasedSince(e', Continue(e, run), p));
    }
  }

  lemma NothingSince(e: Engine, p: Peer)
    ensures ReleasedSince(e, e, p) == []
  {
    assert e.log[|e.log|..] == [];
  }

  lemma ReachedTraced(before: seq<Event>, run: seq<Event>, p: Peer)
    requires OnWire(p) && FindPeer(Exec(before).rx.stations, p) >= 0 && KeepsEntryAll(Exec(before), run, p)
    ensures var e := Continue(Exec(before), run); Traced(e, p, ReleasedSince(Exec(before), e, p))
  {
    RxInvHolds(before);
    hide Exec, Continue, KeepsEntryAll, ReleasedSince;
    RunKeepsTraced(Exec(before), run, p, []);
    var rel := ReleasedSince(Exec(before), Continue(Exec(before), run), p);
    assert [] + rel == rel;
  }

  /** Whatever the peer sends: two of its frames that leave the queue one right after the
      other carry different numbers. */
  lemma NeverTwiceRunning(before: seq<Event>, run: seq<Event>, p: Peer, i: nat)
    requires OnWire(p) && FindPeer(Exec(before).rx.stations, p) >= 0 && KeepsEntryAll(Exec(before), run, p)
    requires 0 < i < |ReleasedSince(Exec(before), Continue(Exec(before), run), p)|
    ensures var rel := ReleasedSince(Exec(before), Continue(Exec(before), run), p); rel[i - 1].seqNo != rel[i].seqNo
  {
    ReachedTraced(before, run, p);
    hide Exec, Continue, KeepsEntryAll, ReleasedSince;
  }

  /** The frame a DATA datagram of a mapped peer would be queued as. */
  ghost function FrameFrom(e: Engine, p: Peer, d: Datagram): Frame
    requires FindPeer(e.rx.stations, p) >= 0
  {
    var m := e.rx.stations[FindPeer(e.rx.stations, p)];
    NewFrame(p, d.seqNo, m.stn, m.net, d)
  }

  lemma DataQueued(e: Engine, p: Peer, d: Datagram, ok: bool)
    requires FindPeer(e.rx.stations, p) >= 0 && Ordinary(d)
    ensures UdpInput(e, p, Encode(d), ok).rx.blocks != e.rx.blocks <==>
            e.initialised && !Queueing(e.rx.blocks, p, d.seqNo) && !Remembered(e, p, d.seqNo) &&
            DeliveryOf(e.rx.blocks, FrameFrom(e, p, d)) == Queued
  {
    DecodeEncode(d);
    hide Decode, Encode, Queueing, DeliveryOf;
    assert Learn(e.rx, p) == e.rx.stations;
    var f := FrameFrom(e, p, d);
    if DeliveryOf(e.rx.blocks, f) == Queued {
      DeliverChanges(e.rx.blocks, f);
    }
  }

  lemma DeliverChanges(blocks: seq<Block>, f: Frame)
    requires DeliveryOf(blocks, f) == Queued
    ensures Deliver(blocks, f) != blocks
  {
    var n := Match(blocks, f);
    assert |Deliver(blocks, f)[n].frames| == |blocks[n].frames| + 1;
  }

  /** Exactly when a copy is queued, over every run that keeps the peer's entry and in
      which a frame of the peer was released: it is not queued now, the frame released
      last has another number, and a block takes it. So a message once released is
      queued again if and only if another of the peer's was released after it. */
  lemma QueuedExactlyWhen(before: seq<Event>, run: seq<Event>, p: Peer, d: Datagram, ok: bool)
    requires OnWire(p) && FindPeer(Exec(before).rx.stations, p) >= 0 && KeepsEntryAll(Exec(before), run, p)
    requires Ordinary(d)
    requires ReleasedSince(Exec(before), Continue(Exec(before), run), p) != []
    ensures var e := Continue(Exec(before), run);
            && FindPeer(e.rx.stations, p) >= 0
            && (UdpInput(e, p, Encode(d), ok).rx.blocks != e.rx.blocks <==>
                e.initialised && !Queueing(e.rx.blocks, p, d.seqNo) &&
                Last(ReleasedSince(Exec(before), e, p)).seqNo != d.seqNo &&
                DeliveryOf(e.rx.blocks, FrameFrom(e, p, d)) == Queued)
  {
    ReachedTraced(before, run, p);
    hide Exec, Continue, KeepsEntryAll, ReleasedSince, UdpInput, Queueing, DeliveryOf, RxInv, Alternates;
    DataQueued(Continue(Exec(before), run), p, d, ok);
  }

  // ---- a sender that gives up ---------------------------------------------------

  const PEER := Peer(Ip(10, 0, 0, 1), DEFAULT_UDP_PORT)

  /** A one-byte message on its own Econet port. */
  function Message(seqNo: u32, port: byte): Datagram {
    Datagram(TYPE_DATA, port, 0, seqNo, [port])
  }

  function QueuedAs(seqNo: u32, port: byte): Frame {
    NewFrame(PEER, seqNo, 1, 0, Message(seqNo, port))
  }

  /** The receive side with one peer mapped and one block open. */
  function OneBlock(last: u32, valid: bool, frames: seq<Frame>, deferred: map<Stream, nat>): Rx {
    Rx([Station(0, 1, PEER, last, valid)], NO_ROUTES,
       [OpenBlock(0, WILDCARD, WILDCARD, [0]).(frames := frames, deferred := deferred), CLOSED], EMPTY_RX.condemned)
  }

  function EngineWith(clock: nat, rx: Rx, log: seq<Item>): Engine {
    Init(BOOT).(clock := clock, rx := rx, log := log)
  }

  function Arrival4(): Event {
    DoInput(PEER, Encode(Message(4, 1)), true)
  }

  function Arrival8(): Event {
    DoInput(PEER, Encode(Message(8, 2)), true)
  }

  lemma Begins(run: seq<Event>)
    requires run == [DoInit] + [DoMapAdd(0, 1, PEER)] + [DoOpen(0, 0, WILDCARD, WILDCARD, [0])]
    ensures Exec(run) == EngineWith(0, OneBlock(0, false, [], map[]), [Reset])
  {
    hide Exec;
    var open := DoOpen(0, 0, WILDCARD, WILDCARD, [0]);
    ExecMore([], DoInit);
    assert [] + [DoInit] == [DoInit];
    ExecMore([DoInit], DoMapAdd(0, 1, PEER));
    ExecMore([DoInit] + [DoMapAdd(0, 1, PEER)], open);
    var e := Init(BOOT);
    assert FindAddr(e.rx.stations, 0, 1) == -1;
    var e2 := Step(e, DoMapAdd(0, 1, PEER));
    assert e2.rx.stations == [Station(0, 1, PEER, 0, false)];
    assert Step(e2, open).rx.blocks == OneBlock(0, false, [], map[]).blocks;
  }

  lemma ExecMore(run: seq<Event>, ev: Event)
    ensures Exec([]) == BOOT && Exec(run + [ev]) == Step(Exec(run), ev)
  {
    hide Step;
    assert (run + [ev])[..|run|] == run;
  }

  lemma Arrives(clock: nat, last: u32, valid: bool, frames: seq<Frame>, deferred: map<Stream, nat>, log: seq<Item>,
                seqNo: u32, port: byte)
    requires |frames| < RX_QUEUE && !(valid && last == seqNo) && port > 0
    requires forall i :: 0 <= i < |frames| ==> frames[i].seqNo != seqNo
    ensures Step(EngineWith(clock, OneBlock(last, valid, frames, deferred), log),
                 DoInput(PEER, Encode(Message(seqNo, port)), true))
         == EngineWith(clock, OneBlock(last, valid, frames + [QueuedAs(seqNo, port)], deferred), log)
  {
    var r := OneBlock(last, valid, frames, deferred);
    var f := QueuedAs(seqNo, port);
    ReceiveOne(last, valid, frames, deferred, seqNo, port);
    DecodeEncode(Message(seqNo, port));
    hide ReceiveData, Encode, Decode, OneBlock, QueuedAs;
    assert log + [] == log;
  }

  lemma ReceiveOne(last: u32, valid: bool, frames: seq<Frame>, deferred: map<Stream, nat>, seqNo: u32, port: byte)
    requires |frames| < RX_QUEUE && !(valid && last == seqNo)
    requires forall i :: 0 <= i < |frames| ==> frames[i].seqNo != seqNo
    ensures ReceiveData(OneBlock(last, valid, frames, deferred), PEER, Message(seqNo, port), true)
         == Out(OneBlock(last, valid, frames + [QueuedAs(seqNo, port)], deferred), [])
  {
    var r := OneBlock(last, valid, frames, deferred);
    var f := QueuedAs(seqNo, port);
    assert FindPeer(r.stations, PEER) == 0 && Learn(r, PEER) == r.stations;
    assert Match(r.blocks, f) == 0;
    assert !Queueing(r.blocks, PEER, seqNo);
    assert Deliver(r.blocks, f) == OneBlock(last, valid, frames + [f], deferred).blocks;
  }

  lemma IsAccepted(clock: nat, last: u32, valid: bool, frames: seq<Frame>, deferred: map<Stream, nat>, log: seq<Item>,
                   off: nat, ok: bool)
    requires off < |frames| && frames[off].src == PEER && off == FirstEligible(frames, deferred)
    ensures Step(EngineWith(clock, OneBlock(last, valid, frames, deferred), log), DoCollect(0, true, ok))
         == EngineWith(clock, OneBlock(frames[off].seqNo, true, Remove(frames, off), deferred),
                       log + [Accepted(frames[off]), AckFor(frames[off], ok)])
  {
    CollectOne(last, valid, frames, deferred, off, clock, ok);
    hide Collect, OneBlock, AckFor;
    OneOpen(last, valid, frames, deferred);
  }

  lemma OneOpen(last: u32, valid: bool, frames: seq<Frame>, deferred: map<Stream, nat>)
    ensures IsOpen(OneBlock(last, valid, frames, deferred), 0)
  {
  }

  lemma CollectOne(last: u32, valid: bool, frames: seq<Frame>, deferred: map<Stream, nat>, off: nat, clock: nat,
                   ok: bool)
    requires off < |frames| && frames[off].src == PEER && off == FirstEligible(frames, deferred)
    ensures Collect(OneBlock(last, valid, frames, deferred), 0, true, clock, ok)
         == Out(OneBlock(frames[off].seqNo, true, Remove(frames, off), deferred),
                [Accepted(frames[off]), AckFor(frames[off], ok)])
  {
    var r := OneBlock(last, valid, frames, deferred);
    assert FindPeer(r.stations, PEER) == 0;
    assert SlotOf(r.condemned, StreamOf(frames[off])) < 0;
    assert Target(r.blocks[0]) == off;
    var r' := OneBlock(frames[off].seqNo, true, Remove(frames, off), deferred);
    assert Stamp(r.stations, PEER, frames[off].seqNo) == r'.stations;
    assert r.blocks[0 := Taken(r.blocks[0], off)] == r'.blocks;
  }

  lemma IsTurnedDown(a: Frame, b: Frame, log: seq<Item>)
    requires a.src == PEER && a.rejects == 0
    ensures Step(EngineWith(0, OneBlock(0, false, [a, b], map[]), log), DoCollect(0, false, true))
         == EngineWith(0, OneBlock(0, false, [a.(rejects := 1), b], map[StreamOf(a) := DEFER_DELAY_MS]), log)
  {
    RejectFirst(a, b);
    hide Collect, OneBlock;
    OneOpen(0, false, [a, b], map[]);
    assert log + [] == log;
  }

  lemma RejectFirst(a: Frame, b: Frame)
    requires a.src == PEER && a.rejects == 0
    ensures Collect(OneBlock(0, false, [a, b], map[]), 0, false, 0, true)
         == Out(OneBlock(0, false, [a.(rejects := 1), b], map[StreamOf(a) := DEFER_DELAY_MS]), [])
  {
    var r := OneBlock(0, false, [a, b], map[]);
    assert SlotOf(r.condemned, StreamOf(a)) < 0;
    assert Target(r.blocks[0]) == 0;
    var a' := a.(rejects := 1);
    assert [a, b][0 := a'] == [a', b];
    assert r.blocks[0 := Deferring(r.blocks[0], 0, 0)]
        == OneBlock(0, false, [a', b], map[StreamOf(a) := DEFER_DELAY_MS]).blocks;
  }

  lemma DeferralLapses(last: u32, valid: bool, frames: seq<Frame>, s: Stream, log: seq<Item>)
    ensures Step(EngineWith(0, OneBlock(last, valid, frames, map[s := DEFER_DELAY_MS]), log), DoTick(DEFER_DELAY_MS))
         == EngineWith(DEFER_DELAY_MS, OneBlock(last, valid, frames, map[]), log)
  {
    var blocks := OneBlock(last, valid, frames, map[s := DEFER_DELAY_MS]).blocks;
    assert TickBlock(blocks[0], DEFER_DELAY_MS).deferred == map[];
    assert TickBlock(blocks[1], DEFER_DELAY_MS).deferred == map[];
    assert TickBlocks(blocks, DEFER_DELAY_MS) == OneBlock(last, valid, frames, map[]).blocks;
  }

  /** Message 4 arrives and message 8 after it. */
  function TwoArrive(): seq<Event> {
    [DoInit] + [DoMapAdd(0, 1, PEER)] + [DoOpen(0, 0, WILDCARD, WILDCARD, [0])] + [Arrival4()] + [Arrival8()]
  }

  /** Message 4 is turned down once and its stream deferred; message 8 is accepted but
      its ACK is lost; the deferral lapses and message 4 is accepted. */
  function SecondFirst(): seq<Event> {
    TwoArrive() + [DoCollect(0, false, true)] + [DoCollect(0, true, false)] + [DoTick(DEFER_DELAY_MS)] +
    [DoCollect(0, true, true)]
  }

  lemma TwoQueued()
    ensures Exec(TwoArrive()) == EngineWith(0, OneBlock(0, false, [QueuedAs(4, 1), QueuedAs(8, 2)], map[]), [Reset])
  {
    hide Exec, EngineWith, OneBlock, QueuedAs, Step, Encode;
    var run := [DoInit] + [DoMapAdd(0, 1, PEER)] + [DoOpen(0, 0, WILDCARD, WILDCARD, [0])];
    Begins(run);
    ExecMore(run, Arrival4());
    Arrives(0, 0, false, [], map[], [Reset], 4, 1);
    assert [] + [QueuedAs(4, 1)] == [QueuedAs(4, 1)];
    ExecMore(run + [Arrival4()], Arrival8());
    NumbersDiffer();
    Arrives(0, 0, false, [QueuedAs(4, 1)], map[], [Reset], 8, 2);
    assert [QueuedAs(4, 1)] + [QueuedAs(8, 2)] == [QueuedAs(4, 1), QueuedAs(8, 2)];
  }

  lemma NumbersDiffer()
    ensures QueuedAs(4, 1).seqNo == 4 && QueuedAs(8, 2).seqNo == 8
    ensures QueuedAs(4, 1).src == QueuedAs(8, 2).src == PEER && QueuedAs(4, 1).rejects == 0
    ensures StreamOf(QueuedAs(4, 1)) != StreamOf(QueuedAs(8, 2))
  {
  }

  lemma RemoveOne<T>(a: T, b: T)
    ensures Remove([a, b], 1) == [a] && Remove([a], 0) == []
  {
  }

  lemma EligiblePast(a: Frame, b: Frame)
    requires a.src == PEER && b.src == PEER && StreamOf(a) != StreamOf(b)
    ensures FirstEligible([a, b], map[StreamOf(a) := DEFER_DELAY_MS]) == 1 && FirstEligible([a], map[]) == 0
  {
    var deferred := map[StreamOf(a) := DEFER_DELAY_MS];
    assert !Eligible([a, b][0], deferred) && Eligible([a, b][1], deferred);
    assert FirstEligible([a, b], deferred, 1) == 1;
  }

  lemma SecondIsFirst()
    ensures var a, b := QueuedAs(4, 1).(rejects := 1), QueuedAs(8, 2);
            Exec(SecondFirst()) ==
            EngineWith(DEFER_DELAY_MS, OneBlock(4, true, [], map[]),
                       [Reset] + [Accepted(b), AckFor(b, false)] + [Accepted(a), AckFor(a, true)])
  {
    hide Exec, EngineWith, OneBlock, QueuedAs, Step, TwoArrive, FirstEligible, AckFor, Remove;
    var a, b := QueuedAs(4, 1).(rejects := 1), QueuedAs(8, 2);
    var r1 := TwoArrive() + [DoCollect(0, false, true)];
    var r2 := r1 + [DoCollect(0, true, false)];
    var r3 := r2 + [DoTick(DEFER_DELAY_MS)];
    TwoQueued();
    NumbersDiffer();
    EligiblePast(a, b);
    RemoveOne(a, b);
    ExecMore(TwoArrive(), DoCollect(0, false, true));
    IsTurnedDown(QueuedAs(4, 1), b, [Reset]);
    ExecMore(r1, DoCollect(0, true, false));
    IsAccepted(0, 0, false, [a, b], map[StreamOf(a) := DEFER_DELAY_MS], [Reset], 1, false);
    ExecMore(r2, DoTick(DEFER_DELAY_MS));
    DeferralLapses(8, true, [a], StreamOf(a), [Reset] + [Accepted(b), AckFor(b, false)]);
    ExecMore(r3, DoCollect(0, true, true));
    IsAccepted(DEFER_DELAY_MS, 8, true, [a], map[], [Reset] + [Accepted(b), AckFor(b, false)], 0, true);
  }

  /** A sender that moves on without its ACK breaks at-most-once delivery. Once message 4
      is accepted it is all the duplicate filter remembers, so a repeat of message 8,
      whose ACK was lost, is queued and accepted a second time. */
  lemma GivingUpRepeats()
    ensures var a, b := QueuedAs(4, 1).(rejects := 1), QueuedAs(8, 2);
            Exec(SecondFirst() + [Arrival8()] + [DoCollect(0, true, true)]).log ==
            [Reset] + [Accepted(b), AckFor(b, false)] + [Accepted(a), AckFor(a, true)] + [Accepted(b), AckFor(b, true)]
  {
    var log := Exec(SecondFirst()).log;
    hide Exec, OneBlock, QueuedAs, Step, SecondFirst, FirstEligible, AckFor, Remove, Encode;
    var a, b := QueuedAs(4, 1).(rejects := 1), QueuedAs(8, 2);
    SecondIsFirst();
    NumbersDiffer();
    EligiblePast(b, a);
    RemoveOne(b, a);
    ExecMore(SecondFirst(), Arrival8());
    Arrives(DEFER_DELAY_MS, 4, true, [], map[], log, 8, 2);
    assert [] + [b] == [b];
    ExecMore(SecondFirst() + [Arrival8()], DoCollect(0, true, true));
    IsAccepted(DEFER_DELAY_MS, 4, true, [b], map[], log, 0, true);
  }
}
