/** The receive-side invariant, kept by every call. */
module AunRxInv {
  import opened Bytes
  import opened AunTypes
  import opened AunRx
  import opened AunTx
  import opened AunImm
  import opened AunQueue
  import opened AunSpec

  ghost predicate InQueue(blocks: seq<Block>, h: int, i: int) {
    0 <= h < |blocks| && 0 <= i < |blocks[h].frames|
  }

  ghost predicate SameKey(f: Frame, g: Frame) {
    f.src == g.src && f.seqNo == g.seqNo
  }

  /** No (source, sequence number) from the wire is queued twice, in any block. */
  ghost predicate DistinctKeys(blocks: seq<Block>) {
    forall h, i, k, j {:trigger InQueue(blocks, h, i), InQueue(blocks, k, j)} ::
      InQueue(blocks, h, i) && InQueue(blocks, k, j) && OnWire(blocks[h].frames[i].src) &&
      SameKey(blocks[h].frames[i], blocks[k].frames[j])
      ==> h == k && i == j
  }

  ghost predicate BlocksOk(blocks: seq<Block>, clock: nat) {
    |blocks| == RX_BLOCKS && forall h :: 0 <= h < |blocks| ==> BlockInv(blocks[h], clock)
  }

  /** A stream has at most one valid slot. */
  ghost predicate DistinctStreams(t: seq<Slot>) {
    forall i, j :: 0 <= i < j < |t| && t[i].valid && t[j].valid ==> t[i].stream != t[j].stream
  }

  ghost predicate RxInv(r: Rx, clock: nat) {
    && |r.condemned| == CONDEMN_SLOTS && |r.stations| <= MAP_MAX
    && BlocksOk(r.blocks, clock) && DistinctKeys(r.blocks) && DistinctStreams(r.condemned)
  }

  /** Storing an entry replaces the stream's own slot, so there is never a
      second one, and lifting always clears the condemnation. */
  lemma SlotTablesKeep(t: seq<Slot>, s: Stream, clock: nat, until: nat)
    requires DistinctStreams(t) && t != []
    ensures DistinctStreams(Expire(t, s, clock)) && DistinctStreams(Lift(t, s))
    ensures DistinctStreams(SetSlot(t, s, clock, until))
    ensures Listed(SetSlot(t, s, clock, until), s, clock) <==> clock < until
    ensures forall k :: 0 <= k < |t| ==> !(Lift(t, s)[k].valid && Lift(t, s)[k].stream == s)
  {
    var i := SlotOf(t, s);
    var v := if i >= 0 then i else Victim(t, clock);
    var t' := SetSlot(t, s, clock, until);
    assert forall k :: 0 <= k < |t| && k != v ==> t'[k] == t[k] && !(t[k].valid && t[k].stream == s);
    assert t'[v] == Slot(true, s, until);
    assert SlotOf(t', s) == v;
  }

  /** Changing a block without adding or moving frames keeps the keys distinct. */
  lemma SameFramesKeep(blocks: seq<Block>, h: nat, b: Block)
    requires h < |blocks| && DistinctKeys(blocks) && |b.frames| == |blocks[h].frames|
    requires forall i :: 0 <= i < |b.frames| ==> SameKey(b.frames[i], blocks[h].frames[i])
    ensures DistinctKeys(blocks[h := b])
  {
    var blocks' := blocks[h := b];
    forall k, i {:trigger InQueue(blocks', k, i)} | InQueue(blocks', k, i)
      ensures InQueue(blocks, k, i) && SameKey(blocks'[k].frames[i], blocks[k].frames[i])
    {
    }
  }

  /** Once removed, a wire frame's key is queued nowhere. */
  lemma DropFrame(blocks: seq<Block>, h: nat, off: nat)
    requires h < |blocks| && off < |blocks[h].frames| && DistinctKeys(blocks)
    ensures DistinctKeys(blocks[h := Taken(blocks[h], off)])
    ensures var f := blocks[h].frames[off];
            OnWire(f.src) ==> !Queueing(blocks[h := Taken(blocks[h], off)], f.src, f.seqNo)
  {
    var f := blocks[h].frames[off];
    var blocks' := blocks[h := Taken(blocks[h], off)];
    assert InQueue(blocks, h, off);
    forall k, i {:trigger InQueue(blocks', k, i)} | InQueue(blocks', k, i)
      ensures var i' := if k != h || i < off then i else i + 1;
              InQueue(blocks, k, i') && blocks'[k].frames[i] == blocks[k].frames[i'] && !(k == h && i' == off)
    {
    }
    if OnWire(f.src) && Queueing(blocks', f.src, f.seqNo) {
      var k, i :| 0 <= k < |blocks'| && 0 <= i < |blocks'[k].frames| &&
                  blocks'[k].frames[i].src == f.src && blocks'[k].frames[i].seqNo == f.seqNo;
      assert InQueue(blocks', k, i);
      assert false;
    }
  }

  lemma RejectKeeps(r: Rx, h: byte, off: nat, clock: nat, ok: bool)
    requires RxInv(r, clock) && IsOpen(r, h) && off < |r.blocks[h].frames|
    requires Eligible(r.blocks[h].frames[off], r.blocks[h].deferred)
    ensures RxInv(Reject(r, h, off, clock, ok).st, clock)
  {
    var b := r.blocks[h];
    var f := b.frames[off];
    SlotTablesKeep(r.condemned, StreamOf(f), clock, 0);
    if !OnWire(f.src) || f.rejects >= Budget(r, f, clock) {
      DropFrame(r.blocks, h, off);
      RemoveKeeps(b, off, clock);
      SlotTablesKeep(Expire(r.condemned, StreamOf(f), clock), StreamOf(f), clock, clock + CONDEMN_TTL_MS);
    } else {
      DeferKeeps(b, off, clock);
      SameFramesKeep(r.blocks, h, Deferring(b, off, clock));
    }
  }

  lemma AcceptKeeps(r: Rx, h: byte, off: nat, clock: nat, ok: bool)
    requires RxInv(r, clock) && IsOpen(r, h) && off < |r.blocks[h].frames|
    requires Eligible(r.blocks[h].frames[off], r.blocks[h].deferred)
    ensures RxInv(Accept(r, h, off, ok).st, clock)
  {
    DropFrame(r.blocks, h, off);
    RemoveKeeps(r.blocks[h], off, clock);
    SlotTablesKeep(r.condemned, StreamOf(r.blocks[h].frames[off]), clock, 0);
  }

  lemma CollectKeeps(r: Rx, h: byte, accept: bool, clock: nat, ok: bool)
    requires RxInv(r, clock)
    ensures RxInv(Collect(r, h, accept, clock, ok).st, clock)
  {
    if IsOpen(r, h) {
      var b := r.blocks[h];
      TargetIsOldest(b, clock);
      if !HasTarget(b) {
        SameFramesKeep(r.blocks, h, b.(presented := false));
      } else if accept {
        AcceptKeeps(r, h, Target(b), clock, ok);
      } else {
        RejectKeeps(r, h, Target(b), clock, ok);
      }
    }
  }

  lemma DeliverKeeps(blocks: seq<Block>, f: Frame, clock: nat)
    requires BlocksOk(blocks, clock) && DistinctKeys(blocks) && f.rejects == 0
    requires OnWire(f.src) ==> !Queueing(blocks, f.src, f.seqNo)
    ensures BlocksOk(Deliver(blocks, f), clock) && DistinctKeys(Deliver(blocks, f))
  {
    hide PresentedOk, DeferralsOk;
    var n := Match(blocks, f);
    var blocks' := Deliver(blocks, f);
    if DeliveryOf(blocks, f) == Queued {
      AppendKeeps(blocks[n], f, clock);
      forall k, i {:trigger InQueue(blocks', k, i)} | InQueue(blocks', k, i)
        ensures (k == n && i == |blocks[n].frames| && blocks'[k].frames[i] == f) ||
                (InQueue(blocks, k, i) && blocks'[k].frames[i] == blocks[k].frames[i] &&
                 (OnWire(f.src) ==> !SameKey(f, blocks[k].frames[i])))
      {
      }
    }
  }

  lemma DataKeeps(r: Rx, src: Peer, d: Datagram, clock: nat, ok: bool)
    requires RxInv(r, clock)
    ensures RxInv(ReceiveData(r, src, d, ok).st, clock)
  {
    var m := Learn(r, src);
    var i := FindPeer(m, src);
    if i >= 0 && !Queueing(r.blocks, src, d.seqNo) {
      DeliverKeeps(r.blocks, NewFrame(src, d.seqNo, m[i].stn, m[i].net, d), clock);
    }
  }

  lemma TickKeepsRx(r: Rx, clock: nat, later: nat)
    requires RxInv(r, clock) && clock <= later
    ensures RxInv(r.(blocks := TickBlocks(r.blocks, later)), later)
  {
    var blocks' := TickBlocks(r.blocks, later);
    forall h | 0 <= h < |blocks'| ensures BlockInv(blocks'[h], later) {
      TickKeeps(r.blocks[h], clock, later);
    }
    forall k, i {:trigger InQueue(blocks', k, i)} | InQueue(blocks', k, i)
      ensures InQueue(r.blocks, k, i) && blocks'[k].frames[i] == r.blocks[k].frames[i]
    {
    }
  }

  /** A block that starts over takes no key with it. */
  lemma FreshBlockKeeps(r: Rx, h: byte, b: Block, clock: nat)
    requires RxInv(r, clock) && h < |r.blocks| && b.frames == [] && BlockInv(b, clock)
    ensures RxInv(SetBlock(r, h, b), clock)
  {
    var blocks' := r.blocks[h := b];
    forall k, i {:trigger InQueue(blocks', k, i)} | InQueue(blocks', k, i)
      ensures InQueue(r.blocks, k, i) && blocks'[k].frames[i] == r.blocks[k].frames[i]
    {
    }
  }

  lemma PresentKeepsRx(r: Rx, h: byte, clock: nat)
    requires RxInv(r, clock) && h < |r.blocks|
    ensures RxInv(SetBlock(r, h, Present(r.blocks[h])), clock)
  {
    PresentKeeps(r.blocks[h], clock);
    SameFramesKeep(r.blocks, h, Present(r.blocks[h]));
  }

  ghost predicate RxOk(e: Engine) {
    RxInv(e.rx, e.clock)
  }

  lemma ReceiveKeepsRx(e: Engine, src: Peer, d: Datagram, ok: bool)
    requires RxOk(e)
    ensures RxOk(Receive(e, src, d, ok))
  {
    if d.kind == TYPE_DATA && !IsImm4(d.port, d.ctrl) {
      DataKeeps(e.rx, src, d, e.clock, ok);
    } else if d.kind == TYPE_BROADCAST {
      var i := FindPeer(e.rx.stations, src);
      var f := if i < 0 then NewFrame(LOCAL, 0, 0, 0, d)
      else NewFrame(LOCAL, 0, e.rx.stations[i].stn, e.rx.stations[i].net, d);
      DeliverKeeps(e.rx.blocks, f, e.clock);
    }
  }

  lemma TransmitKeepsRx(e: Engine, kind: byte, net: bv8, stn: bv8, ctrl: byte, port: byte,
                        data: seq<byte>, hasBuf: bool, replyMax: nat, ok: bool)
    requires RxOk(e)
    ensures RxOk(TxBegin(e, kind, net, stn, ctrl, port, data, hasBuf, replyMax, ok).0)
  {
    DeliverKeeps(e.rx.blocks, NewFrame(LOCAL, 0, e.test.stn, e.test.net, Datagram(kind, port, ctrl, 0, data)), e.clock);
  }

  lemma ImmediateKeepsRx(e: Engine, net: bv8, stn: bv8, ctrl: byte, data: seq<byte>,
                         hasBuf: bool, replyMax: nat, ok: bool)
    requires RxOk(e)
    ensures RxOk(Immediate(e, net, stn, ctrl, data, hasBuf, replyMax, ok).0)
  {
    if ctrl % 128 == CTRL_POKE {
      if 4 <= |data| <= MAX_DATA - 4 {
        TransmitKeepsRx(e, TYPE_DATA, net, stn, ctrl, 0, PokeOnWire(data), false, 0, ok);
      }
    } else if CTRL_IMM4_FIRST <= ctrl % 128 <= CTRL_IMM4_LAST {
      TransmitKeepsRx(e, TYPE_DATA, net, stn, ctrl, 0, data, false, 0, ok);
    } else {
      TransmitKeepsRx(e, TYPE_IMMEDIATE, net, stn, ctrl, 0, data, hasBuf, replyMax, ok);
    }
  }

  lemma BlockCallsKeepRx(e: Engine, h: byte, port: byte, stn: bv8, net: bv8, buf: seq<byte>)
    requires RxOk(e)
    ensures RxOk(RxOpen(e, h, port, stn, net, buf).0) && RxOk(RxClose(e, h).0) && RxOk(RxPoll(e, h).0)
  {
    if h < |e.rx.blocks| {
      assert BlockInv(OpenBlock(port, stn, net, buf), e.clock) && BlockInv(CLOSED, e.clock);
      hide BlockInv, HasTarget, Present;
      FreshBlockKeeps(e.rx, h, OpenBlock(port, stn, net, buf), e.clock);
      FreshBlockKeeps(e.rx, h, CLOSED, e.clock);
      PresentKeepsRx(e.rx, h, e.clock);
    }
  }

  /** The calls that leave the receive side alone, or only reconfigure it. */
  lemma OtherCallsKeepRx(e: Engine, ev: Event)
    requires RxOk(e)
    requires !(ev.DoOpen? || ev.DoClose? || ev.DoRxPoll? || ev.DoCollect? || ev.DoInput? || ev.DoTx? || ev.DoImmediate?)
    ensures RxOk(Step(e, ev))
  {
    hide RxOpen, RxClose, RxPoll, RxCollect, UdpInput, TxStart, Immediate, Reap, Timer, ReplyCommand, Take, Configure,
      AllocSeq, Copies, TickBlocks;
    match ev
    case DoTick(ms) => TickKeepsRx(e.rx, e.clock, e.clock + ms);
    case _ =>
  }

  lemma StepKeepsRx(e: Engine, ev: Event)
    requires RxOk(e)
    ensures RxOk(Step(e, ev))
  {
    hide RxInv, RxOpen, RxClose, RxPoll, Collect, Receive, TxBegin, Immediate;
    match ev
    case DoOpen(h, port, stn, net, buf) => BlockCallsKeepRx(e, h, port, stn, net, buf);
    case DoClose(h) => BlockCallsKeepRx(e, h, 0, 0, 0, []);
    case DoRxPoll(h) => BlockCallsKeepRx(e, h, 0, 0, 0, []);
    case DoCollect(h, accept, ok) => CollectKeeps(e.rx, h, accept, e.clock, ok);
    case DoInput(src, dgram, ok) => if |dgram| >= HDR_SIZE { ReceiveKeepsRx(e, src, Decode(dgram).value, ok); }
    case DoTx(net, stn, ctrl, port, data, ok) =>
      TransmitKeepsRx(e, TYPE_DATA, net, stn, ctrl, port, data, false, 0, ok);
    case DoImmediate(net, stn, ctrl, data, hasBuf, replyMax, ok) =>
      ImmediateKeepsRx(e, net, stn, ctrl, data, hasBuf, replyMax, ok);
    case _ =>
      hide Step;
      OtherCallsKeepRx(e, ev);
  }

  /** In every reachable state. */
  lemma {:induction false} RxInvHolds(run: seq<Event>)
    ensures RxOk(Exec(run))
  {
    if run != [] {
      hide Step, RxInv;
      RxInvHolds(run[..|run| - 1]);
      StepKeepsRx(Exec(run[..|run| - 1]), run[|run| - 1]);
    }
  }
}
