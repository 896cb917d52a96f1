/** ACK safety: nothing is confirmed to a sender before the host took it or its
    reject budget ran out, whatever the senders do. */
module AunAck {
  import opened Bytes
  import opened AunTypes
  import opened AunRx
  import opened AunTx
  import opened AunImm
  import opened AunQueue
  import opened AunSpec
  import opened AunRxInv
  import opened AunTxInv

  /** An ACK of an ordinary DATA datagram: not that of a 4-way immediate, which
      alone has port 0 and a control byte of 2 to 5. */
  ghost predicate DataAck(x: Item) {
    x.Sent? && x.d.kind == TYPE_ACK && !IsImm4(x.d.port, x.d.ctrl)
  }

  /** An accepted frame, or a shed one that was turned down as often as the smaller
      budget allows. */
  ghost predicate Released(x: Item) {
    x.Accepted? || (x.Shed? && x.f.rejects >= CONDEMN_RETRIES)
  }

  ghost predicate Release(x: Item, src: Peer, seqNo: u32) {
    Released(x) && x.f.src == src && x.f.seqNo == seqNo
  }

  ghost predicate ReleasedBefore(log: seq<Item>, k: int, src: Peer, seqNo: u32) {
    exists j :: 0 <= j < k && j < |log| && Release(log[j], src, seqNo)
  }

  ghost predicate AcksOk(log: seq<Item>) {
    forall k :: 0 <= k < |log| && DataAck(log[k]) ==> ReleasedBefore(log, k, log[k].to, log[k].d.seqNo)
  }

  /** What the duplicate filter remembers was indeed released. */
  ghost predicate StationsOk(m: seq<Station>, log: seq<Item>) {
    forall i :: 0 <= i < |m| && m[i].valid ==> ReleasedBefore(log, |log|, m[i].peer, m[i].last)
  }

  ghost predicate HeldOk(h: HostImm) {
    h.active && h.fromData ==> CTRL_IMM4_FIRST <= h.ctrl <= CTRL_IMM4_LAST
  }

  ghost predicate AckInv(e: Engine) {
    AcksOk(e.log) && StationsOk(e.rx.stations, e.log) && HeldOk(e.imm.himm)
  }

  /** A longer log forgets no release. */
  lemma Remembers(log: seq<Item>, items: seq<Item>, k: int, src: Peer, seqNo: u32)
    requires ReleasedBefore(log, k, src, seqNo)
    ensures ReleasedBefore(log + items, k, src, seqNo)
  {
    var j :| 0 <= j < k && j < |log| && Release(log[j], src, seqNo);
    assert (log + items)[j] == log[j];
  }

  lemma Extend(log: seq<Item>, items: seq<Item>, m: seq<Station>)
    requires AcksOk(log) && StationsOk(m, log)
    requires forall k :: 0 <= k < |items| && DataAck(items[k]) ==>
                           ReleasedBefore(log + items, |log| + k, items[k].to, items[k].d.seqNo)
    ensures AcksOk(log + items) && StationsOk(m, log + items)
  {
    var log' := log + items;
    forall k | 0 <= k < |log'| && DataAck(log'[k])
      ensures ReleasedBefore(log', k, log'[k].to, log'[k].d.seqNo)
    {
      if k < |log| {
        Remembers(log, items, k, log[k].to, log[k].d.seqNo);
      } else {
        assert log'[k] == items[k - |log|];
      }
    }
    forall i | 0 <= i < |m| && m[i].valid ensures ReleasedBefore(log', |log'|, m[i].peer, m[i].last) {
      var j :| 0 <= j < |log| && Release(log[j], m[i].peer, m[i].last);
      assert log'[j] == log[j];
    }
  }

  /** A release followed by its ACK keeps the invariant, and justifies the stamp. */
  lemma ReleaseKeeps(log: seq<Item>, m: seq<Station>, x: Item, ok: bool)
    requires AcksOk(log) && StationsOk(m, log) && Released(x)
    ensures var log' := log + [x, AckFor(x.f, ok)];
            AcksOk(log') && StationsOk(Stamp(m, x.f.src, x.f.seqNo), log')
  {
    var items := [x, AckFor(x.f, ok)];
    var log' := log + items;
    assert log'[|log|] == x;
    assert Release(log'[|log|], x.f.src, x.f.seqNo);
    Extend(log, items, m);
  }

  lemma CollectKeepsAck(e: Engine, h: byte, accept: bool, ok: bool)
    requires AckInv(e)
    ensures AckInv(RxCollect(e, h, accept, ok).0)
  {
    hide Taken, Deferring, Lift, SetSlot, Expire, Listed, Stamp;
    if IsOpen(e.rx, h) && HasTarget(e.rx.blocks[h]) {
      var f := e.rx.blocks[h].frames[Target(e.rx.blocks[h])];
      ReleaseKeeps(e.log, e.rx.stations, Accepted(f), ok);
      if f.rejects >= Budget(e.rx, f, e.clock) {
        ReleaseKeeps(e.log, e.rx.stations, Shed(f), ok);
      }
      Extend(e.log, [Accepted(f)], e.rx.stations);
      assert e.log + [] == e.log;
    } else {
      assert e.log + [] == e.log;
    }
  }

  /** An entry is forgotten when it is re-mapped. */
  lemma MapAddKeeps(m: seq<Station>, net: bv8, stn: bv8, peer: Peer, log: seq<Item>)
    requires StationsOk(m, log)
    ensures StationsOk(MapAdd(m, net, stn, peer).0, log)
  {
  }

  /** A re-ACK repeats the confirmation of a frame already released. */
  lemma DataKeepsAck(r: Rx, log: seq<Item>, src: Peer, d: Datagram, ok: bool)
    requires AcksOk(log) && StationsOk(r.stations, log)
    ensures var o := ReceiveData(r, src, d, ok);
            AcksOk(log + o.items) && StationsOk(o.st.stations, log + o.items)
  {
    hide Deliver, DeliveryOf, Queueing;
    var o := ReceiveData(r, src, d, ok);
    var m := Learn(r, src);
    MapAddKeeps(r.stations, r.routes.learnNet, src.ip.d, src, log);
    if o.items != [] && DataAck(o.items[0]) {
      Remembers(log, o.items, |log|, src, d.seqNo);
    }
    Extend(log, o.items, m);
  }

  /** Nothing the immediate machinery sends is an ordinary ACK. */
  ghost predicate NoDataAck(items: seq<Item>) {
    forall k :: 0 <= k < |items| ==> !DataAck(items[k])
  }

  lemma ImmKeepsAck(m: ImmSide, src: Peer, d: Datagram, data: seq<byte>, clock: nat, ok: bool)
    requires HeldOk(m.himm)
    ensures IsImm4(d.port, d.ctrl) ==>
              var o := ReceiveImm4(m, src, d, clock, ok); NoDataAck(o.items) && HeldOk(o.st.himm)
    ensures var o := ReceiveImmediate(m, src, d, clock, ok); NoDataAck(o.items) && HeldOk(o.st.himm)
    ensures var o := ReplyCommand(m, data, clock, ok); NoDataAck(o.items) && HeldOk(o.st.himm)
    ensures var o := Reap(m, clock, ok); NoDataAck(o.items) && HeldOk(o.st.himm)
  {
    hide ImmLenOk;
  }

  lemma ReceiveKeepsAck(e: Engine, src: Peer, d: Datagram, ok: bool)
    requires AckInv(e)
    ensures AckInv(Receive(e, src, d, ok))
  {
    hide ReceiveData, ReceiveImm4, ReceiveImmediate, ReceiveReply, Deliver;
    var m := e.rx.stations;
    ImmKeepsAck(e.imm, src, d, [], e.clock, ok);
    if d.kind == TYPE_DATA && IsImm4(d.port, d.ctrl) {
      Extend(e.log, ReceiveImm4(e.imm, src, d, e.clock, ok).items, m);
    } else if d.kind == TYPE_DATA {
      DataKeepsAck(e.rx, e.log, src, d, ok);
    } else if d.kind == TYPE_IMMEDIATE {
      Extend(e.log, ReceiveImmediate(e.imm, src, d, e.clock, ok).items, m);
      Extend(e.log, Answered(src, ImmReply(d.ctrl, d.seqNo, e.machineId), ok), m);
    }
  }

  lemma TransmitKeepsAck(e: Engine, kind: byte, net: bv8, stn: bv8, ctrl: byte, port: byte,
                         data: seq<byte>, hasBuf: bool, replyMax: nat, ok: bool)
    requires AckInv(e) && kind != TYPE_ACK
    ensures AckInv(TxBegin(e, kind, net, stn, ctrl, port, data, hasBuf, replyMax, ok).0)
  {
    hide Looped, Deliver, DeliveryOf, Finish, AllocSeq;
    var to := Resolve(e.rx, net, stn);
    if to.Some? {
      var o := Launch(e.tx, kind, to.value, ctrl, port, data, hasBuf, replyMax, e.clock, ok);
      Extend(e.log, o.items, e.rx.stations);
    }
  }

  lemma PollKeepsAck(e: Engine, okNak: bool, okTx: bool)
    requires AckInv(e) && TxInvOf(e)
    ensures AckInv(Poll(e, okNak, okTx))
  {
    assert e.tx.cur.dgram.kind != TYPE_ACK;
    hide Reap, Finish, TxInv;
    var m := Reap(e.imm, e.clock, okNak);
    ImmKeepsAck(e.imm, LOCAL, e.tx.cur.dgram, [], e.clock, okNak);
    Extend(e.log, m.items, e.rx.stations);
    Extend(e.log + m.items, Timer(e.tx, e.clock, okTx).items, e.rx.stations);
  }

  lemma OtherCallsKeepAck(e: Engine, ev: Event)
    requires AckInv(e)
    requires !(ev.DoCollect? || ev.DoInput? || ev.DoTx? || ev.DoImmediate? || ev.DoPoll?)
    ensures AckInv(Step(e, ev))
  {
    hide RxCollect, UdpInput, TxStart, Immediate, Poll, AllocSeq, TickBlocks, Present, ReplyCommand, MapAdd;
    Extend(e.log, [Reset], e.rx.stations);
    match ev
    case DoMapAdd(net, stn, peer) => MapAddKeeps(e.rx.stations, net, stn, peer, e.log);
    case DoBroadcast(ctrl, port, data, oks) =>
      var d := Datagram(TYPE_BROADCAST, port, ctrl % 128, e.tx.nextSeq, data);
      Extend(e.log, Copies(e.rx, d, oks), e.rx.stations);
    case DoImmReply(data, ok) =>
      ImmKeepsAck(e.imm, LOCAL, Datagram(0, 0, 0, 0, []), data, e.clock, ok);
      Extend(e.log, ReplyCommand(e.imm, data, e.clock, ok).items, e.rx.stations);
    case _ =>
  }

  lemma StepKeepsAck(e: Engine, ev: Event)
    requires AckInv(e) && TxInvOf(e)
    ensures AckInv(Step(e, ev))
  {
    hide AckInv, TxInv, RxCollect, Receive, TxBegin, Poll, PokeOnWire;
    match ev
    case DoCollect(h, accept, ok) => CollectKeepsAck(e, h, accept, ok);
    case DoInput(src, dgram, ok) => if |dgram| >= HDR_SIZE { ReceiveKeepsAck(e, src, Decode(dgram).value, ok); }
    case DoTx(net, stn, ctrl, port, data, ok) =>
      TransmitKeepsAck(e, TYPE_DATA, net, stn, ctrl, port, data, false, 0, ok);
    case DoImmediate(net, stn, ctrl, data, hasBuf, replyMax, ok) =>
      if 4 <= |data| <= MAX_DATA - 4 {
        TransmitKeepsAck(e, TYPE_DATA, net, stn, ctrl, 0, PokeOnWire(data), false, 0, ok);
      }
      TransmitKeepsAck(e, TYPE_DATA, net, stn, ctrl, 0, data, false, 0, ok);
      TransmitKeepsAck(e, TYPE_IMMEDIATE, net, stn, ctrl, 0, data, hasBuf, replyMax, ok);
    case DoPoll(okNak, okTx) => PollKeepsAck(e, okNak, okTx);
    case _ =>
      hide Step;
      OtherCallsKeepAck(e, ev);
  }

  lemma {:induction false} AckInvHolds(run: seq<Event>)
    ensures AckInv(Exec(run))
  {
    if run != [] {
      hide Step, AckInv;
      AckInvHolds(run[..|run| - 1]);
      TxInvHolds(run[..|run| - 1]);
      StepKeepsAck(Exec(run[..|run| - 1]), run[|run| - 1]);
    }
  }

  /** Over every run: each ACK of an ordinary DATA datagram, repeated ones
      included, comes after a release of a frame with its source and number. */
  lemma AckSafety(run: seq<Event>, k: nat)
    requires k < |Exec(run).log| && DataAck(Exec(run).log[k])
    ensures ReleasedBefore(Exec(run).log, k, Exec(run).log[k].to, Exec(run).log[k].d.seqNo)
  {
    AckInvHolds(run);
  }

  lemma CollectAcksNothingQueued(r: Rx, h: byte, accept: bool, clock: nat, ok: bool)
    requires RxInv(r, clock)
    ensures var o := Collect(r, h, accept, clock, ok);
            forall k :: 0 <= k < |o.items| && DataAck(o.items[k]) ==>
                          !Queueing(o.st.blocks, o.items[k].to, o.items[k].d.seqNo)
  {
    hide Lift, SetSlot, Expire, Budget, Stamp, BlockInv, DistinctStreams;
    if IsOpen(r, h) && HasTarget(r.blocks[h]) {
      DropFrame(r.blocks, h, Target(r.blocks[h]));
    }
  }

  lemma DataAcksNothingQueued(r: Rx, src: Peer, d: Datagram, ok: bool)
    ensures var o := ReceiveData(r, src, d, ok);
            forall k :: 0 <= k < |o.items| && DataAck(o.items[k]) ==>
                          !Queueing(o.st.blocks, o.items[k].to, o.items[k].d.seqNo)
  {
    hide Deliver, DeliveryOf, Learn;
  }

  lemma TransmitAcksNothing(e: Engine, kind: byte, net: bv8, stn: bv8, ctrl: byte, port: byte,
                            data: seq<byte>, hasBuf: bool, replyMax: nat, ok: bool)
    requires kind != TYPE_ACK
    ensures var log' := TxBegin(e, kind, net, stn, ctrl, port, data, hasBuf, replyMax, ok).0.log;
            forall k :: |e.log| <= k < |log'| ==> !DataAck(log'[k])
  {
    hide Deliver, DeliveryOf, Looped, Resolve, Finish, AllocSeq;
  }

  lemma PollAcksNothing(e: Engine, okNak: bool, okTx: bool)
    requires TxInvOf(e) && HeldOk(e.imm.himm)
    ensures var log' := Poll(e, okNak, okTx).log;
            forall k :: |e.log| <= k < |log'| ==> !DataAck(log'[k])
  {
    assert e.tx.cur.dgram.kind != TYPE_ACK;
    hide TxInv, Finish, Reap;
    ImmKeepsAck(e.imm, LOCAL, e.tx.cur.dgram, [], e.clock, okNak);
  }

  /** Apart from collects and inbound datagrams, no call sends an ordinary ACK. */
  lemma OthersAckNothing(e: Engine, ev: Event)
    requires TxInvOf(e) && HeldOk(e.imm.himm) && !ev.DoCollect? && !ev.DoInput?
    ensures var log' := Step(e, ev).log;
            forall k :: |e.log| <= k < |log'| ==> !DataAck(log'[k])
  {
    hide TxInv, Collect, Receive, TxBegin, Immediate, Poll, Configure, Present, TickBlocks, AllocSeq, MapAdd,
      PokeOnWire, HasTarget, ReplyCommand, Take;
    match ev
    case DoTx(net, stn, ctrl, port, data, ok) =>
      TransmitAcksNothing(e, TYPE_DATA, net, stn, ctrl, port, data, false, 0, ok);
    case DoImmediate(net, stn, ctrl, data, hasBuf, replyMax, ok) =>
      ImmediateAcksNothing(e, net, stn, ctrl, data, hasBuf, replyMax, ok);
    case DoPoll(okNak, okTx) => PollAcksNothing(e, okNak, okTx);
    case DoImmReply(data, ok) => ImmKeepsAck(e.imm, LOCAL, e.tx.cur.dgram, data, e.clock, ok);
    case _ =>
  }

  lemma ImmediateAcksNothing(e: Engine, net: bv8, stn: bv8, ctrl: byte, data: seq<byte>, hasBuf: bool,
                             replyMax: nat, ok: bool)
    ensures var log' := Immediate(e, net, stn, ctrl, data, hasBuf, replyMax, ok).0.log;
            forall k :: |e.log| <= k < |log'| ==> !DataAck(log'[k])
  {
    hide TxBegin, PokeOnWire;
    if 4 <= |data| <= MAX_DATA - 4 {
      TransmitAcksNothing(e, TYPE_DATA, net, stn, ctrl, 0, PokeOnWire(data), false, 0, ok);
    }
    TransmitAcksNothing(e, TYPE_DATA, net, stn, ctrl, 0, data, false, 0, ok);
    TransmitAcksNothing(e, TYPE_IMMEDIATE, net, stn, ctrl, 0, data, hasBuf, replyMax, ok);
  }

  lemma StepAcksNothingQueued(e: Engine, ev: Event, k: nat)
    requires RxOk(e) && TxInvOf(e) && HeldOk(e.imm.himm)
    requires |e.log| <= k < |Step(e, ev).log| && DataAck(Step(e, ev).log[k])
    ensures var e' := Step(e, ev); !Queueing(e'.rx.blocks, e'.log[k].to, e'.log[k].d.seqNo)
  {
    hide TxInv, RxInv, HeldOk, Collect, Queueing, ReceiveData, ReceiveImm4, ReceiveImmediate, ReceiveReply,
      ReceiveBroadcast;
    match ev
    case DoCollect(h, accept, ok) => CollectAcksNothingQueued(e.rx, h, accept, e.clock, ok);
    case DoInput(src, dgram, ok) =>
      var d := Decode(dgram).value;
      DataAcksNothingQueued(e.rx, src, d, ok);
      ImmKeepsAck(e.imm, src, d, [], e.clock, ok);
    case _ =>
      hide Step;
      OthersAckNothing(e, ev);
  }

  /** Over every run: no call confirms a frame that it leaves queued. */
  lemma NeverAckedWhileQueued(run: seq<Event>, ev: Event, k: nat)
    requires |Exec(run).log| <= k < |Step(Exec(run), ev).log| && DataAck(Step(Exec(run), ev).log[k])
    ensures var e' := Step(Exec(run), ev); !Queueing(e'.rx.blocks, e'.log[k].to, e'.log[k].d.seqNo)
  {
    RxInvHolds(run);
    TxInvHolds(run);
    AckInvHolds(run);
    hide Exec, Step, TxInv, RxInv, Queueing;
    StepAcksNothingQueued(Exec(run), ev, k);
  }
}
