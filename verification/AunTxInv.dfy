/** Transmit conservation and bounds, over every run. */
module AunTxInv {
  import opened Bytes
  import opened AunTypes
  import opened AunRx
  import opened AunTx
  import opened AunImm
  import opened AunSpec

  /** How many datagrams transaction `n` has handed to the transport. */
  ghost function Sends(log: seq<Item>, n: nat): nat {
    if log == [] then 0
    else Sends(log[..|log| - 1], n) + if OfTxn(log[|log| - 1], n) then 1 else 0
  }

  ghost predicate Transmitted(x: Item) {
    x.Sent? && x.why.Transmit?
  }

  ghost predicate OfTxn(x: Item, n: nat) {
    Transmitted(x) && x.why.txn == n
  }

  ghost predicate NoTransmit(items: seq<Item>) {
    forall k :: 0 <= k < |items| ==> !Transmitted(items[k])
  }

  ghost function SeqAt(alloc: nat): u32 {
    (4 + 4 * alloc) % U32_SIZE
  }

  ghost predicate Waiting(t: TxSide) {
    t.cur.state == PENDING
  }

  /** Every accepted transmit is completed, failed or the pending one. */
  ghost predicate Conserved(t: TxSide) {
    && t.base <= t.txns
    && (t.ok + t.fail + (if Waiting(t) then 1 else 0)) % U32_SIZE == (t.txns - t.base) % U32_SIZE
  }

  /** The pending transaction's retry budget accounts for what it has sent. */
  ghost predicate CurrentOk(t: TxSide, log: seq<Item>) {
    Waiting(t) ==>
      && t.cur.dgram.kind == t.cur.kind && t.cur.norespLeft == 0
      && (t.cur.kind == TYPE_DATA || (t.cur.kind == TYPE_IMMEDIATE && t.cur.rejectLeft == 0 && !t.cur.rejectPending))
      && Sends(log, t.txns) + t.cur.rejectLeft + (if t.cur.rejectPending then 1 else 0)
         <= 1 + (if t.cur.kind == TYPE_DATA then REJECT_RETRIES else 0)
      && t.cur.dgram.seqNo == SeqAt(t.alloc) && t.alloc < t.seqs && t.base < t.txns
      && (forall k :: 0 <= k < |log| && OfTxn(log[k], t.txns) ==>
                        log[k].to == t.cur.to && log[k].d == t.cur.dgram)
  }

  ghost predicate ItemOk(x: Item, t: TxSide) {
    Transmitted(x) ==>
      && x.why.txn <= t.txns
      && (x.d.kind == TYPE_DATA || x.d.kind == TYPE_IMMEDIATE)
      && (t.base < x.why.txn ==> x.d.seqNo == SeqAt(x.why.alloc) && x.why.alloc < t.seqs)
      && (t.base < x.why.txn < t.txns && Waiting(t) ==> x.why.alloc < t.alloc)
  }

  /** Two datagrams of one transaction are the same datagram to the same peer. */
  ghost predicate Identical(log: seq<Item>) {
    forall i, j :: 0 <= i < |log| && 0 <= j < |log| && Transmitted(log[i]) && Transmitted(log[j]) &&
                   log[i].why.txn == log[j].why.txn
                   ==> log[i].to == log[j].to && log[i].d == log[j].d
  }

  ghost predicate ItemsOk(t: TxSide, log: seq<Item>) {
    forall k :: 0 <= k < |log| ==> ItemOk(log[k], t)
  }

  /** What has been sent for an item's transaction keeps to its budget. */
  ghost predicate WithinBudget(x: Item, log: seq<Item>) {
    Transmitted(x) ==> Sends(log, x.why.txn) <= 1 + if x.d.kind == TYPE_DATA then REJECT_RETRIES else 0
  }

  ghost predicate BudgetsOk(log: seq<Item>) {
    forall k :: 0 <= k < |log| ==> WithinBudget(log[k], log)
  }

  ghost predicate LogOk(t: TxSide, log: seq<Item>) {
    ItemsOk(t, log) && Identical(log) && BudgetsOk(log)
  }

  ghost predicate TxInv(t: TxSide, initialised: bool, log: seq<Item>) {
    && Conserved(t) && CurrentOk(t, log) && LogOk(t, log)
    && (initialised ==> t.nextSeq == SeqAt(t.seqs))
    && t.cur.dgram.kind != TYPE_ACK
    && (!initialised ==> !Waiting(t))
  }

  lemma {:induction false} SendsNothing(log: seq<Item>, items: seq<Item>, n: nat)
    requires NoTransmit(items)
    ensures Sends(log + items, n) == Sends(log, n)
  {
    if items == [] {
      assert log + items == log;
    } else {
      var last := |items| - 1;
      assert (log + items)[..|log + items| - 1] == log + items[..last];
      SendsNothing(log, items[..last], n);
    }
  }

  lemma SendsOne(log: seq<Item>, x: Item, n: nat)
    ensures Sends(log + [x], n) == Sends(log, n) + if OfTxn(x, n) then 1 else 0
  {
    assert (log + [x])[..|log|] == log;
  }

  lemma {:induction false} SendsNone(log: seq<Item>, n: nat)
    requires forall k :: 0 <= k < |log| ==> !OfTxn(log[k], n)
    ensures Sends(log, n) == 0
  {
    if log != [] {
      SendsNone(log[..|log| - 1], n);
    }
  }

  /** Whatever the rest of the engine logs is of no concern here. */
  lemma QuietKeeps(t: TxSide, initialised: bool, log: seq<Item>, items: seq<Item>)
    requires TxInv(t, initialised, log) && NoTransmit(items)
    ensures TxInv(t, initialised, log + items)
  {
    hide SeqAt, Sends, Conserved;
    var log' := log + items;
    assert forall k :: |log| <= k < |log'| ==> log'[k] == items[k - |log|];
    SendsNothing(log, items, t.txns);
    forall k | 0 <= k < |log'| ensures WithinBudget(log'[k], log') {
      if k < |log| && Transmitted(log[k]) {
        assert WithinBudget(log[k], log);
        SendsNothing(log, items, log[k].why.txn);
      }
    }
  }

  lemma FinishConserves(t: TxSide, state: byte)
    requires t.base <= t.txns && (t.ok + t.fail + 1) % U32_SIZE == (t.txns - t.base) % U32_SIZE && state != PENDING
    ensures Conserved(Finish(t, state))
  {
  }

  lemma FinishKeeps(t: TxSide, initialised: bool, log: seq<Item>, state: byte)
    requires TxInv(t, initialised, log) && Waiting(t) && state != PENDING
    ensures TxInv(Finish(t, state), initialised, log)
  {
    hide SeqAt, Sends, Identical;
    FinishConserves(t, state);
  }

  lemma LoopedKeeps(t: TxSide, log: seq<Item>, state: byte, n: nat, reply: seq<byte>)
    requires TxInv(t, true, log) && !Waiting(t) && state != PENDING
    ensures TxInv(Looped(t, state, n, reply), true, log)
  {
    hide SeqAt, Sends, Identical, BudgetsOk, Add32;
    OneMore(t.ok + t.fail, t.txns - t.base);
    FinishConserves(t.(txns := t.txns + 1, cur := t.cur.(state := PENDING)), state);
    hide Conserved;
  }

  lemma OneMore(a: nat, b: nat)
    requires a % U32_SIZE == b % U32_SIZE
    ensures (a + 1) % U32_SIZE == (b + 1) % U32_SIZE
  {
  }

  lemma ItemsGrow(t: TxSide, log: seq<Item>, x: Item)
    requires ItemsOk(t, log) && ItemOk(x, t)
    ensures ItemsOk(t, log + [x])
  {
    hide ItemOk;
    var log' := log + [x];
    forall k | 0 <= k < |log'| ensures ItemOk(log'[k], t) {
      assert log'[k] == if k < |log| then log[k] else x;
    }
  }

  lemma IdenticalGrows(log: seq<Item>, x: Item)
    requires Identical(log) && Transmitted(x)
    requires forall k :: 0 <= k < |log| && OfTxn(log[k], x.why.txn) ==> log[k].to == x.to && log[k].d == x.d
    ensures Identical(log + [x])
  {
    var log' := log + [x];
    forall i, j | 0 <= i < |log'| && 0 <= j < |log'| && Transmitted(log'[i]) && Transmitted(log'[j]) &&
                  log'[i].why.txn == log'[j].why.txn
      ensures log'[i].to == log'[j].to && log'[i].d == log'[j].d
    {
      assert log'[i] == if i < |log| then log[i] else x;
      assert log'[j] == if j < |log| then log[j] else x;
      assert i < |log| && j == |log| ==> OfTxn(log[i], x.why.txn);
      assert j < |log| && i == |log| ==> OfTxn(log[j], x.why.txn);
    }
  }

  lemma BudgetsGrow(log: seq<Item>, x: Item)
    requires BudgetsOk(log) && Transmitted(x) && WithinBudget(x, log + [x])
    requires forall k :: 0 <= k < |log| && OfTxn(log[k], x.why.txn) ==> log[k].d == x.d
    ensures BudgetsOk(log + [x])
  {
    hide Sends;
    var log' := log + [x];
    forall k | 0 <= k < |log'| ensures WithinBudget(log'[k], log') {
      if k < |log| {
        assert log'[k] == log[k] && WithinBudget(log[k], log);
        if Transmitted(log[k]) {
          SendsOne(log, x, log[k].why.txn);
        }
      }
    }
  }

  lemma CurrentGrows(t: TxSide, log: seq<Item>, x: Item)
    requires CurrentOk(t, log) && Waiting(t) && OfTxn(x, t.txns) && x.to == t.cur.to && x.d == t.cur.dgram
    requires Sends(log, t.txns) + 1 + t.cur.rejectLeft + (if t.cur.rejectPending then 1 else 0)
          <= 1 + (if t.cur.kind == TYPE_DATA then REJECT_RETRIES else 0)
    ensures CurrentOk(t, log + [x]) && WithinBudget(x, log + [x])
  {
    hide Sends, SeqAt;
    var log' := log + [x];
    SendsOne(log, x, t.txns);
    forall k | 0 <= k < |log'| && OfTxn(log'[k], t.txns) ensures log'[k].to == t.cur.to && log'[k].d == t.cur.dgram {
      assert log'[k] == if k < |log| then log[k] else x;
    }
  }

  /** A datagram sent for the pending transaction, new or repeated. */
  lemma SendKeeps(t: TxSide, log: seq<Item>, ok: bool)
    requires TxInv(t, true, log) && Waiting(t)
    requires Sends(log, t.txns) + 1 + t.cur.rejectLeft + (if t.cur.rejectPending then 1 else 0)
          <= 1 + (if t.cur.kind == TYPE_DATA then REJECT_RETRIES else 0)
    ensures TxInv(t, true, log + [Sent(t.cur.to, t.cur.dgram, ok, Transmit(t.txns, t.alloc))])
  {
    hide SeqAt, Conserved, Sends, Identical, BudgetsOk, WithinBudget, ItemsOk;
    var x := Sent(t.cur.to, t.cur.dgram, ok, Transmit(t.txns, t.alloc));
    CurrentGrows(t, log, x);
    assert ItemOk(x, t);
    ItemsGrow(t, log, x);
    IdenticalGrows(log, x);
    BudgetsGrow(log, x);
  }

  lemma AllocConserves(t: TxSide, t': TxSide)
    requires Conserved(t) && !Waiting(t) && Waiting(t') && t'.txns == t.txns + 1
    requires t'.base == t.base && t'.ok == t.ok && t'.fail == t.fail
    ensures Conserved(t')
  {
  }

  lemma NextSeq(n: nat)
    ensures Add32(SeqAt(n), 4) == SeqAt(n + 1)
  {
  }

  lemma AllocKeeps(t: TxSide, log: seq<Item>)
    requires TxInv(t, true, log)
    ensures TxInv(AllocSeq(t), true, log)
  {
    hide SeqAt, Sends, Identical, Add32;
    NextSeq(t.seqs);
  }

  lemma LaunchKeeps(t: TxSide, log: seq<Item>, kind: byte, to: Peer, ctrl: byte, port: byte, data: seq<byte>,
                    hasBuf: bool, replyMax: nat, clock: nat, ok: bool)
    requires TxInv(t, true, log) && !Waiting(t) && (kind == TYPE_DATA || kind == TYPE_IMMEDIATE)
    ensures var o := Launch(t, kind, to, ctrl, port, data, hasBuf, replyMax, clock, ok);
            TxInv(o.st, true, log + o.items)
  {
    var d := Datagram(kind, port, ctrl % 128, t.nextSeq, data);
    var cur := Tx(PENDING, kind, to, d, if ok then clock + NORESP_TIMEOUT_MS else t.cur.deadline, NORESP_RETRIES,
                  if kind == TYPE_DATA then REJECT_RETRIES else 0, false, hasBuf, replyMax, 0, []);
    var t' := AllocSeq(t).(cur := cur, txns := t.txns + 1, alloc := t.seqs);
    SendsNone(log, t.txns + 1);
    AllocConserves(t, t');
    NextSeq(t.seqs);
    assert TxInv(t', true, log) by { hide SeqAt, Conserved, Sends, Identical; }
    hide TxInv;
    SendKeeps(t', log, ok);
    if !ok {
      FinishKeeps(t', true, log + [Sent(to, d, ok, Transmit(t.txns + 1, t.seqs))], TX_NET_ERROR);
    }
  }

  lemma ReplyKeeps(t: TxSide, initialised: bool, log: seq<Item>, src: Peer, d: Datagram, clock: nat)
    requires TxInv(t, initialised, log)
    ensures TxInv(ReceiveReply(t, src, d, clock), initialised, log)
  {
    var c := t.cur;
    if Waiting(t) && d.seqNo == c.dgram.seqNo && src == c.to {
      if d.kind == TYPE_NAK && c.rejectLeft > 0 {
      } else {
        var n := if |d.data| < c.replyMax then |d.data| else c.replyMax;
        var t' := t.(cur := c.(replyLen := n, reply := if c.hasBuf then d.data[..n] else c.reply));
        assert TxInv(t', initialised, log);
        hide TxInv, Finish;
        FinishKeeps(t, initialised, log, TX_NOT_LISTENING);
        FinishKeeps(t, initialised, log, AUN_OK);
        FinishKeeps(t', initialised, log, AUN_OK);
      }
    }
  }

  lemma TimerKeeps(t: TxSide, log: seq<Item>, clock: nat, ok: bool)
    requires TxInv(t, true, log)
    ensures var o := Timer(t, clock, ok); TxInv(o.st, true, log + o.items)
  {
    assert log + [] == log;
    if Waiting(t) && clock >= t.cur.deadline {
      var t' := t.(cur := t.cur.(rejectPending := false));
      if t.cur.rejectPending {
        var log' := log + [Sent(t.cur.to, t.cur.dgram, ok, Transmit(t.txns, t.alloc))];
        SendKeeps(t', log, ok);
        if ok {
          assert TxInv(t'.(cur := t'.cur.(deadline := clock + NORESP_TIMEOUT_MS)), true, log');
        } else {
          FinishKeeps(t', true, log', TX_NET_ERROR);
        }
      } else {
        FinishKeeps(t, true, log, TX_NOT_LISTENING);
      }
    }
  }

  // ---- engine calls -------------------------------------------------------

  ghost predicate TxInvOf(e: Engine) {
    TxInv(e.tx, e.initialised, e.log)
  }

  /** Only the transmit side hands over transmits. */
  lemma OthersAreQuiet(e: Engine, src: Peer, d: Datagram, data: seq<byte>, oks: seq<bool>, h: byte, accept: bool,
                       ok: bool)
    ensures NoTransmit(Collect(e.rx, h, accept, e.clock, ok).items) && NoTransmit(Copies(e.rx, d, oks))
    ensures NoTransmit(ReceiveData(e.rx, src, d, ok).items) && NoTransmit(ReceiveImm4(e.imm, src, d, e.clock, ok).items)
    ensures NoTransmit(ReceiveImmediate(e.imm, src, d, e.clock, ok).items) && NoTransmit(Reap(e.imm, e.clock, ok).items)
    ensures NoTransmit(ReplyCommand(e.imm, data, e.clock, ok).items)
  {
    hide Taken, Deferring, Lift, SetSlot, Expire, Budget, Stamp, Learn, Queueing, Deliver, DeliveryOf, ImmLenOk,
      HasTarget, Target;
  }

  lemma ReceiveKeepsTx(e: Engine, src: Peer, d: Datagram, ok: bool)
    requires TxInvOf(e)
    ensures TxInvOf(Receive(e, src, d, ok))
  {
    hide TxInv, ReceiveReply, ReceiveData, ReceiveImm4, ReceiveImmediate, ReceiveBroadcast;
    ReplyKeeps(e.tx, e.initialised, e.log, src, d, e.clock);
    OthersAreQuiet(e, src, d, [], [], 0, false, ok);
    QuietKeeps(e.tx, e.initialised, e.log, ReceiveData(e.rx, src, d, ok).items);
    QuietKeeps(e.tx, e.initialised, e.log, ReceiveImm4(e.imm, src, d, e.clock, ok).items);
    QuietKeeps(e.tx, e.initialised, e.log, ReceiveImmediate(e.imm, src, d, e.clock, ok).items);
    QuietKeeps(e.tx, e.initialised, e.log, Answered(src, ImmReply(d.ctrl, d.seqNo, e.machineId), ok));
  }

  lemma TransmitKeepsTx(e: Engine, kind: byte, net: bv8, stn: bv8, ctrl: byte, port: byte,
                        data: seq<byte>, hasBuf: bool, replyMax: nat, ok: bool)
    requires TxInvOf(e) && (kind == TYPE_DATA || kind == TYPE_IMMEDIATE)
    ensures TxInvOf(TxBegin(e, kind, net, stn, ctrl, port, data, hasBuf, replyMax, ok).0)
  {
    hide TxInv, Looped, Launch, Deliver, DeliveryOf, Resolve;
    if e.initialised && !Waiting(e.tx) {
      var n := if replyMax < |e.machineId| then replyMax else |e.machineId|;
      LoopedKeeps(e.tx, e.log, AUN_OK, n, if hasBuf then e.machineId[..n] else []);
      LoopedKeeps(e.tx, e.log, AUN_OK, 0, []);
      LoopedKeeps(e.tx, e.log, TX_NOT_LISTENING, 0, []);
      var to := Resolve(e.rx, net, stn);
      if to.Some? {
        LaunchKeeps(e.tx, e.log, kind, to.value, ctrl, port, data, hasBuf, replyMax, e.clock, ok);
      }
    }
  }

  lemma PollKeepsTx(e: Engine, okNak: bool, okTx: bool)
    requires TxInvOf(e)
    ensures TxInvOf(Poll(e, okNak, okTx))
  {
    hide TxInv, Reap, Timer;
    if e.initialised {
      OthersAreQuiet(e, LOCAL, Datagram(0, 0, 0, 0, []), [], [], 0, false, okNak);
      QuietKeeps(e.tx, true, e.log, Reap(e.imm, e.clock, okNak).items);
      TimerKeeps(e.tx, e.log + Reap(e.imm, e.clock, okNak).items, e.clock, okTx);
    }
  }

  lemma InitKeepsTx(e: Engine)
    requires TxInvOf(e)
    ensures TxInvOf(Init(e))
  {
    QuietKeeps(e.tx, e.initialised, e.log, [Reset]);
  }

  lemma BroadcastKeepsTx(e: Engine, ctrl: byte, port: byte, data: seq<byte>, oks: seq<bool>)
    requires TxInvOf(e)
    ensures TxInvOf(Broadcast(e, ctrl, port, data, oks).0)
  {
    var d := Datagram(TYPE_BROADCAST, port, ctrl % 128, e.tx.nextSeq, data);
    OthersAreQuiet(e, LOCAL, d, [], oks, 0, false, false);
    hide Copies, TxInv, AllocSeq;
    QuietKeeps(e.tx, e.initialised, e.log, Copies(e.rx, d, oks));
    if e.initialised {
      AllocKeeps(e.tx, e.log + Copies(e.rx, d, oks));
    }
  }

  lemma ImmediateKeepsTx(e: Engine, net: bv8, stn: bv8, ctrl: byte, data: seq<byte>,
                         hasBuf: bool, replyMax: nat, ok: bool)
    requires TxInvOf(e)
    ensures TxInvOf(Immediate(e, net, stn, ctrl, data, hasBuf, replyMax, ok).0)
  {
    hide TxInv, TxBegin, PokeOnWire;
    if 4 <= |data| <= MAX_DATA - 4 {
      TransmitKeepsTx(e, TYPE_DATA, net, stn, ctrl, 0, PokeOnWire(data), false, 0, ok);
    }
    TransmitKeepsTx(e, TYPE_DATA, net, stn, ctrl, 0, data, false, 0, ok);
    TransmitKeepsTx(e, TYPE_IMMEDIATE, net, stn, ctrl, 0, data, hasBuf, replyMax, ok);
  }

  lemma StepKeepsTx(e: Engine, ev: Event)
    requires TxInvOf(e)
    ensures TxInvOf(Step(e, ev))
  {
    hide TxInv, Init, Collect, Receive, TxBegin, Immediate, Poll, Broadcast, ReplyCommand, Configure, Take,
      TickBlocks, MapAdd, Present, HasTarget;
    QuietKeeps(e.tx, e.initialised, e.log, [Reset]);
    match ev
    case DoInit => InitKeepsTx(e);
    case DoCollect(h, accept, ok) =>
      OthersAreQuiet(e, LOCAL, Datagram(0, 0, 0, 0, []), [], [], h, accept, ok);
      QuietKeeps(e.tx, e.initialised, e.log, Collect(e.rx, h, accept, e.clock, ok).items);
    case DoInput(src, dgram, ok) => if |dgram| >= HDR_SIZE { ReceiveKeepsTx(e, src, Decode(dgram).value, ok); }
    case DoTx(net, stn, ctrl, port, data, ok) =>
      TransmitKeepsTx(e, TYPE_DATA, net, stn, ctrl, port, data, false, 0, ok);
    case DoImmediate(net, stn, ctrl, data, hasBuf, replyMax, ok) =>
      ImmediateKeepsTx(e, net, stn, ctrl, data, hasBuf, replyMax, ok);
    case DoBroadcast(ctrl, port, data, oks) => BroadcastKeepsTx(e, ctrl, port, data, oks);
    case DoImmReply(data, ok) =>
      OthersAreQuiet(e, LOCAL, Datagram(0, 0, 0, 0, []), data, [], 0, false, ok);
      QuietKeeps(e.tx, e.initialised, e.log, ReplyCommand(e.imm, data, e.clock, ok).items);
    case DoPoll(okNak, okTx) => PollKeepsTx(e, okNak, okTx);
    case _ =>
      PassiveTx(e, ev);
      hide Step;
  }

  /** The calls that neither transmit nor log, but for the mark of a reconfiguration. */
  lemma PassiveTx(e: Engine, ev: Event)
    requires ev.DoMapAdd? || ev.DoAddressing? || ev.DoTest? || ev.DoMachineId? || ev.DoOpen? || ev.DoRxPoll? ||
             ev.DoClose? || ev.DoHostImm? || ev.DoImmPoll? || ev.DoTick?
    ensures var e' := Step(e, ev);
            && e'.tx == e.tx && e'.initialised == e.initialised
            && e'.log == if ev.DoHostImm? then e.log + [Reset] else e.log
  {
    hide MapAdd, Present, HasTarget, Configure, Take, TickBlocks;
  }

  lemma {:induction false} TxInvHolds(run: seq<Event>)
    ensures TxInvOf(Exec(run))
  {
    if run != [] {
      hide Step, TxInv;
      TxInvHolds(run[..|run| - 1]);
      StepKeepsTx(Exec(run[..|run| - 1]), run[|run| - 1]);
    }
  }

  // ---- results ------------------------------------------------------------

  /** What the call answers, when it asks for a transmit. */
  function TransmitStatus(e: Engine, ev: Event): Option<byte> {
    match ev
    case DoTx(net, stn, ctrl, port, data, ok) => Some(TxStart(e, net, stn, ctrl, port, data, ok).1)
    case DoImmediate(net, stn, ctrl, data, hasBuf, replyMax, ok) =>
      Some(Immediate(e, net, stn, ctrl, data, hasBuf, replyMax, ok).1)
    case _ => None
  }

  /** How many transmits were answered AUN_OK since the last initialisation. */
  function AcceptedTransmits(run: seq<Event>): nat {
    if run == [] then 0
    else
      var n := |run| - 1;
      if run[n].DoInit? then 0
      else AcceptedTransmits(run[..n]) + if TransmitStatus(Exec(run[..n]), run[n]) == Some(AUN_OK) then 1 else 0
  }

  lemma BeginCounts(e: Engine, kind: byte, net: bv8, stn: bv8, ctrl: byte, port: byte,
                    data: seq<byte>, hasBuf: bool, replyMax: nat, ok: bool)
    ensures var (e', status) := TxBegin(e, kind, net, stn, ctrl, port, data, hasBuf, replyMax, ok);
            e'.tx.base == e.tx.base && e'.tx.txns == e.tx.txns + if status == AUN_OK then 1 else 0
  {
    hide Deliver, DeliveryOf, Resolve, Add32;
  }

  lemma StepCounts(e: Engine, ev: Event)
    requires !ev.DoInit?
    ensures var t, t' := e.tx, Step(e, ev).tx;
            t'.base == t.base && t'.txns == t.txns + if TransmitStatus(e, ev) == Some(AUN_OK) then 1 else 0
  {
    hide TxBegin, PokeOnWire, Collect, ReceiveData, ReceiveBroadcast, ReceiveImm4, ReceiveImmediate, Reap,
      ReplyCommand, Present, HasTarget, MapAdd, TickBlocks, Copies, Configure, Take, Add32;
    match ev
    case DoTx(net, stn, ctrl, port, data, ok) => BeginCounts(e, TYPE_DATA, net, stn, ctrl, port, data, false, 0, ok);
    case DoImmediate(net, stn, ctrl, data, hasBuf, replyMax, ok) =>
      if 4 <= |data| <= MAX_DATA - 4 {
        BeginCounts(e, TYPE_DATA, net, stn, ctrl, 0, PokeOnWire(data), false, 0, ok);
      }
      BeginCounts(e, TYPE_DATA, net, stn, ctrl, 0, data, false, 0, ok);
      BeginCounts(e, TYPE_IMMEDIATE, net, stn, ctrl, 0, data, hasBuf, replyMax, ok);
    case DoCollect(_, _, _) =>
    case DoInput(_, _, _) =>
    case DoBroadcast(_, _, _, _) =>
    case DoImmReply(_, _) =>
    case DoPoll(_, _) =>
    case _ =>
      PassiveTx(e, ev);
      hide Step;
  }

  lemma {:induction false} CountIsOfCalls(run: seq<Event>)
    ensures var t := Exec(run).tx; t.txns - t.base == AcceptedTransmits(run)
  {
    if run != [] {
      var n := |run| - 1;
      CountIsOfCalls(run[..n]);
      if !run[n].DoInit? {
        hide Step, TransmitStatus;
        StepCounts(Exec(run[..n]), run[n]);
      }
    }
  }

  /** Transmits answered AUN_OK since initialisation are exactly the completed, the
      failed and the pending one (the counters wrap at 32 bits). */
  lemma TransmitsConserved(run: seq<Event>)
    ensures var t := Exec(run).tx;
            AcceptedTransmits(run) % U32_SIZE == (t.ok + t.fail + if t.cur.state == PENDING then 1 else 0) % U32_SIZE
  {
    TxInvHolds(run);
    CountIsOfCalls(run);
    hide Exec, AcceptedTransmits;
  }

  lemma {:induction false} SendsSome(log: seq<Item>, k: nat)
    requires k < |log| && Transmitted(log[k])
    ensures Sends(log, log[k].why.txn) >= 1
  {
    if k < |log| - 1 {
      SendsSome(log[..|log| - 1], k);
    }
  }

  /** One DATA transmit puts at most 11 datagrams on the wire, an immediate
      exactly one, and all those of one transmit are the same bytes to the same peer. */
  lemma TransmitBounds(run: seq<Event>, i: nat, j: nat)
    requires i < |Exec(run).log| && j < |Exec(run).log|
    requires Transmitted(Exec(run).log[i])
    ensures var log := Exec(run).log;
            var n := Sends(log, log[i].why.txn);
            && (log[i].d.kind == TYPE_DATA ==> 1 <= n <= 1 + REJECT_RETRIES)
            && (log[i].d.kind != TYPE_DATA ==> log[i].d.kind == TYPE_IMMEDIATE && n == 1)
            && (OfTxn(log[j], log[i].why.txn) ==>
                  log[j].to == log[i].to && Encode(log[j].d) == Encode(log[i].d))
  {
    hide Step;
    TxInvHolds(run);
    assert ItemOk(Exec(run).log[i], Exec(run).tx);
    SendsSome(Exec(run).log, i);
  }

  lemma SeqsDiffer(a: nat, b: nat)
    requires a < b <= a + 0x3FFF_FFFF
    ensures SeqAt(a) != SeqAt(b)
  {
    var x, y := 4 + 4 * a, 4 + 4 * b;
    assert x == U32_SIZE * (x / U32_SIZE) + x % U32_SIZE;
    assert y == U32_SIZE * (y / U32_SIZE) + y % U32_SIZE;
  }

  /** A reply to an earlier transaction of the same initialisation never touches
      the current one, as long as at most 2^30 sequence numbers were given out. */
  lemma EarlierRepliesIgnored(run: seq<Event>, k: nat, src: Peer, d: Datagram)
    requires k < |Exec(run).log| && Transmitted(Exec(run).log[k])
    requires var t := Exec(run).tx;
             t.base < Exec(run).log[k].why.txn < t.txns && t.seqs <= 0x4000_0000
    requires d.seqNo == Exec(run).log[k].d.seqNo
    ensures ReceiveReply(Exec(run).tx, src, d, Exec(run).clock) == Exec(run).tx
  {
    hide Step, SeqAt;
    TxInvHolds(run);
    var t := Exec(run).tx;
    if Waiting(t) {
      assert ItemOk(Exec(run).log[k], t);
      SeqsDiffer(Exec(run).log[k].why.alloc, t.alloc);
    }
  }
}
