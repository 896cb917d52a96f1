/** What the originator of an immediate is told, over every run: the host's own bytes, or a
    refusal once the host has let a second pass; and the same again when it repeats the
    request within six seconds. */
module AunReplay {
  import opened Bytes
  import opened AunTypes
  import opened AunRx
  import opened AunTx
  import opened AunImm
  import opened AunSpec
  import opened AunImmInv

  // ---- requests -------------------------------------------------------------------

  /** Long enough for what it asks, and not too long: a Peek (1) names a span of at most 2048
      bytes, a Poke (2) an address, JSR, UserProc and OSProc (3 to 5) an address and at
      most 386 bytes more. */
  predicate WellMade(ctrl: byte, data: seq<byte>) {
    && (ctrl == 1 ==>
          |data| >= 6 && 0 <= data[4] as int + 256 * data[5] as int - (data[0] as int + 256 * data[1] as int) <= 2048)
    && (ctrl == 2 ==> |data| >= 4) && (3 <= ctrl <= 5 ==> 2 <= |data| <= 390)
  }

  lemma WellMadeIs(ctrl: byte, data: seq<byte>)
    ensures WellMade(ctrl, data) <==> ImmLenOk(ctrl, data)
  {
  }

  /** A hold the engine may take. */
  ghost predicate Acceptable(x: Item) {
    && x.Held? && x.ctrl < 128 && |x.data| <= 2048 && WellMade(x.ctrl, x.data)
    && if x.key.fromData then 2 <= x.ctrl <= 5 else x.ctrl != 8
  }

  /** A datagram that carries the request `x` was held for: type 5, or DATA to port 0, where a
      Poke has its byte count after the address. */
  ghost predicate Carries(src: Peer, dgram: seq<byte>, x: Item)
    requires x.Held?
  {
    && |dgram| >= 8 && src == x.key.peer && dgram[2] % 128 == x.ctrl && FromLe32(dgram[4..8]) == x.key.seqNo
    && if !x.key.fromData then dgram[0] == 5 && dgram[8..] == x.data
       else if x.ctrl == 2 then
         dgram[0] == 2 && dgram[1] == 0 && |dgram| >= 16 && dgram[8..12] + dgram[16..] == x.data
       else dgram[0] == 2 && dgram[1] == 0 && dgram[8..] == x.data
  }

  // ---- outcomes ---------------------------------------------------------------------

  /** The host's answer to `x`: the ACK of one carried as DATA, else the reply with its bytes. */
  ghost function HostAnswer(x: Item, data: seq<byte>): Datagram
    requires x.Held?
  {
    if x.key.fromData then Datagram(3, 0, x.ctrl, x.key.seqNo, []) else Datagram(6, 0, x.ctrl, x.key.seqNo, data)
  }

  /** The refusal of one the host never answered. */
  ghost function Refusal(x: Item): Datagram
    requires x.Held?
  {
    Datagram(4, 0, x.ctrl, x.key.seqNo, [])
  }

  // ---- what slot and cache say of the log -----------------------------------------------

  /** Nothing was resolved or reset after `j`. */
  ghost predicate Latest(log: seq<Item>, j: nat) {
    forall k :: j < k < |log| ==> !log[k].Resolved? && !log[k].Reset?
  }

  ghost predicate HoldsOk(m: ImmSide, log: seq<Item>) {
    forall i :: 0 <= i < |log| && log[i].Held? ==> log[i].id <= m.holds && Acceptable(log[i])
  }

  /** The slot holds what was held last. */
  ghost predicate SlotIs(h: HostImm, x: Item) {
    x.Held? && x.key == KeyOf(h) && x.ctrl == h.ctrl && x.data == h.data && h.due == x.at + 1000
  }

  ghost predicate SlotTold(m: ImmSide, log: seq<Item>) {
    m.himm.active ==>
      && m.enabled
      && (exists i :: 0 <= i < |log| && log[i].Held? && log[i].id == m.holds)
      && (forall i :: 0 <= i < |log| && log[i].Held? && log[i].id == m.holds ==> SlotIs(m.himm, log[i]))
  }

  /** The cache holds the outcome logged right after the resolution at `j`. */
  ghost predicate CacheIs(c: Cache, log: seq<Item>, j: nat)
    requires j < |log| && log[j].Resolved?
  {
    && c.valid && CacheKey(c) == log[j].key && c.due == log[j].at + 6000
    && j + 1 < |log| && log[j + 1].Sent? && log[j + 1].to == c.peer && c.ctrl < 128
    && log[j + 1].d == (if c.isNak then Datagram(4, 0, c.ctrl, c.seqNo, [])
                        else if c.fromData then Datagram(3, 0, c.ctrl, c.seqNo, [])
                        else Datagram(6, 0, c.ctrl, c.seqNo, c.data))
    && (forall i :: 0 <= i < |log| && log[i].Held? && log[i].id == log[j].id ==>
                      log[i].key == log[j].key && log[i].ctrl == c.ctrl)
  }

  ghost predicate CacheTold(m: ImmSide, log: seq<Item>) {
    forall j :: 0 <= j < |log| && log[j].Resolved? ==>
                  log[j].id <= m.holds && (Latest(log, j) ==> m.enabled && CacheIs(m.cache, log, j))
  }

  ghost predicate ReplayInv(m: ImmSide, log: seq<Item>) {
    HoldsOk(m, log) && SlotTold(m, log) && CacheTold(m, log)
  }

  // ---- each kind of change keeps it -------------------------------------------------------

  /** Only the host's poll mark may have changed. */
  ghost predicate SameImm(m: ImmSide, m': ImmSide) {
    && m'.enabled == m.enabled && m'.cache == m.cache && m'.holds == m.holds
    && m'.himm == m.himm.(polledGen := m'.himm.polledGen)
  }

  lemma QuietReplay(m: ImmSide, m': ImmSide, log: seq<Item>, items: seq<Item>)
    requires ReplayInv(m, log) && SameImm(m, m') && Quiet(items)
    ensures ReplayInv(m', log + items)
  {
    var log' := log + items;
    assert forall k :: 0 <= k < |log| ==> log'[k] == log[k];
    assert forall k :: |log| <= k < |log'| ==> log'[k] == items[k - |log|];
    if m.himm.active {
      var i :| 0 <= i < |log| && log[i].Held? && log[i].id == m.holds;
      assert log'[i].Held? && log'[i].id == m'.holds;
    }
    forall j | 0 <= j < |log'| && log'[j].Resolved?
      ensures log'[j].id <= m'.holds && (Latest(log', j) ==> m'.enabled && CacheIs(m'.cache, log', j))
    {
      assert j < |log| && log'[j] == log[j];
      if Latest(log', j) {
        LatestBefore(log, items, j);
        assert CacheIs(m.cache, log, j);
      }
    }
  }

  lemma LatestBefore(log: seq<Item>, items: seq<Item>, j: nat)
    requires j < |log| && Latest(log + items, j)
    ensures Latest(log, j)
  {
    assert forall k :: 0 <= k < |log| ==> (log + items)[k] == log[k];
  }

  lemma HoldReplay(m: ImmSide, key: ImmKey, ctrl: byte, data: seq<byte>, clock: nat, log: seq<Item>)
    requires ReplayInv(m, log) && !m.himm.active && m.enabled
    requires Acceptable(Held(m.holds + 1, key, clock, ctrl, data))
    ensures var o := Hold(m, key, ctrl, data, clock); ReplayInv(o.st, log + o.items)
  {
    hide Acceptable;
    var o := Hold(m, key, ctrl, data, clock);
    var log' := log + o.items;
    var n := |log|;
    assert log'[n] == Held(m.holds + 1, key, clock, ctrl, data);
    assert forall k :: 0 <= k < n ==> log'[k] == log[k];
    forall j | 0 <= j < |log'| && log'[j].Resolved?
      ensures log'[j].id <= o.st.holds && (Latest(log', j) ==> o.st.enabled && CacheIs(o.st.cache, log', j))
    {
      assert j < n;
      if Latest(log', j) {
        LatestBefore(log, o.items, j);
        assert CacheIs(m.cache, log, j);
        assert forall i :: 0 <= i < |log'| && log'[i].Held? && log'[i].id == log'[j].id ==> i < n;
      }
    }
  }

  lemma SettleReplay(m: ImmSide, d: Datagram, isNak: bool, data: seq<byte>, clock: nat, ok: bool, log: seq<Item>)
    requires ReplayInv(m, log) && m.himm.active && m.himm.ctrl < 128
    requires d == (if isNak then Datagram(4, 0, m.himm.ctrl, m.himm.seqNo, [])
                   else if m.himm.fromData then Datagram(3, 0, m.himm.ctrl, m.himm.seqNo, [])
                   else Datagram(6, 0, m.himm.ctrl, m.himm.seqNo, data))
    ensures var o := Settle(m, d, isNak, data, clock, ok); ReplayInv(o.st, log + o.items)
  {
    hide Acceptable;
    var o := Settle(m, d, isNak, data, clock, ok);
    var log' := log + o.items;
    var n := |log|;
    assert log'[n] == o.items[0] && log'[n + 1] == o.items[1];
    assert forall k :: 0 <= k < n ==> log'[k] == log[k];
    forall j | 0 <= j < |log'| && log'[j].Resolved?
      ensures log'[j].id <= o.st.holds && (Latest(log', j) ==> o.st.enabled && CacheIs(o.st.cache, log', j))
    {
      assert j <= n;
      if j < n {
        assert log'[n].Resolved?;
      } else {
        assert forall i :: 0 <= i < n && log[i].Held? && log[i].id == m.holds ==> SlotIs(m.himm, log[i]);
      }
    }
  }

  lemma ResetReplay(m: ImmSide, m': ImmSide, log: seq<Item>)
    requires ReplayInv(m, log) && !m'.himm.active && m'.holds == m.holds
    ensures ReplayInv(m', log + [Reset])
  {
    var log' := log + [Reset];
    assert log'[|log|] == Reset;
    assert forall k :: 0 <= k < |log| ==> log'[k] == log[k];
    forall j | 0 <= j < |log'| && log'[j].Resolved? ensures log'[j].id <= m'.holds && !Latest(log', j) {
    }
  }

  // ---- the calls --------------------------------------------------------------------------

  lemma SlotCtrl(m: ImmSide, log: seq<Item>)
    requires ReplayInv(m, log) && m.himm.active
    ensures m.himm.ctrl < 128 && m.enabled
  {
    var i :| 0 <= i < |log| && log[i].Held? && log[i].id == m.holds;
    assert SlotIs(m.himm, log[i]) && Acceptable(log[i]);
  }

  lemma Imm4Replay(m: ImmSide, src: Peer, d: Datagram, clock: nat, ok: bool, log: seq<Item>)
    requires ReplayInv(m, log) && 2 <= d.ctrl <= 5
    ensures var o := ReceiveImm4(m, src, d, clock, ok); ReplayInv(o.st, log + o.items)
  {
    hide ReplayInv, Hold, Replays;
    var o := ReceiveImm4(m, src, d, clock, ok);
    var p := Imm4Payload(d.ctrl, d.data);
    var key := ImmKey(src, d.seqNo, true);
    if m.enabled && p.Some? && |p.value| <= HIMM_MAX && !Replays(m, key, clock) && !m.himm.active {
      WellMadeIs(d.ctrl, p.value);
      HoldReplay(m, key, d.ctrl, p.value, clock, log);
    } else {
      hide Imm4Payload;
      QuietReplay(m, m, log, o.items);
    }
  }

  lemma Imm5Replay(m: ImmSide, src: Peer, d: Datagram, clock: nat, ok: bool, log: seq<Item>)
    requires ReplayInv(m, log) && d.ctrl < 128 && d.ctrl != 8
    ensures var o := ReceiveImmediate(m, src, d, clock, ok); ReplayInv(o.st, log + o.items)
  {
    hide ReplayInv, Hold, Replays, ImmLenOk, WellMade;
    var o := ReceiveImmediate(m, src, d, clock, ok);
    var key := ImmKey(src, d.seqNo, false);
    WellMadeIs(d.ctrl, d.data);
    if m.enabled && |d.data| <= HIMM_MAX && ImmLenOk(d.ctrl, d.data) && !Replays(m, key, clock) && !m.himm.active {
      HoldReplay(m, key, d.ctrl, d.data, clock, log);
    } else {
      QuietReplay(m, m, log, o.items);
    }
  }

  lemma SettlingsReplay(m: ImmSide, data: seq<byte>, clock: nat, ok: bool, log: seq<Item>)
    requires ReplayInv(m, log)
    ensures var o := ReplyCommand(m, data, clock, ok); ReplayInv(o.st, log + o.items)
    ensures var o := Reap(m, clock, ok); ReplayInv(o.st, log + o.items)
  {
    hide ReplayInv, Settle;
    QuietReplay(m, m, log, []);
    if m.himm.active {
      SlotCtrl(m, log);
      var h := m.himm;
      if h.fromData {
        SettleReplay(m, Verdict(TYPE_ACK, 0, h.ctrl, h.seqNo), false, [], clock, ok, log);
      } else {
        SettleReplay(m, ImmReply(h.ctrl, h.seqNo, data), false, data, clock, ok, log);
      }
      SettleReplay(m, Verdict(TYPE_NAK, 0, h.ctrl, h.seqNo), true, [], clock, ok, log);
    }
  }

  lemma InputReplay(e: Engine, src: Peer, dgram: seq<byte>, ok: bool)
    requires ReplayInv(e.imm, e.log)
    ensures var e' := Step(e, DoInput(src, dgram, ok)); ReplayInv(e'.imm, e'.log)
  {
    hide ReplayInv, ReceiveReply, ReceiveData, ReceiveImm4, ReceiveImmediate, ReceiveBroadcast;
    QuietReplay(e.imm, e.imm, e.log, []);
    assert e.log + [] == e.log;
    if |dgram| >= HDR_SIZE {
      var d := Decode(dgram).value;
      if IsImm4(d.port, d.ctrl) {
        Imm4Replay(e.imm, src, d, e.clock, ok, e.log);
      }
      if d.ctrl != CTRL_MACHINE_PEEK {
        Imm5Replay(e.imm, src, d, e.clock, ok, e.log);
      }
      OthersAreQuiet(e, src, d, [], 0, false, ok);
      QuietReplay(e.imm, e.imm, e.log, ReceiveData(e.rx, src, d, ok).items);
      QuietReplay(e.imm, e.imm, e.log, Answered(src, ImmReply(d.ctrl, d.seqNo, e.machineId), ok));
    }
  }

  lemma TransmitReplay(e: Engine, kind: byte, net: bv8, stn: bv8, ctrl: byte, port: byte,
                       data: seq<byte>, hasBuf: bool, replyMax: nat, ok: bool)
    requires ReplayInv(e.imm, e.log)
    ensures var e' := TxBegin(e, kind, net, stn, ctrl, port, data, hasBuf, replyMax, ok).0; ReplayInv(e'.imm, e'.log)
  {
    hide ReplayInv, Looped, Deliver, DeliveryOf, Resolve, Finish, AllocSeq;
    var to := Resolve(e.rx, net, stn);
    if to.Some? {
      QuietReplay(e.imm, e.imm, e.log,
                  Launch(e.tx, kind, to.value, ctrl, port, data, hasBuf, replyMax, e.clock, ok).items);
    }
  }

  lemma ImmediateReplay(e: Engine, net: bv8, stn: bv8, ctrl: byte, data: seq<byte>, hasBuf: bool, replyMax: nat,
                        ok: bool)
    requires ReplayInv(e.imm, e.log)
    ensures var e' := Immediate(e, net, stn, ctrl, data, hasBuf, replyMax, ok).0; ReplayInv(e'.imm, e'.log)
  {
    hide ReplayInv, TxBegin, PokeOnWire;
    if 4 <= |data| <= MAX_DATA - 4 {
      TransmitReplay(e, TYPE_DATA, net, stn, ctrl, 0, PokeOnWire(data), false, 0, ok);
    }
    TransmitReplay(e, TYPE_DATA, net, stn, ctrl, 0, data, false, 0, ok);
    TransmitReplay(e, TYPE_IMMEDIATE, net, stn, ctrl, 0, data, hasBuf, replyMax, ok);
  }

  lemma PollReplay(e: Engine, okNak: bool, okTx: bool)
    requires ReplayInv(e.imm, e.log)
    ensures var e' := Poll(e, okNak, okTx); ReplayInv(e'.imm, e'.log)
  {
    hide ReplayInv, Timer, Reap;
    SettlingsReplay(e.imm, [], e.clock, okNak, e.log);
    OthersAreQuiet(e, LOCAL, e.tx.cur.dgram, [], 0, false, okTx);
    var m := Reap(e.imm, e.clock, okNak);
    QuietReplay(m.st, m.st, e.log + m.items, Timer(e.tx, e.clock, okTx).items);
  }

  lemma StepReplay(e: Engine, ev: Event)
    requires ReplayInv(e.imm, e.log)
    ensures ReplayInv(Step(e, ev).imm, Step(e, ev).log)
  {
    hide ReplayInv, Collect, UdpInput, TxBegin, Immediate, Poll, Copies, ReplyCommand, TickBlocks, MapAdd, AllocSeq,
      Present, HasTarget;
    match ev
    case DoInit => ResetReplay(e.imm, Init(e).imm, e.log);
    case DoHostImm(enable) => ResetReplay(e.imm, Configure(e.imm, enable), e.log);
    case DoImmPoll =>
      assert e.log + [] == e.log;
      QuietReplay(e.imm, Take(e.imm), e.log, []);
    case DoCollect(h, accept, ok) =>
      OthersAreQuiet(e, LOCAL, e.tx.cur.dgram, [], h, accept, ok);
      QuietReplay(e.imm, e.imm, e.log, Collect(e.rx, h, accept, e.clock, ok).items);
    case DoInput(src, dgram, ok) => InputReplay(e, src, dgram, ok);
    case DoTx(net, stn, ctrl, port, data, ok) =>
      TransmitReplay(e, TYPE_DATA, net, stn, ctrl, port, data, false, 0, ok);
    case DoImmediate(net, stn, ctrl, data, hasBuf, replyMax, ok) =>
      ImmediateReplay(e, net, stn, ctrl, data, hasBuf, replyMax, ok);
    case DoBroadcast(ctrl, port, data, oks) =>
      var d := Datagram(TYPE_BROADCAST, port, ctrl % 128, e.tx.nextSeq, data);
      OthersAreQuiet(e, LOCAL, d, oks, 0, false, false);
      QuietReplay(e.imm, e.imm, e.log, Copies(e.rx, d, oks));
    case DoImmReply(data, ok) => SettlingsReplay(e.imm, data, e.clock, ok, e.log);
    case DoPoll(okNak, okTx) => PollReplay(e, okNak, okTx);
    case DoTick(ms) =>
    case _ =>
      PassiveImm(e, ev);
      hide Step;
  }

  lemma {:induction false} ReplayInvHolds(run: seq<Event>)
    ensures ReplayInv(Exec(run).imm, Exec(run).log)
  {
    if run != [] {
      hide Step, ReplayInv;
      ReplayInvHolds(run[..|run| - 1]);
      StepReplay(Exec(run[..|run| - 1]), run[|run| - 1]);
    }
  }

  // ---- results ------------------------------------------------------------------------------

  /** The outcome the call gives to hold `x`: the host's own answer, or, by a poll a second
      after it was held, the refusal. */
  ghost predicate GivenBy(ev: Event, clock: nat, x: Item, answer: Item)
    requires x.Held?
  {
    match ev
    case DoImmReply(data, ok) => |data| <= 2048 && answer == Sent(x.key.peer, HostAnswer(x, data), ok, Answer)
    case DoPoll(okNak, _) => clock >= x.at + 1000 && answer == Sent(x.key.peer, Refusal(x), okNak, Answer)
    case _ => false
  }

  /** A call resolves nothing, or resolves the hold in the slot as its first act. */
  lemma ResolvesFirst(e: Engine, ev: Event, k: nat)
    requires |e.log| <= k < |Step(e, ev).log| && Step(e, ev).log[k].Resolved?
    ensures k == |e.log| && k + 1 < |Step(e, ev).log| && e.imm.himm.active && (ev.DoImmReply? || ev.DoPoll?)
    ensures Step(e, ev).log[k] == Resolved(e.imm.holds, KeyOf(e.imm.himm), e.clock)
    ensures var h := e.imm.himm;
            match ev
            case DoImmReply(data, ok) =>
              && |data| <= 2048
              && Step(e, ev).log[k + 1] ==
                 Sent(h.peer, if h.fromData then Verdict(3, 0, h.ctrl, h.seqNo)
                      else ImmReply(h.ctrl, h.seqNo, data), ok, Answer)
            case DoPoll(okNak, _) =>
              e.clock >= h.due && Step(e, ev).log[k + 1] == Sent(h.peer, Verdict(4, 0, h.ctrl, h.seqNo), okNak, Answer)
            case _ => true
  {
    if ev.DoImmReply? {
      hide KeyOf;
    } else if ev.DoPoll? {
      PollResolves(e, ev.okNak, ev.okTx, k);
    } else {
      OthersResolveNothing(e, ev);
      hide Step;
      assert false;
    }
  }

  lemma PollResolves(e: Engine, okNak: bool, okTx: bool, k: nat)
    requires |e.log| <= k < |Poll(e, okNak, okTx).log| && Poll(e, okNak, okTx).log[k].Resolved?
    ensures var h, log' := e.imm.himm, Poll(e, okNak, okTx).log;
            && k == |e.log| && k + 1 < |log'| && h.active && e.clock >= h.due
            && log'[k] == Resolved(e.imm.holds, KeyOf(h), e.clock)
            && log'[k + 1] == Sent(h.peer, Verdict(4, 0, h.ctrl, h.seqNo), okNak, Answer)
  {
    hide Timer, KeyOf;
    OthersAreQuiet(e, LOCAL, e.tx.cur.dgram, [], 0, false, okTx);
  }

  /** No call resolves anything but the reply command and the poll. */
  lemma OthersResolveNothing(e: Engine, ev: Event)
    requires !ev.DoImmReply? && !ev.DoPoll?
    ensures forall k :: |e.log| <= k < |Step(e, ev).log| ==> !Step(e, ev).log[k].Resolved?
  {
    hide Collect, UdpInput, Copies, TxBegin, Immediate, TickBlocks, MapAdd, AllocSeq, Present, HasTarget;
    match ev
    case DoCollect(h, accept, ok) => OthersAreQuiet(e, LOCAL, e.tx.cur.dgram, [], h, accept, ok);
    case DoInput(src, dgram, ok) => InputResolvesNothing(e, src, dgram, ok);
    case DoBroadcast(ctrl, port, data, oks) =>
      OthersAreQuiet(e, LOCAL, Datagram(TYPE_BROADCAST, port, ctrl % 128, e.tx.nextSeq, data), oks, 0, false, false);
    case DoTx(net, stn, ctrl, port, data, ok) =>
      BeginResolvesNothing(e, TYPE_DATA, net, stn, ctrl, port, data, false, 0, ok);
    case DoImmediate(net, stn, ctrl, data, hasBuf, replyMax, ok) =>
      ImmediateResolvesNothing(e, net, stn, ctrl, data, hasBuf, replyMax, ok);
    case _ =>
  }

  lemma InputResolvesNothing(e: Engine, src: Peer, dgram: seq<byte>, ok: bool)
    ensures var log' := UdpInput(e, src, dgram, ok).log; forall k :: |e.log| <= k < |log'| ==> !log'[k].Resolved?
  {
    hide ReceiveData, ReceiveReply, ReceiveBroadcast, ImmLenOk, Imm4Payload, Replays, FromLe32;
    if |dgram| >= HDR_SIZE {
      OthersAreQuiet(e, src, Decode(dgram).value, [], 0, false, ok);
    }
  }

  lemma ImmediateResolvesNothing(e: Engine, net: bv8, stn: bv8, ctrl: byte, data: seq<byte>, hasBuf: bool,
                                 replyMax: nat, ok: bool)
    ensures var log' := Immediate(e, net, stn, ctrl, data, hasBuf, replyMax, ok).0.log;
            forall k :: |e.log| <= k < |log'| ==> !log'[k].Resolved?
  {
    hide TxBegin, PokeOnWire;
    if 4 <= |data| <= MAX_DATA - 4 {
      BeginResolvesNothing(e, TYPE_DATA, net, stn, ctrl, 0, PokeOnWire(data), false, 0, ok);
    }
    BeginResolvesNothing(e, TYPE_DATA, net, stn, ctrl, 0, data, false, 0, ok);
    BeginResolvesNothing(e, TYPE_IMMEDIATE, net, stn, ctrl, 0, data, hasBuf, replyMax, ok);
  }

  lemma BeginResolvesNothing(e: Engine, kind: byte, net: bv8, stn: bv8, ctrl: byte, port: byte,
                             data: seq<byte>, hasBuf: bool, replyMax: nat, ok: bool)
    ensures var log' := TxBegin(e, kind, net, stn, ctrl, port, data, hasBuf, replyMax, ok).0.log;
            forall k :: |e.log| <= k < |log'| ==> !log'[k].Resolved?
  {
    hide Looped, Deliver, DeliveryOf, Resolve, Finish, AllocSeq;
  }

  /** Over every run: an immediate is resolved only by the host's reply command, which sends
      its originator exactly what the host gave (or the ACK of one carried as DATA), or by
      a poll a second or more after it was held, which alone sends a NAK. */
  lemma OutcomeExactly(run: seq<Event>, ev: Event, k: nat)
    requires |Exec(run).log| <= k < |Step(Exec(run), ev).log| && Step(Exec(run), ev).log[k].Resolved?
    ensures var e, log' := Exec(run), Step(Exec(run), ev).log;
            && k + 1 < |log'|
            && exists i :: 0 <= i < |e.log| && e.log[i].Held? && e.log[i].id == log'[k].id &&
                           e.log[i].key == log'[k].key &&
                           GivenBy(ev, e.clock, e.log[i], log'[k + 1])
  {
    ReplayInvHolds(run);
    var e := Exec(run);
    hide Exec, Step;
    ResolvesFirst(e, ev, k);
    var i :| 0 <= i < |e.log| && e.log[i].Held? && e.log[i].id == e.imm.holds;
    assert SlotIs(e.imm.himm, e.log[i]) && Acceptable(e.log[i]);
    hide ReplayInv, Acceptable;
    assert GivenBy(ev, e.clock, e.log[i], Step(e, ev).log[k + 1]);
  }

  /** What answers a repeat: the datagram that was the outcome; a refused type-5 request is
      refused with the port it came with this time. */
  ghost function Again(first: Datagram, key: ImmKey, port: byte): Datagram {
    if !key.fromData && first.kind == 4 then first.(port := port) else first
  }

  lemma Repeat4(m: ImmSide, x: Item, src: Peer, d: Datagram, clock: nat, ok: bool, first: Datagram)
    requires Acceptable(x) && x.key.fromData && m.enabled && m.cache.valid && clock < m.cache.due
    requires CacheKey(m.cache) == x.key && src == x.key.peer && d.seqNo == x.key.seqNo &&
             d.ctrl == x.ctrl == m.cache.ctrl
    requires if x.ctrl == 2 then |d.data| >= 8 && d.data[..4] + d.data[8..] == x.data else d.data == x.data
    requires first == Datagram(if m.cache.isNak then 4 else 3, 0, m.cache.ctrl, m.cache.seqNo, [])
    ensures ReceiveImm4(m, src, d, clock, ok) == Out(m, [Sent(src, first, ok, Answer)])
  {
    WellMadeIs(x.ctrl, x.data);
    hide WellMade, ImmLenOk;
  }

  lemma Repeat5(m: ImmSide, x: Item, src: Peer, d: Datagram, clock: nat, ok: bool, first: Datagram)
    requires Acceptable(x) && !x.key.fromData && m.enabled && m.cache.valid && clock < m.cache.due && !m.himm.active
    requires CacheKey(m.cache) == x.key && src == x.key.peer && d.seqNo == x.key.seqNo &&
             d.ctrl == x.ctrl == m.cache.ctrl
    requires d.data == x.data
    requires first == if m.cache.isNak then Datagram(4, 0, m.cache.ctrl, m.cache.seqNo, [])
                      else Datagram(6, 0, m.cache.ctrl, m.cache.seqNo, m.cache.data)
    ensures ReceiveImmediate(m, src, d, clock, ok) == Out(m, [Sent(src, Again(first, x.key, d.port), ok, Answer)])
  {
    WellMadeIs(x.ctrl, x.data);
    hide WellMade, ImmLenOk;
  }

  /** Over every run: a repeat of a resolved request within six seconds, with nothing resolved
      or reset in between, is answered with the outcome logged then and changes nothing
      else; a type-5 one only while no other is held. */
  lemma ReplayedExactly(run: seq<Event>, i: nat, j: nat, src: Peer, dgram: seq<byte>, ok: bool)
    requires var log := Exec(run).log;
             && i < |log| && j < |log| && log[i].Held? && log[j].Resolved? && log[i].id == log[j].id
             && Carries(src, dgram, log[i]) && Latest(log, j) && Exec(run).clock < log[j].at + 6000
             && Exec(run).initialised && (log[i].key.fromData || !Exec(run).imm.himm.active)
    ensures var e := Exec(run);
            && j + 1 < |e.log| && e.log[j + 1].Sent? && e.log[j + 1].to == src
            && Step(e, DoInput(src, dgram, ok)) ==
               e.(log := e.log + [Sent(src, Again(e.log[j + 1].d, e.log[i].key, dgram[1]), ok, Answer)])
  {
    ReplayInvHolds(run);
    var e := Exec(run);
    hide Exec;
    var x, m := e.log[i], e.imm;
    assert Acceptable(x) && CacheIs(m.cache, e.log, j) && m.enabled;
    assert x.key == e.log[j].key && x.ctrl == m.cache.ctrl;
    hide ReplayInv, Latest;
    ImmStep(e, src, dgram, ok);
    hide Step;
    var d := Decode(dgram).value;
    if x.key.fromData {
      assert x.ctrl == 2 ==> d.data[..4] + d.data[8..] == dgram[8..12] + dgram[16..];
      Repeat4(m, x, src, d, e.clock, ok, e.log[j + 1].d);
    } else {
      Repeat5(m, x, src, d, e.clock, ok, e.log[j + 1].d);
    }
    hide ReceiveImm4, ReceiveImmediate, Acceptable;
  }

  /** Where an immediate goes, by its encoding. */
  lemma ImmStep(e: Engine, src: Peer, dgram: seq<byte>, ok: bool)
    requires e.initialised && |dgram| >= 8
    ensures var d := Decode(dgram).value;
            var e' := Step(e, DoInput(src, dgram, ok));
            && (dgram[0] == 2 && dgram[1] == 0 && 2 <= dgram[2] % 128 <= 5 ==>
                  var o := ReceiveImm4(e.imm, src, d, e.clock, ok); e' == e.(imm := o.st, log := e.log + o.items))
            && (dgram[0] == 5 && dgram[2] % 128 != 8 ==>
                  var o := ReceiveImmediate(e.imm, src, d, e.clock, ok); e' == e.(imm := o.st, log := e.log + o.items))
            && (dgram[0] == 5 && dgram[2] % 128 == 8 ==>
                  e' == e.(log := e.log + [Sent(src, Datagram(6, 0, 8, FromLe32(dgram[4..8]), e.machineId), ok,
                                                Answer)]))
  {
    hide ReceiveImm4, ReceiveImmediate, ReceiveData, ReceiveReply, ReceiveBroadcast, FromLe32;
  }

  // ---- what an inbound immediate meets ----------------------------------------------------------

  /** The slot taken for request `x`, in the next generation, and nothing else changed. */
  ghost predicate TakenFor(e: Engine, e': Engine, x: Item)
    requires x.Held?
  {
    && e' == e.(imm := e'.imm, log := e.log + [x]) && e'.imm == e.imm.(himm := e'.imm.himm, holds := e.imm.holds + 1)
    && e'.imm.himm.active && SlotIs(e'.imm.himm, x) && x.id == e.imm.holds + 1 && x.at == e.clock
    && e'.imm.himm.gen == (e.imm.himm.gen + 1) % 0x1_0000_0000 && e'.imm.himm.polledGen == e.imm.himm.polledGen
  }

  /** The outcome of this very request is still remembered. */
  predicate StillCached(e: Engine, key: ImmKey) {
    && e.imm.cache.valid && e.clock < e.imm.cache.due
    && ImmKey(e.imm.cache.peer, e.imm.cache.seqNo, e.imm.cache.fromData) == key
  }

  /** A type-5 immediate: the machine id for a machine peek; a NAK if the host takes none, or
      it is malformed, or another is held; silence if it is the one held; a remembered
      outcome again; else held, byte for byte. */
  lemma Type5Fate(e: Engine, src: Peer, dgram: seq<byte>, ok: bool)
    requires e.initialised && |dgram| >= 8 && dgram[0] == 5
    ensures var e' := Step(e, DoInput(src, dgram, ok));
            var ctrl, seqNo, data, h := dgram[2] % 128, FromLe32(dgram[4..8]), dgram[8..], e.imm.himm;
            var key := ImmKey(src, seqNo, false);
            var nak := e.(log := e.log + [Sent(src, Datagram(4, dgram[1], ctrl, seqNo, []), ok, Answer)]);
            if ctrl == 8 then e' == e.(log := e.log + [Sent(src, Datagram(6, 0, 8, seqNo, e.machineId), ok, Answer)])
            else if !e.imm.enabled || |data| > 2048 || !WellMade(ctrl, data) then e' == nak
            else if h.active then e' == if h.peer == src && h.seqNo == seqNo then e else nak
            else if StillCached(e, key) then e'.imm == e.imm && |e'.log| == |e.log| + 1
            else TakenFor(e, e', Held(e.imm.holds + 1, key, e.clock, ctrl, data))
  {
    ImmStep(e, src, dgram, ok);
    hide Step, FromLe32, WellMade;
    if dgram[2] % 128 != 8 {
      Type5Cases(e.imm, src, Decode(dgram).value, e.clock, ok);
      hide ReceiveImmediate;
      assert e.log + [] == e.log;
    }
  }

  lemma Type5Cases(m: ImmSide, src: Peer, d: Datagram, clock: nat, ok: bool)
    requires d.ctrl < 128
    ensures var o := ReceiveImmediate(m, src, d, clock, ok);
            var key := ImmKey(src, d.seqNo, false);
            var nak := Out(m, [Sent(src, Datagram(4, d.port, d.ctrl, d.seqNo, []), ok, Answer)]);
            if !m.enabled || |d.data| > 2048 || !WellMade(d.ctrl, d.data) then o == nak
            else if m.himm.active then o == if m.himm.peer == src && m.himm.seqNo == d.seqNo then Out(m, []) else nak
            else if Replays(m, key, clock) then o.st == m && |o.items| == 1
            else HoldOf(m, o, Held(m.holds + 1, key, clock, d.ctrl, d.data))
  {
    WellMadeIs(d.ctrl, d.data);
    hide WellMade, ImmLenOk, Replays;
  }

  /** The slot taken for request `x`, in the next generation. */
  ghost predicate HoldOf(m: ImmSide, o: Out<ImmSide>, x: Item)
    requires x.Held?
  {
    && o.items == [x] && o.st == m.(himm := o.st.himm, holds := m.holds + 1) && o.st.himm.active && SlotIs(o.st.himm, x)
    && o.st.himm.gen == (m.himm.gen + 1) % 0x1_0000_0000 && o.st.himm.polledGen == m.himm.polledGen
  }

  /** An immediate carried as DATA: a NAK if the host takes none or it is malformed; a
      remembered outcome again; silence if one is held; else held, without a Poke's count. */
  lemma Imm4Fate(e: Engine, src: Peer, dgram: seq<byte>, ok: bool)
    requires e.initialised && |dgram| >= 8 && dgram[0] == 2 && dgram[1] == 0 && 2 <= dgram[2] % 128 <= 5
    ensures var e' := Step(e, DoInput(src, dgram, ok));
            var ctrl, seqNo := dgram[2] % 128, FromLe32(dgram[4..8]);
            var key := ImmKey(src, seqNo, true);
            var short := ctrl == 2 && |dgram| < 16;
            var data := HeldBytes(dgram);
            if !e.imm.enabled || short || |data| > 2048 || !WellMade(ctrl, data) then
              e' == e.(log := e.log + [Sent(src, Datagram(4, 0, ctrl, seqNo, []), ok, Answer)])
            else if StillCached(e, key) then
              e' == e.(log := e.log + [Sent(src, Datagram(if e.imm.cache.isNak then 4
                                                          else 3, 0, ctrl, seqNo, []), ok, Answer)])
            else if e.imm.himm.active then e' == e
            else TakenFor(e, e', Held(e.imm.holds + 1, key, e.clock, ctrl, data))
  {
    hide Step, FromLe32, WellMade, HeldBytes, ReceiveImm4, HoldOf, TakenFor, Replays;
    ImmStep(e, src, dgram, ok);
    HeldBytesIs(dgram);
    var d := Decode(dgram).value;
    Imm4Cases(e.imm, src, d, e.clock, ok);
    CachedIs(e, ImmKey(src, d.seqNo, true));
    hide StillCached;
    var o := ReceiveImm4(e.imm, src, d, e.clock, ok);
    assert e.log + [] == e.log;
    var x := Held(e.imm.holds + 1, ImmKey(src, d.seqNo, true), e.clock, d.ctrl, HeldBytes(dgram));
    if HoldOf(e.imm, o, x) {
      HoldTaken(e, o, x);
    }
  }

  lemma CachedIs(e: Engine, key: ImmKey)
    ensures StillCached(e, key) <==> Replays(e.imm, key, e.clock)
  {
  }

  /** What an immediate carried as DATA is held with: a Poke loses its byte count. */
  function HeldBytes(dgram: seq<byte>): seq<byte>
    requires |dgram| >= 8
  {
    if dgram[2] % 128 == 2 && |dgram| >= 16 then dgram[8..12] + dgram[16..] else dgram[8..]
  }

  lemma HeldBytesIs(dgram: seq<byte>)
    requires |dgram| >= 8
    ensures var d := Decode(dgram).value;
            HeldBytes(dgram) == if d.ctrl == 2 && |d.data| >= 8 then d.data[..4] + d.data[8..] else d.data
  {
    hide FromLe32;
  }

  lemma HoldTaken(e: Engine, o: Out<ImmSide>, x: Item)
    requires x.Held? && x.id == e.imm.holds + 1 && x.at == e.clock && HoldOf(e.imm, o, x)
    ensures TakenFor(e, e.(imm := o.st, log := e.log + o.items), x)
  {
  }

  lemma Imm4Cases(m: ImmSide, src: Peer, d: Datagram, clock: nat, ok: bool)
    requires 2 <= d.ctrl <= 5
    ensures var o := ReceiveImm4(m, src, d, clock, ok);
            var key := ImmKey(src, d.seqNo, true);
            var short := d.ctrl == 2 && |d.data| < 8;
            var data := if d.ctrl == 2 && !short then d.data[..4] + d.data[8..] else d.data;
            if !m.enabled || short || |data| > 2048 || !WellMade(d.ctrl, data) then
              o == Out(m, [Sent(src, Datagram(4, 0, d.ctrl, d.seqNo, []), ok, Answer)])
            else if Replays(m, key, clock) then
              o == Out(m, [Sent(src, Datagram(if m.cache.isNak then 4 else 3, 0, d.ctrl, d.seqNo, []), ok, Answer)])
            else if m.himm.active then o == Out(m, [])
            else HoldOf(m, o, Held(m.holds + 1, key, clock, d.ctrl, data))
  {
    WellMadeIs(d.ctrl, d.data);
    hide Replays;
  }
}
