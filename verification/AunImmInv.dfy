/** The life of a host immediate, over every run: one outcome each, sent to its
    originator; a host reply reaches only what the host polled; nothing is handed
    to the host twice while its outcome is remembered. */
module AunImmInv {
  import opened Bytes
  import opened AunTypes
  import opened AunRx
  import opened AunTx
  import opened AunImm
  import opened AunSpec

  ghost predicate Quiet(items: seq<Item>) {
    forall k :: 0 <= k < |items| ==> items[k].Sent? || items[k].Accepted? || items[k].Shed?
  }

  /** The generation counter counts holds, modulo 32 bits. */
  ghost predicate GenOk(m: ImmSide) {
    m.polled <= m.holds && m.himm.gen == Add32(m.himm.polledGen, m.holds - m.polled)
  }

  /** The outcome of the hold resolved at `k` went to its originator. */
  ghost predicate OutcomeSent(log: seq<Item>, k: int) {
    && 0 <= k && k + 1 < |log| && log[k].Resolved? && log[k + 1].Sent?
    && log[k + 1].to == log[k].key.peer && Answers(log[k + 1].d, log[k].key)
  }

  /** A refusal, or the reply its encoding calls for, under its own number. */
  ghost predicate Answers(d: Datagram, key: ImmKey) {
    d.seqNo == key.seqNo && (d.kind == TYPE_NAK || d.kind == if key.fromData then TYPE_ACK else TYPE_IMM_REPLY)
  }

  ghost predicate HeldBefore(log: seq<Item>, k: int, id: nat, key: ImmKey) {
    exists i :: 0 <= i < k && i < |log| && log[i].Held? && log[i].id == id && log[i].key == key
  }

  /** Every hold has one number, every number one outcome, for its own key. */
  ghost predicate OutcomesOk(m: ImmSide, log: seq<Item>) {
    && (forall k :: 0 <= k < |log| && (log[k].Held? || log[k].Resolved?) ==> log[k].id <= m.holds)
    && (forall i, j :: 0 <= i < j < |log| && log[i].Held? && log[j].Held? ==> log[i].id < log[j].id)
    && (forall i, j :: 0 <= i < j < |log| && log[i].Resolved? && log[j].Resolved? ==> log[i].id < log[j].id)
    && (forall k :: 0 <= k < |log| && log[k].Resolved? ==>
                      HeldBefore(log, k, log[k].id, log[k].key) && OutcomeSent(log, k))
    && (m.himm.active ==>
          && HeldBefore(log, |log|, m.holds, KeyOf(m.himm))
          && (forall k :: 0 <= k < |log| && log[k].Resolved? ==> log[k].id < m.holds))
  }

  /** A hold ends resolved, wiped by a reset, or is the active one, to be
      refused a second after it was taken. */
  ghost predicate Ended(log: seq<Item>, i: nat, id: nat) {
    exists j :: i < j < |log| && (log[j].Reset? || (log[j].Resolved? && log[j].id == id))
  }

  ghost predicate FatesOk(m: ImmSide, log: seq<Item>) {
    forall i :: 0 <= i < |log| && log[i].Held? ==>
                  Ended(log, i, log[i].id) || (m.himm.active && m.holds == log[i].id &&
                                               m.himm.due == log[i].at + HIMM_TIMEOUT_MS)
  }

  /** What makes it safe to hold `key` again at time `t`: a reset, another
      immediate resolved since, or its own outcome forgotten after 6 s. */
  ghost predicate Frees(x: Item, key: ImmKey, t: nat) {
    x.Reset? || (x.Resolved? && (x.key != key || x.at + HIMM_CACHE_MS <= t))
  }

  ghost predicate Freed(log: seq<Item>, i: nat, k: int, key: ImmKey, t: nat) {
    exists j :: i < j < k && j < |log| && Frees(log[j], key, t)
  }

  /** The cached outcome is that of a resolution after `i`. */
  ghost predicate CachedSince(m: ImmSide, log: seq<Item>, i: nat, key: ImmKey) {
    && m.cache.valid && CacheKey(m.cache) == key
    && exists j :: i < j < |log| && log[j].Resolved? && log[j].key == key && log[j].at + HIMM_CACHE_MS == m.cache.due
  }

  ghost predicate Guarded(m: ImmSide, clock: nat, log: seq<Item>, i: nat, key: ImmKey) {
    || Freed(log, i, |log|, key, clock)
    || (m.himm.active && KeyOf(m.himm) == key)
    || CachedSince(m, log, i, key)
  }

  ghost predicate GuardsOk(m: ImmSide, clock: nat, log: seq<Item>) {
    forall i :: 0 <= i < |log| && log[i].Held? ==> Guarded(m, clock, log, i, log[i].key)
  }

  ghost predicate RepeatsOk(log: seq<Item>) {
    forall i, k :: 0 <= i < k < |log| && log[i].Held? && log[k].Held? && log[i].key == log[k].key ==>
                     Freed(log, i, k, log[i].key, log[k].at)
  }

  ghost predicate ImmInv(m: ImmSide, clock: nat, log: seq<Item>) {
    GenOk(m) && OutcomesOk(m, log) && FatesOk(m, log) && GuardsOk(m, clock, log) && RepeatsOk(log)
  }

  // ---- growing the log ----------------------------------------------------

  lemma FreedStays(log: seq<Item>, items: seq<Item>, i: nat, k: int, k': int, key: ImmKey, t: nat, t': nat)
    requires Freed(log, i, k, key, t) && k <= k' && t <= t'
    ensures Freed(log + items, i, k', key, t')
  {
    var j :| i < j < k && j < |log| && Frees(log[j], key, t);
    assert Frees((log + items)[j], key, t');
  }

  lemma EndedStays(log: seq<Item>, items: seq<Item>, i: nat, id: nat)
    requires Ended(log, i, id)
    ensures Ended(log + items, i, id)
  {
    var j :| i < j < |log| && (log[j].Reset? || (log[j].Resolved? && log[j].id == id));
    assert (log + items)[j] == log[j];
  }

  lemma HeldStays(log: seq<Item>, items: seq<Item>, k: int, k': int, id: nat, key: ImmKey)
    requires HeldBefore(log, k, id, key) && k <= k'
    ensures HeldBefore(log + items, k', id, key)
  {
    var i :| 0 <= i < k && i < |log| && log[i].Held? && log[i].id == id && log[i].key == key;
    assert (log + items)[i] == log[i];
  }

  lemma CachedStays(m: ImmSide, log: seq<Item>, items: seq<Item>, i: nat, key: ImmKey)
    requires CachedSince(m, log, i, key)
    ensures CachedSince(m, log + items, i, key)
  {
    var j :| i < j < |log| && log[j].Resolved? && log[j].key == key && log[j].at + HIMM_CACHE_MS == m.cache.due;
    assert (log + items)[j] == log[j];
  }

  /** Repetitions already in the log stay excused. */
  lemma RepeatsStay(log: seq<Item>, items: seq<Item>)
    requires RepeatsOk(log) && forall k :: 0 <= k < |items| ==> !items[k].Held?
    ensures RepeatsOk(log + items)
  {
    var log' := log + items;
    forall i, k | 0 <= i < k < |log'| && log'[i].Held? && log'[k].Held? && log'[i].key == log'[k].key
      ensures Freed(log', i, k, log'[i].key, log'[k].at)
    {
      assert k < |log| && log'[i] == log[i] && log'[k] == log[k];
      FreedStays(log, items, i, k, k, log[i].key, log[k].at, log[k].at);
    }
  }

  /** Time and the rest of the engine leave the immediates alone. */
  lemma QuietKeepsImm(m: ImmSide, clock: nat, later: nat, log: seq<Item>, items: seq<Item>)
    requires ImmInv(m, clock, log) && Quiet(items) && clock <= later
    ensures ImmInv(m, later, log + items)
  {
    var log' := log + items;
    assert forall k :: 0 <= k < |log'| && (log'[k].Held? || log'[k].Resolved?) ==> k < |log| && log'[k] == log[k];
    hide GenOk, HeldBefore, OutcomeSent, Freed, Ended, CachedSince;
    RepeatsStay(log, items);
    ResolutionsStay(log, items);
    if m.himm.active {
      HeldStays(log, items, |log|, |log'|, m.holds, KeyOf(m.himm));
    }
    forall i | 0 <= i < |log'| && log'[i].Held?
      ensures Guarded(m, later, log', i, log'[i].key)
      ensures Ended(log', i, log'[i].id) || (m.himm.active && m.holds == log'[i].id &&
                                             m.himm.due == log'[i].at + HIMM_TIMEOUT_MS)
    {
      GuardStays(m, clock, later, log, items, i);
      if Ended(log, i, log[i].id) {
        EndedStays(log, items, i, log[i].id);
      }
    }
  }

  lemma OutcomeStays(log: seq<Item>, items: seq<Item>, k: int)
    requires OutcomeSent(log, k)
    ensures OutcomeSent(log + items, k)
  {
    assert (log + items)[k] == log[k] && (log + items)[k + 1] == log[k + 1];
  }

  lemma ResolutionsStay(log: seq<Item>, items: seq<Item>)
    requires forall k :: 0 <= k < |log| && log[k].Resolved? ==>
                           HeldBefore(log, k, log[k].id, log[k].key) && OutcomeSent(log, k)
    ensures forall k :: 0 <= k < |log| && log[k].Resolved? ==>
                          HeldBefore(log + items, k, log[k].id, log[k].key) && OutcomeSent(log + items, k)
  {
    forall k | 0 <= k < |log| && log[k].Resolved?
      ensures HeldBefore(log + items, k, log[k].id, log[k].key) && OutcomeSent(log + items, k)
    {
      HeldStays(log, items, k, k, log[k].id, log[k].key);
      OutcomeStays(log, items, k);
    }
  }

  lemma GuardStays(m: ImmSide, clock: nat, later: nat, log: seq<Item>, items: seq<Item>, i: nat)
    requires i < |log| && log[i].Held? && Guarded(m, clock, log, i, log[i].key) && clock <= later
    ensures Guarded(m, later, log + items, i, log[i].key)
  {
    if Freed(log, i, |log|, log[i].key, clock) {
      FreedStays(log, items, i, |log|, |log + items|, log[i].key, clock, later);
    } else if !(m.himm.active && KeyOf(m.himm) == log[i].key) {
      CachedStays(m, log, items, i, log[i].key);
    }
  }

  // ---- the three transitions ----------------------------------------------

  /** A reset wipes the slot and the cache, and excuses everything before it. */
  lemma ResetKeepsImm(m: ImmSide, clock: nat, log: seq<Item>, m': ImmSide)
    requires ImmInv(m, clock, log) && GenOk(m') && !m'.himm.active && m'.holds == m.holds
    ensures ImmInv(m', clock, log + [Reset])
  {
    var log' := log + [Reset];
    assert log'[|log|] == Reset;
    hide GenOk, HeldBefore, OutcomeSent;
    RepeatsStay(log, [Reset]);
    ResolutionsStay(log, [Reset]);
    forall i: nat | i < |log'| && log'[i].Held?
      ensures Freed(log', i, |log'|, log'[i].key, clock) && Ended(log', i, log'[i].id)
    {
      assert Frees(log'[|log|], log'[i].key, clock);
    }
  }

  lemma HoldKeepsImm(m: ImmSide, key: ImmKey, ctrl: byte, data: seq<byte>, clock: nat, log: seq<Item>)
    requires ImmInv(m, clock, log) && !m.himm.active && !Replays(m, key, clock)
    ensures var o := Hold(m, key, ctrl, data, clock); ImmInv(o.st, clock, log + o.items)
  {
    hide GenOk, HeldBefore, OutcomeSent, Freed, Ended, CachedSince, Replays;
    HoldGen(m, key, ctrl, data, clock);
    var o := Hold(m, key, ctrl, data, clock);
    var log' := log + o.items;
    assert log'[|log|] == Held(m.holds + 1, key, clock, ctrl, data);
    ResolutionsStay(log, o.items);
    HeldLast(log, o.items[0]);
    forall i: nat | i < |log|  && log'[i].Held?
      ensures Guarded(o.st, clock, log', i, log'[i].key) && Ended(log', i, log'[i].id)
    {
      GuardStays(m, clock, clock, log, o.items, i);
      CachedSame(m, o.st, log', i, log[i].key);
      EndedStays(log, o.items, i, log[i].id);
    }
    forall i: nat, k: nat | i < k < |log'| && log'[i].Held? && log'[k].Held? && log'[i].key == log'[k].key
      ensures Freed(log', i, k, log'[i].key, log'[k].at)
    {
      if k < |log| {
        FreedStays(log, o.items, i, k, k, log[i].key, log[k].at, log[k].at);
      } else {
        NotReplayed(m, clock, log, i, key);
        FreedStays(log, o.items, i, |log|, k, key, clock, clock);
      }
    }
  }

  lemma HoldGen(m: ImmSide, key: ImmKey, ctrl: byte, data: seq<byte>, clock: nat)
    requires GenOk(m)
    ensures GenOk(Hold(m, key, ctrl, data, clock).st)
  {
  }

  lemma HeldLast(log: seq<Item>, x: Item)
    requires x.Held?
    ensures HeldBefore(log + [x], |log| + 1, x.id, x.key)
  {
    assert (log + [x])[|log|] == x;
  }

  lemma CachedSame(m: ImmSide, m': ImmSide, log: seq<Item>, i: nat, key: ImmKey)
    requires m.cache == m'.cache
    ensures CachedSince(m, log, i, key) <==> CachedSince(m', log, i, key)
  {
  }

  /** With the slot free and no replay due, an earlier hold of the key is excused. */
  lemma NotReplayed(m: ImmSide, clock: nat, log: seq<Item>, i: nat, key: ImmKey)
    requires i < |log| && log[i].Held? && log[i].key == key && Guarded(m, clock, log, i, key)
    requires !m.himm.active && !Replays(m, key, clock)
    ensures Freed(log, i, |log|, key, clock)
  {
    if CachedSince(m, log, i, key) {
      var j :| i < j < |log| && log[j].Resolved? && log[j].key == key && log[j].at + HIMM_CACHE_MS == m.cache.due;
      assert Frees(log[j], key, clock);
    }
  }

  lemma SettleOutcomes(m: ImmSide, d: Datagram, isNak: bool, data: seq<byte>, clock: nat, ok: bool, log: seq<Item>)
    requires OutcomesOk(m, log) && m.himm.active && Answers(d, KeyOf(m.himm))
    ensures var o := Settle(m, d, isNak, data, clock, ok); OutcomesOk(o.st, log + o.items)
  {
    var o := Settle(m, d, isNak, data, clock, ok);
    var log' := log + o.items;
    var at := |log|;
    assert log'[at] == Resolved(m.holds, KeyOf(m.himm), clock) && log'[at + 1] == Sent(m.himm.peer, d, ok, Answer);
    assert OutcomeSent(log', at);
    hide HeldBefore, OutcomeSent;
    HeldStays(log, o.items, at, at, m.holds, KeyOf(m.himm));
    ResolutionsStay(log, o.items);
  }

  lemma SettleKeepsImm(m: ImmSide, d: Datagram, isNak: bool, data: seq<byte>, clock: nat, ok: bool, log: seq<Item>)
    requires ImmInv(m, clock, log) && m.himm.active && Answers(d, KeyOf(m.himm))
    ensures var o := Settle(m, d, isNak, data, clock, ok); ImmInv(o.st, clock, log + o.items)
  {
    var o := Settle(m, d, isNak, data, clock, ok);
    var log' := log + o.items;
    SettleOutcomes(m, d, isNak, data, clock, ok, log);
    RepeatsStay(log, o.items);
    assert GenOk(o.st);
    hide GenOk, OutcomesOk, RepeatsOk;
    forall i: nat | i < |log'| && log'[i].Held?
      ensures Guarded(o.st, clock, log', i, log'[i].key) && Ended(log', i, log'[i].id)
    {
      SettledHold(m, o.st, log, log', i, clock);
    }
  }

  /** Resolving ends the active hold, guards it by the cache, and frees the others. */
  lemma SettledHold(m: ImmSide, m': ImmSide, log: seq<Item>, log': seq<Item>, i: nat, clock: nat)
    requires |log'| == |log| + 2 && log'[..|log|] == log && log'[|log|] == Resolved(m.holds, KeyOf(m.himm), clock)
    requires m'.cache.valid && CacheKey(m'.cache) == KeyOf(m.himm) && m'.cache.due == clock + HIMM_CACHE_MS
    requires i < |log| && log[i].Held? && FatesOk(m, log)
    ensures Guarded(m', clock, log', i, log'[i].key) && Ended(log', i, log'[i].id)
  {
    var at := |log|;
    assert log'[i] == log[i];
    assert log' == log + log'[at..];
    if log[i].key == KeyOf(m.himm) {
      assert CachedSince(m', log', i, log[i].key);
    } else {
      assert Frees(log'[at], log[i].key, clock);
      assert Freed(log', i, |log'|, log[i].key, clock);
    }
    if Ended(log, i, log[i].id) {
      EndedStays(log, log'[at..], i, log[i].id);
    }
  }

  // ---- engine calls -------------------------------------------------------

  ghost predicate ImmInvOf(e: Engine) {
    ImmInv(e.imm, e.clock, e.log) && (e.imm.himm.active ==> e.initialised)
  }

  lemma OthersAreQuiet(e: Engine, src: Peer, d: Datagram, oks: seq<bool>, h: byte, accept: bool, ok: bool)
    ensures Quiet(Collect(e.rx, h, accept, e.clock, ok).items) && Quiet(Copies(e.rx, d, oks))
    ensures Quiet(ReceiveData(e.rx, src, d, ok).items) && Quiet(Timer(e.tx, e.clock, ok).items)
  {
    hide Taken, Deferring, Lift, SetSlot, Expire, Budget, Stamp, Learn, Queueing, Deliver, DeliveryOf, HasTarget,
      Target, Finish;
  }

  lemma ReceiveImm4Keeps(m: ImmSide, src: Peer, d: Datagram, clock: nat, ok: bool, log: seq<Item>)
    requires ImmInv(m, clock, log)
    ensures var o := ReceiveImm4(m, src, d, clock, ok); ImmInv(o.st, clock, log + o.items)
  {
    hide ImmInv, ImmLenOk, Hold, Replays;
    var o := ReceiveImm4(m, src, d, clock, ok);
    var p := Imm4Payload(d.ctrl, d.data);
    var key := ImmKey(src, d.seqNo, true);
    if !m.himm.active && p.Some? && !Replays(m, key, clock) {
      HoldKeepsImm(m, key, d.ctrl, p.value, clock, log);
    }
    if Quiet(o.items) {
      QuietKeepsImm(m, clock, clock, log, o.items);
    }
  }

  lemma ReceiveImmediateKeeps(m: ImmSide, src: Peer, d: Datagram, clock: nat, ok: bool, log: seq<Item>)
    requires ImmInv(m, clock, log)
    ensures var o := ReceiveImmediate(m, src, d, clock, ok); ImmInv(o.st, clock, log + o.items)
  {
    hide ImmInv, ImmLenOk, Hold, Replays;
    var o := ReceiveImmediate(m, src, d, clock, ok);
    var key := ImmKey(src, d.seqNo, false);
    if !m.himm.active && !Replays(m, key, clock) {
      HoldKeepsImm(m, key, d.ctrl, d.data, clock, log);
    }
    if Quiet(o.items) {
      QuietKeepsImm(m, clock, clock, log, o.items);
    }
  }

  lemma SettlingsKeep(m: ImmSide, data: seq<byte>, clock: nat, ok: bool, log: seq<Item>)
    requires ImmInv(m, clock, log)
    ensures var o := ReplyCommand(m, data, clock, ok);
            ImmInv(o.st, clock, log + o.items) && (o.st.himm.active ==> m.himm.active)
    ensures var o := Reap(m, clock, ok);
            ImmInv(o.st, clock, log + o.items) && (o.st.himm.active ==> m.himm.active)
  {
    hide ImmInv;
    var h := m.himm;
    QuietKeepsImm(m, clock, clock, log, []);
    if h.active {
      if h.fromData {
        SettleKeepsImm(m, Verdict(TYPE_ACK, 0, h.ctrl, h.seqNo), false, [], clock, ok, log);
      } else {
        SettleKeepsImm(m, ImmReply(h.ctrl, h.seqNo, data), false, data, clock, ok, log);
      }
      SettleKeepsImm(m, Verdict(TYPE_NAK, 0, h.ctrl, h.seqNo), true, [], clock, ok, log);
    }
  }

  lemma ReceiveKeepsImm(e: Engine, src: Peer, d: Datagram, ok: bool)
    requires ImmInvOf(e) && e.initialised
    ensures ImmInvOf(Receive(e, src, d, ok))
  {
    hide ImmInv, ReceiveReply, ReceiveData, ReceiveImm4, ReceiveImmediate, ReceiveBroadcast;
    ReceiveImm4Keeps(e.imm, src, d, e.clock, ok, e.log);
    ReceiveImmediateKeeps(e.imm, src, d, e.clock, ok, e.log);
    OthersAreQuiet(e, src, d, [], 0, false, ok);
    QuietKeepsImm(e.imm, e.clock, e.clock, e.log, ReceiveData(e.rx, src, d, ok).items);
    QuietKeepsImm(e.imm, e.clock, e.clock, e.log, Answered(src, ImmReply(d.ctrl, d.seqNo, e.machineId), ok));
  }

  lemma TransmitKeepsImm(e: Engine, kind: byte, net: bv8, stn: bv8, ctrl: byte, port: byte,
                         data: seq<byte>, hasBuf: bool, replyMax: nat, ok: bool)
    requires ImmInvOf(e)
    ensures ImmInvOf(TxBegin(e, kind, net, stn, ctrl, port, data, hasBuf, replyMax, ok).0)
  {
    hide ImmInv, Looped, Deliver, DeliveryOf, Resolve, Finish, AllocSeq;
    var to := Resolve(e.rx, net, stn);
    if to.Some? {
      QuietKeepsImm(e.imm, e.clock, e.clock, e.log,
                    Launch(e.tx, kind, to.value, ctrl, port, data, hasBuf, replyMax, e.clock, ok).items);
    }
  }

  lemma PollKeepsImm(e: Engine, okNak: bool, okTx: bool)
    requires ImmInvOf(e)
    ensures ImmInvOf(Poll(e, okNak, okTx))
  {
    hide ImmInv, Timer;
    SettlingsKeep(e.imm, [], e.clock, okNak, e.log);
    OthersAreQuiet(e, LOCAL, Datagram(0, 0, 0, 0, []), [], 0, false, okTx);
    var m := Reap(e.imm, e.clock, okNak);
    QuietKeepsImm(m.st, e.clock, e.clock, e.log + m.items, Timer(e.tx, e.clock, okTx).items);
  }

  lemma ConfigKeepsImm(e: Engine, enable: bool)
    requires ImmInvOf(e)
    ensures ImmInvOf(Init(e)) && ImmInvOf(Step(e, DoHostImm(enable)))
  {
    assert GenOk(Init(e).imm) && GenOk(Configure(e.imm, enable));
    hide ImmInv, GenOk;
    ResetKeepsImm(e.imm, e.clock, e.log, Init(e).imm);
    ResetKeepsImm(e.imm, e.clock, e.log, Configure(e.imm, enable));
  }

  /** Polling changes which generation the host works on, and nothing else. */
  lemma TakeKeepsImm(m: ImmSide, clock: nat, log: seq<Item>)
    requires ImmInv(m, clock, log)
    ensures ImmInv(Take(m), clock, log)
  {
    hide RepeatsOk, Freed, Ended, CachedSince, HeldBefore, OutcomeSent;
    forall i: nat | i < |log| && log[i].Held? ensures Guarded(Take(m), clock, log, i, log[i].key) {
      CachedSame(m, Take(m), log, i, log[i].key);
    }
  }

  lemma ImmediateKeepsImm(e: Engine, net: bv8, stn: bv8, ctrl: byte, data: seq<byte>,
                          hasBuf: bool, replyMax: nat, ok: bool)
    requires ImmInvOf(e)
    ensures ImmInvOf(Immediate(e, net, stn, ctrl, data, hasBuf, replyMax, ok).0)
  {
    hide ImmInv, TxBegin, PokeOnWire;
    if 4 <= |data| <= MAX_DATA - 4 {
      TransmitKeepsImm(e, TYPE_DATA, net, stn, ctrl, 0, PokeOnWire(data), false, 0, ok);
    }
    TransmitKeepsImm(e, TYPE_DATA, net, stn, ctrl, 0, data, false, 0, ok);
    TransmitKeepsImm(e, TYPE_IMMEDIATE, net, stn, ctrl, 0, data, hasBuf, replyMax, ok);
  }

  lemma StepKeepsImm(e: Engine, ev: Event)
    requires ImmInvOf(e)
    ensures ImmInvOf(Step(e, ev))
  {
    hide ImmInv, Init, Collect, Receive, TxBegin, Immediate, Poll, Copies, ReplyCommand, Configure, TickBlocks,
      MapAdd, AllocSeq, Present, HasTarget;
    match ev
    case DoInit => ConfigKeepsImm(e, false);
    case DoHostImm(enable) => ConfigKeepsImm(e, enable);
    case DoImmPoll =>
      TakeKeepsImm(e.imm, e.clock, e.log);
      assert Take(e.imm).himm.active == e.imm.himm.active;
    case DoCollect(h, accept, ok) =>
      OthersAreQuiet(e, LOCAL, Datagram(0, 0, 0, 0, []), [], h, accept, ok);
      QuietKeepsImm(e.imm, e.clock, e.clock, e.log, Collect(e.rx, h, accept, e.clock, ok).items);
    case DoInput(src, dgram, ok) =>
      if |dgram| >= HDR_SIZE && e.initialised { ReceiveKeepsImm(e, src, Decode(dgram).value, ok); }
    case DoTx(net, stn, ctrl, port, data, ok) =>
      TransmitKeepsImm(e, TYPE_DATA, net, stn, ctrl, port, data, false, 0, ok);
    case DoImmediate(net, stn, ctrl, data, hasBuf, replyMax, ok) =>
      ImmediateKeepsImm(e, net, stn, ctrl, data, hasBuf, replyMax, ok);
    case DoBroadcast(ctrl, port, data, oks) =>
      var d := Datagram(TYPE_BROADCAST, port, ctrl % 128, e.tx.nextSeq, data);
      OthersAreQuiet(e, LOCAL, d, oks, 0, false, false);
      QuietKeepsImm(e.imm, e.clock, e.clock, e.log, Copies(e.rx, d, oks));
    case DoImmReply(data, ok) => SettlingsKeep(e.imm, data, e.clock, ok, e.log);
    case DoPoll(okNak, okTx) => PollKeepsImm(e, okNak, okTx);
    case DoTick(ms) =>
      QuietKeepsImm(e.imm, e.clock, e.clock + ms, e.log, []);
      assert e.log + [] == e.log;
    case _ =>
      PassiveImm(e, ev);
      hide Step;
  }

  /** The calls that leave the immediates, the clock and the history alone. */
  lemma PassiveImm(e: Engine, ev: Event)
    requires ev.DoMapAdd? || ev.DoAddressing? || ev.DoTest? || ev.DoMachineId? || ev.DoOpen? || ev.DoRxPoll? ||
             ev.DoClose?
    ensures var e' := Step(e, ev);
            e'.imm == e.imm && e'.clock == e.clock && e'.log == e.log && e'.initialised == e.initialised
  {
    hide MapAdd, Present, HasTarget;
  }

  lemma {:induction false} ImmInvHolds(run: seq<Event>)
    ensures ImmInvOf(Exec(run))
  {
    if run != [] {
      hide Step, ImmInv;
      ImmInvHolds(run[..|run| - 1]);
      StepKeepsImm(Exec(run[..|run| - 1]), run[|run| - 1]);
    }
  }

  // ---- results ------------------------------------------------------------

  /** A held immediate gets at most one outcome, and every outcome follows the
      hold it answers and goes to its originator under its sequence number. */
  lemma OneOutcomeEach(run: seq<Event>, i: nat, j: nat)
    requires i < |Exec(run).log| && j < |Exec(run).log| && Exec(run).log[i].Resolved? && Exec(run).log[j].Resolved?
    ensures var log := Exec(run).log;
            && (log[i].id == log[j].id ==> i == j)
            && HeldBefore(log, i, log[i].id, log[i].key) && OutcomeSent(log, i)
  {
    hide Step;
    ImmInvHolds(run);
  }

  /** A poll at or past the deadline leaves no hold without an outcome, unless a
      reset dropped it. */
  lemma ResolvedByDeadline(run: seq<Event>, i: nat, okNak: bool, okTx: bool)
    requires i < |Exec(run).log| && Exec(run).log[i].Held?
    requires Exec(run).clock >= Exec(run).log[i].at + HIMM_TIMEOUT_MS
    ensures Ended(Poll(Exec(run), okNak, okTx).log, i, Exec(run).log[i].id)
  {
    hide Exec, Poll, Ended;
    ImmInvHolds(run);
    PollEnds(Exec(run), i, okNak, okTx);
  }

  lemma PollEnds(e: Engine, i: nat, okNak: bool, okTx: bool)
    requires ImmInvOf(e) && i < |e.log| && e.log[i].Held? && e.clock >= e.log[i].at + HIMM_TIMEOUT_MS
    ensures Ended(Poll(e, okNak, okTx).log, i, e.log[i].id)
  {
    hide Timer, OutcomesOk, GuardsOk, RepeatsOk, GenOk, KeyOf;
    var e' := Poll(e, okNak, okTx);
    var items := if e.initialised then Reap(e.imm, e.clock, okNak).items + Timer(e.tx, e.clock, okTx).items else [];
    assert e'.log == e.log + items;
    if Ended(e.log, i, e.log[i].id) {
      EndedStays(e.log, items, i, e.log[i].id);
    } else {
      assert e'.log[|e.log|] == Resolved(e.imm.holds, KeyOf(e.imm.himm), e.clock);
    }
  }

  /** A host reply resolves only the immediate the host last polled (while fewer
      than 2^32 were held since that poll). */
  lemma ReplyReachesPolled(run: seq<Event>, data: seq<byte>, ok: bool)
    requires var m := Exec(run).imm; m.holds - m.polled < U32_SIZE
    ensures var m := Exec(run).imm;
            var o := ReplyCommand(m, data, Exec(run).clock, ok);
            o != Out(m, []) ==> m.himm.active && m.polled == m.holds &&
                                o.items[0] == Resolved(m.polled, KeyOf(m.himm), Exec(run).clock)
  {
    hide Step;
    ImmInvHolds(run);
    var m := Exec(run).imm;
    assert GenOk(m);
  }

  /** The same immediate is held again only after a reset, after another one was
      resolved in between, or once its own outcome was 6 s old. */
  lemma HeldAgainOnlyWhenFreed(run: seq<Event>, i: nat, k: nat)
    requires i < k < |Exec(run).log| && Exec(run).log[i].Held? && Exec(run).log[k].Held?
    requires Exec(run).log[i].key == Exec(run).log[k].key
    ensures Freed(Exec(run).log, i, k, Exec(run).log[i].key, Exec(run).log[k].at)
  {
    hide Step;
    ImmInvHolds(run);
  }
}
