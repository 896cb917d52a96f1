/** What becomes of a transmit: over every run, exactly which call ends it and with which
    status, told from the calls, the clock and the datagrams sent. */
module AunOutcome {
  import opened Bytes
  import opened AunTypes
  import opened AunRx
  import opened AunTx
  import opened AunImm
  import opened AunSpec
  import opened AunTxInv

  // ---- what the run says --------------------------------------------------------

  /** The last datagram handed over for a transmit. */
  ghost function LastSent(log: seq<Item>): (x: Option<Item>)
    ensures x.Some? ==> Transmitted(x.value)
  {
    if log == [] then None
    else if Transmitted(log[|log| - 1]) then Some(log[|log| - 1])
    else LastSent(log[..|log| - 1])
  }

  /** A datagram of this type comes from the peer that the last transmit went to, with the
      sequence number of that transmit. */
  ghost predicate Replies(e: Engine, ev: Event, kind: byte) {
    var x := LastSent(e.log);
    && ev.DoInput? && |ev.dgram| >= 8 && ev.dgram[0] == kind
    && x.Some? && ev.src == x.value.to && FromLe32(ev.dgram[4..8]) == x.value.d.seqNo
  }

  /** What a transmit waits for: the ACK of a DATA datagram, the reply to an immediate. */
  ghost predicate Confirms(e: Engine, ev: Event) {
    var x := LastSent(e.log);
    x.Some? && Replies(e, ev, if x.value.d.kind == TYPE_DATA then TYPE_ACK else TYPE_IMM_REPLY)
  }

  /** How often a transmit may be refused before it fails. */
  ghost function Retries(e: Engine): nat {
    var x := LastSent(e.log);
    if x.Some? && x.value.d.kind == TYPE_DATA then 10 else 0
  }

  /** The call hands a transmit, or a repeat, to the transport. */
  ghost predicate HandsOver(e: Engine, ev: Event) {
    var log' := Step(e, ev).log;
    exists k :: |e.log| <= k < |log'| && Transmitted(log'[k])
  }

  /** When the current transmit was sent last; whether it was refused since, and when;
      how often it was refused in all. */
  datatype Track = Track(sentAt: nat, refused: bool, refusedAt: nat, refusals: nat)

  ghost function Trace(run: seq<Event>): Track {
    if run == [] then Track(0, false, 0, 0)
    else
      var n := |run| - 1;
      Traced(Exec(run[..n]), run[n], Trace(run[..n]))
  }

  ghost function Traced(e: Engine, ev: Event, h: Track): Track {
    if HandsOver(e, ev) then Track(e.clock, false, h.refusedAt, if e.tx.cur.state == PENDING then h.refusals else 0)
    else if Replies(e, ev, TYPE_NAK) then Track(h.sentAt, true, e.clock, h.refusals + 1)
    else h
  }

  /** The status a pending transmit has after a call. */
  ghost function StatusAfter(e: Engine, ev: Event, h: Track): byte {
    if ev.DoInit? || Confirms(e, ev) then AUN_OK
    else if Replies(e, ev, TYPE_NAK) && h.refusals >= Retries(e) then TX_NOT_LISTENING
    else if ev.DoPoll? && !h.refused && e.clock >= h.sentAt + 1000 then TX_NOT_LISTENING
    else if ev.DoPoll? && h.refused && e.clock >= h.refusedAt + 10 && !ev.okTx then TX_NET_ERROR
    else PENDING
  }

  // ---- the pending transmit, as the run tells it -----------------------------------

  ghost predicate Told(t: TxSide, log: seq<Item>, h: Track) {
    Waiting(t) ==>
      var x := LastSent(log);
      && x.Some? && x.value.to == t.cur.to && x.value.d == t.cur.dgram
      && t.cur.rejectLeft + h.refusals == (if t.cur.kind == TYPE_DATA then 10 else 0)
      && t.cur.rejectPending == h.refused
      && t.cur.deadline == (if h.refused then h.refusedAt + 10 else h.sentAt + 1000)
  }

  lemma {:induction false} LastSentQuiet(log: seq<Item>, items: seq<Item>)
    requires NoTransmit(items)
    ensures LastSent(log + items) == LastSent(log)
  {
    if items == [] {
      assert log + items == log;
    } else {
      var n := |items| - 1;
      assert (log + items)[..|log| + n] == log + items[..n];
      LastSentQuiet(log, items[..n]);
    }
  }

  lemma LastSentNext(log: seq<Item>, x: Item)
    requires Transmitted(x)
    ensures LastSent(log + [x]) == Some(x)
  {
  }

  /** What a call keeps, and what it does to a pending transmit. */
  ghost predicate Follows(e: Engine, ev: Event, h: Track) {
    var e' := Step(e, ev);
    && Told(e'.tx, e'.log, Traced(e, ev, h))
    && (Waiting(e.tx) ==> e'.tx.cur.state == StatusAfter(e, ev, h))
  }

  ghost predicate TracedOk(e: Engine, h: Track) {
    TxInvOf(e) && Told(e.tx, e.log, h)
  }

  lemma NothingHandedOver(e: Engine, ev: Event, items: seq<Item>)
    requires Step(e, ev).log == e.log + items && NoTransmit(items)
    ensures !HandsOver(e, ev) && LastSent(Step(e, ev).log) == LastSent(e.log)
  {
    hide Step;
    LastSentQuiet(e.log, items);
    assert forall k :: |e.log| <= k < |e.log + items| ==> (e.log + items)[k] == items[k - |e.log|];
  }

  /** A call that leaves the transmitter alone and is none of those that could end it. */
  lemma QuietFollows(e: Engine, ev: Event, items: seq<Item>, h: Track)
    requires TracedOk(e, h) && !ev.DoInit? && !ev.DoPoll?
    requires Step(e, ev).tx.cur == e.tx.cur && Step(e, ev).log == e.log + items && NoTransmit(items)
    requires ev.DoInput? && Waiting(e.tx) && |ev.dgram| >= 8 ==>
               ev.dgram[0] != TYPE_ACK && ev.dgram[0] != TYPE_NAK && ev.dgram[0] != TYPE_IMM_REPLY
    ensures Follows(e, ev, h)
  {
    hide Step, TxInv, LastSent;
    NothingHandedOver(e, ev, items);
    hide HandsOver;
  }

  // ---- replies --------------------------------------------------------------------

  lemma ReplyFollows(e: Engine, ev: Event, h: Track)
    requires TracedOk(e, h) && ev.DoInput? && |ev.dgram| >= 8 && e.initialised
    requires ev.dgram[0] == TYPE_ACK || ev.dgram[0] == TYPE_NAK || ev.dgram[0] == TYPE_IMM_REPLY
    ensures Follows(e, ev, h)
  {
    var d := Decode(ev.dgram).value;
    assert Step(e, ev) == e.(tx := ReceiveReply(e.tx, ev.src, d, e.clock));
    assert e.log + [] == e.log;
    NothingHandedOver(e, ev, []);
    assert Waiting(e.tx) ==> e.tx.cur.dgram.kind == e.tx.cur.kind &&
                             (e.tx.cur.kind == TYPE_DATA || e.tx.cur.kind == TYPE_IMMEDIATE);
    hide Step, HandsOver, TxInv, LastSent;
  }

  lemma InputFollows(e: Engine, ev: Event, h: Track)
    requires TracedOk(e, h) && ev.DoInput?
    ensures Follows(e, ev, h)
  {
    hide ReceiveData, ReceiveImm4, ReceiveImmediate, ReceiveReply, ReceiveBroadcast, Told, Follows, LastSent;
    assert e.log + [] == e.log;
    if |ev.dgram| < 8 || !e.initialised {
      assert !e.initialised ==> !Waiting(e.tx);
      QuietFollows(e, ev, [], h);
    } else if ev.dgram[0] == TYPE_ACK || ev.dgram[0] == TYPE_NAK || ev.dgram[0] == TYPE_IMM_REPLY {
      ReplyFollows(e, ev, h);
    } else {
      hide TxInv;
      var d := Decode(ev.dgram).value;
      OthersAreQuiet(e, ev.src, d, [], [], 0, false, ev.ok);
      var items := if d.kind == TYPE_DATA then
        if IsImm4(d.port, d.ctrl) then ReceiveImm4(e.imm, ev.src, d, e.clock, ev.ok).items
        else ReceiveData(e.rx, ev.src, d, ev.ok).items
      else if d.kind == TYPE_IMMEDIATE then
        if d.ctrl == CTRL_MACHINE_PEEK then Answered(ev.src, ImmReply(d.ctrl, d.seqNo, e.machineId), ev.ok)
        else ReceiveImmediate(e.imm, ev.src, d, e.clock, ev.ok).items
      else [];
      QuietFollows(e, ev, items, h);
    }
  }

  // ---- transmits ------------------------------------------------------------------

  /** A transmit on the wire: what a launch leaves behind. */
  lemma LaunchTold(e: Engine, ev: Event, x: Item, h: Track)
    requires TracedOk(e, h) && !Waiting(e.tx) && Transmitted(x) && Step(e, ev).log == e.log + [x]
    requires var t := Step(e, ev).tx;
             Waiting(t) ==>
               && x.to == t.cur.to && x.d == t.cur.dgram && t.cur.dgram.kind == t.cur.kind
               && t.cur.rejectLeft == (if t.cur.kind == TYPE_DATA then 10 else 0) && !t.cur.rejectPending
               && t.cur.deadline == e.clock + 1000
    ensures Follows(e, ev, h)
  {
    hide Step, TxInv;
    LastSentNext(e.log, x);
    assert (e.log + [x])[|e.log|] == x;
    assert HandsOver(e, ev);
    hide HandsOver, LastSent;
  }

  lemma BeginFollows(e: Engine, ev: Event, kind: byte, net: bv8, stn: bv8, ctrl: byte, port: byte,
                     data: seq<byte>, hasBuf: bool, replyMax: nat, ok: bool, h: Track)
    requires TracedOk(e, h) && (kind == TYPE_DATA || kind == TYPE_IMMEDIATE) && (ev.DoTx? || ev.DoImmediate?)
    requires Step(e, ev) == TxBegin(e, kind, net, stn, ctrl, port, data, hasBuf, replyMax, ok).0
    ensures Follows(e, ev, h)
  {
    hide Step, TxInv, Told, Follows, HandsOver, LastSent, Deliver, DeliveryOf, Resolve;
    assert e.log + [] == e.log;
    if !e.initialised || |data| > MAX_DATA || Waiting(e.tx) {
      QuietFollows(e, ev, [], h);
    } else if e.test.enabled && stn == e.test.stn && net == e.test.net {
      FinishedFollows(e, ev, h);
    } else if Resolve(e.rx, net, stn).None? {
      QuietFollows(e, ev, [], h);
    } else {
      var o := Launch(e.tx, kind, Resolve(e.rx, net, stn).value, ctrl, port, data, hasBuf, replyMax, e.clock, ok);
      LaunchTold(e, ev, o.items[0], h);
    }
  }

  /** Nothing was pending, and nothing is. */
  lemma FinishedFollows(e: Engine, ev: Event, h: Track)
    requires !Waiting(e.tx) && !Waiting(Step(e, ev).tx)
    ensures Follows(e, ev, h)
  {
    hide Step, HandsOver, LastSent;
  }

  lemma TransmitFollows(e: Engine, ev: Event, h: Track)
    requires TracedOk(e, h) && (ev.DoTx? || ev.DoImmediate?)
    ensures Follows(e, ev, h)
  {
    hide TxBegin, PokeOnWire, Follows, Told, TxInv;
    match ev
    case DoTx(net, stn, ctrl, port, data, ok) =>
      BeginFollows(e, ev, TYPE_DATA, net, stn, ctrl, port, data, false, 0, ok, h);
    case DoImmediate(net, stn, ctrl, data, hasBuf, replyMax, ok) =>
      var c := ctrl % 128;
      if c == CTRL_POKE {
        if 4 <= |data| <= MAX_DATA - 4 {
          BeginFollows(e, ev, TYPE_DATA, net, stn, ctrl, 0, PokeOnWire(data), false, 0, ok, h);
        } else {
          assert e.log + [] == e.log;
          QuietFollows(e, ev, [], h);
        }
      } else if CTRL_IMM4_FIRST <= c <= CTRL_IMM4_LAST {
        BeginFollows(e, ev, TYPE_DATA, net, stn, ctrl, 0, data, false, 0, ok, h);
      } else {
        BeginFollows(e, ev, TYPE_IMMEDIATE, net, stn, ctrl, 0, data, hasBuf, replyMax, ok, h);
      }
  }

  // ---- the timer --------------------------------------------------------------------

  lemma PollFollows(e: Engine, ev: Event, h: Track)
    requires TracedOk(e, h) && ev.DoPoll?
    ensures Follows(e, ev, h)
  {
    hide Reap, LastSent, HandsOver;
    var e' := Step(e, ev);
    assert !e.initialised ==> !Waiting(e.tx);
    if Waiting(e.tx) {
      OthersAreQuiet(e, LOCAL, e.tx.cur.dgram, [], [], 0, false, ev.okNak);
      var m, t := Reap(e.imm, e.clock, ev.okNak), Timer(e.tx, e.clock, ev.okTx);
      assert e.tx.cur.norespLeft == 0;
      hide TxInv;
      if e.clock >= e.tx.cur.deadline && e.tx.cur.rejectPending {
        var x := t.items[0];
        assert e'.log == e.log + m.items + [x];
        LastSentNext(e.log + m.items, x);
        HandedOverLast(e, ev, e.log + m.items, x);
        hide Step, Timer;
      } else {
        assert e'.log == e.log + m.items;
        NothingHandedOver(e, ev, m.items);
        hide Step, Timer;
      }
    } else {
      hide Step, TxInv;
      PollIdle(e, ev);
      FinishedFollows(e, ev, h);
    }
  }

  lemma PollIdle(e: Engine, ev: Event)
    requires ev.DoPoll? && !Waiting(e.tx)
    ensures !Waiting(Step(e, ev).tx)
  {
  }

  lemma HandedOverLast(e: Engine, ev: Event, log: seq<Item>, x: Item)
    requires Step(e, ev).log == log + [x] && e.log <= log && Transmitted(x)
    ensures HandsOver(e, ev)
  {
    hide Step;
    assert (log + [x])[|log|] == x;
  }

  // ---- every run ----------------------------------------------------------------------

  lemma OtherCallsFollow(e: Engine, ev: Event, h: Track)
    requires TracedOk(e, h)
    requires ev.DoInit? || ev.DoCollect? || ev.DoBroadcast? || ev.DoImmReply? || ev.DoMapAdd? || ev.DoAddressing? ||
             ev.DoTest? || ev.DoMachineId? || ev.DoOpen? || ev.DoRxPoll? || ev.DoClose? || ev.DoHostImm? ||
             ev.DoImmPoll? || ev.DoTick?
    ensures Follows(e, ev, h)
  {
    hide Collect, Copies, ReplyCommand, TxInv, Told, Follows, LastSent, HandsOver, MapAdd, Present, HasTarget,
      Configure, Take, TickBlocks, RxOpen, RxClose, RxPoll;
    assert e.log + [] == e.log;
    match ev
    case DoInit => InitFollows(e, ev, h);
    case DoCollect(hd, accept, ok) =>
      OthersAreQuiet(e, LOCAL, e.tx.cur.dgram, [], [], hd, accept, ok);
      QuietFollows(e, ev, Collect(e.rx, hd, accept, e.clock, ok).items, h);
    case DoImmReply(data, ok) =>
      OthersAreQuiet(e, LOCAL, e.tx.cur.dgram, data, [], 0, false, ok);
      QuietFollows(e, ev, ReplyCommand(e.imm, data, e.clock, ok).items, h);
    case DoBroadcast(_, _, _, _) =>
      hide Step;
      AnnounceFollows(e, ev, h);
    case _ =>
      PassiveTx(e, ev);
      hide Step;
      QuietFollows(e, ev, if ev.DoHostImm? then [Reset] else [], h);
  }

  lemma AnnounceFollows(e: Engine, ev: Event, h: Track)
    requires TracedOk(e, h) && ev.DoBroadcast?
    ensures Follows(e, ev, h)
  {
    hide Copies, TxInv, Told, Follows, LastSent, HandsOver;
    assert e.log + [] == e.log;
    var d := Datagram(TYPE_BROADCAST, ev.port, ev.ctrl % 128, e.tx.nextSeq, ev.data);
    OthersAreQuiet(e, LOCAL, d, [], ev.oks, 0, false, true);
    QuietFollows(e, ev, if e.initialised && |ev.data| <= MAX_DATA then Copies(e.rx, d, ev.oks) else [], h);
  }

  lemma InitFollows(e: Engine, ev: Event, h: Track)
    requires ev.DoInit?
    ensures Follows(e, ev, h)
  {
    hide LastSent, HandsOver;
  }

  lemma StepFollows(e: Engine, ev: Event, h: Track)
    requires TracedOk(e, h)
    ensures Follows(e, ev, h)
  {
    hide Follows, TracedOk;
    if ev.DoInput? {
      InputFollows(e, ev, h);
    } else if ev.DoTx? || ev.DoImmediate? {
      TransmitFollows(e, ev, h);
    } else if ev.DoPoll? {
      PollFollows(e, ev, h);
    } else {
      OtherCallsFollow(e, ev, h);
    }
  }

  lemma {:induction false} RunTold(run: seq<Event>)
    ensures TracedOk(Exec(run), Trace(run))
  {
    hide Step;
    TxInvHolds(run);
    if run == [] {
    } else {
      var n := |run| - 1;
      RunTold(run[..n]);
      StepFollows(Exec(run[..n]), run[n], Trace(run[..n]));
      hide TxInv, Traced, Told;
    }
  }

  /** Over every run and for every call: a pending transmit becomes AUN_OK exactly when the
      peer it went to confirms its sequence number (or the engine is initialised again);
      NOT_LISTENING exactly when that peer refuses it with all retries used, or nothing
      came for a second after the last send; NET_ERROR exactly when a due repeat cannot
      be sent; and otherwise stays pending. */
  lemma TransmitOutcome(run: seq<Event>, ev: Event)
    requires Exec(run).tx.cur.state == PENDING
    ensures Step(Exec(run), ev).tx.cur.state == StatusAfter(Exec(run), ev, Trace(run))
  {
    RunTold(run);
    hide Exec, Trace, TracedOk, StatusAfter;
    StepFollows(Exec(run), ev, Trace(run));
  }

  // ---- how a transmit begins ------------------------------------------------------------

  /** Where a station is reached: at the endpoint of the first map entry with its net and
      number, else, on the learning net, at its number in the subnet. */
  ghost predicate ReachedAt(r: Rx, net: bv8, stn: bv8, to: Peer) {
    || (exists i :: 0 <= i < |r.stations| && r.stations[i].net == net && r.stations[i].stn == stn &&
                    r.stations[i].peer == to && Unmapped(r.stations[..i], net, stn))
    || (Unmapped(r.stations, net, stn) && r.routes.learnNet != 255 && r.routes.learnNet == net &&
        to == Peer(Ip(r.routes.subnetBase.a, r.routes.subnetBase.b, r.routes.subnetBase.c, stn), 32768))
  }

  ghost predicate Unmapped(m: seq<Station>, net: bv8, stn: bv8) {
    forall i :: 0 <= i < |m| ==> !(m[i].net == net && m[i].stn == stn)
  }

  lemma ResolvesRightly(r: Rx, net: bv8, stn: bv8)
    ensures match Resolve(r, net, stn)
            case Some(to) => ReachedAt(r, net, stn, to)
            case None => Unmapped(r.stations, net, stn) && (r.routes.learnNet == 255 || r.routes.learnNet != net)
  {
    var i := FindAddr(r.stations, net, stn);
    if i >= 0 {
      assert Unmapped(r.stations[..i], net, stn);
    }
  }

  /** What asking for a transmit of this datagram to this station does. */
  ghost predicate Begun(e: Engine, e': Engine, status: byte, kind: byte, net: bv8, stn: bv8, ctrl: byte, port: byte,
                        data: seq<byte>, hasBuf: bool, replyMax: nat, ok: bool) {
    if !e.initialised then status == 6 && e' == e
    else if |data| > 8192 then status == 5 && e' == e
    else if e.tx.cur.state == PENDING then status == 4 && e' == e
    else if e.test.enabled && stn == e.test.stn && net == e.test.net then
      status == AUN_OK && e'.log == e.log && e'.tx.cur.state != PENDING
    else if Unmapped(e.rx.stations, net, stn) && (e.rx.routes.learnNet == 255 || e.rx.routes.learnNet != net) then
      status == 3 && e' == e
    else
      && status == AUN_OK && |e'.log| == |e.log| + 1 && e'.log[..|e.log|] == e.log
      && var x := e'.log[|e.log|];
      && Transmitted(x) && ReachedAt(e.rx, net, stn, x.to) && x.ok == ok
      && x.d == Datagram(kind, port, ctrl % 128, e.tx.nextSeq, data)
      && e'.tx.nextSeq == (e.tx.nextSeq + 4) % 0x1_0000_0000
      && e'.tx.cur.state == (if ok then PENDING else TX_NET_ERROR)
      && e'.tx.cur.hasBuf == hasBuf && e'.tx.cur.replyMax == replyMax && e'.tx.cur.reply == [] &&
         e'.tx.cur.replyLen == 0
  }

  lemma BeginsRightly(e: Engine, kind: byte, net: bv8, stn: bv8, ctrl: byte, port: byte,
                      data: seq<byte>, hasBuf: bool, replyMax: nat, ok: bool)
    ensures var (e', status) := TxBegin(e, kind, net, stn, ctrl, port, data, hasBuf, replyMax, ok);
            Begun(e, e', status, kind, net, stn, ctrl, port, data, hasBuf, replyMax, ok)
  {
    hide Resolve, ReachedAt, Unmapped, Deliver, DeliveryOf;
    ResolvesRightly(e.rx, net, stn);
    ReachedOrNot(e.rx, net, stn);
  }

  lemma ReachedOrNot(r: Rx, net: bv8, stn: bv8)
    ensures (exists to :: ReachedAt(r, net, stn, to)) <==>
            !(Unmapped(r.stations, net, stn) && (r.routes.learnNet == 255 || r.routes.learnNet != net))
  {
    ResolvesRightly(r, net, stn);
  }

  /** A DATA transmit goes out as it was asked for, to the station it names. */
  lemma TransmitBegins(e: Engine, net: bv8, stn: bv8, ctrl: byte, port: byte, data: seq<byte>, ok: bool)
    ensures var (e', status) := TxStart(e, net, stn, ctrl, port, data, ok);
            e' == Step(e, DoTx(net, stn, ctrl, port, data, ok)) &&
            Begun(e, e', status, TYPE_DATA, net, stn, ctrl, port, data, false, 0, ok)
  {
    hide TxBegin, Begun;
    BeginsRightly(e, TYPE_DATA, net, stn, ctrl, port, data, false, 0, ok);
  }

  /** A Poke goes out as DATA to port 0 with its byte count after the address, the other
      4-way immediates as DATA to port 0, and all others as type 5. */
  lemma ImmediateBegins(e: Engine, net: bv8, stn: bv8, ctrl: byte, data: seq<byte>, hasBuf: bool, replyMax: nat,
                        ok: bool)
    ensures var (e', status) := Immediate(e, net, stn, ctrl, data, hasBuf, replyMax, ok);
            && e' == Step(e, DoImmediate(net, stn, ctrl, data, hasBuf, replyMax, ok))
            && (ctrl % 128 == 2 && (|data| < 4 || |data| > 8188) ==> status == 5 && e' == e)
            && (ctrl % 128 == 2 && 4 <= |data| <= 8188 ==>
                  var wire := data[..4] + Le32(|data| - 4) + data[4..];
                  Begun(e, e', status, TYPE_DATA, net, stn, ctrl, 0, wire, false, 0, ok))
            && (3 <= ctrl % 128 <= 5 ==> Begun(e, e', status, TYPE_DATA, net, stn, ctrl, 0, data, false, 0, ok))
            && (!(2 <= ctrl % 128 <= 5) ==>
                  Begun(e, e', status, TYPE_IMMEDIATE, net, stn, ctrl, 0, data, hasBuf, replyMax, ok))
  {
    hide TxBegin, Begun;
    if 4 <= |data| <= 8188 {
      BeginsRightly(e, TYPE_DATA, net, stn, ctrl, 0, data[..4] + Le32(|data| - 4) + data[4..], false, 0, ok);
    }
    BeginsRightly(e, TYPE_DATA, net, stn, ctrl, 0, data, false, 0, ok);
    BeginsRightly(e, TYPE_IMMEDIATE, net, stn, ctrl, 0, data, hasBuf, replyMax, ok);
  }

  // ---- what an immediate brings back ------------------------------------------------------

  /** What a pending transmit was asked for stays as it was, and nothing is read back yet. */
  ghost predicate SameRequest(c: Tx, c': Tx) {
    && c'.to == c.to && c'.dgram == c.dgram && c'.kind == c.kind && c'.hasBuf == c.hasBuf && c'.replyMax == c.replyMax
    && c'.reply == c.reply && c'.replyLen == c.replyLen
  }

  lemma PendingKeepsRequest(e: Engine, ev: Event)
    requires Waiting(e.tx) && Waiting(Step(e, ev).tx)
    ensures SameRequest(e.tx.cur, Step(e, ev).tx.cur)
  {
    hide Collect, ReceiveData, ReceiveBroadcast, ReceiveImm4, ReceiveImmediate, Reap, ReplyCommand, Present,
      HasTarget, MapAdd, TickBlocks, Copies, Configure, Take, Loopback, Launch, Resolve, PokeOnWire, Add32;
  }

  /** The reply to an immediate is handed over byte for byte, cut to the room there is. */
  lemma ReplyReadBack(run: seq<Event>, ev: Event)
    requires var e := Exec(run); Waiting(e.tx) && Confirms(e, ev) && ev.dgram[0] == TYPE_IMM_REPLY
    ensures var c, c' := Exec(run).tx.cur, Step(Exec(run), ev).tx.cur;
            && c'.replyLen == Min(|ev.dgram| - 8, c.replyMax)
            && c'.reply == (if c.hasBuf then ev.dgram[8..8 + c'.replyLen] else c.reply)
  {
    RunTold(run);
    var e := Exec(run);
    hide Exec, Trace, LastSent;
    assert e.initialised && e.tx.cur.dgram.kind == e.tx.cur.kind;
    hide TxInv;
    var n := Min(|ev.dgram| - 8, e.tx.cur.replyMax);
    assert ev.dgram[8..][..n] == ev.dgram[8..8 + n];
  }
}
