/** The TNFS transaction engine (src/net_service.c) and its reply parser
    (src/net_tnfs.c): one request outstanding, resent on silence, held back while
    the server says it is busy. */
module Tnfs {
  import opened Bytes
  import opened NetHandle

  const HDR_LEN := 4
  const STATUS_OK: byte := 0x00
  const EAGAIN: byte := 0x07
  const REQ_MAX := 256
  const PKT_MAX := 600
  const RETRIES := 4
  const EAGAIN_MAX := 8
  const TIMEOUT_MS := 800
  const NET_PENDING: byte := 1

  /** A parsed reply; `backoff` is what a busy server asks for. */
  datatype Reply = Reply(connid: u16, seqNo: byte, cmd: byte, status: byte, backoff: u16, body: seq<byte>)

  function ParseReply(pkt: seq<byte>, seqNo: byte, cmd: byte): Option<Reply> {
    if |pkt| < HDR_LEN + 1 || pkt[2] != seqNo || pkt[3] != cmd then None
    else
      var body := pkt[5..];
      Some(Reply(FromLe16(pkt), seqNo, cmd, pkt[4],
                 if pkt[4] == EAGAIN && |body| >= 2 then FromLe16(body) else 0, body))
  }

  /** A reply as a server sends it. */
  function ReplyPacket(connid: u16, seqNo: byte, cmd: byte, status: byte, body: seq<byte>): seq<byte> {
    Le16(connid) + [seqNo, cmd, status] + body
  }

  /** Exactly the packets a server sends in reply to this request are taken, with
      the fields it gave them. */
  lemma ParseTakesReplies(pkt: seq<byte>, seqNo: byte, cmd: byte)
    ensures ParseReply(pkt, seqNo, cmd).Some? <==>
            exists connid: u16, status: byte, body: seq<byte> :: pkt == ReplyPacket(connid, seqNo, cmd, status, body)
    ensures forall connid: u16, status: byte, body: seq<byte> ::
              pkt == ReplyPacket(connid, seqNo, cmd, status, body) ==>
                var r := ParseReply(pkt, seqNo, cmd);
                r.Some? && r.value.connid == connid && r.value.status == status && r.value.body == body
  {
    if ParseReply(pkt, seqNo, cmd).Some? {
      assert pkt == ReplyPacket(FromLe16(pkt), seqNo, cmd, pkt[4], pkt[5..]);
    }
    forall connid: u16, status: byte, body: seq<byte> | pkt == ReplyPacket(connid, seqNo, cmd, status, body)
      ensures var r := ParseReply(pkt, seqNo, cmd);
              r.Some? && r.value.connid == connid && r.value.status == status && r.value.body == body
    {
      assert pkt[5..] == body;
    }
  }

  // ---- one transaction ------------------------------------------------------

  /** An outstanding request. `sent` is history: the datagrams put on the wire. */
  datatype Txn = Txn(req: seq<byte>, seqNo: byte, connid: u16, retryMs: u16,
                     retries: nat, eagain: nat, deadline: nat, sent: seq<seq<byte>>)

  datatype Outcome = Pending | Done(reply: Reply) | GaveUp

  predicate IsRequest(t: Txn) {
    HDR_LEN <= |t.req| <= REQ_MAX
  }

  function Fire(t: Txn, now: nat): Txn {
    t.(deadline := now + (if t.retryMs != 0 then t.retryMs else TIMEOUT_MS), sent := t.sent + [t.req])
  }

  function Start(req: seq<byte>, seqNo: byte, connid: u16, retryMs: u16, now: nat): Txn {
    Fire(Txn(req, seqNo, connid, retryMs, RETRIES, EAGAIN_MAX, 0, []), now)
  }

  /** The reply a packet carries for this transaction, if it is one: right sequence
      number, right command and, once a session is assigned, right session. */
  function Match(t: Txn, pkt: seq<byte>): Option<Reply>
    requires IsRequest(t)
  {
    var r := ParseReply(pkt, t.seqNo, t.req[3]);
    if r.Some? && (t.connid == 0 || r.value.connid == t.connid) then r else None
  }

  /** One poll; `pkt` is the datagram waiting, empty when there is none. */
  function Poll(t: Txn, pkt: seq<byte>, now: nat): (r: (Txn, Outcome))
    requires IsRequest(t)
    ensures IsRequest(r.0)
  {
    var m := Match(t, pkt);
    if m.Some? then
      if m.value.status != EAGAIN then (t, Done(m.value))
      else if t.eagain == 0 then (t, GaveUp)
      else
        var back := if m.value.backoff != 0 then m.value.backoff else t.retryMs;
        var wait := if back != 0 then back else TIMEOUT_MS;
        (t.(eagain := t.eagain - 1, retries := RETRIES, deadline := now + wait), Pending)
    else if now < t.deadline then (t, Pending)
    else if t.retries == 0 then (t, GaveUp)
    else (Fire(t.(retries := t.retries - 1), now), Pending)
  }

  datatype Visit = Visit(pkt: seq<byte>, now: nat)

  /** Polls until the transaction ends or the visits do. */
  function Run(t: Txn, visits: seq<Visit>): (Txn, Outcome)
    requires IsRequest(t)
    decreases |visits|
  {
    if visits == [] then (t, Pending)
    else
      var (t', o) := Poll(t, visits[0].pkt, visits[0].now);
      if o != Pending then (t', o) else Run(t', visits[1..])
  }

  /** Does this visit use up some of the budget, or end the transaction? */
  predicate Acts(t: Txn, v: Visit)
    requires IsRequest(t)
  {
    Match(t, v.pkt).Some? || v.now >= t.deadline
  }

  /** The pair (eagain, retries) falls lexicographically. */
  predicate Less(a: Txn, b: Txn) {
    a.eagain < b.eagain || (a.eagain == b.eagain && a.retries < b.retries)
  }

  lemma EveryActionFalls(t: Txn, v: Visit)
    requires IsRequest(t)
    ensures var (t', o) := Poll(t, v.pkt, v.now);
            && (Acts(t, v) ==> o != Pending || Less(t', t))
            && (!Acts(t, v) ==> o == Pending && t' == t)
  {
  }

  /** How many more datagrams the budget allows, and how many more acting visits. */
  function SendsLeft(t: Txn): nat {
    t.retries + RETRIES * t.eagain
  }

  function ActsLeft(t: Txn): nat {
    t.retries + (RETRIES + 1) * t.eagain
  }

  /** Only the request itself is ever sent, and never more often than the budget
      allows. */
  lemma {:induction false} SendsBounded(t: Txn, visits: seq<Visit>)
    requires IsRequest(t) && t.retries <= RETRIES
    ensures var t' := Run(t, visits).0;
            && |t.sent| <= |t'.sent| && |t'.sent| + SendsLeft(t') <= |t.sent| + SendsLeft(t)
            && t'.sent[..|t.sent|] == t.sent
            && (forall i :: |t.sent| <= i < |t'.sent| ==> t'.sent[i] == t.req)
    decreases |visits|
  {
    if visits != [] {
      var t' := Poll(t, visits[0].pkt, visits[0].now).0;
      assert t'.sent == t.sent || t'.sent == t.sent + [t.req];
      if Poll(t, visits[0].pkt, visits[0].now).1 == Pending {
        SendsBounded(t', visits[1..]);
        var u := Run(t', visits[1..]).0;
        assert u.sent[..|t.sent|] == u.sent[..|t'.sent|][..|t.sent|];
        assert forall i :: |t.sent| <= i < |t'.sent| ==> u.sent[i] == u.sent[..|t'.sent|][i];
      }
    }
  }

  /** One transaction puts at most 37 datagrams on the wire, all of them identical. */
  lemma AtMost37(req: seq<byte>, seqNo: byte, connid: u16, retryMs: u16, now: nat, visits: seq<Visit>)
    requires HDR_LEN <= |req| <= REQ_MAX
    ensures var sent := Run(Start(req, seqNo, connid, retryMs, now), visits).0.sent;
            1 <= |sent| <= 37 && forall i :: 0 <= i < |sent| ==> sent[i] == req
  {
    var t := Start(req, seqNo, connid, retryMs, now);
    SendsBounded(t, visits);
    var sent := Run(t, visits).0.sent;
    assert sent[0] == sent[..1][0];
  }

  /** It ends on a reply to its own sequence number, command and session, or in
      failure with both budgets' current limit spent. */
  lemma {:induction false} EndsRightly(t: Txn, visits: seq<Visit>)
    requires IsRequest(t)
    ensures var (t', o) := Run(t, visits);
            match o
            case Pending => true
            case GaveUp => t'.eagain == 0 || t'.retries == 0
            case Done(r) =>
              && r.seqNo == t.seqNo && r.cmd == t.req[3] && (t.connid == 0 || r.connid == t.connid) &&
                 r.status != EAGAIN
              && exists i :: 0 <= i < |visits| && ParseReply(visits[i].pkt, t.seqNo, t.req[3]) == Some(r)
    decreases |visits|
  {
    if visits != [] {
      var v := visits[0];
      var (t', o) := Poll(t, v.pkt, v.now);
      if o == Pending {
        EndsRightly(t', visits[1..]);
        var rest := Run(t', visits[1..]).1;
        if rest.Done? {
          var i :| 0 <= i < |visits[1..]| && ParseReply(visits[1..][i].pkt, t.seqNo, t.req[3]) == Some(rest.reply);
          assert visits[1..][i] == visits[i + 1];
        }
      } else if o.Done? {
        assert ParseReply(visits[0].pkt, t.seqNo, t.req[3]) == Some(o.reply);
      }
    }
  }

  /** How many of the visits act, before the transaction ends. */
  function Actions(t: Txn, visits: seq<Visit>): nat
    requires IsRequest(t)
    decreases |visits|
  {
    if visits == [] then 0
    else
      var (t', o) := Poll(t, visits[0].pkt, visits[0].now);
      if o != Pending then 1
      else (if Acts(t, visits[0]) then 1 else 0) + Actions(t', visits[1..])
  }

  /** Visits at or past the deadline, or with a reply, cannot go on for ever. */
  lemma {:induction false} Terminates(t: Txn, visits: seq<Visit>)
    requires IsRequest(t) && t.retries <= RETRIES
    ensures Actions(t, visits) <= ActsLeft(t) + 1
    ensures Actions(t, visits) == ActsLeft(t) + 1 ==> Run(t, visits).1 != Pending
    decreases |visits|
  {
    if visits != [] {
      EveryActionFalls(t, visits[0]);
      var (t', o) := Poll(t, visits[0].pkt, visits[0].now);
      if o == Pending {
        Terminates(t', visits[1..]);
      }
    }
  }

  /** A silent peer that answers "busy" as late as it can. */
  function Worst(t: Txn): seq<Visit>
    requires IsRequest(t)
    decreases t.eagain, t.retries
  {
    if t.retries > 0 then
      [Visit([], t.deadline)] + Worst(Fire(t.(retries := t.retries - 1), t.deadline))
    else if t.eagain > 0 then
      var v := Visit(ReplyPacket(t.connid, t.seqNo, t.req[3], EAGAIN, []), t.deadline);
      [v] + Worst(Poll(t, v.pkt, v.now).0)
    else []
  }

  /** The bound is reached. */
  lemma {:induction false} WorstReaches(t: Txn)
    requires IsRequest(t)
    ensures var (t', o) := Run(t, Worst(t)); o == Pending && |t'.sent| == |t.sent| + SendsLeft(t)
    decreases t.eagain, t.retries
  {
    if t.retries > 0 || t.eagain > 0 {
      var v := Worst(t)[0];
      var t' := Poll(t, v.pkt, v.now).0;
      assert Worst(t) == [v] + Worst(t');
      assert Worst(t)[1..] == Worst(t');
      WorstReaches(t');
    }
  }

  lemma ThirtySevenReached(req: seq<byte>, seqNo: byte, connid: u16, retryMs: u16, now: nat)
    requires HDR_LEN <= |req| <= REQ_MAX
    ensures exists visits :: |Run(Start(req, seqNo, connid, retryMs, now), visits).0.sent| == 37
  {
    var t := Start(req, seqNo, connid, retryMs, now);
    WorstReaches(t);
    assert |Run(t, Worst(t)).0.sent| == 37;
  }

  // ---- pacing ---------------------------------------------------------------

  /** How long a request waits for its reply. */
  function Patience(t: Txn): nat {
    if t.retryMs == 0 then 800 else t.retryMs
  }

  /** A reply to this request that says the server is busy. */
  predicate IsBusy(t: Txn, pkt: seq<byte>)
    requires IsRequest(t)
  {
    Match(t, pkt).Some? && pkt[4] == 7
  }

  /** How long a busy reply asks to wait: the two bytes after its status, if they are
      there and not zero. */
  function Asked(t: Txn, pkt: seq<byte>): nat {
    var b := if |pkt| >= 7 then pkt[5] as int + 256 * (pkt[6] as int) else 0;
    if b != 0 then b else Patience(t)
  }

  /** Did the last of these visits send? */
  predicate LastSends(t: Txn, visits: seq<Visit>)
    requires IsRequest(t) && visits != []
  {
    |Run(t, visits).0.sent| > |Run(t, visits[..|visits| - 1]).0.sent|
  }

  /** When the request was sent last, `now` being when it was started. */
  function SentLast(t: Txn, now: nat, visits: seq<Visit>): nat
    requires IsRequest(t)
  {
    if visits == [] then now
    else if LastSends(t, visits) then visits[|visits| - 1].now
    else SentLast(t, now, visits[..|visits| - 1])
  }

  /** Until when the last busy reply since then asks to wait, if there was one. */
  function BusyUntil(t: Txn, visits: seq<Visit>): Option<nat>
    requires IsRequest(t)
  {
    if visits == [] || LastSends(t, visits) then None
    else
      var v := visits[|visits| - 1];
      if IsBusy(t, v.pkt) then Some(v.now + Asked(t, v.pkt)) else BusyUntil(t, visits[..|visits| - 1])
  }

  /** When the request may next be repeated, or given up. */
  function DueAt(t: Txn, now: nat, visits: seq<Visit>): nat
    requires IsRequest(t)
  {
    var b := BusyUntil(t, visits);
    if b.Some? then b.value else SentLast(t, now, visits) + Patience(t)
  }

  lemma {:induction false} RunMore(t: Txn, visits: seq<Visit>, v: Visit)
    requires IsRequest(t)
    ensures IsRequest(Run(t, visits).0)
    ensures Run(t, visits + [v]) ==
            if Run(t, visits).1 != Pending then Run(t, visits) else Poll(Run(t, visits).0, v.pkt, v.now)
    decreases |visits|
  {
    if visits == [] {
      assert visits + [v] == [v] && [v][1..] == [];
    } else {
      assert (visits + [v])[0] == visits[0] && (visits + [v])[1..] == visits[1..] + [v];
      var (t', o) := Poll(t, visits[0].pkt, visits[0].now);
      if o == Pending {
        RunMore(t', visits[1..], v);
      }
    }
  }

  /** One poll, as far as the pacing is concerned. */
  lemma PollPaced(t: Txn, v: Visit)
    requires IsRequest(t)
    ensures var (t', o) := Poll(t, v.pkt, v.now);
            && t'.req == t.req && t'.seqNo == t.seqNo && t'.connid == t.connid && t'.retryMs == t.retryMs
            && (o == Pending ==>
                  if IsBusy(t, v.pkt) then t'.sent == t.sent && t'.deadline == v.now + Asked(t, v.pkt)
                  else if |t'.sent| > |t.sent| then t'.deadline == v.now + Patience(t)
                  else t'.deadline == t.deadline)
  {
    if |v.pkt| >= 7 {
      assert FromLe16(v.pkt[5..]) == v.pkt[5] as int + 256 * (v.pkt[6] as int);
    }
  }

  lemma SameRequest(t: Txn, t': Txn, pkt: seq<byte>)
    requires IsRequest(t) && t'.req == t.req && t'.seqNo == t.seqNo && t'.connid == t.connid && t'.retryMs == t.retryMs
    ensures Match(t, pkt) == Match(t', pkt) && Asked(t, pkt) == Asked(t', pkt) && Patience(t) == Patience(t')
  {
  }

  /** While the transaction goes on, its deadline is the wait counted from the last send,
      or what the last busy reply since then asked for. */
  lemma {:induction false} DeadlineIsDue(t: Txn, now: nat, visits: seq<Visit>)
    requires IsRequest(t) && t.deadline == now + Patience(t)
    ensures var (t', o) := Run(t, visits);
            && t'.req == t.req && t'.seqNo == t.seqNo && t'.connid == t.connid && t'.retryMs == t.retryMs
            && (o == Pending ==> t'.deadline == DueAt(t, now, visits))
    decreases |visits|
  {
    if visits != [] {
      var n := |visits| - 1;
      DeadlineIsDue(t, now, visits[..n]);
      RunMore(t, visits[..n], visits[n]);
      assert visits == visits[..n] + [visits[n]];
      var (u, o) := Run(t, visits[..n]);
      if o == Pending {
        PollPaced(u, visits[n]);
        SameRequest(t, u, visits[n].pkt);
      }
      hide Run, Match, Poll, Patience, Asked;
    }
  }

  /** Exactly what a poll does, whatever came before. A reply ends the transaction, or, if
      busy, puts it off; with no reply nothing happens before it is due, and from then on
      the request is repeated or, with no retries left, given up. */
  lemma PolledExactly(req: seq<byte>, seqNo: byte, connid: u16, retryMs: u16, now: nat, visits: seq<Visit>, v: Visit)
    requires HDR_LEN <= |req| <= REQ_MAX
    requires Run(Start(req, seqNo, connid, retryMs, now), visits).1 == Pending
    ensures var t0 := Start(req, seqNo, connid, retryMs, now);
            var t := Run(t0, visits).0;
            var (t', o) := Run(t0, visits + [v]);
            if Match(t0, v.pkt).Some?
            then (if v.pkt[4] != 7 then o == Done(Match(t0, v.pkt).value) else if t.eagain == 0 then o == GaveUp
                  else o == Pending && t'.retries == RETRIES && t'.eagain == t.eagain - 1) && t'.sent == t.sent
            else if v.now < DueAt(t0, now, visits) then o == Pending && t' == t
              else if t.retries == 0 then o == GaveUp && t'.sent == t.sent
              else o == Pending && t'.sent == t.sent + [req] && t'.retries == t.retries - 1
  {
    var t0 := Start(req, seqNo, connid, retryMs, now);
    DeadlineIsDue(t0, now, visits);
    RunMore(t0, visits, v);
    SameRequest(t0, Run(t0, visits).0, v.pkt);
    hide Run, DueAt, SentLast;
  }

  /** Two sends with no busy reply between them are the full wait apart. */
  lemma SendsSpaced(req: seq<byte>, seqNo: byte, connid: u16, retryMs: u16, now: nat, visits: seq<Visit>, v: Visit)
    requires HDR_LEN <= |req| <= REQ_MAX
    requires var t0 := Start(req, seqNo, connid, retryMs, now);
             && Run(t0, visits).1 == Pending && LastSends(t0, visits + [v]) && BusyUntil(t0, visits) == None
    ensures var t0 := Start(req, seqNo, connid, retryMs, now);
            v.now >= SentLast(t0, now, visits) + if retryMs == 0 then 800 else retryMs
  {
    var t0 := Start(req, seqNo, connid, retryMs, now);
    PolledExactly(req, seqNo, connid, retryMs, now, visits, v);
    assert (visits + [v])[..|visits|] == visits;
    hide Run, BusyUntil;
  }

  /** A send can come sooner than the full wait after the one before exactly when retries
      are left and a busy reply since then asks for an earlier time. */
  lemma HastenedExactly(req: seq<byte>, seqNo: byte, connid: u16, retryMs: u16, now: nat, visits: seq<Visit>)
    requires HDR_LEN <= |req| <= REQ_MAX
    requires Run(Start(req, seqNo, connid, retryMs, now), visits).1 == Pending
    ensures var t0 := Start(req, seqNo, connid, retryMs, now);
            var full := SentLast(t0, now, visits) + Patience(t0);
            (exists v :: LastSends(t0, visits + [v]) && v.now < full) <==>
            Run(t0, visits).0.retries > 0 && BusyUntil(t0, visits).Some? && BusyUntil(t0, visits).value < full
  {
    var t0 := Start(req, seqNo, connid, retryMs, now);
    forall v: Visit
      ensures LastSends(t0, visits + [v]) <==>
              Match(t0, v.pkt) == None && v.now >= DueAt(t0, now, visits) && Run(t0, visits).0.retries > 0
    {
      PolledExactly(req, seqNo, connid, retryMs, now, visits, v);
      assert (visits + [v])[..|visits|] == visits;
      hide Run, Match, DueAt, Start;
    }
    NothingMatches(t0);
    var due := Visit([], DueAt(t0, now, visits));
    assert LastSends(t0, visits + [due]) <==> Run(t0, visits).0.retries > 0;
    hide Run, Match, Start, LastSends, SentLast, BusyUntil;
  }

  /** No reply has come in any of the visits, and each is before `due`. */
  predicate SilentBefore(t: Txn, visits: seq<Visit>, due: nat)
    requires IsRequest(t)
  {
    forall i :: 0 <= i < |visits| ==> Match(t, visits[i].pkt) == None && visits[i].now < due
  }

  /** Until it is due, silence changes nothing: nothing is sent and nothing given up. */
  lemma {:induction false} SilenceKeeps(req: seq<byte>, seqNo: byte, connid: u16, retryMs: u16, now: nat,
                                        visits: seq<Visit>, more: seq<Visit>)
    requires HDR_LEN <= |req| <= REQ_MAX
    requires var t0 := Start(req, seqNo, connid, retryMs, now);
             Run(t0, visits).1 == Pending && SilentBefore(t0, more, DueAt(t0, now, visits))
    ensures var t0 := Start(req, seqNo, connid, retryMs, now);
            Run(t0, visits + more) == Run(t0, visits) && DueAt(t0, now, visits + more) == DueAt(t0, now, visits)
    decreases |more|
  {
    var t0 := Start(req, seqNo, connid, retryMs, now);
    if more == [] {
      assert visits + more == visits;
    } else {
      var n := |more| - 1;
      SilenceKeeps(req, seqNo, connid, retryMs, now, visits, more[..n]);
      PolledExactly(req, seqNo, connid, retryMs, now, visits + more[..n], more[n]);
      assert visits + more == visits + more[..n] + [more[n]];
      assert (visits + more)[..|visits + more| - 1] == visits + more[..n] &&
             (visits + more)[|visits + more| - 1] == more[n];
      hide Run, Match, Start;
    }
  }

  /** After a busy reply nothing is sent or given up for as long as it asks. */
  lemma BusyIsHeeded(req: seq<byte>, seqNo: byte, connid: u16, retryMs: u16, now: nat,
                     visits: seq<Visit>, v: Visit, more: seq<Visit>)
    requires HDR_LEN <= |req| <= REQ_MAX
    requires var t0 := Start(req, seqNo, connid, retryMs, now);
             && Run(t0, visits + [v]).1 == Pending && Run(t0, visits).1 == Pending && IsBusy(t0, v.pkt)
             && SilentBefore(t0, more, v.now + Asked(t0, v.pkt))
    ensures var t0 := Start(req, seqNo, connid, retryMs, now);
            Run(t0, visits + [v] + more) == Run(t0, visits + [v])
  {
    var t0 := Start(req, seqNo, connid, retryMs, now);
    PolledExactly(req, seqNo, connid, retryMs, now, visits, v);
    assert (visits + [v])[..|visits|] == visits && (visits + [v])[|visits|] == v;
    hide Run, Match, Start, SentLast, SilentBefore;
    assert DueAt(t0, now, visits + [v]) == v.now + Asked(t0, v.pkt);
    SilenceKeeps(req, seqNo, connid, retryMs, now, visits + [v], more);
  }

  /** A reply waiting at the first poll before the request is due again always counts. */
  lemma ReplyInTime(req: seq<byte>, seqNo: byte, connid: u16, retryMs: u16, now: nat,
                    visits: seq<Visit>, more: seq<Visit>, v: Visit)
    requires HDR_LEN <= |req| <= REQ_MAX
    requires var t0 := Start(req, seqNo, connid, retryMs, now);
             && Run(t0, visits).1 == Pending && SilentBefore(t0, more, DueAt(t0, now, visits))
             && Match(t0, v.pkt).Some? && !IsBusy(t0, v.pkt)
    ensures var t0 := Start(req, seqNo, connid, retryMs, now);
            Run(t0, visits + more + [v]).1 == Done(Match(t0, v.pkt).value)
  {
    SilenceKeeps(req, seqNo, connid, retryMs, now, visits, more);
    PolledExactly(req, seqNo, connid, retryMs, now, visits + more, v);
    hide Run, Match, DueAt, SilentBefore;
  }

  /** A busy reply may ask for less than the wait: two sends 15 ms apart at a wait of 800. */
  lemma BusyMayHasten(req: seq<byte>)
    requires HDR_LEN <= |req| <= REQ_MAX
    ensures var t0 := Start(req, 1, 9, 800, 0);
            var busy := Visit(ReplyPacket(9, 1, req[3], EAGAIN, [5, 0]), 10);
            LastSends(t0, [busy, Visit([], 15)]) && SentLast(t0, 0, [busy]) == 0
  {
    var t0 := Start(req, 1, 9, 800, 0);
    var busy := Visit(ReplyPacket(9, 1, req[3], EAGAIN, [5, 0]), 10);
    RunMore(t0, [], busy);
    RunMore(t0, [busy], Visit([], 15));
    assert [] + [busy] == [busy] && [busy] + [Visit([], 15)] == [busy, Visit([], 15)];
    assert [busy, Visit([], 15)][..1] == [busy] && [busy][..0] == [];
    assert busy.pkt[5..] == [5, 0];
    assert Match(t0, busy.pkt).value.backoff == 5;
  }

  // ---- the client over a datagram handle ------------------------------------

  class Client {
    const handle: Handle
    var req: seq<byte>
    var seqNo: byte
    var connid: u16
    var retryMs: u16
    var retries: nat
    var eagain: nat
    var deadline: nat
    ghost var sent: seq<seq<byte>>

    ghost predicate Valid()
      reads this, handle, handle.ring, handle.ring.buf, handle.filter
    {
      handle.Valid() && handle.Framed() && handle.kind.Udp?
    }

    ghost function Abs(): Txn
      reads this
    {
      Txn(req, seqNo, connid, retryMs, retries, eagain, deadline, sent)
    }

    /** What the next poll takes from the handle: the oldest datagram waiting, as
        far as the packet buffer holds it. */
    ghost function Waiting(): seq<byte>
      reads handle
    {
      if handle.done >= |handle.accepted| then []
      else handle.accepted[handle.done].data[..Min(|handle.accepted[handle.done].data|, PKT_MAX)]
    }

    constructor (h: Handle)
      requires h.Valid() && h.Framed() && h.kind.Udp?
      ensures Valid() && handle == h
    {
      handle, req, seqNo, connid, retryMs := h, [], 1, 0, TIMEOUT_MS;
      retries, eagain, deadline, sent := 0, 0, 0, [];
    }

    method FireRequest(now: nat)
      modifies this`deadline, this`sent
      ensures Abs() == Fire(old(Abs()), now)
    {
      sent := sent + [req];
      deadline := now + if retryMs != 0 then retryMs else TIMEOUT_MS;
    }

    /** Begins a transaction with a built request. */
    method StartRequest(r: seq<byte>, now: nat) returns (status: byte)
      requires |r| == 0 || |r| >= HDR_LEN
      modifies this`req, this`retries, this`eagain, this`deadline, this`sent
      ensures status == if |r| == 0 || |r| > REQ_MAX then NET_ERR_PARAM else NET_PENDING
      ensures if status == NET_PENDING then Abs() == Start(r, seqNo, connid, retryMs, now) else Abs() == old(Abs())
    {
      if |r| == 0 || |r| > REQ_MAX {
        return NET_ERR_PARAM;
      }
      req, retries, eagain, sent := r, RETRIES, EAGAIN_MAX, [];
      deadline := 0;
      FireRequest(now);
      status := NET_PENDING;
    }

    /** Takes the waiting datagram, if any, off the handle. */
    method NextPacket() returns (pkt: seq<byte>)
      requires Valid()
      modifies handle`done, handle`taken, handle.ring`tail, handle.ring`count, handle.ring`view
      ensures Valid() && pkt == old(Waiting())
      ensures handle.done == old(handle.done) + if old(handle.done) < |handle.accepted| then 1 else 0
    {
      hide Record;
      pkt := [];
      handle.Remainder();
      assert WholeFrom(handle.accepted, handle.ring.view, handle.done);
      if handle.ring.count >= RECORD_HEADER {
        var buf := new byte[PKT_MAX];
        var _, _, len := handle.Pop(buf, 0, PKT_MAX);
        pkt := buf[..len];
      }
    }

    /** What the packet, or its absence, does to the transaction. */
    method Judge(pkt: seq<byte>, now: nat) returns (o: Outcome)
      requires IsRequest(Abs())
      modifies this`retries, this`eagain, this`deadline, this`sent
      ensures (Abs(), o) == Poll(old(Abs()), pkt, now)
    {
      hide ParseReply;
      NothingMatches(Abs());
      if |pkt| != 0 {
        var r := ParseReply(pkt, seqNo, req[3]);
        if r.Some? && (connid == 0 || r.value.connid == connid) {
          if r.value.status != EAGAIN {
            return Done(r.value);
          }
          if eagain == 0 {
            return GaveUp;
          }
          var back := if r.value.backoff != 0 then r.value.backoff else retryMs;
          eagain, retries := eagain - 1, RETRIES;
          deadline := now + if back != 0 then back else TIMEOUT_MS;
          return Pending;
        }
      }
      if now >= deadline {
        if retries == 0 {
          return GaveUp;
        }
        retries := retries - 1;
        FireRequest(now);
      }
      return Pending;
    }

    method PollReply(now: nat) returns (o: Outcome)
      requires Valid() && IsRequest(Abs())
      modifies this`retries, this`eagain, this`deadline, this`sent
      modifies handle`done, handle`taken, handle.ring`tail, handle.ring`count, handle.ring`view
      ensures Valid() && (Abs(), o) == Poll(old(Abs()), old(Waiting()), now)
      ensures handle.done == old(handle.done) + if old(handle.done) < |handle.accepted| then 1 else 0
    {
      hide Poll, Handle.Valid;
      var pkt := NextPacket();
      o := Judge(pkt, now);
    }
  }

  lemma NothingMatches(t: Txn)
    requires IsRequest(t)
    ensures Match(t, []) == None
  {
  }
}
