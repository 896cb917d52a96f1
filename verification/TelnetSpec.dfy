/** The TELNET input filter (src/net_telnet.c) as a function of the stream, with
    no buffers to run out of, and what it means for the bytes a server sends. */
module TelnetSpec {
  import opened Bytes

  const IAC: byte := 255
  const DONT: byte := 254
  const DO: byte := 253
  const WONT: byte := 252
  const WILL: byte := 251
  const SB: byte := 250
  const SE: byte := 240
  const OPT_ECHO: byte := 1
  const OPT_SGA: byte := 3
  const CR: byte := 13
  const NUL: byte := 0

  datatype State = Data | Iac | Opt | Sb | SbIac | Cr

  /** `seen` holds the options already answered. */
  datatype Ctx = Ctx(state: State, cmd: byte, seen: set<byte>)

  const RESET := Ctx(Data, 0, {})

  datatype Reply = Reply(verb: byte, opt: byte)

  datatype Filtered = Filtered(ctx: Ctx, out: seq<byte>, replies: seq<Reply>)

  predicate IsVerb(b: byte) {
    b == WILL || b == WONT || b == DO || b == DONT
  }

  /** What an offer or a request is answered with, if it is. */
  function Answers(cmd: byte, opt: byte): seq<Reply> {
    if cmd == WILL then [Reply(if opt == OPT_ECHO || opt == OPT_SGA then DO else DONT, opt)]
    else if cmd == DO then [Reply(WONT, opt)]
    else []
  }

  /** The end of a negotiation: answered once per option, and only when the reply
      buffer has room; an option left unanswered may be answered later. */
  function Negotiated(c: Ctx, opt: byte, room: bool): Filtered {
    var a := Answers(c.cmd, opt);
    if a == [] || opt in c.seen || !room then Filtered(c.(state := Data), [], [])
    else Filtered(c.(state := Data, seen := c.seen + {opt}), [], a)
  }

  /** One input byte. */
  function Step(c: Ctx, b: byte, room: bool): Filtered {
    match c.state
    case Data =>
      if b == IAC then Filtered(c.(state := Iac), [], [])
      else Filtered(c.(state := if b == CR then Cr else Data), [b], [])
    case Cr =>
      if b == NUL then Filtered(c.(state := Data), [], [])
      else if b == IAC then Filtered(c.(state := Iac), [], [])
      else Filtered(c.(state := if b == CR then Cr else Data), [b], [])
    case Iac =>
      if b == IAC then Filtered(c.(state := Data), [IAC], [])
      else if IsVerb(b) then Filtered(c.(state := Opt, cmd := b), [], [])
      else Filtered(c.(state := if b == SB then Sb else Data), [], [])
    case Opt => Negotiated(c, b, room)
    case Sb => Filtered(c.(state := if b == IAC then SbIac else Sb), [], [])
    case SbIac => Filtered(c.(state := if b == SE then Data else Sb), [], [])
  }

  function Then(f: Filtered, g: Filtered): Filtered {
    Filtered(g.ctx, f.out + g.out, f.replies + g.replies)
  }

  /** Is there room for one more three-byte reply? */
  predicate Room(replies: seq<Reply>, cap: nat) {
    3 * |replies| + 3 <= cap
  }

  /** A filter call whose reply buffer holds `cap` bytes. */
  function CapRun(c: Ctx, s: seq<byte>, cap: nat): Filtered {
    if s == [] then Filtered(c, [], [])
    else
      var f := CapRun(c, s[..|s| - 1], cap);
      Then(f, Step(f.ctx, s[|s| - 1], Room(f.replies, cap)))
  }

  /** The filter with nothing to run out of. */
  function Run(c: Ctx, s: seq<byte>): Filtered {
    if s == [] then Filtered(c, [], [])
    else
      var f := Run(c, s[..|s| - 1]);
      Then(f, Step(f.ctx, s[|s| - 1], true))
  }

  function Wire(replies: seq<Reply>): (r: seq<byte>)
    ensures |r| == 3 * |replies|
  {
    if replies == [] then []
    else Wire(replies[..|replies| - 1]) + [IAC, replies[|replies| - 1].verb, replies[|replies| - 1].opt]
  }

  lemma {:induction false} WireConcat(a: seq<Reply>, b: seq<Reply>)
    ensures Wire(a + b) == Wire(a) + Wire(b)
  {
    if b == [] {
      assert a + b == a;
    } else {
      var n := |b| - 1;
      assert (a + b)[..|a + b| - 1] == a + b[..n];
      WireConcat(a, b[..n]);
    }
  }

  lemma RunFew(c: Ctx, x: byte, y: byte, z: byte)
    ensures var f := Step(c, x, true);
            var g := Then(f, Step(f.ctx, y, true));
            && Run(c, [x]) == f && Run(c, [x, y]) == g && Run(c, [x, y, z]) == Then(g, Step(g.ctx, z, true))
  {
    hide Step;
    assert [x][..0] == [] && [x, y][..1] == [x] && [x, y, z][..2] == [x, y];
  }

  // ---- independence from segmentation -------------------------------------

  lemma {:induction false} RunConcat(c: Ctx, s: seq<byte>, t: seq<byte>)
    ensures Run(c, s + t) == Then(Run(c, s), Run(Run(c, s).ctx, t))
  {
    if t == [] {
      assert s + t == s;
    } else {
      var n := |t| - 1;
      assert (s + t)[..|s + t| - 1] == s + t[..n];
      RunConcat(c, s, t[..n]);
    }
  }

  function Flatten(pieces: seq<seq<byte>>): seq<byte> {
    if pieces == [] then [] else Flatten(pieces[..|pieces| - 1]) + pieces[|pieces| - 1]
  }

  /** Filtering a stream piece by piece, each call resuming where the last stopped. */
  function RunPieces(c: Ctx, pieces: seq<seq<byte>>): Filtered {
    if pieces == [] then Filtered(c, [], [])
    else
      var f := RunPieces(c, pieces[..|pieces| - 1]);
      Then(f, Run(f.ctx, pieces[|pieces| - 1]))
  }

  /** However a stream is cut, clean text, replies and final state are those of
      one run over the whole. */
  lemma {:induction false} CuttingIsInvisible(c: Ctx, pieces: seq<seq<byte>>)
    ensures RunPieces(c, pieces) == Run(c, Flatten(pieces))
  {
    if pieces != [] {
      var n := |pieces| - 1;
      CuttingIsInvisible(c, pieces[..n]);
      RunConcat(c, Flatten(pieces[..n]), pieces[n]);
    }
  }

  // ---- bounds -------------------------------------------------------------

  /** Bytes already spent on a negotiation that is under way. */
  function Credit(s: State): nat {
    match s
    case Iac => 1
    case Opt => 2
    case _ => 0
  }

  /** Filtering only removes, and every reply takes three bytes of input, of which
      an earlier call may have read two. */
  lemma {:induction false} OutputBounds(c: Ctx, s: seq<byte>)
    ensures var f := Run(c, s);
            |f.out| <= |s| && 3 * |f.replies| + Credit(f.ctx.state) <= |s| + Credit(c.state)
  {
    if s != [] {
      OutputBounds(c, s[..|s| - 1]);
    }
  }

  /** With room for two bytes more than the input, no reply is ever held back. */
  lemma {:induction false} EnoughRoom(c: Ctx, s: seq<byte>, cap: nat)
    requires |s| + 2 <= cap
    ensures CapRun(c, s, cap) == Run(c, s)
  {
    if s != [] {
      EnoughRoom(c, s[..|s| - 1], cap);
      OutputBounds(c, s[..|s| - 1]);
    }
  }

  /** An option code left over from the previous chunk, then `k` requests. */
  function Requests(k: nat): seq<byte>
    requires k < 256
  {
    if k == 0 then [0] else Requests(k - 1) + [IAC, DO, k]
  }

  lemma OneRequest(c: Ctx, k: byte)
    requires c.state == Data && k !in c.seen
    ensures var f := Run(c, [IAC, DO, k]);
            f.ctx.state == Data && |f.replies| == 1 && f.ctx.seen == c.seen + {k}
  {
    RunFew(c, IAC, DO, k);
  }

  lemma {:induction false} RequestsAnswered(k: nat)
    requires k < 256
    ensures |Requests(k)| == 3 * k + 1
    ensures var f := Run(Ctx(Opt, DO, {}), Requests(k));
            f.ctx.state == Data && |f.replies| == k + 1 && forall o :: o in f.ctx.seen ==> o <= k
  {
    var c := Ctx(Opt, DO, {});
    if k == 0 {
      assert Requests(0)[..0] == [];
    } else {
      hide Run;
      RequestsAnswered(k - 1);
      RunConcat(c, Requests(k - 1), [IAC, DO, k]);
      OneRequest(Run(c, Requests(k - 1)).ctx, k);
    }
  }

  /** The bound for a 256-byte chunk is 258 reply bytes, and it is reached. */
  lemma ChunkBoundIsTight()
    ensures forall c: Ctx, s: seq<byte> {:trigger Run(c, s)} :: |s| <= 256 ==> |Wire(Run(c, s).replies)| <= 258
    ensures |Requests(85)| == 256 && |Wire(Run(Ctx(Opt, DO, {}), Requests(85)).replies)| == 258
  {
    forall c: Ctx, s: seq<byte> {:trigger Run(c, s)} | |s| <= 256 ensures |Wire(Run(c, s).replies)| <= 258 {
      OutputBounds(c, s);
    }
    RequestsAnswered(85);
  }

  /** Over a whole run no option is answered twice, and `seen` is exactly the
      options answered so far. */
  lemma {:induction false} OneReplyPerOption(c: Ctx, s: seq<byte>)
    ensures var f := Run(c, s);
            && (forall i, j :: 0 <= i < j < |f.replies| ==> f.replies[i].opt != f.replies[j].opt)
            && (forall i :: 0 <= i < |f.replies| ==> f.replies[i].opt !in c.seen)
            && f.ctx.seen == c.seen + Options(f.replies)
  {
    if s != [] {
      var n := |s| - 1;
      OneReplyPerOption(c, s[..n]);
      var f := Run(c, s[..n]);
      var a := Step(f.ctx, s[n], true);
      StepAnswers(f.ctx, s[n]);
      hide Run, Step;
      var g := Then(f, a);
      assert forall i :: 0 <= i < |f.replies| ==> g.replies[i] == f.replies[i];
      if a.replies == [] {
        assert g.replies == f.replies;
      } else {
        assert g.replies == f.replies + [a.replies[0]];
        AddReply(f.replies, a.replies[0]);
      }
    }
  }

  function Options(replies: seq<Reply>): set<byte> {
    set i | 0 <= i < |replies| :: replies[i].opt
  }

  lemma AddReply(replies: seq<Reply>, r: Reply)
    ensures Options(replies + [r]) == Options(replies) + {r.opt}
  {
    var more := replies + [r];
    assert more[|replies|] == r;
    forall o | o in Options(replies) ensures o in Options(more) {
      var i :| 0 <= i < |replies| && replies[i].opt == o;
      assert more[i].opt == o;
    }
  }

  lemma StepAnswers(c: Ctx, b: byte)
    ensures var a := Step(c, b, true);
            if a.replies == [] then a.ctx.seen == c.seen
            else |a.replies| == 1 && a.replies[0].opt !in c.seen && a.ctx.seen == c.seen + {a.replies[0].opt}
  {
  }

  // ---- meaning ------------------------------------------------------------

  /** The stream as RFC 854 structures it. */
  datatype Token =
    | Text(b: byte)
    | Literal
    | Command(b: byte)
    | Negotiation(verb: byte, opt: byte)
    | Sub(body: seq<byte>)

  /** Does `IAC SE` not occur inside the body, where each IAC pairs with the byte
      after it? */
  predicate Closed(body: seq<byte>) {
    body == [] ||
    if body[0] != IAC then Closed(body[1..])
    else |body| >= 2 && body[1] != SE && Closed(body[2..])
  }

  predicate WellFormed(t: Token) {
    match t
    case Text(b) => b != IAC
    case Literal => true
    case Command(b) => b != IAC && !IsVerb(b) && b != SB
    case Negotiation(verb, _) => IsVerb(verb)
    case Sub(body) => Closed(body)
  }

  function Spelling(t: Token): seq<byte> {
    match t
    case Text(b) => [b]
    case Literal => [IAC, IAC]
    case Command(b) => [IAC, b]
    case Negotiation(verb, opt) => [IAC, verb, opt]
    case Sub(body) => [IAC, SB] + body + [IAC, SE]
  }

  function Spell(ts: seq<Token>): seq<byte> {
    if ts == [] then [] else Spell(ts[..|ts| - 1]) + Spelling(ts[|ts| - 1])
  }

  /** A NUL written right after a CR is padding. */
  predicate Padding(ts: seq<Token>, i: nat)
    requires i < |ts|
  {
    ts[i] == Text(NUL) && i > 0 && ts[i - 1] == Text(CR)
  }

  /** The text a stream carries. */
  function TextOf(ts: seq<Token>): seq<byte> {
    if ts == [] then []
    else
      var n := |ts| - 1;
      TextOf(ts[..n]) +
      if ts[n].Literal? then [IAC] else if ts[n].Text? && !Padding(ts, n) then [ts[n].b] else []
  }

  /** Was the option already offered or asked for? */
  predicate Raised(ts: seq<Token>, opt: byte) {
    exists i :: 0 <= i < |ts| && ts[i].Negotiation? && ts[i].opt == opt && Answers(ts[i].verb, opt) != []
  }

  /** The replies it calls for: one per option, to the first that raises it. */
  function RepliesTo(ts: seq<Token>): seq<Reply> {
    if ts == [] then []
    else
      var n := |ts| - 1;
      var t := ts[n];
      RepliesTo(ts[..n]) + if t.Negotiation? && !Raised(ts[..n], t.opt) then Answers(t.verb, t.opt) else []
  }

  lemma {:induction false} BodyDropped(c: Ctx, body: seq<byte>)
    requires c.state == Sb && Closed(body)
    ensures Run(c, body) == Filtered(c, [], [])
  {
    if body == [] {
    } else if body[0] != IAC {
      hide Run;
      assert body == [body[0]] + body[1..];
      RunFew(c, body[0], 0, 0);
      RunConcat(c, [body[0]], body[1..]);
      BodyDropped(c, body[1..]);
    } else {
      hide Run;
      var pair := [IAC, body[1]];
      assert body == pair + body[2..];
      RunFew(c, IAC, body[1], 0);
      RunConcat(c, pair, body[2..]);
      BodyDropped(c, body[2..]);
    }
  }

  /** One token, read at a token boundary. */
  lemma TokenMeaning(c: Ctx, t: Token)
    requires WellFormed(t) && (c.state == Data || c.state == Cr)
    ensures var f := Run(c, Spelling(t));
            && f.ctx.state == (if t == Text(CR) then Cr else Data)
            && f.out == (if t.Literal? then [IAC]
                         else if t.Text? && !(t.b == NUL && c.state == Cr) then [t.b] else [])
            && (if t.Negotiation? && t.opt !in c.seen && Answers(t.verb, t.opt) != []
                then f.replies == Answers(t.verb, t.opt) && f.ctx.seen == c.seen + {t.opt}
                else f.replies == [] && f.ctx.seen == c.seen)
  {
    hide Run;
    match t
    case Text(b) => RunFew(c, b, 0, 0);
    case Literal => RunFew(c, IAC, IAC, 0);
    case Command(b) => RunFew(c, IAC, b, 0);
    case Negotiation(verb, opt) => RunFew(c, IAC, verb, opt);
    case Sub(body) =>
      var d := c.(state := Sb);
      RunFew(c, IAC, SB, 0);
      BodyDropped(d, body);
      RunFew(d, IAC, SE, 0);
      RunConcat(d, body, [IAC, SE]);
      RunConcat(c, [IAC, SB], body + [IAC, SE]);
      assert Spelling(t) == [IAC, SB] + (body + [IAC, SE]);
  }

  /** Where the filter stands after whole tokens. */
  function BetweenTokens(ts: seq<Token>): State {
    if ts != [] && ts[|ts| - 1] == Text(CR) then Cr else Data
  }

  /** `f` is the text of `ts`, what it calls for, and a context at a token boundary. */
  ghost predicate Means(f: Filtered, ts: seq<Token>) {
    && f.out == TextOf(ts) && f.replies == RepliesTo(ts)
    && f.ctx.state == BetweenTokens(ts)
    && (forall o :: o in f.ctx.seen <==> Raised(ts, o))
  }

  lemma MeansNext(f: Filtered, ts: seq<Token>)
    requires ts != [] && WellFormed(ts[|ts| - 1]) && Means(f, ts[..|ts| - 1])
    ensures Means(Then(f, Run(f.ctx, Spelling(ts[|ts| - 1]))), ts)
  {
    hide Run, Raised, WellFormed, Answers, Spelling;
    var n := |ts| - 1;
    TokenMeaning(f.ctx, ts[n]);
    var g := Then(f, Run(f.ctx, Spelling(ts[n])));
    assert g.out == TextOf(ts) by {
      hide RepliesTo;
      assert Padding(ts, n) <==> ts[n] == Text(NUL) && f.ctx.state == Cr;
    }
    hide TextOf, Padding;
    RaisedNext(ts);
    assert g.replies == RepliesTo(ts);
  }

  /** Filtering recovers exactly the text of a well-formed stream, and answers
      exactly what it calls for. */
  lemma {:induction false} FilterMeaning(ts: seq<Token>)
    requires forall i :: 0 <= i < |ts| ==> WellFormed(ts[i])
    ensures Means(Run(RESET, Spell(ts)), ts)
  {
    if ts != [] {
      hide Run, Means, WellFormed, Spelling;
      var n := |ts| - 1;
      FilterMeaning(ts[..n]);
      RunConcat(RESET, Spell(ts[..n]), Spelling(ts[n]));
      MeansNext(Run(RESET, Spell(ts[..n])), ts);
    }
  }

  lemma RaisedNext(ts: seq<Token>)
    requires ts != []
    ensures var t := ts[|ts| - 1];
            forall o :: Raised(ts, o) <==>
                        Raised(ts[..|ts| - 1], o) || (t.Negotiation? && t.opt == o && Answers(t.verb, o) != [])
  {
    var n := |ts| - 1;
    forall o | Raised(ts[..n], o) ensures Raised(ts, o) {
      var i :| 0 <= i < n && ts[..n][i].Negotiation? && ts[..n][i].opt == o && Answers(ts[..n][i].verb, o) != [];
      assert ts[i] == ts[..n][i];
    }
    forall o | Raised(ts, o)
      ensures Raised(ts[..n], o) || (ts[n].Negotiation? && ts[n].opt == o && Answers(ts[n].verb, o) != [])
    {
      var i :| 0 <= i < |ts| && ts[i].Negotiation? && ts[i].opt == o && Answers(ts[i].verb, o) != [];
      if i < n {
        assert ts[..n][i] == ts[i];
      }
    }
  }

  // ---- every stream has a meaning ---------------------------------------------

  /** A stream as far as it has come: whole tokens, and the bytes of one begun. */
  datatype Lexed = Lexed(tokens: seq<Token>, tail: seq<byte>)

  /** A token begun and not finished. */
  predicate Unfinished(tail: seq<byte>) {
    || tail == [] || tail == [IAC] || (|tail| == 2 && tail[0] == IAC && IsVerb(tail[1]))
    || SubOpen(tail) || SubAtIac(tail)
  }

  /** Inside a subnegotiation, between its bytes. */
  predicate SubOpen(tail: seq<byte>) {
    |tail| >= 2 && tail[..2] == [IAC, SB] && Closed(tail[2..])
  }

  /** Inside a subnegotiation, after an IAC that the next byte goes with. */
  predicate SubAtIac(tail: seq<byte>) {
    |tail| >= 3 && tail[|tail| - 1] == IAC && SubOpen(tail[..|tail| - 1])
  }

  /** The token that a byte finishes, if it does. */
  function Finished(tail: seq<byte>, b: byte): Option<Token> {
    if tail == [] then if b == IAC then None else Some(Text(b))
    else if tail == [IAC] then
      if b == IAC then Some(Literal) else if IsVerb(b) || b == SB then None else Some(Command(b))
    else if |tail| == 2 && IsVerb(tail[1]) then Some(Negotiation(tail[1], b))
    else if SubAtIac(tail) && b == SE then Some(Sub(tail[2..|tail| - 1]))
    else None
  }

  function LexByte(l: Lexed, b: byte): Lexed {
    var t := Finished(l.tail, b);
    if t.Some? then Lexed(l.tokens + [t.value], []) else l.(tail := l.tail + [b])
  }

  function Lex(s: seq<byte>): Lexed {
    if s == [] then Lexed([], []) else LexByte(Lex(s[..|s| - 1]), s[|s| - 1])
  }

  predicate LexOk(l: Lexed) {
    (forall i :: 0 <= i < |l.tokens| ==> WellFormed(l.tokens[i])) && Unfinished(l.tail)
  }

  lemma {:induction false} ClosedAppend(body: seq<byte>, more: seq<byte>)
    requires Closed(body) && Closed(more)
    ensures Closed(body + more)
  {
    if body == [] {
      assert body + more == more;
    } else if body[0] != IAC {
      ClosedAppend(body[1..], more);
      assert (body + more)[1..] == body[1..] + more;
    } else {
      ClosedAppend(body[2..], more);
      assert (body + more)[2..] == body[2..] + more;
    }
  }

  /** How a subnegotiation goes on. */
  lemma SubGrows(tail: seq<byte>, b: byte)
    ensures SubOpen(tail) && b != IAC ==> SubOpen(tail + [b])
    ensures SubOpen(tail) && b == IAC ==> SubAtIac(tail + [b])
    ensures SubAtIac(tail) && b != SE ==> SubOpen(tail + [b])
  {
    if SubOpen(tail) {
      assert (tail + [b])[..2] == [IAC, SB] && (tail + [b])[2..] == tail[2..] + [b];
      assert (tail + [b])[..|tail|] == tail;
      if b != IAC {
        assert [b][1..] == [];
        ClosedAppend(tail[2..], [b]);
      }
    }
    if SubAtIac(tail) && b != SE {
      var open := tail[..|tail| - 1];
      assert [IAC, b][2..] == [];
      ClosedAppend(open[2..], [IAC, b]);
      assert tail + [b] == open + [IAC, b] && (tail + [b])[2..] == open[2..] + [IAC, b];
      assert (tail + [b])[..2] == open[..2];
    }
  }

  lemma FinishedSpells(tail: seq<byte>, b: byte)
    requires Unfinished(tail) && Finished(tail, b).Some?
    ensures WellFormed(Finished(tail, b).value) && Spelling(Finished(tail, b).value) == tail + [b]
  {
    hide SubOpen, Closed;
    if tail == [] || tail == [IAC] {
    } else if |tail| == 2 && IsVerb(tail[1]) {
      VerbRead(tail);
    } else {
      SubParts(tail);
    }
  }

  lemma UnfinishedGrows(tail: seq<byte>, b: byte)
    requires Unfinished(tail) && Finished(tail, b).None?
    ensures Unfinished(tail + [b])
  {
    hide SubOpen, Closed;
    if tail == [] || tail == [IAC] {
      SubStarts();
      assert [] + [b] == [b] && [IAC] + [b] == [IAC, b];
    } else {
      SubGrows(tail, b);
      hide SubAtIac;
    }
  }

  lemma LexByteOk(l: Lexed, b: byte)
    requires LexOk(l)
    ensures LexOk(LexByte(l, b)) && Spell(LexByte(l, b).tokens) + LexByte(l, b).tail == Spell(l.tokens) + l.tail + [b]
  {
    hide Spell, Spelling, WellFormed, Unfinished, Finished;
    var t := Finished(l.tail, b);
    if t.Some? {
      FinishedSpells(l.tail, b);
      SpellMore(l.tokens, t.value);
      NothingUnfinished();
      assert Spell(l.tokens) + (l.tail + [b]) + [] == Spell(l.tokens) + l.tail + [b];
    } else {
      UnfinishedGrows(l.tail, b);
      assert Spell(l.tokens) + (l.tail + [b]) == Spell(l.tokens) + l.tail + [b];
    }
  }

  lemma NothingUnfinished()
    ensures Unfinished([])
  {
  }

  lemma SpellMore(ts: seq<Token>, t: Token)
    ensures Spell(ts + [t]) == Spell(ts) + Spelling(t)
  {
    assert (ts + [t])[..|ts|] == ts;
  }

  lemma VerbRead(tail: seq<byte>)
    requires Unfinished(tail) && |tail| == 2 && IsVerb(tail[1])
    ensures tail == [IAC, tail[1]]
  {
    if SubOpen(tail) {
      assert tail[0] == tail[..2][0];
    }
  }

  lemma SubStarts()
    ensures SubOpen([IAC, SB])
  {
  }

  lemma SubParts(tail: seq<byte>)
    requires SubAtIac(tail)
    ensures Closed(tail[2..|tail| - 1]) && tail == [IAC, SB] + tail[2..|tail| - 1] + [IAC]
  {
    var open := tail[..|tail| - 1];
    assert tail[2..|tail| - 1] == open[2..];
    assert tail == open + [IAC] && open == open[..2] + open[2..];
  }

  lemma LexNothing()
    ensures Lex([]) == Lexed([], []) && LexOk(Lex([])) && Spell([]) == []
  {
  }

  lemma LexNext(s: seq<byte>)
    requires s != []
    ensures Lex(s) == LexByte(Lex(s[..|s| - 1]), s[|s| - 1])
  {
    hide LexByte;
  }

  /** Every byte string is the spelling of well-formed tokens and a token begun. */
  lemma {:induction false} EveryStreamLexes(s: seq<byte>)
    ensures LexOk(Lex(s)) && s == Spell(Lex(s).tokens) + Lex(s).tail
  {
    hide LexOk, LexByte, Lex, Spell;
    if s == [] {
      LexNothing();
    } else {
      var n := |s| - 1;
      EveryStreamLexes(s[..n]);
      LexNext(s);
      LexByteOk(Lex(s[..n]), s[n]);
      assert s == s[..n] + [s[n]];
    }
  }

  /** Where the filter stands in a token begun. */
  function TailState(tail: seq<byte>, between: State): State {
    if tail == [] then between
    else if tail == [IAC] then Iac
    else if |tail| == 2 && IsVerb(tail[1]) then Opt
    else if SubAtIac(tail) then SbIac else Sb
  }

  /** A token begun yields nothing yet. */
  lemma TailYieldsNothing(c: Ctx, tail: seq<byte>)
    requires Unfinished(tail) && (c.state == Data || c.state == Cr)
    ensures var f := Run(c, tail);
            f.out == [] && f.replies == [] && f.ctx.seen == c.seen && f.ctx.state == TailState(tail, c.state)
  {
    hide Run, SubOpen;
    if tail == [] {
      RunNothing(c);
    } else if tail == [IAC] {
      RunFew(c, IAC, 0, 0);
    } else if |tail| == 2 && IsVerb(tail[1]) {
      VerbRead(tail);
      RunFew(c, IAC, tail[1], 0);
    } else if SubAtIac(tail) {
      var open := tail[..|tail| - 1];
      SubYieldsNothing(c, open);
      assert tail == open + [IAC];
      RunConcat(c, open, [IAC]);
      RunFew(c.(state := Sb), IAC, 0, 0);
    } else {
      SubYieldsNothing(c, tail);
    }
  }

  lemma RunNothing(c: Ctx)
    ensures Run(c, []) == Filtered(c, [], [])
  {
  }

  lemma SubYieldsNothing(c: Ctx, open: seq<byte>)
    requires SubOpen(open) && (c.state == Data || c.state == Cr)
    ensures Run(c, open) == Filtered(c.(state := Sb), [], [])
  {
    hide Run;
    RunFew(c, IAC, SB, 0);
    assert open == [IAC, SB] + open[2..];
    RunConcat(c, [IAC, SB], open[2..]);
    BodyDropped(c.(state := Sb), open[2..]);
  }

  /** The meaning of every byte string: from reset the filter yields exactly the text of
      its whole tokens and the replies they call for, and stands in the token begun. */
  lemma TotalMeaning(s: seq<byte>)
    ensures var l, f := Lex(s), Run(RESET, s);
            && s == Spell(l.tokens) + l.tail && LexOk(l)
            && f.out == TextOf(l.tokens) && f.replies == RepliesTo(l.tokens)
            && f.ctx.state == TailState(l.tail, BetweenTokens(l.tokens))
            && (forall o :: o in f.ctx.seen <==> Raised(l.tokens, o))
  {
    hide Run, Lex, TextOf, RepliesTo, Raised, Unfinished, WellFormed, TailState, Spell;
    EveryStreamLexes(s);
    var l := Lex(s);
    FilterMeaning(l.tokens);
    var f := Run(RESET, Spell(l.tokens));
    RunConcat(RESET, Spell(l.tokens), l.tail);
    TailYieldsNothing(f.ctx, l.tail);
    assert f.out + [] == f.out && f.replies + [] == f.replies;
  }

  // ---- which reply an option gets -----------------------------------------------

  /** An offer (WILL, 251) or a request (DO, 253) of an option. */
  predicate Raises(t: Token, opt: byte) {
    t.Negotiation? && t.opt == opt && (t.verb == 251 || t.verb == 253)
  }

  /** The first token to offer or ask for the option does so with `verb`. */
  ghost predicate FirstRaised(ts: seq<Token>, opt: byte, verb: byte) {
    exists i :: 0 <= i < |ts| && Raises(ts[i], opt) && ts[i].verb == verb && !RaisedIn(ts[..i], opt)
  }

  ghost predicate RaisedIn(ts: seq<Token>, opt: byte) {
    exists i :: 0 <= i < |ts| && Raises(ts[i], opt)
  }

  lemma RaisedIsRaised(ts: seq<Token>, opt: byte)
    ensures Raised(ts, opt) <==> RaisedIn(ts, opt)
  {
    assert forall i :: 0 <= i < |ts| && ts[i].Negotiation? && ts[i].opt == opt ==>
                         (Answers(ts[i].verb, opt) != [] <==> Raises(ts[i], opt));
  }

  lemma FirstRaisedNext(ts: seq<Token>, opt: byte, verb: byte)
    requires ts != []
    ensures var n := |ts| - 1;
            FirstRaised(ts, opt, verb) <==>
            FirstRaised(ts[..n], opt, verb) || (Raises(ts[n], opt) && ts[n].verb == verb && !RaisedIn(ts[..n], opt))
  {
    hide RaisedIn;
    var n := |ts| - 1;
    if FirstRaised(ts, opt, verb) {
      var i :| 0 <= i < |ts| && Raises(ts[i], opt) && ts[i].verb == verb && !RaisedIn(ts[..i], opt);
      if i < n {
        assert ts[..n][i] == ts[i] && ts[..n][..i] == ts[..i];
      }
    }
    if FirstRaised(ts[..n], opt, verb) {
      var i :| 0 <= i < n && Raises(ts[..n][i], opt) && ts[..n][i].verb == verb && !RaisedIn(ts[..n][..i], opt);
      assert ts[..n][i] == ts[i] && ts[..n][..i] == ts[..i];
    }
  }

  /** An option is refused or accepted exactly when the first that raises it is an offer,
      declined exactly when it is a request; ECHO (1) and SGA (3) alone are accepted. */
  ghost predicate RightReplies(ts: seq<Token>, rep: seq<Reply>, opt: byte) {
    && (Reply(253, opt) in rep <==> (opt == 1 || opt == 3) && FirstRaised(ts, opt, 251))
    && (Reply(254, opt) in rep <==> !(opt == 1 || opt == 3) && FirstRaised(ts, opt, 251))
    && (Reply(252, opt) in rep <==> FirstRaised(ts, opt, 253))
  }

  lemma {:induction false} TokensReplied(ts: seq<Token>, opt: byte)
    requires forall i :: 0 <= i < |ts| ==> WellFormed(ts[i])
    ensures RightReplies(ts, RepliesTo(ts), opt)
    ensures forall r :: r in RepliesTo(ts) ==> r.verb == 252 || r.verb == 253 || r.verb == 254
  {
    if ts != [] {
      var n := |ts| - 1;
      TokensReplied(ts[..n], opt);
      FirstRaisedNext(ts, opt, 251);
      FirstRaisedNext(ts, opt, 253);
      if ts[n].Negotiation? {
        RaisedIsRaised(ts[..n], ts[n].opt);
      }
      hide FirstRaised, Raised, RaisedIn;
      var more := if ts[n].Negotiation? && !Raised(ts[..n], ts[n].opt) then Answers(ts[n].verb, ts[n].opt) else [];
      assert forall r: Reply :: r in RepliesTo(ts) <==> r in RepliesTo(ts[..n]) || r in more;
    }
  }

  /** For every byte string and option: exactly which replies the filter gives. An option
      that only WONT or DONT mention gets none. */
  lemma RepliesExactly(s: seq<byte>, opt: byte)
    ensures RightReplies(Lex(s).tokens, Run(RESET, s).replies, opt)
    ensures forall r :: r in Run(RESET, s).replies ==> r.verb == 252 || r.verb == 253 || r.verb == 254
    ensures !RaisedIn(Lex(s).tokens, opt) ==> forall r :: r in Run(RESET, s).replies ==> r.opt != opt
  {
    hide Run, Lex, RepliesTo, Spell, TextOf, WellFormed, Unfinished;
    TotalMeaning(s);
    forall o: byte ensures RightReplies(Lex(s).tokens, RepliesTo(Lex(s).tokens), o) {
      TokensReplied(Lex(s).tokens, o);
    }
    TokensReplied(Lex(s).tokens, opt);
  }

  // ---- escaping -----------------------------------------------------------

  function EscapedByte(b: byte): seq<byte> {
    if b == IAC then [IAC, IAC] else [b]
  }

  function Escaped(s: seq<byte>): seq<byte> {
    if s == [] then [] else Escaped(s[..|s| - 1]) + EscapedByte(s[|s| - 1])
  }

  lemma {:induction false} EscapedConcat(s: seq<byte>, t: seq<byte>)
    ensures Escaped(s + t) == Escaped(s) + Escaped(t)
  {
    if t == [] {
      assert s + t == s;
    } else {
      var n := |t| - 1;
      assert (s + t)[..|s + t| - 1] == s + t[..n];
      EscapedConcat(s, t[..n]);
    }
  }

  /** The string without each NUL directly after a CR. */
  function Unpadded(s: seq<byte>): seq<byte> {
    if s == [] then []
    else
      var n := |s| - 1;
      Unpadded(s[..n]) + if s[n] == NUL && n > 0 && s[n - 1] == CR then [] else [s[n]]
  }

  function Tokens(s: seq<byte>): (ts: seq<Token>)
    ensures |ts| == |s| && forall i :: 0 <= i < |s| ==> ts[i] == if s[i] == IAC then Literal else Text(s[i])
  {
    seq(|s|, i requires 0 <= i < |s| => if s[i] == IAC then Literal else Text(s[i]))
  }

  lemma {:induction false} EscapedSpells(s: seq<byte>)
    ensures Escaped(s) == Spell(Tokens(s))
  {
    if s != [] {
      var n := |s| - 1;
      EscapedSpells(s[..n]);
      assert Tokens(s)[..n] == Tokens(s[..n]);
    }
  }

  lemma {:induction false} TokensText(s: seq<byte>)
    ensures TextOf(Tokens(s)) == Unpadded(s)
  {
    if s != [] {
      var n := |s| - 1;
      TokensText(s[..n]);
      assert Tokens(s)[..n] == Tokens(s[..n]);
    }
  }

  lemma {:induction false} TokensUnanswered(s: seq<byte>)
    ensures RepliesTo(Tokens(s)) == []
  {
    if s != [] {
      var n := |s| - 1;
      TokensUnanswered(s[..n]);
      assert Tokens(s)[..n] == Tokens(s[..n]);
    }
  }

  /** Filtering what escaping produced gives the string back, less its padding
      NULs, and provokes no reply. */
  lemma EscapeRoundTrip(s: seq<byte>)
    ensures var f := Run(RESET, Escaped(s)); f.out == Unpadded(s) && f.replies == [] && f.ctx.seen == {}
  {
    EscapedSpells(s);
    TokensText(s);
    TokensUnanswered(s);
    FilterMeaning(Tokens(s));
    hide Run, Spell, Escaped, TextOf, RepliesTo, Unpadded;
    assert forall o :: !Raised(Tokens(s), o);
  }

  /** The round trip is exact precisely for strings in which no NUL follows a CR. */
  lemma RoundTripExact(s: seq<byte>)
    ensures Run(RESET, Escaped(s)).out == s <==> forall i :: 0 < i < |s| ==> !(s[i] == NUL && s[i - 1] == CR)
  {
    EscapeRoundTrip(s);
    UnpaddedExact(s);
  }

  lemma {:induction false} UnpaddedExact(s: seq<byte>)
    ensures |Unpadded(s)| <= |s|
    ensures Unpadded(s) == s <==> forall i :: 0 < i < |s| ==> !(s[i] == NUL && s[i - 1] == CR)
    ensures Unpadded(s) != s ==> |Unpadded(s)| < |s|
  {
    if s != [] {
      var n := |s| - 1;
      UnpaddedExact(s[..n]);
      assert s == s[..n] + [s[n]];
      if Unpadded(s[..n]) != s[..n] {
        var i :| 0 < i < n && s[..n][i] == NUL && s[..n][i - 1] == CR;
        assert s[i] == NUL && s[i - 1] == CR;
      }
    }
  }

  /** How many input bytes one escape call takes with `cap` bytes of output. */
  function Fits(s: seq<byte>, cap: nat): (n: nat)
    ensures n <= |s| && |Escaped(s[..n])| <= cap
    ensures n < |s| ==> |Escaped(s[..n])| + |EscapedByte(s[n])| > cap
  {
    FitsFrom(s, cap, 0)
  }

  function FitsFrom(s: seq<byte>, cap: nat, i: nat): (n: nat)
    requires i <= |s| && |Escaped(s[..i])| <= cap
    ensures i <= n <= |s| && |Escaped(s[..n])| <= cap
    ensures n < |s| ==> |Escaped(s[..n])| + |EscapedByte(s[n])| > cap
    decreases |s| - i
  {
    if i == |s| || |Escaped(s[..i])| + |EscapedByte(s[i])| > cap then i
    else
      assert s[..i + 1][..i] == s[..i];
      FitsFrom(s, cap, i + 1)
  }

  /** What repeated partial calls put on the wire, and how much of the input they
      take; call `k` has `caps[k]` bytes of room. */
  function Sent(s: seq<byte>, caps: seq<nat>): seq<byte> {
    if caps == [] then [] else Escaped(s[..Fits(s, caps[0])]) + Sent(s[Fits(s, caps[0])..], caps[1..])
  }

  function Consumed(s: seq<byte>, caps: seq<nat>): (n: nat)
    ensures n <= |s|
  {
    if caps == [] then 0 else Fits(s, caps[0]) + Consumed(s[Fits(s, caps[0])..], caps[1..])
  }

  /** Partial calls concatenate to the escape of what they consumed. */
  lemma {:induction false} PartialCallsConcatenate(s: seq<byte>, caps: seq<nat>)
    ensures Sent(s, caps) == Escaped(s[..Consumed(s, caps)])
  {
    hide Escaped, Fits, Sent, Consumed;
    SentParts(s, caps);
    if caps != [] {
      var n := Fits(s, caps[0]);
      PartialCallsConcatenate(s[n..], caps[1..]);
      EscapedSplit(s, n, Consumed(s[n..], caps[1..]));
    }
  }

  lemma SentParts(s: seq<byte>, caps: seq<nat>)
    ensures caps == [] ==> Sent(s, caps) == [] && Consumed(s, caps) == 0 && Escaped(s[..0]) == []
    ensures caps != [] ==>
              var n := Fits(s, caps[0]);
              && Sent(s, caps) == Escaped(s[..n]) + Sent(s[n..], caps[1..])
              && Consumed(s, caps) == n + Consumed(s[n..], caps[1..])
  {
    hide Fits;
    assert s[..0] == [];
  }

  lemma EscapedSplit(s: seq<byte>, n: nat, m: nat)
    requires n + m <= |s|
    ensures Escaped(s[..n + m]) == Escaped(s[..n]) + Escaped(s[n..][..m])
  {
    hide Escaped;
    assert s[..n + m] == s[..n] + s[n..][..m];
    EscapedConcat(s[..n], s[n..][..m]);
  }

  /** Calls with at least two bytes of room each make progress until all is sent. */
  lemma {:induction false} PartialCallsFinish(s: seq<byte>, caps: seq<nat>)
    requires (forall k :: 0 <= k < |caps| ==> caps[k] >= 2) && |caps| >= |s|
    ensures Consumed(s, caps) == |s|
  {
    hide Escaped, EscapedByte, FitsFrom;
    if caps != [] {
      FirstFits(s, caps[0]);
      PartialCallsFinish(s[Fits(s, caps[0])..], caps[1..]);
    }
  }

  lemma FirstFits(s: seq<byte>, cap: nat)
    ensures s != [] && cap >= 2 ==> Fits(s, cap) > 0
  {
    assert s[..0] == [];
  }
}
