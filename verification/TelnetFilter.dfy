/** The TELNET filter and escaper as they are stored and run (src/net_telnet.c):
    a context with a bitmap, and output buffers that can fill. */
module TelnetFilter {
  import opened Bytes
  import opened TelnetSpec

  function Mask(k: nat): bv8
    requires k < 8
  {
    match k
    case 0 => 1
    case 1 => 2
    case 2 => 4
    case 3 => 8
    case 4 => 16
    case 5 => 32
    case 6 => 64
    case _ => 128
  }

  predicate HasBit(x: bv8, k: nat)
    requires k < 8
  {
    x & Mask(k) != 0
  }

  function SetBit(x: bv8, k: nat): bv8
    requires k < 8
  {
    x | Mask(k)
  }

  predicate Marked(seen: seq<bv8>, opt: byte)
    requires |seen| == 32
  {
    HasBit(seen[opt / 8], opt % 8)
  }

  /** Marking an option changes no other option's bit. */
  lemma BitSet(x: bv8, k: nat, j: nat)
    requires k < 8 && j < 8
    ensures HasBit(SetBit(x, k), j) <==> k == j || HasBit(x, j)
  {
  }

  ghost function SeenSet(seen: seq<bv8>): set<byte>
    requires |seen| == 32
  {
    set o: byte | 0 <= o < 256 && Marked(seen, o)
  }

  lemma MarkAdds(seen: seq<bv8>, opt: byte)
    requires |seen| == 32
    ensures SeenSet(seen[opt / 8 := SetBit(seen[opt / 8], opt % 8)]) == SeenSet(seen) + {opt}
  {
    hide HasBit, SetBit;
    var seen' := seen[opt / 8 := SetBit(seen[opt / 8], opt % 8)];
    forall o: byte ensures Marked(seen', o) <==> o == opt || Marked(seen, o) {
      BitSet(seen[opt / 8], opt % 8, o % 8);
    }
  }

  lemma SeenIsMarked(seen: seq<bv8>, opt: byte)
    requires |seen| == 32
    ensures opt in SeenSet(seen) <==> HasBit(seen[opt / 8], opt % 8)
  {
    hide HasBit;
  }

  lemma WireAppend(replies: seq<Reply>, r: Reply)
    ensures Wire(replies + [r]) == Wire(replies) + [IAC, r.verb, r.opt]
  {
    assert (replies + [r])[..|replies|] == replies;
  }

  /** What fits of a text. */
  function Clip(s: seq<byte>, cap: nat): seq<byte> {
    if |s| <= cap then s else s[..cap]
  }

  method Emit(buf: array<byte>, len: nat, b: byte, ghost text: seq<byte>) returns (n: nat)
    requires len <= buf.Length && buf[..len] == Clip(text, buf.Length)
    modifies buf
    ensures n <= buf.Length && buf[..n] == Clip(text + [b], buf.Length)
  {
    n := len;
    if n < buf.Length {
      buf[n] := b;
      n := n + 1;
    }
  }

  class Telnet {
    var state: State
    var cmd: byte
    var seen: seq<bv8>                  // a bit for every option answered

    ghost predicate Valid()
      reads this
    {
      |seen| == 32
    }

    ghost function Abs(): Ctx
      reads this
      requires Valid()
    {
      Ctx(state, cmd, SeenSet(seen))
    }

    constructor ()
      ensures Valid() && Abs() == RESET
    {
      state, cmd, seen := Data, 0, seq(32, _ => 0);
    }

    method Reset()
      modifies this
      ensures Valid() && Abs() == RESET
    {
      state, cmd, seen := Data, 0, seq(32, _ => 0);
    }

    /** Queues a reply, at most once per option, unless there is no room for it. */
    method Answer(rep: array<byte>, len: nat, verb: byte, opt: byte, ghost replies: seq<Reply>) returns (n: nat)
      requires Valid() && len <= rep.Length && rep[..len] == Wire(replies)
      modifies rep, this`seen
      ensures Valid() && n <= rep.Length
      ensures if opt in old(Abs()).seen || !Room(replies, rep.Length)
              then Abs() == old(Abs()) && rep[..n] == Wire(replies)
              else Abs() == old(Abs()).(seen := old(Abs()).seen + {opt}) &&
                   rep[..n] == Wire(replies + [Reply(verb, opt)])
    {
      hide HasBit, SetBit, SeenSet, Wire;
      SeenIsMarked(seen, opt);
      if HasBit(seen[opt / 8], opt % 8) || len + 3 > rep.Length {
        return len;
      }
      MarkAdds(seen, opt);
      WireAppend(replies, Reply(verb, opt));
      seen := seen[opt / 8 := SetBit(seen[opt / 8], opt % 8)];
      rep[len], rep[len + 1], rep[len + 2] := IAC, verb, opt;
      n := len + 3;
    }

    /** One input byte, with `f` filtered so far. */
    method Feed(b: byte, out: array<byte>, outLen: nat, rep: array<byte>, repLen: nat, ghost f: Filtered)
      returns (o: nat, r: nat)
      requires Valid() && out != rep && Abs() == f.ctx
      requires outLen <= out.Length && out[..outLen] == Clip(f.out, out.Length)
      requires repLen <= rep.Length && rep[..repLen] == Wire(f.replies)
      modifies this, out, rep
      ensures Valid() && o <= out.Length && r <= rep.Length
      ensures var g := Then(f, Step(f.ctx, b, Room(f.replies, rep.Length)));
              Abs() == g.ctx && out[..o] == Clip(g.out, out.Length) && rep[..r] == Wire(g.replies)
    {
      hide Clip, Wire, SeenSet;
      assert f.out + [] == f.out && f.replies + [] == f.replies;
      o, r := outLen, repLen;
      match state
      case Data =>
        if b == IAC {
          state := Iac;
        } else {
          o := Emit(out, o, b, f.out);
          if b == CR {
            state := Cr;
          }
        }
      case Cr =>
        if b == NUL {
          state := Data;
        } else if b == IAC {
          state := Iac;
        } else {
          o := Emit(out, o, b, f.out);
          if b != CR {
            state := Data;
          }
        }
      case Iac =>
        if b == IAC {
          o := Emit(out, o, IAC, f.out);
          state := Data;
        } else if IsVerb(b) {
          cmd, state := b, Opt;
        } else {
          state := if b == SB then Sb else Data;
        }
      case Opt =>
        if cmd == WILL {
          r := Answer(rep, r, if b == OPT_ECHO || b == OPT_SGA then DO else DONT, b, f.replies);
        } else if cmd == DO {
          r := Answer(rep, r, WONT, b, f.replies);
        }
        state := Data;
      case Sb =>
        if b == IAC {
          state := SbIac;
        }
      case SbIac =>
        state := if b == SE then Data else Sb;
    }

    /** Filters one buffer of input: clean text to `out`, replies to `rep`. */
    method Filter(s: seq<byte>, out: array<byte>, rep: array<byte>) returns (outLen: nat, repLen: nat)
      requires Valid() && out != rep
      modifies this, out, rep
      ensures Valid() && outLen <= out.Length && repLen <= rep.Length
      ensures var f := CapRun(old(Abs()), s, rep.Length);
              Abs() == f.ctx && out[..outLen] == Clip(f.out, out.Length) && rep[..repLen] == Wire(f.replies)
    {
      hide Step, SeenSet;
      outLen, repLen := 0, 0;
      ghost var c := Abs();
      for i := 0 to |s|
        invariant Valid() && outLen <= out.Length && repLen <= rep.Length
        invariant var f := CapRun(c, s[..i], rep.Length);
                  Abs() == f.ctx && out[..outLen] == Clip(f.out, out.Length) && rep[..repLen] == Wire(f.replies)
      {
        assert s[..i + 1][..i] == s[..i];
        outLen, repLen := Feed(s[i], out, outLen, rep, repLen, CapRun(c, s[..i], rep.Length));
      }
      assert s[..|s|] == s;
    }

    /** Filters a received segment in chunks of 256 bytes, with 300 bytes for the
        replies to each: nothing is lost and no reply held back. */
    method FilterSegment(p: seq<byte>) returns (clean: seq<byte>, replies: seq<byte>)
      requires Valid()
      modifies this
      ensures Valid()
      ensures var f := Run(old(Abs()), p); Abs() == f.ctx && clean == f.out && replies == Wire(f.replies)
    {
      hide Run, CapRun, SeenSet, Wire;
      ghost var c := Abs();
      clean, replies := [], [];
      var out, rep := new byte[256], new byte[300];
      var off := 0;
      assert Run(c, []) == Filtered(c, [], []) && Wire([]) == [] by {
        RunEmpty(c);
      }
      assert p[..0] == [];
      while off < |p|
        invariant Valid() && off <= |p|
        invariant var f := Run(c, p[..off]); Abs() == f.ctx && clean == f.out && replies == Wire(f.replies)
      {
        var want := if |p| - off > 256 then 256 else |p| - off;
        var chunk := p[off..off + want];
        ghost var f := Run(c, p[..off]);
        EnoughRoom(f.ctx, chunk, 300);
        OutputBounds(f.ctx, chunk);
        RunConcat(c, p[..off], chunk);
        assert p[..off] + chunk == p[..off + want];
        WireConcat(f.replies, Run(f.ctx, chunk).replies);
        var cl, rl := Filter(chunk, out, rep);
        clean, replies := clean + out[..cl], replies + rep[..rl];
        off := off + want;
      }
      assert p[..off] == p;
    }
  }

  lemma RunEmpty(c: Ctx)
    ensures Run(c, []) == Filtered(c, [], []) && Wire([]) == []
  {
  }

  /** Escapes as much of `s` as fits. */
  method Escape(s: seq<byte>, out: array<byte>) returns (len: nat, consumed: nat)
    modifies out
    ensures consumed == Fits(s, out.Length) && len <= out.Length && out[..len] == Escaped(s[..consumed])
  {
    hide Escaped, FitsFrom;
    len, consumed := 0, 0;
    assert s[..0] == [];
    EscapedNext([], 0);
    while consumed < |s|
      invariant consumed <= |s| && len <= out.Length && out[..len] == Escaped(s[..consumed])
      invariant FitsFrom(s, out.Length, consumed) == Fits(s, out.Length)
    {
      FitsNext(s, out.Length, consumed);
      EscapedNext(s[..consumed], s[consumed]);
      assert s[..consumed + 1] == s[..consumed] + [s[consumed]];
      if s[consumed] == IAC {
        if len + 2 > out.Length {
          break;
        }
        out[len], out[len + 1] := IAC, IAC;
        len := len + 2;
      } else {
        if len + 1 > out.Length {
          break;
        }
        out[len] := s[consumed];
        len := len + 1;
      }
      consumed := consumed + 1;
    }
  }

  lemma EscapedNext(s: seq<byte>, b: byte)
    ensures Escaped([]) == [] && Escaped(s + [b]) == Escaped(s) + EscapedByte(b)
  {
    assert (s + [b])[..|s|] == s;
  }

  lemma FitsNext(s: seq<byte>, cap: nat, i: nat)
    requires i < |s| && |Escaped(s[..i])| <= cap
    ensures if |Escaped(s[..i])| + |EscapedByte(s[i])| > cap then FitsFrom(s, cap, i) == i
            else |Escaped(s[..i + 1])| <= cap && FitsFrom(s, cap, i) == FitsFrom(s, cap, i + 1)
  {
    assert s[..i + 1][..i] == s[..i];
  }
}
