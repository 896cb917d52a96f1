/** The fixed slot tables of the AUN engine: the deferred streams of a block and
    the condemned streams. A table of eight slots serves as an unbounded map from
    streams to deadlines, because a running deferral always has a frame queued. */
module AunTables {
  import opened AunTypes
  import opened AunRx
  import opened AunQueue
  import opened AunRxInv

  function StreamsOf(t: seq<Slot>): set<Stream> {
    set i | 0 <= i < |t| :: t[i].stream
  }

  /** The entries still running at `clock`, as a map. */
  function Running(t: seq<Slot>, clock: nat): map<Stream, nat> {
    map s | s in StreamsOf(t) && Listed(t, s, clock) :: t[SlotOf(t, s)].until
  }

  lemma RunningIsListed(t: seq<Slot>, clock: nat)
    ensures forall s :: s in Running(t, clock) <==> Listed(t, s, clock)
    ensures forall s :: s in Running(t, clock) ==> Running(t, clock)[s] == t[SlotOf(t, s)].until
  {
    forall s | Listed(t, s, clock) ensures s in StreamsOf(t) {
      assert t[SlotOf(t, s)].stream == s;
    }
  }

  /** Changing one slot leaves the lookup of every other stream alone. */
  lemma OtherStreams(t: seq<Slot>, v: nat, x: Slot, s: Stream)
    requires v < |t| && !(t[v].valid && t[v].stream == s) && !(x.valid && x.stream == s)
    ensures SlotOf(t[v := x], s) == SlotOf(t, s)
  {
    var i, j := SlotOf(t[v := x], s), SlotOf(t, s);
    assert i >= 0 ==> t[i].valid && t[i].stream == s;
    assert j >= 0 ==> t[v := x][j].valid && t[v := x][j].stream == s;
  }

  /** Freeing an expired slot on lookup cannot be observed. */
  lemma ExpireInvisible(t: seq<Slot>, s: Stream, clock: nat)
    requires DistinctStreams(t)
    ensures Running(Expire(t, s, clock), clock) == Running(t, clock)
    ensures DistinctStreams(Expire(t, s, clock))
  {
    var t' := Expire(t, s, clock);
    var i := SlotOf(t, s);
    if t' != t {
      forall q ensures Listed(t', q, clock) <==> Listed(t, q, clock)
        ensures Listed(t', q, clock) ==> t'[SlotOf(t', q)].until == t[SlotOf(t, q)].until
      {
        if q != s {
          OtherStreams(t, i, t'[i], q);
        }
      }
      RunningIsListed(t, clock);
      RunningIsListed(t', clock);
    }
  }

  /** The slot a store goes to: it held nothing running for another stream. */
  lemma SetSlotElsewhere(t: seq<Slot>, v: nat, s: Stream, clock: nat, until: nat, q: Stream)
    requires DistinctStreams(t) && v < |t| && q != s
    requires (t[v].valid && t[v].stream == s) || Usable(t[v], clock)
    ensures var t' := t[v := Slot(true, s, until)];
            && (Listed(t', q, clock) <==> Listed(t, q, clock))
            && (Listed(t', q, clock) ==> t'[SlotOf(t', q)].until == t[SlotOf(t, q)].until)
  {
    var t' := t[v := Slot(true, s, until)];
    if t[v].valid && t[v].stream == q {
      assert SlotOf(t, q) == v;
      assert forall k :: 0 <= k < |t'| ==> !(t'[k].valid && t'[k].stream == q);
    } else {
      OtherStreams(t, v, t'[v], q);
    }
  }

  /** Storing into the stream's own or an unused slot is a map update. */
  lemma SetSlotUpdates(t: seq<Slot>, s: Stream, clock: nat, until: nat)
    requires DistinctStreams(t) && t != [] && clock < until
    requires SlotOf(t, s) >= 0 || Usable(t[Victim(t, clock)], clock)
    ensures Running(SetSlot(t, s, clock, until), clock) == Running(t, clock)[s := until]
    ensures DistinctStreams(SetSlot(t, s, clock, until))
  {
    hide Running, DistinctStreams;
    var t' := SetSlot(t, s, clock, until);
    var v := if SlotOf(t, s) >= 0 then SlotOf(t, s) else Victim(t, clock);
    SlotTablesKeep(t, s, clock, until);
    OwnSlot(t, v, s, clock, until);
    hide SetSlot, Usable;
    forall q | q != s
      ensures Listed(t', q, clock) <==> Listed(t, q, clock)
      ensures Listed(t', q, clock) ==> t'[SlotOf(t', q)].until == t[SlotOf(t, q)].until
    {
      SetSlotElsewhere(t, v, s, clock, until, q);
    }
    RunningIsListed(t, clock);
    RunningIsListed(t', clock);
  }

  lemma OwnSlot(t: seq<Slot>, v: nat, s: Stream, clock: nat, until: nat)
    requires DistinctStreams(t) && v < |t| && (SlotOf(t, s) < 0 || SlotOf(t, s) == v)
    ensures var t' := t[v := Slot(true, s, until)]; SlotOf(t', s) == v && t'[v].until == until
  {
    var t' := t[v := Slot(true, s, until)];
    assert forall k :: 0 <= k < |t'| && k != v ==> t'[k] == t[k] && !(t'[k].valid && t'[k].stream == s);
    assert t'[v].valid && t'[v].stream == s;
  }

  /** As time passes the map loses exactly the entries that run out. */
  lemma RunningLater(t: seq<Slot>, clock: nat, later: nat)
    requires clock <= later
    ensures Running(t, later) == map s | s in Running(t, clock) && later < Running(t, clock)[s] :: Running(t, clock)[s]
  {
    RunningIsListed(t, clock);
    RunningIsListed(t, later);
  }

  // ---- the tables in place ------------------------------------------------

  /** Finds the slot running for a stream, or -1, freeing its slot if that has expired. */
  method Lookup(t: array<Slot>, s: Stream, clock: nat) returns (r: int)
    modifies t
    ensures t[..] == Expire(old(t[..]), s, clock)
    ensures r == if Listed(old(t[..]), s, clock) then SlotOf(old(t[..]), s) else -1
  {
    for i := 0 to t.Length
      invariant t[..] == old(t[..])
      invariant forall k :: 0 <= k < i ==> !(t[k].valid && t[k].stream == s)
    {
      if t[i].valid && t[i].stream == s {
        assert SlotOf(old(t[..]), s) == i;
        if clock >= t[i].until {
          t[i] := t[i].(valid := false);
          return -1;
        }
        return i;
      }
    }
    return -1;
  }

  /** Stores an entry in the stream's own slot, else a free or expired one, else
      in place of the one closest to expiry: two passes, so that the stream's own
      slot wins outright. */
  method Store(t: array<Slot>, s: Stream, clock: nat, until: nat)
    requires t.Length > 0
    modifies t
    ensures t[..] == SetSlot(old(t[..]), s, clock, until)
  {
    var victim := -1;
    for i := 0 to t.Length
      invariant t[..] == old(t[..])
      invariant victim == -1
      invariant forall k :: 0 <= k < i ==> !(t[k].valid && t[k].stream == s)
    {
      if t[i].valid && t[i].stream == s {
        victim := i;
        break;
      }
    }
    assert victim == SlotOf(t[..], s);
    if victim < 0 {
      victim := 0;
      var i := 0;
      while i < t.Length
        invariant 0 <= i <= t.Length && 0 <= victim < t.Length && t[..] == old(t[..])
        invariant Victim(t[..], clock, i, victim) == Victim(t[..], clock)
      {
        if !t[i].valid || clock >= t[i].until {
          victim := i;
          break;
        }
        if t[victim].until > t[i].until {
          victim := i;
        }
        i := i + 1;
      }
      assert victim == Victim(t[..], clock);
    }
    t[victim] := Slot(true, s, until);
  }

  // ---- pigeonhole ---------------------------------------------------------

  function FrameStreams(frames: seq<Frame>): set<Stream> {
    set i | 0 <= i < |frames| :: StreamOf(frames[i])
  }

  lemma {:induction false} FewStreams(frames: seq<Frame>)
    ensures |FrameStreams(frames)| <= |frames|
  {
    if frames != [] {
      var rest := frames[..|frames| - 1];
      FewStreams(rest);
      assert FrameStreams(frames) == FrameStreams(rest) + {StreamOf(frames[|frames| - 1])};
    }
  }

  lemma {:induction false} ManyStreams(t: seq<Slot>)
    requires DistinctStreams(t) && forall i :: 0 <= i < |t| ==> t[i].valid
    ensures |StreamsOf(t)| == |t|
  {
    if t != [] {
      var rest := t[..|t| - 1];
      ManyStreams(rest);
      assert StreamsOf(t) == StreamsOf(rest) + {t[|t| - 1].stream};
      assert t[|t| - 1].stream !in StreamsOf(rest);
    }
  }

  /** The defer table never over-subscribes: when the stream of a queued frame is
      not in it, some slot is free or expired, so no running deferral is stolen. */
  lemma NeverSteals(b: Block, t: seq<Slot>, s: Stream, clock: nat)
    requires BlockInv(b, clock) && b.deferred == Running(t, clock)
    requires |t| == DEFER_SLOTS && DistinctStreams(t) && Backed(b.frames, s)
    ensures SlotOf(t, s) >= 0 || Usable(t[Victim(t, clock)], clock)
  {
    hide PresentedOk, FrameOk, Running;
    if SlotOf(t, s) < 0 && forall k :: 0 <= k < |t| ==> !Usable(t[k], clock) {
      RunningIsListed(t, clock);
      ManyStreams(t);
      FewStreams(b.frames);
      var all := StreamsOf(t) + {s};
      assert s !in StreamsOf(t);
      forall q | q in all ensures q in FrameStreams(b.frames) {
        if q != s {
          var i :| 0 <= i < |t| && t[i].stream == q;
          assert t[i].valid && SlotOf(t, q) >= 0;
          assert Listed(t, q, clock);
          assert Backed(b.frames, q);
        }
      }
      SubsetSize(all, FrameStreams(b.frames));
      assert false;
    }
  }

  lemma SubsetSize(a: set<Stream>, b: set<Stream>)
    requires a <= b
    ensures |a| <= |b|
  {
    assert b == a + (b - a);
  }
}
