/** What every operation keeps about a receive block: bounded queue, per-stream
    order, a presented frame that stays the host's, deferrals backed by frames. */
module AunQueue {
  import opened AunTypes
  import opened AunRx

  /** No earlier queued frame belongs to the same stream. */
  ghost predicate Oldest(frames: seq<Frame>, off: int) {
    0 <= off < |frames| && forall i :: 0 <= i < off ==> StreamOf(frames[i]) != StreamOf(frames[off])
  }

  ghost predicate Backed(frames: seq<Frame>, s: Stream) {
    exists i :: 0 <= i < |frames| && StreamOf(frames[i]) == s
  }

  /** A live deferral expires in the future and has a frame behind it. */
  ghost predicate DeferralsOk(b: Block, clock: nat) {
    forall s :: s in b.deferred ==> OnWire(s.src) && clock < b.deferred[s] && Backed(b.frames, s)
  }

  /** While presented, the frame is its stream's oldest, its stream is not
      deferred, and the host's buffer holds exactly its bytes. */
  ghost predicate PresentedOk(b: Block) {
    b.presented ==>
      && Oldest(b.frames, b.presOff)
      && Eligible(b.frames[b.presOff], b.deferred)
      && |b.frames[b.presOff].data| <= |b.buf|
      && b.buf[..|b.frames[b.presOff].data|] == b.frames[b.presOff].data
  }

  ghost predicate FrameOk(f: Frame, b: Block) {
    |f.data| <= |b.buf| && |f.data| <= MAX_DATA && f.rejects <= DEFER_RETRIES
  }

  ghost predicate BlockInv(b: Block, clock: nat) {
    && (!b.open ==> b == CLOSED)
    && |b.frames| <= RX_QUEUE
    && (forall i :: 0 <= i < |b.frames| ==> FrameOk(b.frames[i], b))
    && PresentedOk(b) && DeferralsOk(b, clock)
  }

  /** What a poll presents or a collect acts on is always the oldest frame of
      its stream, and there is none only when every queued stream is deferred. */
  lemma TargetIsOldest(b: Block, clock: nat)
    requires BlockInv(b, clock)
    ensures HasTarget(b) ==> Oldest(b.frames, Target(b)) && Eligible(b.frames[Target(b)], b.deferred)
    ensures !HasTarget(b) <==> forall i :: 0 <= i < |b.frames| ==> StreamOf(b.frames[i]) in b.deferred
  {
    var off := Target(b);
    if HasTarget(b) && !b.presented {
      forall i | 0 <= i < off
        ensures StreamOf(b.frames[i]) != StreamOf(b.frames[off])
      {
        assert !Eligible(b.frames[i], b.deferred);
      }
    }
    if !HasTarget(b) {
      forall i | 0 <= i < |b.frames| ensures StreamOf(b.frames[i]) in b.deferred {
        assert !Eligible(b.frames[i], b.deferred);
      }
    } else {
      assert OnWire(b.frames[off].src) ==> StreamOf(b.frames[off]) !in b.deferred;
      assert !OnWire(b.frames[off].src) ==> StreamOf(b.frames[off]) !in b.deferred;
    }
  }

  lemma PresentKeeps(b: Block, clock: nat)
    requires BlockInv(b, clock)
    ensures BlockInv(Present(b), clock)
    ensures Present(b).frames == b.frames && Target(Present(b)) == Target(b)
  {
    TargetIsOldest(b, clock);
  }

  /** Arrivals join at the tail and disturb neither order nor the presented frame. */
  lemma AppendKeeps(b: Block, f: Frame, clock: nat)
    requires BlockInv(b, clock) && b.open && |b.frames| < RX_QUEUE && FrameOk(f, b)
    ensures BlockInv(b.(frames := b.frames + [f]), clock)
    ensures HasTarget(b) ==> Target(b.(frames := b.frames + [f])) == Target(b)
  {
    var b' := b.(frames := b.frames + [f]);
    forall s | s in b.deferred ensures Backed(b'.frames, s) {
      var i :| 0 <= i < |b.frames| && StreamOf(b.frames[i]) == s;
      assert StreamOf(b'.frames[i]) == s;
    }
    if !b.presented && HasTarget(b) {
      assert Eligible(b'.frames[Target(b)], b.deferred);
      assert forall i :: 0 <= i < Target(b) ==> b'.frames[i] == b.frames[i];
    }
  }

  /** Removing a frame that is not deferred leaves every deferral backed. */
  lemma RemoveKeeps(b: Block, off: nat, clock: nat)
    requires BlockInv(b, clock) && off < |b.frames| && Eligible(b.frames[off], b.deferred)
    ensures BlockInv(Taken(b, off), clock)
  {
    var r := Remove(b.frames, off);
    forall s | s in b.deferred ensures Backed(r, s) {
      var i :| 0 <= i < |b.frames| && StreamOf(b.frames[i]) == s;
      assert i != off;
      assert StreamOf(r[if i < off then i else i - 1]) == s;
    }
  }

  lemma DeferKeeps(b: Block, off: nat, clock: nat)
    requires BlockInv(b, clock) && off < |b.frames|
    requires OnWire(b.frames[off].src) && b.frames[off].rejects < DEFER_RETRIES
    ensures BlockInv(Deferring(b, off, clock), clock)
  {
    var f := b.frames[off];
    var frames' := b.frames[off := f.(rejects := f.rejects + 1)];
    forall s | s in b.deferred || s == StreamOf(f) ensures Backed(frames', s) {
      var i :| 0 <= i < |b.frames| && StreamOf(b.frames[i]) == s;
      assert StreamOf(frames'[i]) == s;
    }
  }

  lemma TickKeeps(b: Block, clock: nat, later: nat)
    requires BlockInv(b, clock) && clock <= later
    ensures BlockInv(TickBlock(b, later), later)
  {
    var b' := TickBlock(b, later);
    forall s | s in b'.deferred ensures Backed(b'.frames, s) {
      assert s in b.deferred;
    }
    if !b.open {
      assert b'.deferred == map[];
    }
  }

  // ---- drain measure ------------------------------------------------------

  /** How many more rejections the queue can absorb before it must be empty. */
  function Patience(frames: seq<Frame>): int {
    if frames == [] then 0
    else DEFER_RETRIES + 1 - frames[0].rejects + Patience(frames[1..])
  }

  lemma {:induction false} RemoveDrains(frames: seq<Frame>, off: nat)
    requires off < |frames|
    ensures Patience(Remove(frames, off)) == Patience(frames) - (DEFER_RETRIES + 1 - frames[off].rejects)
  {
    if off == 0 {
      assert Remove(frames, 0) == frames[1..];
    } else {
      RemoveDrains(frames[1..], off - 1);
      assert Remove(frames, off)[1..] == Remove(frames[1..], off - 1);
    }
  }

  lemma {:induction false} RejectDrains(frames: seq<Frame>, off: nat)
    requires off < |frames|
    ensures Patience(frames[off := frames[off].(rejects := frames[off].rejects + 1)]) == Patience(frames) - 1
  {
    var frames' := frames[off := frames[off].(rejects := frames[off].rejects + 1)];
    if off == 0 {
      assert frames'[1..] == frames[1..];
    } else {
      RejectDrains(frames[1..], off - 1);
      assert frames'[1..] == frames[1..][off - 1 := frames'[off]];
    }
  }

  lemma {:induction false} PatienceBounds(frames: seq<Frame>)
    requires forall i :: 0 <= i < |frames| ==> frames[i].rejects <= DEFER_RETRIES
    ensures |frames| <= Patience(frames) <= |frames| * (DEFER_RETRIES + 1)
  {
    if frames != [] {
      PatienceBounds(frames[1..]);
    }
  }
}
