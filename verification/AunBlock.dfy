/** A receive block as the engine stores it (src/AUN/aun.c, aun_rx_block_t): a
    circular queue of eight frames and a defer table of eight slots, proved to
    behave as the sequence and the map of module AunRx. */
module AunBlock {
  import opened Bytes
  import opened AunTypes
  import opened AunRx
  import opened AunQueue
  import opened AunRxInv
  import opened AunTables
  import opened Circular

  /** Deferring a stream: the table has room, so this is a plain map update. */
  lemma DeferFacts(b: Block, t: seq<Slot>, off: nat, clock: nat)
    requires BlockInv(b, clock) && b.deferred == Running(t, clock) && |t| == DEFER_SLOTS && DistinctStreams(t)
    requires off < |b.frames| && OnWire(b.frames[off].src) && b.frames[off].rejects < DEFER_RETRIES
    ensures var t' := SetSlot(t, StreamOf(b.frames[off]), clock, clock + DEFER_DELAY_MS);
            Running(t', clock) == Deferring(b, off, clock).deferred && DistinctStreams(t')
    ensures BlockInv(Deferring(b, off, clock), clock)
  {
    NeverSteals(b, t, StreamOf(b.frames[off]), clock);
    DeferKeeps(b, off, clock);
    hide BlockInv, Running, DistinctStreams;
    SetSlotUpdates(t, StreamOf(b.frames[off]), clock, clock + DEFER_DELAY_MS);
  }

  lemma PresentFacts(b: Block, clock: nat)
    requires BlockInv(b, clock)
    ensures BlockInv(Present(b), clock) && |b.frames| <= RX_QUEUE
    ensures b.presented ==> b.presOff < |b.frames|
    ensures HasTarget(b) ==> |b.frames[Target(b)].data| <= |b.buf|
  {
    PresentKeeps(b, clock);
    assert HasTarget(b) ==> FrameOk(b.frames[Target(b)], b);
  }

  lemma AllFree(t: seq<Slot>, clock: nat)
    requires forall i :: 0 <= i < |t| ==> t[i] == NO_SLOT
    ensures Running(t, clock) == map[] && DistinctStreams(t)
  {
    RunningIsListed(t, clock);
  }

  /** Frees every slot of a table. */
  method FreeAll(t: array<Slot>, ghost clock: nat)
    modifies t
    ensures Running(t[..], clock) == map[] && DistinctStreams(t[..])
  {
    hide Running, DistinctStreams;
    forall i | 0 <= i < t.Length {
      t[i] := NO_SLOT;
    }
    AllFree(t[..], clock);
  }

  lemma FreshFacts(port: byte, stn: bv8, net: bv8, buf: seq<byte>, clock: nat)
    ensures BlockInv(CLOSED, clock) && BlockInv(OpenBlock(port, stn, net, buf), clock)
  {
  }

  lemma RingAt(q: seq<Frame>, head: nat, count: nat, i: nat)
    requires |q| == RX_QUEUE && head < RX_QUEUE && i < count <= RX_QUEUE
    ensures q[Cell(RX_QUEUE, head, i)] == Ring(q, head, count)[i]
  {
  }

  /** `s` is `was` with the frames between `off` and `j` moved down by one. */
  ghost predicate Shifted(s: seq<Frame>, was: seq<Frame>, off: nat, j: nat) {
    && |s| == |was| && off <= j < |was|
    && s[..j] == Remove(was, off)[..j] && s[j + 1..] == was[j + 1..]
  }

  lemma ShiftStep(s: seq<Frame>, was: seq<Frame>, off: nat, j: nat)
    requires Shifted(s, was, off, j) && j + 1 < |was|
    ensures Shifted(s[j := s[j + 1]], was, off, j + 1)
  {
    var s' := s[j := s[j + 1]];
    assert s[j + 1] == s[j + 1..][0] == was[j + 1] == Remove(was, off)[j];
    assert s'[..j + 1] == s[..j] + [s[j + 1]];
    assert Remove(was, off)[..j + 1] == Remove(was, off)[..j] + [Remove(was, off)[j]];
    assert s'[j + 2..] == s[j + 1..][1..] && was[j + 2..] == was[j + 1..][1..];
  }

  class RxBlock {
    var open: bool
    var presented: bool
    var presOff: nat
    var port: byte
    var stn: bv8
    var net: bv8
    var buf: array?<byte>
    var head: nat
    var count: nat
    const q: array<Frame>
    const defer: array<Slot>
    ghost var now: nat                  // the clock `view` is taken at
    ghost var view: Block               // the block as module AunRx sees it

    ghost predicate Shape()
      reads this
    {
      q.Length == RX_QUEUE && defer.Length == DEFER_SLOTS && head < RX_QUEUE && count <= RX_QUEUE
    }

    ghost function Frames(): seq<Frame>
      reads this, q
      requires Shape()
    {
      Ring(q[..], head, count)
    }

    ghost function Buffer(): seq<byte>
      reads this, buf
    {
      if buf == null then [] else buf[..]
    }

    /** The block as module AunRx sees it. */
    ghost function Abs(): Block
      reads this, q, defer, buf
      requires Shape()
    {
      Block(open, presented, presOff, port, stn, net, Buffer(), Frames(), Running(defer[..], now))
    }

    ghost predicate Valid()
      reads this, q, defer, buf
    {
      Shape() && DistinctStreams(defer[..]) && view == Abs() && BlockInv(view, now)
    }

    constructor (ghost clock: nat)
      ensures Valid() && fresh(q) && fresh(defer) && buf == null && view == CLOSED && now == clock
    {
      open, presented, presOff, port, stn, net, buf, head, count := false, false, 0, 0, 0, 0, null, 0, 0;
      q := new Frame[RX_QUEUE](_ => Frame(LOCAL, 0, 0, 0, 0, 0, 0, []));
      defer := new Slot[DEFER_SLOTS](_ => NO_SLOT);
      now, view := clock, CLOSED;
      new;
      hide BlockInv, Running, DistinctStreams;
      AllFree(defer[..], now);
      FreshFacts(0, 0, 0, [], now);
    }

    /** The size of the host's buffer. */
    function BufSize(): nat
      reads this
    {
      if buf == null then 0 else buf.Length
    }

    /** How `view` sits on the stored fields. */
    lemma Fields()
      requires Valid()
      ensures view.open == open && view.port == port && view.stn == stn && view.net == net
      ensures |view.frames| == count && |view.buf| == BufSize()
    {
      hide BlockInv, Running, DistinctStreams;
    }

    /** Zeroes the block. */
    method Wipe()
      requires Valid()
      modifies this, defer
      ensures Valid() && now == old(now) && buf == null && view == CLOSED
    {
      hide BlockInv, Running, DistinctStreams, Ring;
      FreeAll(defer, now);
      open, presented, presOff, head, count := false, false, 0, 0, 0;
      port, stn, net, buf := 0, 0, 0, null;
      FreshFacts(0, 0, 0, [], now);
      assert Frames() == [];
      view := Abs();
    }

    /** Opens a wiped block with the host's buffer. */
    method Open(p: byte, s: bv8, n: bv8, b: array<byte>)
      requires Valid() && view == CLOSED
      modifies this`open, this`port, this`stn, this`net, this`buf, this`view
      ensures Valid() && buf == b && view == OpenBlock(p, s, n, b[..])
    {
      hide BlockInv, Running, DistinctStreams;
      FreshFacts(p, s, n, b[..], now);
      open, port, stn, net, buf := true, p, s, n, b;
      view := Abs();
    }

    /** Time passes for the deferrals. */
    ghost method Advance(clock: nat)
      requires Valid() && now <= clock
      modifies this`now, this`view
      ensures Valid() && now == clock && view == TickBlock(old(view), clock)
    {
      RunningLater(defer[..], now, clock);
      TickKeeps(view, now, clock);
      hide BlockInv, Running, DistinctStreams;
      now := clock;
      view := Abs();
    }

    method FrameAt(off: nat) returns (f: Frame)
      requires Valid() && off < |view.frames|
      ensures f == view.frames[off]
    {
      hide BlockInv, Running, DistinctStreams;
      f := q[Cell(RX_QUEUE, head, off)];
    }

    /** Is the stream of the `i`-th queued frame free to be presented? */
    method IsEligible(i: nat, clock: nat) returns (r: bool)
      requires Valid() && clock == now && i < count
      modifies defer
      ensures Valid()
      ensures r == Eligible(view.frames[i], view.deferred)
    {
      hide BlockInv, Running, DistinctStreams;
      var f := q[Cell(RX_QUEUE, head, i)];
      if f.src.ip == NO_IP {
        return true;
      }
      ghost var t := defer[..];
      var k := Lookup(defer, StreamOf(f), clock);
      ExpireInvisible(t, StreamOf(f), clock);
      RunningIsListed(t, clock);
      r := k < 0;
    }

    /** Offset of the oldest frame whose stream is not deferred, or -1. */
    method FindEligible(clock: nat) returns (off: int)
      requires Valid() && clock == now
      modifies defer
      ensures Valid()
      ensures off == FirstEligible(view.frames, view.deferred)
    {
      hide BlockInv, Running, Eligible, DistinctStreams;
      var i := 0;
      while i < count
        invariant 0 <= i <= count && Valid()
        invariant FirstEligible(view.frames, view.deferred, i) == FirstEligible(view.frames, view.deferred)
      {
        var r := IsEligible(i, clock);
        if r {
          return i;
        }
        i := i + 1;
      }
      return -1;
    }

    /** How many queued frames could be presented now. */
    method CountReady(clock: nat) returns (n: nat)
      requires Valid() && clock == now
      modifies defer
      ensures Valid()
      ensures n == Ready(view.frames, view.deferred)
    {
      hide BlockInv, Running, Eligible, DistinctStreams;
      n := 0;
      var i := 0;
      while i < count
        invariant 0 <= i <= count && Valid()
        invariant n == Ready(view.frames[..i], view.deferred)
      {
        var r := IsEligible(i, clock);
        assert view.frames[..i + 1][..i] == view.frames[..i];
        if r {
          n := n + 1;
        }
        i := i + 1;
      }
      assert view.frames[..count] == view.frames;
    }

    /** Moves the frame after `j` into its place. */
    method ShiftDown(j: nat)
      requires Shape() && j + 1 < count
      modifies q
      ensures Frames() == old(Frames())[j := old(Frames())[j + 1]]
    {
      hide Ring;
      assert q[Cell(RX_QUEUE, head, j + 1)] == Frames()[j + 1] by {
        RingAt(q[..], head, count, j + 1);
      }
      Updated(q[..], head, count, j, q[Cell(RX_QUEUE, head, j + 1)]);
      q[Cell(RX_QUEUE, head, j)] := q[Cell(RX_QUEUE, head, j + 1)];
    }

    /** Removes the frame at `off`, closing the gap. */
    method RemoveAt(off: nat)
      requires Shape() && off < count
      modifies this`head, this`count, q
      ensures Shape() && Frames() == Remove(old(Frames()), off)
    {
      hide Ring;
      ghost var was := Frames();
      if off == 0 {
        Popped(q[..], head, count);
        head := Cell(RX_QUEUE, head, 1);
        assert was[1..] == Remove(was, 0);
      } else {
        var j := off;
        while j + 1 < count
          invariant off <= j < count && Shape() && head == old(head) && count == old(count)
          invariant Shifted(Frames(), was, off, j)
        {
          ShiftStep(Frames(), was, off, j);
          ShiftDown(j);
          j := j + 1;
        }
        Shrunk(q[..], head, count);
        assert Frames()[..count - 1] == Remove(was, off);
      }
      count := count - 1;
    }

    /** The frame at `off` leaves the queue for good. */
    method Take(off: nat)
      requires Valid() && off < count && Eligible(view.frames[off], view.deferred)
      modifies this`head, this`count, this`presented, this`view, q
      ensures Valid() && view == Taken(old(view), off)
    {
      hide BlockInv, Running, DistinctStreams, Eligible;
      RemoveKeeps(view, off, now);
      RemoveAt(off);
      presented := false;
      view := Abs();
    }

    /** Appends a frame; the caller has checked that it fits. */
    method Enqueue(f: Frame)
      requires Valid() && open && count < RX_QUEUE && FrameOk(f, view)
      modifies this`count, this`view, q
      ensures Valid() && view == old(view).(frames := old(view.frames) + [f])
    {
      hide BlockInv, Running, DistinctStreams, FrameOk;
      AppendKeeps(view, f, now);
      Pushed(q[..], head, count, f);
      q[Cell(RX_QUEUE, head, count)] := f;
      count := count + 1;
      view := Abs();
    }

    /** Counts a rejection of the frame at `off` and defers its stream: the table
        has room for it, so the deferral is a plain map update. */
    method Defer(off: nat, clock: nat)
      requires Valid() && clock == now && off < count
      requires OnWire(view.frames[off].src) && view.frames[off].rejects < DEFER_RETRIES
      modifies this`presented, this`view, q, defer
      ensures Valid() && view == Deferring(old(view), off, clock)
    {
      hide BlockInv, Running, SetSlot, DistinctStreams;
      var f := q[Cell(RX_QUEUE, head, off)];
      DeferFacts(view, defer[..], off, clock);
      Updated(q[..], head, count, off, f.(rejects := f.rejects + 1));
      q[Cell(RX_QUEUE, head, off)] := f.(rejects := f.rejects + 1);
      Store(defer, StreamOf(f), clock, clock + DEFER_DELAY_MS);
      presented := false;
      view := Abs();
    }

    /** Drops the presentation, if any. */
    method Unpresent()
      requires Valid()
      modifies this`presented, this`view
      ensures Valid() && view == old(view).(presented := false)
    {
      hide Running, DistinctStreams;
      presented := false;
      view := Abs();
    }

    /** The frame a collect acts on, or -1. */
    method FindTarget(clock: nat) returns (off: int)
      requires Valid() && clock == now
      modifies defer
      ensures Valid()
      ensures off == if HasTarget(view) then Target(view) else -1
    {
      hide BlockInv, Running, DistinctStreams, FirstEligible;
      PresentFacts(view, clock);
      if count == 0 {
        return -1;
      }
      if presented {
        return presOff;
      }
      off := FindEligible(clock);
    }

    /** Copies the frame to present into the host's buffer, once. */
    method PresentFrame(clock: nat) returns (off: int)
      requires Valid() && clock == now
      modifies this`presented, this`presOff, this`view, defer, buf
      ensures Valid() && view == Present(old(view)) && view.frames == old(view.frames)
      ensures off == if HasTarget(old(view)) then Target(old(view)) else -1
    {
      hide BlockInv, Running, FirstEligible, DistinctStreams, Eligible;
      PresentFacts(view, clock);
      ghost var b := view;
      off := FindTarget(clock);
      if off >= 0 && !presented {
        var data := q[Cell(RX_QUEUE, head, off)].data;
        ghost var t := defer[..];
        if |data| > 0 {
          forall i | 0 <= i < |data| {
            buf[i] := data[i];
          }
        }
        assert Buffer() == data + b.buf[|data|..];
        assert defer[..] == t;
        presented, presOff := true, off;
        view := Abs();
      }
    }
  }
}
