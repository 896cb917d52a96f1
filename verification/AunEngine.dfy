/** The AUN engine as it is stored and updated (src/AUN/aun.c, aun_engine_t), each
    call proved to do what module AunSpec says. */
module AunEngine {
  import opened Bytes
  import opened AunTypes
  import opened AunRx
  import opened AunTx
  import opened AunImm
  import opened AunQueue
  import opened AunRxInv
  import opened AunTables
  import opened AunBlock
  import opened Circular
  import Spec = AunSpec

  class AunEngine {
    var clock: nat                      // what the injected clock reads
    var initialised: bool
    var nextSeq: u32
    var stations: seq<Station>
    var routes: Addressing
    const rx0: RxBlock
    const rx1: RxBlock
    const condemned: array<Slot>
    var tx: Tx
    var txOk: u32
    var txFail: u32
    var machineId: seq<byte>
    var hostImm: bool
    var himm: HostImm
    var cache: Cache
    var test: Responder

    // history
    ghost var txns: nat
    ghost var base: nat
    ghost var seqs: nat
    ghost var alloc: nat
    ghost var holds: nat
    ghost var polled: nat
    ghost var log: seq<Item>

    // ---- the abstract engine ----------------------------------------------

    function RxAt(h: nat): RxBlock {
      if h == 0 then rx0 else rx1
    }

    function Other(h: nat): RxBlock {
      if h == 0 then rx1 else rx0
    }

    ghost predicate Apart()
      reads this`clock, rx0, rx1
    {
      && rx0 != rx1 && rx0.q != rx1.q && rx0.defer != rx1.defer
      && condemned != rx0.defer && condemned != rx1.defer && condemned.Length == CONDEMN_SLOTS
      && (rx0.buf != null ==> rx0.buf != rx1.buf)
      && rx0.now == clock && rx1.now == clock
    }

    ghost function AbsRx(): Rx
      reads this`stations, this`routes, rx0`view, rx1`view, condemned
    {
      Rx(stations, routes, [rx0.view, rx1.view], condemned[..])
    }

    ghost function AbsTx(): TxSide
      reads this`tx, this`nextSeq, this`txOk, this`txFail, this`txns, this`base, this`seqs, this`alloc
    {
      TxSide(tx, nextSeq, txOk, txFail, txns, base, seqs, alloc)
    }

    ghost function AbsImm(): ImmSide
      reads this`hostImm, this`himm, this`cache, this`holds, this`polled
    {
      ImmSide(hostImm, himm, cache, holds, polled)
    }

    ghost function Abs(): Spec.Engine
      reads this, rx0, rx1, condemned
    {
      Spec.Engine(clock, initialised, AbsRx(), AbsTx(), AbsImm(), machineId, test, log)
    }

    ghost predicate Valid()
      reads this`clock, this`stations, this`routes, condemned
      reads rx0, rx0.q, rx0.defer, rx0.buf, rx1, rx1.q, rx1.defer, rx1.buf
    {
      Apart() && rx0.Valid() && rx1.Valid() && RxInv(AbsRx(), clock)
    }

    /** Power-up: all memory zero, so that `Abs()` is the specification's BOOT. */
    constructor ()
      ensures Valid() && AbsRx() == Spec.BOOT.rx && AbsTx() == Spec.BOOT.tx && AbsImm() == Spec.BOOT.imm
      ensures clock == 0 && !initialised && machineId == Spec.BOOT.machineId && test == Spec.BOOT.test && log == []
      ensures fresh(rx0) && fresh(rx0.q) && fresh(rx0.defer) && fresh(rx1) && fresh(rx1.q) && fresh(rx1.defer)
      ensures fresh(condemned)
    {
      clock, initialised, machineId, test, log := 0, false, Spec.NO_ID, Responder(false, 0, 0), [];
      stations, routes := [], NO_ROUTES.(learnNet := 0);
      tx, nextSeq, txOk, txFail, txns, base, seqs, alloc := IDLE_TX, 0, 0, 0, 0, 0, 0, 0;
      hostImm, himm, cache, holds, polled := false, NO_IMM, NO_CACHE, 0, 0;
      rx0 := new RxBlock(0);
      rx1 := new RxBlock(0);
      condemned := new Slot[CONDEMN_SLOTS](_ => NO_SLOT);
      new;
      hide RxInv, BlockInv, Running, DistinctStreams, Ring, RxBlock.Valid;
      EmptyRxOk(0);
      assert condemned[..] == EMPTY_RX.condemned;
    }

    /** The receive side starts over. */
    method ResetRx()
      requires Valid()
      modifies this`stations, this`routes, rx0, rx0.defer, rx1, rx1.defer, condemned
      ensures Valid() && AbsRx() == EMPTY_RX
    {
      hide RxInv, BlockInv, Running, DistinctStreams, Ring;
      stations, routes := [], NO_ROUTES;
      rx0.Wipe();
      rx1.Wipe();
      forall i | 0 <= i < condemned.Length {
        condemned[i] := NO_SLOT;
      }
      assert condemned[..] == EMPTY_RX.condemned;
      EmptyRxOk(clock);
    }

    method ResetTx()
      modifies this`tx, this`nextSeq, this`txOk, this`txFail, this`base, this`seqs, this`alloc
      ensures AbsTx() == EMPTY_TX.(nextSeq := 4, txns := old(AbsTx()).txns, base := old(AbsTx()).txns)
    {
      tx, nextSeq, txOk, txFail := IDLE_TX, 4, 0, 0;
      base, seqs, alloc := txns, 0, 0;
    }

    method ResetImm()
      modifies this`hostImm, this`himm, this`cache, this`polled
      ensures AbsImm() == EMPTY_IMM.(holds := old(AbsImm()).holds, polled := old(AbsImm()).holds)
    {
      hostImm, himm, cache, polled := false, NO_IMM, NO_CACHE, holds;
    }

    /** All but the receive side starts over. */
    method ResetRest()
      modifies this`initialised, this`nextSeq, this`tx, this`txOk, this`txFail, this`machineId, this`hostImm, this`himm
      modifies this`cache, this`test, this`base, this`seqs, this`alloc, this`polled, this`log
      ensures AbsTx() == EMPTY_TX.(nextSeq := 4, txns := old(AbsTx()).txns, base := old(AbsTx()).txns)
      ensures AbsImm() == EMPTY_IMM.(holds := old(AbsImm()).holds, polled := old(AbsImm()).holds)
      ensures initialised && machineId == Spec.BBC_B && test == Responder(false, 0, 0) && log == old(log) + [Reset]
    {
      hide AbsTx, AbsImm;
      ResetTx();
      ResetImm();
      initialised, machineId, test, log := true, Spec.BBC_B, Responder(false, 0, 0), log + [Reset];
    }

    /** Everything but the clock and the history starts over. */
    method Init()
      requires Valid()
      modifies this`initialised, this`nextSeq, this`tx, this`txOk, this`txFail, this`machineId, this`hostImm, this`himm
      modifies this`cache, this`test, this`base, this`seqs, this`alloc, this`polled, this`log
      modifies this`stations, this`routes, rx0, rx0.defer, rx1, rx1.defer, condemned
      ensures Valid() && Abs() == Spec.Init(old(Abs()))
    {
      hide Valid, AbsRx, AbsTx, AbsImm, Spec.Init;
      ResetRx();
      ResetRest();
      InitParts(old(Abs()), Abs());
    }

    /** Turning host immediates on or off drops what was held and remembered. */
    method SetHostImm(enable: bool)
      requires Valid()
      modifies this`hostImm, this`himm, this`cache, this`log
      ensures Valid() && AbsImm() == Configure(old(AbsImm()), enable) && log == old(log) + [Reset]
    {
      hide Valid;
      hostImm, himm, cache := enable, himm.(active := false), cache.(valid := false);
      log := log + [Reset];
    }

    // ---- searches ---------------------------------------------------------

    method FindPeerIndex(p: Peer) returns (r: int)
      ensures r == FindPeer(stations, p)
    {
      var i := 0;
      while i < |stations|
        invariant 0 <= i <= |stations|
        invariant FindPeer(stations, p, i) == FindPeer(stations, p)
      {
        if stations[i].peer == p {
          return i;
        }
        i := i + 1;
      }
      return -1;
    }

    method FindAddrIndex(n: bv8, s: bv8) returns (r: int)
      ensures r == FindAddr(stations, n, s)
    {
      var i := 0;
      while i < |stations|
        invariant 0 <= i <= |stations|
        invariant FindAddr(stations, n, s, i) == FindAddr(stations, n, s)
      {
        if stations[i].net == n && stations[i].stn == s {
          return i;
        }
        i := i + 1;
      }
      return -1;
    }

    /** Does a block hold a frame with this source and sequence number? */
    method BlockPending(b: RxBlock, src: Peer, seqNo: u32) returns (r: bool)
      requires b.Valid()
      ensures r <==> exists i :: 0 <= i < |b.view.frames| && b.view.frames[i].src == src &&
                                 b.view.frames[i].seqNo == seqNo
    {
      hide BlockInv, Running, DistinctStreams;
      for i := 0 to b.count
        invariant forall k :: 0 <= k < i ==> !(b.view.frames[k].src == src && b.view.frames[k].seqNo == seqNo)
      {
        var f := b.q[Cell(RX_QUEUE, b.head, i)];
        assert f == b.view.frames[i];
        if f.src == src && f.seqNo == seqNo {
          return true;
        }
      }
      return false;
    }

    /** Is a frame with this source and sequence number awaiting collect? */
    method SeqPending(src: Peer, seqNo: u32) returns (r: bool)
      requires Valid()
      ensures r == Queueing(AbsRx().blocks, src, seqNo)
    {
      hide RxInv;
      r := BlockPending(rx0, src, seqNo);
      if !r {
        r := BlockPending(rx1, src, seqNo);
      }
      ghost var blocks := AbsRx().blocks;
      assert blocks[0] == rx0.view && blocks[1] == rx1.view;
    }

    // ---- receive blocks ---------------------------------------------------

    /** Presents a frame of an open block; `off` is its place, or -1. */
    method PresentAt(h: byte) returns (off: int, info: Option<Info>)
      requires Valid() && h < RX_BLOCKS
      modifies RxAt(h), RxAt(h).defer, RxAt(h).buf
      ensures Valid() && AbsRx() == SetBlock(old(AbsRx()), h, Present(old(AbsRx()).blocks[h]))
      ensures var b := old(AbsRx()).blocks[h];
              if HasTarget(b) then off == Target(b) && info == Some(InfoOf(b.frames[off]))
              else off == -1 && info == None
    {
      hide BlockInv, RxInv, Running, DistinctStreams, Present, Target, Ring;
      var b := RxAt(h);
      ghost var r := AbsRx();
      PresentKeepsRx(r, h, clock);
      off := b.PresentFrame(clock);
      assert AbsRx().blocks == r.blocks[h := Present(r.blocks[h])];
      info := None;
      if off >= 0 {
        var f := b.FrameAt(off);
        info := Some(InfoOf(f));
      }
    }

    method RxPoll(h: byte) returns (status: byte, info: Option<Info>)
      requires Valid()
      modifies RxAt(h), RxAt(h).defer, RxAt(h).buf
      ensures Valid() && (Abs(), status, info) == Spec.RxPoll(old(Abs()), h)
    {
      OpenSeen(h);
      hide Valid, AbsRx, Present, Target;
      if h >= RX_BLOCKS || !RxAt(h).open {
        return ERR_NO_BLOCK, None;
      }
      ghost var r := AbsRx();
      var off;
      off, info := PresentAt(h);
      if off < 0 {
        PresentNothing(r.blocks[h]);
        assert r.blocks[h := r.blocks[h]] == r.blocks;
        return PENDING, None;
      }
      status := AUN_OK;
    }

    /** A block's flag is what the specification sees. */
    lemma OpenSeen(h: byte)
      requires Valid()
      ensures IsOpen(AbsRx(), h) <==> h < RX_BLOCKS && RxAt(h).open
      ensures |AbsRx().blocks| == RX_BLOCKS
    {
      hide BlockInv, RxInv, Running, DistinctStreams, Ring;
    }

    method RxReady(h: byte) returns (n: nat)
      requires Valid()
      modifies RxAt(h).defer
      ensures Valid() && Abs() == old(Abs()) && n == Spec.RxReady(Abs(), h)
    {
      hide RxInv;
      if h >= RX_BLOCKS || !RxAt(h).open {
        return 0;
      }
      n := RxAt(h).CountReady(clock);
    }

    /** Stamps the duplicate filter's record for a confirmed frame. */
    method StampStation(p: Peer, seqNo: u32)
      modifies this`stations
      ensures stations == Stamp(old(stations), p, seqNo)
    {
      var i := FindPeerIndex(p);
      if i >= 0 {
        stations := stations[i := stations[i].(last := seqNo, valid := true)];
      }
    }

    /** Lifts a condemnation, if there is one. */
    method LiftStream(s: Stream)
      modifies condemned
      ensures condemned[..] == Lift(old(condemned[..]), s)
    {
      var c := Lookup(condemned, s, clock);
      if c >= 0 {
        condemned[c] := condemned[c].(valid := false);
      }
    }

    /** The ACK of a released frame, and the duplicate filter's record of it. */
    method Confirm(f: Frame, ok: bool, ghost release: Item)
      modifies this`stations, this`log
      ensures stations == Stamp(old(stations), f.src, f.seqNo) && log == old(log) + [release, AckFor(f, ok)]
    {
      log := log + [release, AckFor(f, ok)];
      StampStation(f.src, f.seqNo);
    }

    /** The host took the frame at `off` of block `b`. */
    method AcceptFrom(b: RxBlock, off: nat, ok: bool)
      requires b.Valid() && condemned != b.defer && off < |b.view.frames|
      requires Eligible(b.view.frames[off], b.view.deferred)
      modifies this`stations, this`log, b`head, b`count, b`presented, b`view, b.q, condemned
      ensures b.Valid() && b.view == Taken(old(b.view), off)
      ensures var f := old(b.view.frames[off]);
              if OnWire(f.src)
              then stations == Stamp(old(stations), f.src, f.seqNo) &&
                   condemned[..] == Lift(old(condemned[..]), StreamOf(f)) &&
                   log == old(log) + [Accepted(f), AckFor(f, ok)]
              else stations == old(stations) && condemned[..] == old(condemned[..]) && log == old(log) + [Accepted(f)]
    {
      hide BlockInv, Running, DistinctStreams, Lift, Stamp, Eligible, Taken;
      var f := b.FrameAt(off);
      if f.src.ip != NO_IP {
        Confirm(f, ok, Accepted(f));
        LiftStream(StreamOf(f));
      } else {
        log := log + [Accepted(f)];
      }
      b.Take(off);
    }

    /** The host found no listener for the frame at `off` of block `b`. */
    method RejectFrom(b: RxBlock, off: nat, ok: bool)
      requires b.Valid() && b.now == clock && condemned != b.defer && off < |b.view.frames| && condemned.Length > 0
      requires Eligible(b.view.frames[off], b.view.deferred) && b.view.frames[off].rejects <= DEFER_RETRIES
      modifies this`stations, this`log, b`head, b`count, b`presented, b`view, b.q, b.defer, condemned
      ensures b.Valid()
      ensures var f, t, b0 := old(b.view.frames[off]), old(condemned[..]), old(b.view);
              if !OnWire(f.src)
              then b.view == Taken(b0, off) && stations == old(stations) && condemned[..] == t && log == old(log)
              else if f.rejects >= (if Listed(t, StreamOf(f), clock) then CONDEMN_RETRIES else DEFER_RETRIES)
                then b.view == Taken(b0, off) && stations == Stamp(old(stations), f.src, f.seqNo) &&
                     condemned[..] == SetSlot(Expire(t, StreamOf(f), clock), StreamOf(f), clock,
                                              clock + CONDEMN_TTL_MS) &&
                     log == old(log) + [Shed(f), AckFor(f, ok)]
                else b.view == Deferring(b0, off, clock) && stations == old(stations) &&
                     condemned[..] == Expire(t, StreamOf(f), clock) && log == old(log)
    {
      hide BlockInv, Running, DistinctStreams, SetSlot, Expire, Stamp, Eligible, Taken, Deferring;
      var f := b.FrameAt(off);
      if f.src.ip == NO_IP {
        b.Take(off);
        return;
      }
      var c := Lookup(condemned, StreamOf(f), clock);
      if f.rejects >= (if c >= 0 then CONDEMN_RETRIES else DEFER_RETRIES) {
        Confirm(f, ok, Shed(f));
        Store(condemned, StreamOf(f), clock, clock + CONDEMN_TTL_MS);
        b.Take(off);
      } else {
        b.Defer(off, clock);
      }
    }

    /** The host releases the presented frame of block `b`, accepted or turned down. */
    method CollectFrom(b: RxBlock, h: byte, accept: bool, ok: bool, ghost blocks: seq<Block>)
      requires b.Valid() && b.now == clock && condemned != b.defer && condemned.Length > 0
      requires h < |blocks| && blocks[h] == b.view && b.view.open
      modifies this`stations, this`log, b`head, b`count, b`presented, b`view, b.q, b.defer, condemned
      ensures b.Valid()
      ensures var o := Collect(Rx(old(stations), routes, blocks, old(condemned[..])), h, accept, clock, ok);
              && Rx(stations, routes, blocks[h := b.view], condemned[..]) == o.st && log == old(log) + o.items
    {
      hide Running, DistinctStreams, SetSlot, Expire, Lift, Stamp, Eligible, Taken, Deferring, Target, BlockInv;
      TargetFacts(b.view, clock);
      assert log + [] == log;
      var off := b.FindTarget(clock);
      if off < 0 {
        b.Unpresent();
      } else if accept {
        AcceptFrom(b, off, ok);
      } else {
        RejectFrom(b, off, ok);
      }
    }

    method RxCollect(h: byte, accept: bool, ok: bool) returns (status: byte)
      requires Valid()
      modifies this`stations, this`log, RxAt(h), RxAt(h).q, RxAt(h).defer, condemned
      ensures Valid() && (Abs(), status) == Spec.RxCollect(old(Abs()), h, accept, ok)
    {
      hide BlockInv, RxInv, Running, DistinctStreams, Ring, Collect;
      ghost var r := AbsRx();
      if h >= RX_BLOCKS || !RxAt(h).open {
        CollectNothing(r, h, accept, clock, ok);
        assert log + [] == log;
        return ERR_NO_BLOCK;
      }
      CollectKeeps(r, h, accept, clock, ok);
      CollectFrom(RxAt(h), h, accept, ok, r.blocks);
      assert AbsRx().blocks == r.blocks[h := RxAt(h).view];
      status := AUN_OK;
    }

    /** Opening a block starts it over: queued frames and deferrals are dropped. */
    method RxOpen(h: byte, port: byte, stn: bv8, net: bv8, buf: array?<byte>) returns (status: byte)
      requires Valid() && (buf != null ==> buf != Other(h).buf)
      modifies RxAt(h), RxAt(h).defer
      ensures Valid()
      ensures (Abs(), status) ==
              Spec.RxOpen(old(Abs()), h, port, stn, net, if buf == null then [] else buf[..])
    {
      hide BlockInv, RxInv, Running, DistinctStreams;
      if !initialised {
        return ERR_NOT_READY;
      }
      if h >= RX_BLOCKS || buf == null || buf.Length == 0 {
        return ERR_PARAM;
      }
      ghost var r := AbsRx();
      FreshFacts(port, stn, net, buf[..], clock);
      FreshBlockKeeps(r, h, OpenBlock(port, stn, net, buf[..]), clock);
      RxAt(h).Wipe();
      RxAt(h).Open(port, stn, net, buf);
      assert AbsRx().blocks == r.blocks[h := RxAt(h).view];
      return AUN_OK;
    }

    method RxClose(h: byte) returns (status: byte)
      requires Valid()
      modifies RxAt(h), RxAt(h).defer
      ensures Valid() && (Abs(), status) == Spec.RxClose(old(Abs()), h)
    {
      hide BlockInv, RxInv, Running, DistinctStreams;
      if h >= RX_BLOCKS || !RxAt(h).open {
        return ERR_NO_BLOCK;
      }
      ghost var r := AbsRx();
      FreshFacts(0, 0, 0, [], clock);
      FreshBlockKeeps(r, h, CLOSED, clock);
      RxAt(h).Wipe();
      assert AbsRx().blocks == r.blocks[h := RxAt(h).view];
      return AUN_OK;
    }

    // ---- arrivals ---------------------------------------------------------

    /** Does a block listen for the frame? */
    function ListensTo(b: RxBlock, f: Frame): bool
      reads b
    {
      b.open && (b.port == 0 || b.port == f.port) && (b.stn == WILDCARD || b.stn == f.stn) &&
      (b.net == WILDCARD || b.net == f.net)
    }

    /** The first listening block with room, or -1; `full` tells of a listener
        that was passed over for want of room. */
    method MatchBlock(f: Frame) returns (r: int, full: bool)
      requires Valid()
      ensures r == Match(AbsRx().blocks, f)
      ensures r < 0 ==> full == exists k :: 0 <= k < RX_BLOCKS && Listens(AbsRx().blocks[k], f)
    {
      hide BlockInv, RxInv, Running, DistinctStreams, Ring;
      ghost var blocks := AbsRx().blocks;
      full := false;
      var i := 0;
      while i < RX_BLOCKS
        invariant 0 <= i <= RX_BLOCKS
        invariant Match(blocks, f, i) == Match(blocks, f)
        invariant full == exists k :: 0 <= k < i && Listens(blocks[k], f)
      {
        var b := RxAt(i);
        b.Fields();
        assert blocks[i] == b.view;
        if ListensTo(b, f) {
          if b.count < RX_QUEUE {
            return i, full;
          }
          full := true;
        }
        i := i + 1;
      }
      return -1, full;
    }

    /** Stages a payload into the first block that can take it. */
    method DeliverFrame(f: Frame) returns (why: Delivery)
      requires Valid() && f.rejects == 0 && (OnWire(f.src) ==> !Queueing(AbsRx().blocks, f.src, f.seqNo))
      modifies rx0`count, rx0`view, rx0.q, rx1`count, rx1`view, rx1.q
      ensures Valid() && why == DeliveryOf(old(AbsRx()).blocks, f)
      ensures AbsRx() == old(AbsRx()).(blocks := Deliver(old(AbsRx()).blocks, f))
    {
      hide BlockInv, RxInv, Running, DistinctStreams, Ring, Match, Queueing;
      ghost var r := AbsRx();
      DeliverKeepsRx(r, f, clock);
      var i, full := MatchBlock(f);
      if i < 0 {
        return if full then Full else Refused;
      }
      var b := RxAt(i);
      assert r.blocks[i] == b.view;
      b.Fields();
      if |f.data| > b.BufSize() || |f.data| > MAX_DATA {
        return Refused;
      }
      b.Enqueue(f);
      assert AbsRx().blocks == r.blocks[i := b.view];
      return Queued;
    }

    method AddStation(n: bv8, s: bv8, peer: Peer) returns (added: bool)
      modifies this`stations
      ensures (stations, added) == MapAdd(old(stations), n, s, peer)
    {
      var p := if peer.udp == 0 then peer.(udp := DEFAULT_UDP_PORT) else peer;
      var i := FindAddrIndex(n, s);
      if i < 0 {
        if |stations| >= MAP_MAX {
          return false;
        }
        stations := stations + [Station(n, s, p, 0, false)];
      } else {
        stations := stations[i := stations[i].(peer := p, valid := false)];
      }
      return true;
    }

    /** The map entry of a source, added first when learn mode can attribute it. */
    method Attribute(src: Peer) returns (i: int)
      modifies this`stations
      ensures stations == Learn(old(AbsRx()), src) && i == FindPeer(stations, src)
    {
      hide MapAdd;
      i := FindPeerIndex(src);
      if i < 0 && Learnable(routes, src) {
        var _ := AddStation(routes.learnNet, src.ip.d, src);
        i := FindPeerIndex(src);
      }
    }

    /** An ordinary DATA datagram. */
    method InputData(src: Peer, d: Datagram, ok: bool)
      requires Valid()
      modifies this`stations, this`log, rx0`count, rx0`view, rx0.q, rx1`count, rx1`view, rx1.q
      ensures Valid()
      ensures var o := ReceiveData(old(AbsRx()), src, d, ok); AbsRx() == o.st && log == old(log) + o.items
    {
      hide BlockInv, RxInv, Running, DistinctStreams, Ring, Queueing, Learn, DeliveryOf, Deliver;
      ghost var r := AbsRx();
      assert log + [] == log;
      DataKeeps(r, src, d, clock, ok);
      LearnKeeps(r, src, clock);
      var i := Attribute(src);
      if i < 0 {
        return;
      }
      var queued := SeqPending(src, d.seqNo);
      if queued {
        return;
      }
      if stations[i].valid && d.seqNo == stations[i].last {
        log := log + Answered(src, Verdict(TYPE_ACK, d.port, d.ctrl, d.seqNo), ok);
        return;
      }
      var why := DeliverFrame(NewFrame(src, d.seqNo, stations[i].stn, stations[i].net, d));
      if why == Refused {
        log := log + Answered(src, Verdict(TYPE_NAK, d.port, d.ctrl, d.seqNo), ok);
      }
    }

    method InputBroadcast(src: Peer, d: Datagram)
      requires Valid()
      modifies rx0`count, rx0`view, rx0.q, rx1`count, rx1`view, rx1.q
      ensures Valid() && AbsRx() == ReceiveBroadcast(old(AbsRx()), src, d)
    {
      hide BlockInv, RxInv, Running, DistinctStreams, Ring, Queueing, DeliveryOf, Deliver;
      var i := FindPeerIndex(src);
      var s, n := if i < 0 then 0 else stations[i].stn, if i < 0 then 0 else stations[i].net;
      var _ := DeliverFrame(NewFrame(LOCAL, 0, s, n, d));
    }

    // ---- transmitter --------------------------------------------------------

    method FinishTx(state: byte)
      modifies this`tx, this`txOk, this`txFail
      ensures AbsTx() == Finish(old(AbsTx()), state)
    {
      tx := tx.(state := state);
      if state == AUN_OK {
        txOk := Add32(txOk, 1);
      } else {
        txFail := Add32(txFail, 1);
      }
    }

    method InputReply(src: Peer, d: Datagram)
      requires d.kind == TYPE_ACK || d.kind == TYPE_NAK || d.kind == TYPE_IMM_REPLY
      modifies this`tx, this`txOk, this`txFail
      ensures AbsTx() == ReceiveReply(old(AbsTx()), src, d, clock)
    {
      if tx.state != PENDING || d.seqNo != tx.dgram.seqNo || src != tx.to {
        return;
      }
      if d.kind == TYPE_IMM_REPLY {
        if tx.kind == TYPE_IMMEDIATE {
          var n := if |d.data| < tx.replyMax then |d.data| else tx.replyMax;
          if tx.hasBuf {
            tx := tx.(reply := d.data[..n]);
          }
          tx := tx.(replyLen := n);
          FinishTx(AUN_OK);
        }
      } else if d.kind == TYPE_NAK {
        if tx.rejectLeft > 0 {
          tx := tx.(rejectLeft := tx.rejectLeft - 1, rejectPending := true, deadline := clock + REJECT_TIMEOUT_MS);
        } else {
          FinishTx(TX_NOT_LISTENING);
        }
      } else if tx.kind == TYPE_DATA {
        FinishTx(AUN_OK);
      }
    }

    method ResendTx(ok: bool)
      modifies this`tx, this`txOk, this`txFail, this`log
      ensures var o := Resend(old(AbsTx()), clock, ok); AbsTx() == o.st && log == old(log) + o.items
    {
      log := log + [Sent(tx.to, tx.dgram, ok, Transmit(txns, alloc))];
      if !ok {
        FinishTx(TX_NET_ERROR);
      } else {
        tx := tx.(deadline := clock + NORESP_TIMEOUT_MS);
      }
    }

    method PollTx(ok: bool)
      modifies this`tx, this`txOk, this`txFail, this`log
      ensures var o := Timer(old(AbsTx()), clock, ok); AbsTx() == o.st && log == old(log) + o.items
    {
      hide Resend, Finish;
      assert log + [] == log;
      if tx.state != PENDING || clock < tx.deadline {
        return;
      }
      if tx.rejectPending {
        tx := tx.(rejectPending := false);
        ResendTx(ok);
      } else if tx.norespLeft == 0 {
        FinishTx(TX_NOT_LISTENING);
      } else {
        tx := tx.(norespLeft := tx.norespLeft - 1);
        ResendTx(ok);
      }
    }

    method LaunchTx(kind: byte, to: Peer, ctrl: byte, port: byte, data: seq<byte>, hasBuf: bool, replyMax: nat,
                    ok: bool)
      modifies this`tx, this`nextSeq, this`txFail, this`txOk, this`txns, this`seqs, this`alloc, this`log
      ensures var o := Launch(old(AbsTx()), kind, to, ctrl, port, data, hasBuf, replyMax, clock, ok);
              AbsTx() == o.st && log == old(log) + o.items
    {
      var d := Datagram(kind, port, ctrl % 128, nextSeq, data);
      alloc, seqs, txns := seqs, seqs + 1, txns + 1;
      nextSeq := Add32(nextSeq, 4);
      tx := Tx(PENDING, kind, to, d, tx.deadline, NORESP_RETRIES, if kind == TYPE_DATA then REJECT_RETRIES else 0,
               false, hasBuf, replyMax, 0, []);
      log := log + [Sent(to, d, ok, Transmit(txns, alloc))];
      if !ok {
        FinishTx(TX_NET_ERROR);
      } else {
        tx := tx.(deadline := clock + NORESP_TIMEOUT_MS);
      }
    }

    /** The loopback test responder. */
    method LoopbackTx(kind: byte, ctrl: byte, port: byte, data: seq<byte>, hasBuf: bool, replyMax: nat)
      requires Valid()
      modifies this`tx, this`txOk, this`txFail, this`txns, rx0`count, rx0`view, rx0.q, rx1`count, rx1`view, rx1.q
      ensures Valid() && Abs() == Spec.Loopback(old(Abs()), kind, ctrl, port, data, hasBuf, replyMax)
    {
      hide Valid, AbsRx, AbsTx, AbsImm, Queueing, DeliveryOf, Deliver, Looped;
      if kind == TYPE_IMMEDIATE {
        var n := if replyMax < |machineId| then replyMax else |machineId|;
        FinishLoopback(AUN_OK, n, if hasBuf then machineId[..n] else []);
      } else if IsImm4(port, ctrl) {
        FinishLoopback(AUN_OK, 0, []);
      } else {
        var why := DeliverFrame(NewFrame(LOCAL, 0, test.stn, test.net, Datagram(kind, port, ctrl, 0, data)));
        FinishLoopback(if why == Queued then AUN_OK else TX_NOT_LISTENING, 0, []);
      }
    }

    method FinishLoopback(state: byte, n: nat, reply: seq<byte>)
      modifies this`tx, this`txOk, this`txFail, this`txns
      ensures AbsTx() == Looped(old(AbsTx()), state, n, reply)
    {
      txns := txns + 1;
      tx := tx.(hasBuf := false, replyLen := n, reply := reply);
      FinishTx(state);
    }

    /** Where a station is reached, if it is. */
    method ResolveStation(n: bv8, s: bv8) returns (r: Option<Peer>)
      ensures r == Resolve(AbsRx(), n, s)
    {
      var i := FindAddrIndex(n, s);
      if i >= 0 {
        return Some(stations[i].peer);
      }
      if routes.learnNet == LEARN_OFF || n != routes.learnNet {
        return None;
      }
      return Some(Peer(routes.subnetBase.(d := s), DEFAULT_UDP_PORT));
    }

    method TxBegin(kind: byte, n: bv8, s: bv8, ctrl: byte, port: byte, data: seq<byte>,
                   hasBuf: bool, replyMax: nat, ok: bool) returns (status: byte)
      requires Valid()
      modifies this`tx, this`nextSeq, this`txOk, this`txFail, this`txns, this`seqs, this`alloc, this`log
      modifies rx0`count, rx0`view, rx0.q, rx1`count, rx1`view, rx1.q
      ensures Valid() && (Abs(), status) == Spec.TxBegin(old(Abs()), kind, n, s, ctrl, port, data, hasBuf, replyMax, ok)
    {
      hide Valid, AbsRx, AbsImm, Resolve, Launch, Spec.Loopback;
      if !initialised {
        return ERR_NOT_READY;
      }
      if |data| > MAX_DATA {
        return ERR_PARAM;
      }
      if tx.state == PENDING {
        return TX_BUSY;
      }
      if test.enabled && s == test.stn && n == test.net {
        LoopbackTx(kind, ctrl, port, data, hasBuf, replyMax);
        return AUN_OK;
      }
      var to := ResolveStation(n, s);
      if to.None? {
        return TX_NO_ROUTE;
      }
      LaunchTx(kind, to.value, ctrl, port, data, hasBuf, replyMax, ok);
      return AUN_OK;
    }

    method TxStart(n: bv8, s: bv8, ctrl: byte, port: byte, data: seq<byte>, ok: bool) returns (status: byte)
      requires Valid()
      modifies this`tx, this`nextSeq, this`txOk, this`txFail, this`txns, this`seqs, this`alloc, this`log
      modifies rx0`count, rx0`view, rx0.q, rx1`count, rx1`view, rx1.q
      ensures Valid() && (Abs(), status) == Spec.TxStart(old(Abs()), n, s, ctrl, port, data, ok)
    {
      hide Valid, Abs, Spec.TxBegin;
      status := TxBegin(TYPE_DATA, n, s, ctrl, port, data, false, 0, ok);
    }

    method Immediate(n: bv8, s: bv8, ctrl: byte, data: seq<byte>, hasBuf: bool, replyMax: nat, ok: bool)
      returns (status: byte)
      requires Valid()
      modifies this`tx, this`nextSeq, this`txOk, this`txFail, this`txns, this`seqs, this`alloc, this`log
      modifies rx0`count, rx0`view, rx0.q, rx1`count, rx1`view, rx1.q
      ensures Valid() && (Abs(), status) == Spec.Immediate(old(Abs()), n, s, ctrl, data, hasBuf, replyMax, ok)
    {
      hide Valid, Abs, Spec.TxBegin;
      var c := ctrl % 128;
      if CTRL_IMM4_FIRST <= c <= CTRL_IMM4_LAST {
        if c == CTRL_POKE {
          if |data| < 4 || |data| > MAX_DATA - 4 {
            return ERR_PARAM;
          }
          status := TxBegin(TYPE_DATA, n, s, ctrl, 0, data[..4] + Le32(|data| - 4) + data[4..], false, 0, ok);
        } else {
          status := TxBegin(TYPE_DATA, n, s, ctrl, 0, data, false, 0, ok);
        }
      } else {
        status := TxBegin(TYPE_IMMEDIATE, n, s, ctrl, 0, data, hasBuf, replyMax, ok);
      }
    }

    /** One copy to every mapped peer, in table order, then the subnet broadcast. */
    method SendCopies(d: Datagram, oks: seq<bool>)
      modifies this`log
      ensures log == old(log) + Spec.Copies(AbsRx(), d, oks)
    {
      var i := 0;
      ghost var copies := Spec.Copies(AbsRx(), d, oks);
      while i < |stations|
        invariant 0 <= i <= |stations|
        invariant log == old(log) + copies[..i]
        modifies this`log
      {
        log := log + [Sent(stations[i].peer, d, i < |oks| && oks[i], Announce)];
        assert copies[..i + 1] == copies[..i] + [copies[i]];
        i := i + 1;
      }
      if routes.broadcastIp != NO_IP {
        log := log + [Sent(Peer(routes.broadcastIp, DEFAULT_UDP_PORT), d, i < |oks| && oks[i], Announce)];
        assert copies == copies[..i] + [copies[i]];
      } else {
        assert copies == copies[..i];
      }
    }

    method Broadcast(ctrl: byte, port: byte, data: seq<byte>, oks: seq<bool>) returns (status: byte)
      requires Valid()
      modifies this`nextSeq, this`seqs, this`log
      ensures Valid() && (Abs(), status) == Spec.Broadcast(old(Abs()), ctrl, port, data, oks)
    {
      hide Valid, AbsRx, AbsImm, Spec.Copies;
      if !initialised {
        return ERR_NOT_READY;
      }
      if |data| > MAX_DATA {
        return ERR_PARAM;
      }
      var d := Datagram(TYPE_BROADCAST, port, ctrl % 128, nextSeq, data);
      nextSeq, seqs := Add32(nextSeq, 4), seqs + 1;
      SendCopies(d, oks);
      return AUN_OK;
    }

    // ---- host immediates ------------------------------------------------------

    method HoldImm(key: ImmKey, ctrl: byte, data: seq<byte>)
      modifies this`himm, this`holds, this`log
      ensures var o := Hold(old(AbsImm()), key, ctrl, data, clock); AbsImm() == o.st && log == old(log) + o.items
    {
      holds := holds + 1;
      himm := HostImm(true, key.fromData, ctrl, key.seqNo, key.peer, data, clock + HIMM_TIMEOUT_MS,
                      Add32(himm.gen, 1), himm.polledGen);
      log := log + [Held(holds, key, clock, ctrl, data)];
    }

    /** A Poke, JSR, UserProc or OSProc carried as DATA to port 0. */
    method InputImm4(src: Peer, d: Datagram, ok: bool)
      modifies this`himm, this`holds, this`log
      ensures var o := ReceiveImm4(old(AbsImm()), src, d, clock, ok); AbsImm() == o.st && log == old(log) + o.items
    {
      hide Hold, ImmLenOk;
      assert log + [] == log;
      var key := ImmKey(src, d.seqNo, true);
      var fits := hostImm && if d.ctrl == CTRL_POKE then |d.data| >= 8 else ImmLenOk(d.ctrl, d.data);
      var len := if d.ctrl == CTRL_POKE then |d.data| - 4 else |d.data|;
      if !fits || len > HIMM_MAX {
        log := log + Answered(src, Verdict(TYPE_NAK, 0, d.ctrl, d.seqNo), ok);
      } else if Replays(ImmSide(hostImm, himm, cache, 0, 0), key, clock) {
        log := log + Answered(src, Verdict(if cache.isNak then TYPE_NAK else TYPE_ACK, 0, d.ctrl, d.seqNo), ok);
      } else if !himm.active {
        HoldImm(key, d.ctrl, if d.ctrl == CTRL_POKE then d.data[..4] + d.data[8..] else d.data);
      }
    }

    /** A type-5 immediate. */
    method InputImmediate(src: Peer, d: Datagram, ok: bool)
      modifies this`himm, this`holds, this`log
      ensures var o := ReceiveImmediate(old(AbsImm()), src, d, clock, ok); AbsImm() == o.st && log == old(log) + o.items
    {
      hide Hold, ImmLenOk;
      assert log + [] == log;
      var key := ImmKey(src, d.seqNo, false);
      var nak := Verdict(TYPE_NAK, d.port, d.ctrl, d.seqNo);
      if hostImm && |d.data| <= HIMM_MAX && ImmLenOk(d.ctrl, d.data) {
        if himm.active {
          if !(himm.peer == src && himm.seqNo == d.seqNo) {
            log := log + Answered(src, nak, ok);
          }
        } else if Replays(ImmSide(hostImm, himm, cache, 0, 0), key, clock) {
          log := log + Answered(src, if cache.isNak then nak else ImmReply(cache.ctrl, cache.seqNo, cache.data), ok);
        } else {
          HoldImm(key, d.ctrl, d.data);
        }
      } else {
        log := log + Answered(src, nak, ok);
      }
    }

    /** Releases the slot with outcome `d`, remembered for replay. */
    method SettleImm(d: Datagram, isNak: bool, data: seq<byte>, ok: bool)
      modifies this`himm, this`cache, this`log
      ensures var o := Settle(old(AbsImm()), d, isNak, data, clock, ok); AbsImm() == o.st && log == old(log) + o.items
    {
      log := log + [Resolved(holds, KeyOf(himm), clock), Sent(himm.peer, d, ok, Answer)];
      cache := Cache(true, isNak, himm.fromData, himm.ctrl, himm.seqNo, himm.peer, data, clock + HIMM_CACHE_MS);
      himm := himm.(active := false);
    }

    /** The host takes the held immediate to execute it. */
    method ImmPoll() returns (held: Option<seq<byte>>)
      requires Valid()
      modifies this`himm, this`polled
      ensures Valid() && AbsImm() == Take(old(AbsImm()))
      ensures held == if himm.active then Some(himm.data) else None
    {
      hide Valid;
      if !himm.active {
        return None;
      }
      himm, polled := himm.(polledGen := himm.gen), holds;
      return Some(himm.data);
    }

    /** The host's answer, which only reaches the generation it last polled. */
    method ImmReplyCommand(data: seq<byte>, ok: bool)
      requires Valid()
      modifies this`himm, this`cache, this`log
      ensures Valid()
      ensures var o := ReplyCommand(old(AbsImm()), data, clock, ok); AbsImm() == o.st && log == old(log) + o.items
    {
      hide Valid, Settle;
      assert log + [] == log;
      if |data| > HIMM_MAX || !himm.active || himm.gen != himm.polledGen {
        return;
      }
      if himm.fromData {
        SettleImm(Verdict(TYPE_ACK, 0, himm.ctrl, himm.seqNo), false, [], ok);
      } else {
        SettleImm(ImmReply(himm.ctrl, himm.seqNo, data), false, data, ok);
      }
    }

    // ---- entry points -----------------------------------------------------------

    method UdpInput(src: Peer, buf: seq<byte>, ok: bool)
      requires Valid()
      modifies this`stations, this`tx, this`txOk, this`txFail, this`himm, this`holds, this`log
      modifies rx0`count, rx0`view, rx0.q, rx1`count, rx1`view, rx1.q
      ensures Valid() && Abs() == Spec.UdpInput(old(Abs()), src, buf, ok)
    {
      hide Valid, AbsRx, AbsTx, AbsImm, ReceiveData, ReceiveBroadcast, ReceiveReply, ReceiveImm4, ReceiveImmediate;
      if !initialised || |buf| < HDR_SIZE {
        return;
      }
      var d := Datagram(buf[0], buf[1], buf[2] % 128, FromLe32(buf[4..8]), buf[8..]);
      if d.kind == TYPE_ACK || d.kind == TYPE_NAK || d.kind == TYPE_IMM_REPLY {
        InputReply(src, d);
      } else if d.kind == TYPE_DATA {
        if IsImm4(d.port, d.ctrl) {
          InputImm4(src, d, ok);
        } else {
          InputData(src, d, ok);
        }
      } else if d.kind == TYPE_BROADCAST {
        InputBroadcast(src, d);
      } else if d.kind == TYPE_IMMEDIATE {
        if d.ctrl == CTRL_MACHINE_PEEK {
          log := log + Answered(src, ImmReply(d.ctrl, d.seqNo, machineId), ok);
        } else {
          InputImmediate(src, d, ok);
        }
      }
    }

    method Poll(okNak: bool, okTx: bool)
      requires Valid()
      modifies this`himm, this`cache, this`tx, this`txOk, this`txFail, this`log
      ensures Valid() && Abs() == Spec.Poll(old(Abs()), okNak, okTx)
    {
      hide Valid, AbsRx, AbsTx, Settle, Timer;
      if !initialised {
        return;
      }
      assert log + [] == log;
      if himm.active && clock >= himm.due {
        SettleImm(Verdict(TYPE_NAK, 0, himm.ctrl, himm.seqNo), true, [], okNak);
      }
      PollTx(okTx);
    }

    /** The injected clock moves on. */
    method Tick(ms: nat)
      requires Valid()
      modifies this`clock, rx0`now, rx0`view, rx1`now, rx1`view
      ensures Valid() && Abs() == Spec.Tick(old(Abs()), ms)
    {
      hide BlockInv, RxInv, Running, DistinctStreams, Ring, TickBlock;
      ghost var r := AbsRx();
      TickKeepsRx(r, clock, clock + ms);
      clock := clock + ms;
      rx0.Advance(clock);
      rx1.Advance(clock);
      assert AbsRx().blocks == TickBlocks(r.blocks, clock);
    }
  }

  lemma InitParts(e: Spec.Engine, e': Spec.Engine)
    requires e'.clock == e.clock && e'.initialised && e'.rx == EMPTY_RX
    requires e'.tx == EMPTY_TX.(nextSeq := 4, txns := e.tx.txns, base := e.tx.txns)
    requires e'.imm == EMPTY_IMM.(holds := e.imm.holds, polled := e.imm.holds)
    requires e'.machineId == Spec.BBC_B && e'.test == Responder(false, 0, 0) && e'.log == e.log + [Reset]
    ensures e' == Spec.Init(e)
  {
  }

  lemma EmptyRxOk(clock: nat)
    ensures RxInv(EMPTY_RX, clock) && RxInv(Spec.BOOT.rx, clock)
  {
  }

  lemma LearnKeeps(r: Rx, src: Peer, clock: nat)
    requires RxInv(r, clock)
    ensures RxInv(r.(stations := Learn(r, src)), clock)
  {
  }

  lemma DeliverKeepsRx(r: Rx, f: Frame, clock: nat)
    requires RxInv(r, clock) && f.rejects == 0 && (OnWire(f.src) ==> !Queueing(r.blocks, f.src, f.seqNo))
    ensures RxInv(r.(blocks := Deliver(r.blocks, f)), clock)
  {
    DeliverKeeps(r.blocks, f, clock);
  }

  lemma CollectNothing(r: Rx, h: byte, accept: bool, clock: nat, ok: bool)
    requires !IsOpen(r, h)
    ensures Collect(r, h, accept, clock, ok) == Out(r, [])
  {
  }

  lemma TargetFacts(b: Block, clock: nat)
    requires BlockInv(b, clock)
    ensures HasTarget(b) ==> Eligible(b.frames[Target(b)], b.deferred) && b.frames[Target(b)].rejects <= DEFER_RETRIES
  {
    TargetIsOldest(b, clock);
    assert HasTarget(b) ==> FrameOk(b.frames[Target(b)], b);
  }

  lemma PresentNothing(b: Block)
    requires !HasTarget(b)
    ensures Present(b) == b
  {
  }
}
