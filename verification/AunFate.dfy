/** What a call does to the receive side, told in the fields of the map entries and the
    receive blocks: whom a datagram is attributed to, which block takes it, and how its
    sender is answered. */
module AunFate {
  import opened Bytes
  import opened AunTypes
  import opened AunRx
  import opened AunTx
  import opened AunSpec

  // ---- who takes a frame ------------------------------------------------------------

  /** An open block with the frame's port (or 0), station (or 255) and net (or 255). */
  predicate Hears(b: Block, f: Frame) {
    b.open && (b.port == 0 || b.port == f.port) && (b.stn == 255 || b.stn == f.stn) && (b.net == 255 || b.net == f.net)
  }

  /** The first such block with fewer than eight frames waiting. */
  ghost predicate FirstWithRoom(blocks: seq<Block>, f: Frame, h: int) {
    && 0 <= h < |blocks| && Hears(blocks[h], f) && |blocks[h].frames| < 8
    && forall g :: 0 <= g < h ==> !(Hears(blocks[g], f) && |blocks[g].frames| < 8)
  }

  ghost predicate NobodyHears(blocks: seq<Block>, f: Frame) {
    forall h :: 0 <= h < |blocks| ==> !Hears(blocks[h], f)
  }

  /** Somebody hears, and everyone who does has eight frames waiting. */
  ghost predicate AllFull(blocks: seq<Block>, f: Frame) {
    && !NobodyHears(blocks, f)
    && forall h :: 0 <= h < |blocks| && Hears(blocks[h], f) ==> |blocks[h].frames| >= 8
  }

  /** The block that would take it has too small a buffer, or no frame can be that long. */
  ghost predicate TooLong(blocks: seq<Block>, f: Frame) {
    exists h :: FirstWithRoom(blocks, f, h) && (|f.data| > |blocks[h].buf| || |f.data| > 8192)
  }

  /** The frame joined the queue of the first block with room, and nothing else changed. */
  ghost predicate Joined(blocks: seq<Block>, blocks': seq<Block>, f: Frame) {
    exists h ::
      && FirstWithRoom(blocks, f, h) && |f.data| <= |blocks[h].buf| && |f.data| <= 8192
      && blocks' == blocks[h := blocks[h].(frames := blocks[h].frames + [f])]
  }

  /** The three ways a delivery can go are exhaustive, and each is what its fields say. */
  lemma DeliveryByFields(blocks: seq<Block>, f: Frame)
    ensures DeliveryOf(blocks, f) == Refused <==> NobodyHears(blocks, f) || TooLong(blocks, f)
    ensures DeliveryOf(blocks, f) == Full <==> AllFull(blocks, f)
    ensures DeliveryOf(blocks, f) == Queued <==> Joined(blocks, Deliver(blocks, f), f)
    ensures DeliveryOf(blocks, f) != Queued ==> Deliver(blocks, f) == blocks
  {
    var n := Match(blocks, f);
    assert forall b: Block :: Listens(b, f) <==> Hears(b, f);
    if n >= 0 {
      assert FirstWithRoom(blocks, f, n);
      assert forall h :: FirstWithRoom(blocks, f, h) ==> h == n;
    } else {
      assert forall h :: !FirstWithRoom(blocks, f, h);
    }
  }

  // ---- whom a datagram is attributed to -----------------------------------------------

  ghost predicate Mapped(m: seq<Station>, src: Peer) {
    exists i :: 0 <= i < |m| && m[i].peer == src
  }

  /** The first entry of a source. */
  ghost predicate EntryOf(m: seq<Station>, src: Peer, k: int) {
    0 <= k < |m| && m[k].peer == src && forall i :: 0 <= i < k ==> m[i].peer != src
  }

  /** Learning is on, and the source is a station of the subnet on the standard port. */
  predicate InSubnet(r: Addressing, src: Peer) {
    && r.learnNet != 255 && src.udp == 32768 && src.ip.d != 0 && src.ip.d != 255
    && Masked(src.ip, r.subnetMask) == Masked(r.subnetBase, r.subnetMask)
  }

  /** `m'` is `m` with station `stn` of `net` at `peer`: its first entry redirected and its
      record dropped, or a new entry at the end. */
  ghost predicate WithStation(m: seq<Station>, m': seq<Station>, net: bv8, stn: bv8, peer: Peer) {
    || (exists i ::
          && 0 <= i < |m| && m[i].net == net && m[i].stn == stn
          && (forall j :: 0 <= j < i ==> !(m[j].net == net && m[j].stn == stn))
          && m' == m[i := Station(net, stn, peer, m[i].last, false)])
    || (|m| < 32 && NoSuchStation(m, net, stn) && m' == m + [Station(net, stn, peer, 0, false)])
  }

  ghost predicate NoSuchStation(m: seq<Station>, net: bv8, stn: bv8) {
    forall i :: 0 <= i < |m| ==> !(m[i].net == net && m[i].stn == stn)
  }

  lemma MapAddByFields(m: seq<Station>, net: bv8, stn: bv8, peer: Peer)
    ensures var (m', added) := MapAdd(m, net, stn, peer);
            && (added <==> |m| < 32 || !NoSuchStation(m, net, stn))
            && (added ==> WithStation(m, m', net, stn, if peer.udp == 0 then peer.(udp := 32768) else peer))
            && (!added ==> m' == m)
  {
    var i := FindAddr(m, net, stn);
    if i >= 0 {
      assert m[i].net == net && m[i].stn == stn;
    }
  }

  ghost predicate Attributed(r: Rx, src: Peer) {
    || Mapped(r.stations, src)
    || (InSubnet(r.routes, src) && (|r.stations| < 32 || !NoSuchStation(r.stations, r.routes.learnNet, src.ip.d)))
  }

  lemma LearnByFields(r: Rx, src: Peer)
    ensures var m' := Learn(r, src);
            && (Mapped(r.stations, src) || !Attributed(r, src) ==> m' == r.stations)
            && (!Mapped(r.stations, src) && Attributed(r, src) ==>
                  WithStation(r.stations, m', r.routes.learnNet, src.ip.d, src))
            && (Attributed(r, src) <==> FindPeer(m', src) >= 0)
            && (FindPeer(m', src) >= 0 ==> EntryOf(m', src, FindPeer(m', src)))
  {
    SubnetIs(r.routes, src);
    assert InSubnet(r.routes, src) ==> src.udp == 32768;
    hide Learnable, InSubnet, MapAdd, WithStation, NoSuchStation;
    var k := FindPeer(r.stations, src);
    assert Mapped(r.stations, src) <==> k >= 0;
    MapAddByFields(r.stations, r.routes.learnNet, src.ip.d, src);
    if k < 0 && Attributed(r, src) {
      AddedIsFound(r.stations, Learn(r, src), r.routes.learnNet, src.ip.d, src);
    }
  }

  lemma SubnetIs(r: Addressing, src: Peer)
    ensures Learnable(r, src) <==> InSubnet(r, src)
  {
  }

  lemma AddedIsFound(m: seq<Station>, m': seq<Station>, net: bv8, stn: bv8, peer: Peer)
    requires WithStation(m, m', net, stn, peer)
    ensures FindPeer(m', peer) >= 0
  {
    if |m'| > |m| {
      assert m'[|m|].peer == peer;
    } else {
      var i :| 0 <= i < |m| && m' == m[i := Station(net, stn, peer, m[i].last, false)];
      assert m'[i].peer == peer;
    }
  }

  // ---- DATA ---------------------------------------------------------------------------

  /** The frame is waiting in some block. */
  ghost predicate Waits(blocks: seq<Block>, src: Peer, seqNo: u32) {
    exists h, i :: 0 <= h < |blocks| && 0 <= i < |blocks[h].frames| &&
                   blocks[h].frames[i].src == src && blocks[h].frames[i].seqNo == seqNo
  }

  /** An ordinary DATA datagram: DATA, but not to port 0 with a control byte of 2 to 5. */
  predicate OrdinaryData(dgram: seq<byte>) {
    |dgram| >= 8 && dgram[0] == 2 && !(dgram[1] == 0 && 2 <= dgram[2] % 128 <= 5)
  }

  /** The frame a DATA datagram is queued as: from the station its source is mapped to, the
      control byte with its top bit set. */
  function FrameOf(src: Peer, dgram: seq<byte>, m: Station): Frame
    requires |dgram| >= 8
  {
    Frame(src, FromLe32(dgram[4..8]), m.stn, m.net, dgram[1], dgram[2] % 128 + 128, 0, dgram[8..])
  }

  /** An ACK (3) or NAK (4) of the datagram, with its port, control byte and number. */
  function AnswerTo(src: Peer, dgram: seq<byte>, kind: byte, ok: bool): Item
    requires |dgram| >= 8
  {
    Sent(src, Datagram(kind, dgram[1], dgram[2] % 128, FromLe32(dgram[4..8]), []), ok, Answer)
  }

  /** What becomes of a DATA datagram whose source's entry is `m`, when it is neither
      waiting already nor the last one released. */
  ghost predicate Judged(e: Engine, e': Engine, src: Peer, dgram: seq<byte>, ok: bool, m: Station)
    requires |dgram| >= 8
  {
    var f := FrameOf(src, dgram, m);
    && (NobodyHears(e.rx.blocks, f) || TooLong(e.rx.blocks, f) <==> e'.log == e.log + [AnswerTo(src, dgram, 4, ok)])
    && (e'.log == e.log + [AnswerTo(src, dgram, 4, ok)] ==> e'.rx.blocks == e.rx.blocks)
    && (AllFull(e.rx.blocks, f) ==> e'.log == e.log && e'.rx.blocks == e.rx.blocks)
    && (!NobodyHears(e.rx.blocks, f) && !TooLong(e.rx.blocks, f) && !AllFull(e.rx.blocks, f) ==>
          e'.log == e.log && Joined(e.rx.blocks, e'.rx.blocks, f))
  }

  /** In every state: a DATA datagram of a source that cannot be attributed is ignored; one
      that is still waiting is dropped silently; the last one released is ACKed again;
      any other is refused with a NAK exactly when nobody listens or it can never fit, met
      with silence when all who listen are full, and otherwise queued. Nothing else
      changes. */
  lemma DataFate(e: Engine, src: Peer, dgram: seq<byte>, ok: bool)
    requires e.initialised && OrdinaryData(dgram)
    ensures var e' := Step(e, DoInput(src, dgram, ok));
            var seqNo := FromLe32(dgram[4..8]);
            && e' == e.(rx := e.rx.(stations := e'.rx.stations, blocks := e'.rx.blocks), log := e'.log)
            && (!Attributed(e.rx, src) ==> e' == e)
            && (Mapped(e.rx.stations, src) ==> e'.rx.stations == e.rx.stations)
            && (!Mapped(e.rx.stations, src) && Attributed(e.rx, src) ==>
                  WithStation(e.rx.stations, e'.rx.stations, e.rx.routes.learnNet, src.ip.d, src))
            && (Attributed(e.rx, src) ==>
                  exists k ::
                    && EntryOf(e'.rx.stations, src, k)
                    && var m := e'.rx.stations[k];
                    if Waits(e.rx.blocks, src, seqNo) then e'.rx.blocks == e.rx.blocks && e'.log == e.log
                    else if m.valid && m.last == seqNo then
                      e'.rx.blocks == e.rx.blocks && e'.log == e.log + [AnswerTo(src, dgram, 3, ok)]
                    else Judged(e, e', src, dgram, ok, m))
  {
    DataStep(e, src, dgram, ok);
    hide Step;
    var d := Decode(dgram).value;
    var o := ReceiveData(e.rx, src, d, ok);
    LearnByFields(e.rx, src);
    hide Attributed, WithStation, Mapped;
    DataLearns(e.rx, src, d, ok);
    var k := FindPeer(Learn(e.rx, src), src);
    assert e.log + [] == e.log;
    if k >= 0 {
      DataJudged(e, e.(rx := o.st, log := e.log + o.items), src, dgram, ok);
    }
    hide ReceiveData, Learn, Judged, Waits, FromLe32;
  }

  lemma DataStep(e: Engine, src: Peer, dgram: seq<byte>, ok: bool)
    requires e.initialised && OrdinaryData(dgram)
    ensures var o := ReceiveData(e.rx, src, Decode(dgram).value, ok);
            Step(e, DoInput(src, dgram, ok)) == e.(rx := o.st, log := e.log + o.items)
  {
    hide ReceiveData;
  }

  lemma DataLearns(r: Rx, src: Peer, d: Datagram, ok: bool)
    ensures var o := ReceiveData(r, src, d, ok);
            && o.st == r.(stations := Learn(r, src), blocks := o.st.blocks)
            && (FindPeer(Learn(r, src), src) < 0 ==> o.st.blocks == r.blocks && o.items == [])
  {
    hide Learn, Queueing, Deliver, DeliveryOf;
  }

  lemma DataJudged(e: Engine, e': Engine, src: Peer, dgram: seq<byte>, ok: bool)
    requires OrdinaryData(dgram) && FindPeer(Learn(e.rx, src), src) >= 0
    requires var o := ReceiveData(e.rx, src, Decode(dgram).value, ok); e' == e.(rx := o.st, log := e.log + o.items)
    ensures var m := Learn(e.rx, src)[FindPeer(Learn(e.rx, src), src)];
            var seqNo := FromLe32(dgram[4..8]);
            if Waits(e.rx.blocks, src, seqNo) then e'.rx.blocks == e.rx.blocks && e'.log == e.log
            else if m.valid && m.last == seqNo then
              e'.rx.blocks == e.rx.blocks && e'.log == e.log + [AnswerTo(src, dgram, 3, ok)]
            else Judged(e, e', src, dgram, ok, m)
  {
    var d := Decode(dgram).value;
    var m := Learn(e.rx, src)[FindPeer(Learn(e.rx, src), src)];
    var f := NewFrame(src, d.seqNo, m.stn, m.net, d);
    assert f == FrameOf(src, dgram, m);
    assert Waits(e.rx.blocks, src, d.seqNo) <==> Queueing(e.rx.blocks, src, d.seqNo);
    assert e.log + [] == e.log;
    DeliveryByFields(e.rx.blocks, f);
    hide Learn, Queueing, Waits, DeliveryOf, Deliver, NobodyHears, TooLong, AllFull, Joined, FromLe32;
  }

  // ---- broadcasts, loopback and blocks ------------------------------------------------

  /** What a delivery that nobody is told about does to the blocks. */
  ghost predicate Offered(blocks: seq<Block>, blocks': seq<Block>, f: Frame) {
    if NobodyHears(blocks, f) || TooLong(blocks, f) || AllFull(blocks, f) then blocks' == blocks
    else Joined(blocks, blocks', f)
  }

  lemma DeliverOffers(blocks: seq<Block>, f: Frame)
    ensures Offered(blocks, Deliver(blocks, f), f)
    ensures DeliveryOf(blocks, f) == Queued <==>
            !NobodyHears(blocks, f) && !TooLong(blocks, f) && !AllFull(blocks, f)
  {
    DeliveryByFields(blocks, f);
    hide NobodyHears, TooLong, AllFull, Joined, Deliver, DeliveryOf;
  }

  /** The station a source is shown to the host as. */
  ghost predicate ShownAs(m: seq<Station>, src: Peer, stn: bv8, net: bv8) {
    if Mapped(m, src) then exists k :: EntryOf(m, src, k) && stn == m[k].stn && net == m[k].net
    else stn == 0 && net == 0
  }

  /** The frame of a broadcast: it has no source to answer. */
  function Unacknowledged(dgram: seq<byte>, stn: bv8, net: bv8): Frame
    requires |dgram| >= 8
  {
    Frame(LOCAL, 0, stn, net, dgram[1], dgram[2] % 128 + 128, 0, dgram[8..])
  }

  /** A broadcast is offered to the host as from the station it is mapped to, or 0.0; it
      is never answered, and changes nothing else. */
  lemma BroadcastFate(e: Engine, src: Peer, dgram: seq<byte>, ok: bool)
    requires e.initialised && |dgram| >= 8 && dgram[0] == 1
    ensures var e' := Step(e, DoInput(src, dgram, ok));
            && e' == e.(rx := e.rx.(blocks := e'.rx.blocks))
            && exists stn, net :: ShownAs(e.rx.stations, src, stn, net) &&
                                  Offered(e.rx.blocks, e'.rx.blocks, Unacknowledged(dgram, stn, net))
  {
    BroadcastStep(e, src, dgram, ok);
    hide Step;
    var d := Decode(dgram).value;
    var i := FindPeer(e.rx.stations, src);
    assert Mapped(e.rx.stations, src) <==> i >= 0;
    assert i >= 0 ==> EntryOf(e.rx.stations, src, i);
    hide EntryOf, Mapped;
    var stn, net := if i < 0 then 0 else e.rx.stations[i].stn, if i < 0 then 0 else e.rx.stations[i].net;
    var f := NewFrame(LOCAL, 0, stn, net, d);
    assert f == Unacknowledged(dgram, stn, net) && ShownAs(e.rx.stations, src, stn, net);
    DeliverOffers(e.rx.blocks, f);
    hide Offered, Deliver, ShownAs;
  }

  lemma BroadcastStep(e: Engine, src: Peer, dgram: seq<byte>, ok: bool)
    requires e.initialised && |dgram| >= 8 && dgram[0] == 1
    ensures Step(e, DoInput(src, dgram, ok)) == e.(rx := ReceiveBroadcast(e.rx, src, Decode(dgram).value))
  {
    hide ReceiveBroadcast;
  }

  /** A transmit to the loopback responder is over at once: an immediate with the machine
      id, a 4-way immediate with nothing, and anything else as the host's blocks take it. */
  lemma LoopbackFate(e: Engine, net: bv8, stn: bv8, ctrl: byte, port: byte, data: seq<byte>, ok: bool)
    requires e.initialised && |data| <= 8192 && e.tx.cur.state != PENDING
    requires e.test.enabled && stn == e.test.stn && net == e.test.net
    ensures var e' := Step(e, DoTx(net, stn, ctrl, port, data, ok));
            var f := Frame(LOCAL, 0, stn, net, port, ctrl % 128 + 128, 0, data);
            if port == 0 && 2 <= ctrl <= 5 then e'.rx == e.rx && e'.tx.cur.state == AUN_OK
            else
              && e'.rx == e.rx.(blocks := e'.rx.blocks) && Offered(e.rx.blocks, e'.rx.blocks, f)
              && (e'.tx.cur.state == AUN_OK <==>
                  !NobodyHears(e.rx.blocks, f) && !TooLong(e.rx.blocks, f) && !AllFull(e.rx.blocks, f))
              && (e'.tx.cur.state != AUN_OK ==> e'.tx.cur.state == TX_NOT_LISTENING)
  {
    var f := NewFrame(LOCAL, 0, stn, net, Datagram(TYPE_DATA, port, ctrl, 0, data));
    DeliverOffers(e.rx.blocks, f);
    hide Offered, Deliver, DeliveryOf, NobodyHears, TooLong, AllFull, Add32, Resolve, Launch;
  }

  /** A broadcast goes once to every mapped station, in table order, and then to the
      subnet, if that has a broadcast address; each copy is the same datagram. */
  lemma BroadcastSends(e: Engine, ctrl: byte, port: byte, data: seq<byte>, oks: seq<bool>)
    requires e.initialised && |data| <= 8192
    ensures var e' := Step(e, DoBroadcast(ctrl, port, data, oks));
            var n := |e.rx.stations|;
            var d := Datagram(1, port, ctrl % 128, e.tx.nextSeq, data);
            && e' == e.(tx := e'.tx, log := e'.log) && e'.tx == e.tx.(nextSeq := e'.tx.nextSeq, seqs := e.tx.seqs + 1)
            && e'.tx.nextSeq == (e.tx.nextSeq + 4) % 0x1_0000_0000
            && |e'.log| == |e.log| + n + (if e.rx.routes.broadcastIp == NO_IP then 0 else 1) &&
               e'.log[..|e.log|] == e.log
            && (forall i :: 0 <= i < n ==>
                              e'.log[|e.log| + i] == Sent(e.rx.stations[i].peer, d, i < |oks| && oks[i], Announce))
            && (e.rx.routes.broadcastIp != NO_IP ==>
                  e'.log[|e.log| + n] == Sent(Peer(e.rx.routes.broadcastIp, 32768), d, n < |oks| && oks[n], Announce))
  {
  }

  /** An opened block listens as it was asked to, empty and with nothing deferred; the
      other block, and everything else, is as it was. */
  lemma OpenFate(e: Engine, h: byte, port: byte, stn: bv8, net: bv8, buf: seq<byte>)
    requires |e.rx.blocks| == 2
    ensures var (e', status) := RxOpen(e, h, port, stn, net, buf);
            && e' == Step(e, DoOpen(h, port, stn, net, buf))
            && status == (if !e.initialised then 6 else if h >= 2 || buf == [] then 5 else 0)
            && (status != 0 ==> e' == e)
            && (status == 0 ==>
                  && e' == e.(rx := e.rx.(blocks := e'.rx.blocks)) && |e'.rx.blocks| == 2
                  && e'.rx.blocks[1 - h] == e.rx.blocks[1 - h]
                  && var b := e'.rx.blocks[h];
                  && b.open && b.port == port && b.stn == stn && b.net == net && b.buf == buf
                  && b.frames == [] && b.deferred == map[] && !b.presented)
  {
  }

  /** Time changes nothing but the clock and the deferrals, of which exactly those still
      ahead remain. */
  lemma TickFate(e: Engine, ms: nat, h: nat, s: Stream)
    requires h < |e.rx.blocks|
    ensures var e' := Step(e, DoTick(ms));
            && e'.clock == e.clock + ms && |e'.rx.blocks| == |e.rx.blocks|
            && e' == e.(clock := e'.clock, rx := e.rx.(blocks := e'.rx.blocks))
            && var b, b' := e.rx.blocks[h], e'.rx.blocks[h];
            && b' == b.(deferred := b'.deferred)
            && (s in b'.deferred <==> s in b.deferred && e.clock + ms < b.deferred[s])
            && (s in b'.deferred ==> b'.deferred[s] == b.deferred[s])
  {
  }

  /** Closing leaves the block closed and empty, and the other as it was; a block that is not
      open is told so by close, poll and collect alike, and nothing changes. */
  lemma CloseFate(e: Engine, h: byte, accept: bool, ok: bool)
    requires |e.rx.blocks| == 2
    ensures var open := h < 2 && e.rx.blocks[h].open;
            var e' := Step(e, DoClose(h));
            && e' == RxClose(e, h).0 && RxClose(e, h).1 == (if open then 0 else 7)
            && (open ==> e' == e.(rx := e.rx.(blocks := e'.rx.blocks)) && |e'.rx.blocks| == 2 &&
                         e'.rx.blocks[1 - h] == e.rx.blocks[1 - h] && !e'.rx.blocks[h].open &&
                         e'.rx.blocks[h].frames == [] && e'.rx.blocks[h].deferred == map[])
            && (!open ==> e' == e && RxPoll(e, h) == (e, 7, None) && RxCollect(e, h, accept, ok) == (e, 7) &&
                          RxReady(e, h) == 0)
            && (open ==> RxCollect(e, h, accept, ok).1 == 0)
  {
    hide Present, Accept, Reject, Ready;
    assert e.log + [] == e.log;
  }

  /** The indices of the frames that could be presented now. */
  ghost function Presentable(frames: seq<Frame>, deferred: map<Stream, nat>): set<int> {
    set i | 0 <= i < |frames| && (frames[i].src.ip == NO_IP || Stream(frames[i].port, frames[i].src) !in deferred)
  }

  /** The ready count is the number of frames that could be presented. */
  lemma {:induction false} ReadyCounts(frames: seq<Frame>, deferred: map<Stream, nat>)
    ensures Ready(frames, deferred) == |Presentable(frames, deferred)|
  {
    if frames == [] {
      assert Presentable(frames, deferred) == {};
    } else {
      ReadyCounts(frames[..|frames| - 1], deferred);
      PresentableNext(frames, deferred);
      hide Presentable, Eligible;
    }
  }

  lemma PresentableNext(frames: seq<Frame>, deferred: map<Stream, nat>)
    requires frames != []
    ensures var n := |frames| - 1;
            && n !in Presentable(frames[..n], deferred)
            && Presentable(frames, deferred) ==
               Presentable(frames[..n], deferred) + if Eligible(frames[n], deferred) then {n} else {}
  {
    var n := |frames| - 1;
    assert forall i :: 0 <= i < n ==> frames[..n][i] == frames[i];
  }

  /** Initialising leaves no station, no route, no open block, no transmit and no immediate;
      the sequence starts at 4. */
  lemma InitFate(e: Engine)
    ensures var e' := Step(e, DoInit);
            && e'.initialised && e'.clock == e.clock && e'.log == e.log + [Reset] && e'.machineId == [1, 0, 0x60, 3]
            && e'.rx.stations == [] && e'.rx.routes.learnNet == 255 && e'.rx.routes.broadcastIp == NO_IP
            && |e'.rx.blocks| == 2 && !e'.rx.blocks[0].open && !e'.rx.blocks[1].open
            && (forall k :: 0 <= k < |e'.rx.condemned| ==> !e'.rx.condemned[k].valid)
            && e'.tx.cur.state == AUN_OK && e'.tx.nextSeq == 4 && e'.tx.ok == 0 && e'.tx.fail == 0
            && !e'.imm.enabled && !e'.imm.himm.active && !e'.imm.cache.valid && !e'.test.enabled
  {
  }

  /** Each setting changes what it names and nothing else; turning host immediates on or off
      drops what is held and what is remembered. */
  lemma SettingsFate(e: Engine, routes: Addressing, test: Responder, id: seq<byte>, enable: bool)
    ensures Step(e, DoAddressing(routes)) == e.(rx := e.rx.(routes := routes))
    ensures Step(e, DoTest(test)) == e.(test := test) && Step(e, DoMachineId(id)) == e.(machineId := id)
    ensures var e' := Step(e, DoHostImm(enable));
            && e' == e.(imm := e'.imm, log := e.log + [Reset])
            && e'.imm.enabled == enable && !e'.imm.himm.active && !e'.imm.cache.valid
            && e'.imm.himm.gen == e.imm.himm.gen && e'.imm.himm.polledGen == e.imm.himm.polledGen
  {
  }

  /** An immediate to the loopback responder is answered with the machine id, cut to the
      room there is. */
  lemma LoopbackPeek(e: Engine, net: bv8, stn: bv8, ctrl: byte, data: seq<byte>, hasBuf: bool, replyMax: nat, ok: bool)
    requires e.initialised && |data| <= 8192 && e.tx.cur.state != PENDING && !(2 <= ctrl % 128 <= 5)
    requires e.test.enabled && stn == e.test.stn && net == e.test.net
    ensures var e' := Step(e, DoImmediate(net, stn, ctrl, data, hasBuf, replyMax, ok));
            var n := Min(replyMax, |e.machineId|);
            && e' == e.(tx := e'.tx) && e'.tx.cur.state == AUN_OK && e'.tx.cur.replyLen == n
            && e'.tx.cur.reply == if hasBuf then e.machineId[..n] else []
  {
    hide Deliver, DeliveryOf, Resolve, Launch, Add32;
  }
}
