/** A Poke, JSR, UserProc or OSProc between two engines: the bytes the caller
    gave are the bytes the far host is handed, and its reply completes the call. */
module AunRoundTrip {
  import opened Bytes
  import opened AunTypes
  import opened AunRx
  import opened AunTx
  import opened AunImm
  import opened AunSpec

  /** The payload lengths the far end accepts for an operation. */
  predicate Sendable(ctrl: byte, data: seq<byte>) {
    if ctrl % 128 == CTRL_POKE then 4 <= |data| <= HIMM_MAX
    else CTRL_POKE < ctrl % 128 <= CTRL_IMM4_LAST && 2 <= |data| <= 390
  }

  /** What goes on the wire for it. */
  function OnTheWire(ctrl: byte, data: seq<byte>): seq<byte>
    requires Sendable(ctrl, data)
  {
    if ctrl % 128 == CTRL_POKE then PokeOnWire(data) else data
  }

  /** Splicing the byte count in and dropping it again are inverse. */
  lemma PayloadRoundTrip(ctrl: byte, data: seq<byte>)
    requires Sendable(ctrl, data)
    ensures Imm4Payload(ctrl % 128, OnTheWire(ctrl, data)) == Some(data)
  {
    if ctrl % 128 == CTRL_POKE {
      var wire := PokeOnWire(data);
      assert wire[..4] == data[..4] && wire[8..] == data[4..];
      assert data == data[..4] + data[4..];
    }
  }

  lemma CallerSends(a: Engine, net: bv8, stn: bv8, ctrl: byte, data: seq<byte>, to: Peer)
    requires a.initialised && a.tx.cur.state != PENDING && Sendable(ctrl, data)
    requires Resolve(a.rx, net, stn) == Some(to) && !(a.test.enabled && stn == a.test.stn && net == a.test.net)
    ensures var (a', status) := Immediate(a, net, stn, ctrl, data, false, 0, true);
            var d := Datagram(TYPE_DATA, 0, ctrl % 128, a.tx.nextSeq, OnTheWire(ctrl, data));
            && status == AUN_OK && a'.initialised
            && a'.log == a.log + [Sent(to, d, true, Transmit(a.tx.txns + 1, a.tx.seqs))]
            && a'.tx.cur.state == PENDING && a'.tx.cur.kind == TYPE_DATA && a'.tx.cur.to == to && a'.tx.cur.dgram == d
  {
    hide Resolve, Finish;
  }

  lemma FarEndHolds(b: Engine, from: Peer, ctrl: byte, seqNo: u32, data: seq<byte>)
    requires b.initialised && b.imm.enabled && !b.imm.himm.active && Sendable(ctrl, data)
    requires !Replays(b.imm, ImmKey(from, seqNo, true), b.clock)
    ensures var b' := UdpInput(b, from, Encode(Datagram(TYPE_DATA, 0, ctrl % 128, seqNo, OnTheWire(ctrl, data))), true);
            && b'.imm.himm.active && b'.imm.himm.fromData && b'.imm.himm.data == data && b'.imm.himm.ctrl == ctrl % 128
            && b'.imm.himm.peer == from && b'.imm.himm.seqNo == seqNo && b'.clock == b.clock
            && b'.log == b.log + [Held(b.imm.holds + 1, ImmKey(from, seqNo, true), b.clock, ctrl % 128, data)]
  {
    var d := Datagram(TYPE_DATA, 0, ctrl % 128, seqNo, OnTheWire(ctrl, data));
    DecodeEncode(d);
    PayloadRoundTrip(ctrl, data);
    hide Encode, Decode, OnTheWire, ReceiveData, ReceiveReply, ReceiveBroadcast, ReceiveImmediate, Imm4Payload,
      Replays, ImmLenOk;
  }

  lemma HostReplies(b: Engine, reply: seq<byte>)
    requires b.imm.himm.active && b.imm.himm.fromData && |reply| <= HIMM_MAX
    ensures var h := b.imm.himm;
            var b' := Step(Step(b, DoImmPoll), DoImmReply(reply, true));
            b'.log == b.log + [Resolved(b.imm.holds, KeyOf(h), b.clock),
                               Sent(h.peer, Verdict(TYPE_ACK, 0, h.ctrl, h.seqNo), true, Answer)]
  {
    assert Step(b, DoImmPoll) == b.(imm := Take(b.imm));
    var b1 := b.(imm := Take(b.imm));
    assert ReplyCommand(b1.imm, reply, b1.clock, true) == Reply(b1.imm, reply, b1.clock, true);
    hide RxCollect, RxOpen, RxPoll, RxClose, UdpInput, TxStart, Immediate, Broadcast, Poll, Tick, Init, MapAdd;
  }

  lemma CallerCompletes(a: Engine, from: Peer, ctrl: byte)
    requires a.initialised && a.tx.cur.state == PENDING && a.tx.cur.kind == TYPE_DATA && a.tx.cur.to == from
    ensures var a' := UdpInput(a, from, Encode(Verdict(TYPE_ACK, 0, ctrl, a.tx.cur.dgram.seqNo)), true);
            a'.tx.cur.state == AUN_OK
  {
    DecodeEncode(Verdict(TYPE_ACK, 0, ctrl, a.tx.cur.dgram.seqNo));
    hide Encode, Decode, ReceiveData, ReceiveImm4, ReceiveBroadcast, ReceiveImmediate;
  }

  /** The whole exchange, byte strings on the wire in both directions. */
  lemma ImmediateRoundTrip(a: Engine, b: Engine, net: bv8, stn: bv8, ctrl: byte, data: seq<byte>,
                           atA: Peer, atB: Peer, reply: seq<byte>)
    requires a.initialised && a.tx.cur.state != PENDING && Sendable(ctrl, data) && |reply| <= HIMM_MAX
    requires Resolve(a.rx, net, stn) == Some(atB) && !(a.test.enabled && stn == a.test.stn && net == a.test.net)
    requires b.initialised && b.imm.enabled && !b.imm.himm.active
    requires !Replays(b.imm, ImmKey(atA, a.tx.nextSeq, true), b.clock)
    ensures var a1 := Immediate(a, net, stn, ctrl, data, false, 0, true).0;
            && |a1.log| > |a.log| && a1.log[|a.log|].Sent? && a1.log[|a.log|].to == atB
            && var b1 := UdpInput(b, atA, Encode(a1.log[|a.log|].d), true);
            && b1.imm.himm.active && b1.imm.himm.data == data && b1.imm.himm.ctrl == ctrl % 128
            && var b2 := Step(Step(b1, DoImmPoll), DoImmReply(reply, true));
            && |b2.log| == |b1.log| + 2 && b2.log[|b1.log| + 1].Sent? && b2.log[|b1.log| + 1].to == atA
            && var a2 := UdpInput(a1, atB, Encode(b2.log[|b1.log| + 1].d), true);
            a2.tx.cur.state == AUN_OK
  {
    hide Immediate, UdpInput, Step, Encode, Replays, Resolve;
    CallerSends(a, net, stn, ctrl, data, atB);
    FarEndHolds(b, atA, ctrl, a.tx.nextSeq, data);
    var a1 := Immediate(a, net, stn, ctrl, data, false, 0, true).0;
    var b1 := UdpInput(b, atA, Encode(a1.log[|a.log|].d), true);
    HostReplies(b1, reply);
    CallerCompletes(a1, atB, ctrl % 128);
  }

  // ---- an immediate that brings bytes back ----------------------------------------------

  /** A request the far end holds as type 5: a Peek, or any other that is neither a 4-way
      immediate nor a machine peek. */
  predicate Asked(ctrl: byte, data: seq<byte>) {
    !(2 <= ctrl % 128 <= 5) && ctrl % 128 != 8 && |data| <= HIMM_MAX && ImmLenOk(ctrl % 128, data)
  }

  lemma AskerSends(a: Engine, net: bv8, stn: bv8, ctrl: byte, data: seq<byte>, hasBuf: bool, replyMax: nat, to: Peer)
    requires a.initialised && a.tx.cur.state != PENDING && Asked(ctrl, data)
    requires Resolve(a.rx, net, stn) == Some(to) && !(a.test.enabled && stn == a.test.stn && net == a.test.net)
    ensures var a' := Immediate(a, net, stn, ctrl, data, hasBuf, replyMax, true).0;
            var d := Datagram(TYPE_IMMEDIATE, 0, ctrl % 128, a.tx.nextSeq, data);
            && a'.initialised && a'.log == a.log + [Sent(to, d, true, Transmit(a.tx.txns + 1, a.tx.seqs))]
            && a'.tx.cur.state == PENDING && a'.tx.cur.kind == TYPE_IMMEDIATE && a'.tx.cur.to == to &&
               a'.tx.cur.dgram == d
            && a'.tx.cur.hasBuf == hasBuf && a'.tx.cur.replyMax == replyMax
  {
    hide Resolve, Finish, ImmLenOk;
  }

  lemma FarEndHolds5(b: Engine, from: Peer, ctrl: byte, seqNo: u32, data: seq<byte>)
    requires b.initialised && b.imm.enabled && !b.imm.himm.active && Asked(ctrl, data)
    requires !Replays(b.imm, ImmKey(from, seqNo, false), b.clock)
    ensures var b' := UdpInput(b, from, Encode(Datagram(TYPE_IMMEDIATE, 0, ctrl % 128, seqNo, data)), true);
            && b'.imm.himm.active && !b'.imm.himm.fromData && b'.imm.himm.data == data && b'.imm.himm.ctrl == ctrl % 128
            && b'.imm.himm.peer == from && b'.imm.himm.seqNo == seqNo && b'.clock == b.clock
  {
    DecodeEncode(Datagram(TYPE_IMMEDIATE, 0, ctrl % 128, seqNo, data));
    hide Encode, Decode, ReceiveData, ReceiveReply, ReceiveBroadcast, ReceiveImm4, ImmLenOk, Replays;
  }

  lemma HostSendsBack(b: Engine, reply: seq<byte>)
    requires b.imm.himm.active && !b.imm.himm.fromData && |reply| <= HIMM_MAX
    ensures var h := b.imm.himm;
            var b' := Step(Step(b, DoImmPoll), DoImmReply(reply, true));
            b'.log == b.log + [Resolved(b.imm.holds, KeyOf(h), b.clock),
                               Sent(h.peer, Datagram(TYPE_IMM_REPLY, 0, h.ctrl % 128, h.seqNo, reply), true, Answer)]
  {
    assert Step(b, DoImmPoll) == b.(imm := Take(b.imm));
    var b1 := b.(imm := Take(b.imm));
    assert ReplyCommand(b1.imm, reply, b1.clock, true) == Reply(b1.imm, reply, b1.clock, true);
    hide RxCollect, RxOpen, RxPoll, RxClose, UdpInput, TxStart, Immediate, Broadcast, Poll, Tick, Init, MapAdd;
  }

  lemma AskerReads(a: Engine, from: Peer, ctrl: byte, reply: seq<byte>)
    requires a.initialised && a.tx.cur.state == PENDING && a.tx.cur.kind == TYPE_IMMEDIATE && a.tx.cur.to == from
    ensures var c := a.tx.cur;
            var c' := UdpInput(a, from, Encode(Datagram(TYPE_IMM_REPLY, 0, ctrl % 128, c.dgram.seqNo, reply)),
                               true).tx.cur;
            && c'.state == AUN_OK && c'.replyLen == Min(|reply|, c.replyMax)
            && (c.hasBuf ==> c'.reply == reply[..Min(|reply|, c.replyMax)])
  {
    DecodeEncode(Datagram(TYPE_IMM_REPLY, 0, ctrl % 128, a.tx.cur.dgram.seqNo, reply));
    hide Encode, Decode, ReceiveData, ReceiveImm4, ReceiveBroadcast, ReceiveImmediate;
  }

  /** A Peek, or any request answered by type 5: the far host is handed the caller's bytes,
      and the caller reads back the far host's, cut to the room it has. */
  lemma PeekRoundTrip(a: Engine, b: Engine, net: bv8, stn: bv8, ctrl: byte, data: seq<byte>, replyMax: nat,
                      atA: Peer, atB: Peer, reply: seq<byte>)
    requires a.initialised && a.tx.cur.state != PENDING && Asked(ctrl, data) && |reply| <= HIMM_MAX
    requires Resolve(a.rx, net, stn) == Some(atB) && !(a.test.enabled && stn == a.test.stn && net == a.test.net)
    requires b.initialised && b.imm.enabled && !b.imm.himm.active
    requires !Replays(b.imm, ImmKey(atA, a.tx.nextSeq, false), b.clock)
    ensures var a1 := Immediate(a, net, stn, ctrl, data, true, replyMax, true).0;
            var b1 := Received(b, atA, atB, a1.log);
            var b2 := Step(Step(b1, DoImmPoll), DoImmReply(reply, true));
            var c := Received(a1, atB, atA, b2.log).tx.cur;
            && b1.imm.himm.active && b1.imm.himm.data == data && b1.imm.himm.ctrl == ctrl % 128
            && c.state == AUN_OK && c.replyLen == Min(|reply|, replyMax) && c.reply == reply[..Min(|reply|, replyMax)]
  {
    hide Immediate, UdpInput, Step, Encode, Replays, Resolve, Asked;
    AskerSends(a, net, stn, ctrl, data, true, replyMax, atB);
    FarEndHolds5(b, atA, ctrl, a.tx.nextSeq, data);
    var a1 := Immediate(a, net, stn, ctrl, data, true, replyMax, true).0;
    var b1 := Received(b, atA, atB, a1.log);
    HostSendsBack(b1, reply);
    AskerReads(a1, atB, ctrl % 128, reply);
  }

  /** The engine once it has received what `log` ends with, if that went to `to`. */
  function Received(e: Engine, from: Peer, to: Peer, log: seq<Item>): Engine {
    if log != [] && log[|log| - 1].Sent? && log[|log| - 1].to == to
    then UdpInput(e, from, Encode(log[|log| - 1].d), true) else e
  }
}
