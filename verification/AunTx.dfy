/** The transmit side of the AUN engine (src/AUN/aun.c): one outstanding
    transaction with bounded reject retries. */
module AunTx {
  import opened Bytes
  import opened AunTypes

  /** `cur`, `nextSeq`, `ok` and `fail` are the engine's. The rest is history: accepted
      transmits ever and at initialisation, sequence numbers allocated since
      initialisation, and the index of the one `cur` was given. */
  datatype TxSide = TxSide(cur: Tx, nextSeq: u32, ok: u32, fail: u32,
                           txns: nat, base: nat, seqs: nat, alloc: nat)

  const EMPTY_TX := TxSide(IDLE_TX, 0, 0, 0, 0, 0, 0, 0)

  function Finish(t: TxSide, state: byte): TxSide {
    var t' := t.(cur := t.cur.(state := state));
    if state == AUN_OK then t'.(ok := Add32(t.ok, 1)) else t'.(fail := Add32(t.fail, 1))
  }

  function AllocSeq(t: TxSide): TxSide {
    t.(nextSeq := Add32(t.nextSeq, 4), seqs := t.seqs + 1)
  }

  /** The outcome of a transmit to the loopback responder. */
  function Looped(t: TxSide, state: byte, replyLen: nat, reply: seq<byte>): TxSide {
    Finish(t.(txns := t.txns + 1, cur := t.cur.(hasBuf := false, replyLen := replyLen, reply := reply)), state)
  }

  /** Puts a new transaction on the wire. */
  function Launch(t: TxSide, kind: byte, to: Peer, ctrl: byte, port: byte, data: seq<byte>,
                  hasBuf: bool, replyMax: nat, clock: nat, ok: bool): Out<TxSide> {
    var d := Datagram(kind, port, ctrl % 128, t.nextSeq, data);
    var cur := Tx(PENDING, kind, to, d, if ok then clock + NORESP_TIMEOUT_MS else t.cur.deadline, NORESP_RETRIES,
                  if kind == TYPE_DATA then REJECT_RETRIES else 0, false, hasBuf, replyMax, 0, []);
    var t' := AllocSeq(t).(cur := cur, txns := t.txns + 1, alloc := t.seqs);
    Out(if ok then t' else Finish(t', TX_NET_ERROR), [Sent(to, d, ok, Transmit(t.txns + 1, t.seqs))])
  }

  /** An ACK, NAK or immediate reply counts only for the pending transmit it
      names, and only from the peer that transmit went to. */
  function ReceiveReply(t: TxSide, src: Peer, d: Datagram, clock: nat): TxSide {
    var c := t.cur;
    if c.state != PENDING || d.seqNo != c.dgram.seqNo || src != c.to then t
    else if d.kind == TYPE_NAK then
      if c.rejectLeft > 0 then
        t.(cur := c.(rejectLeft := c.rejectLeft - 1, rejectPending := true, deadline := clock + REJECT_TIMEOUT_MS))
      else Finish(t, TX_NOT_LISTENING)
    else if d.kind == TYPE_ACK then
      if c.kind == TYPE_DATA then Finish(t, AUN_OK) else t
    else if c.kind == TYPE_IMMEDIATE then
      var n := if |d.data| < c.replyMax then |d.data| else c.replyMax;
      Finish(t.(cur := c.(replyLen := n, reply := if c.hasBuf then d.data[..n] else c.reply)), AUN_OK)
    else t
  }

  /** Puts the pending datagram on the wire again. */
  function Resend(t: TxSide, clock: nat, ok: bool): Out<TxSide> {
    Out(if ok then t.(cur := t.cur.(deadline := clock + NORESP_TIMEOUT_MS)) else Finish(t, TX_NET_ERROR),
        [Sent(t.cur.to, t.cur.dgram, ok, Transmit(t.txns, t.alloc))])
  }

  /** The transmit half of a poll: a scheduled reject retransmit, or the end of
      the silence window. */
  function Timer(t: TxSide, clock: nat, ok: bool): Out<TxSide> {
    var c := t.cur;
    if c.state != PENDING || clock < c.deadline then Out(t, [])
    else if c.rejectPending then Resend(t.(cur := c.(rejectPending := false)), clock, ok)
    else if c.norespLeft == 0 then Out(Finish(t, TX_NOT_LISTENING), [])
    else Resend(t.(cur := c.(norespLeft := c.norespLeft - 1)), clock, ok)
  }
}
