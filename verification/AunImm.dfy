/** Host-executed immediates (src/AUN/aun.c): a one-slot hold, the replay cache
    and the generation guard of src/AUN/aun_emulator.c. */
module AunImm {
  import opened Bytes
  import opened AunTypes

  /** `holds` (immediates ever held) and `polled` (`holds` when the host last
      polled) are history. */
  datatype ImmSide = ImmSide(enabled: bool, himm: HostImm, cache: Cache, holds: nat, polled: nat)

  const EMPTY_IMM := ImmSide(false, NO_IMM, NO_CACHE, 0, 0)

  function Configure(m: ImmSide, enable: bool): ImmSide {
    m.(enabled := enable, himm := m.himm.(active := false), cache := m.cache.(valid := false))
  }

  /** Is a payload long enough, and not too long, for the operation it claims? */
  predicate ImmLenOk(ctrl: byte, data: seq<byte>) {
    if ctrl == 1 then
      |data| >= 6 && FromLe16(data[4..]) >= FromLe16(data) &&
      FromLe16(data[4..]) - FromLe16(data) <= HIMM_MAX
    else if ctrl == 2 then |data| >= 4
    else if 3 <= ctrl <= 5 then 2 <= |data| <= 4 + 386
    else true
  }

  predicate Replays(m: ImmSide, key: ImmKey, clock: nat) {
    m.cache.valid && CacheKey(m.cache) == key && clock < m.cache.due
  }

  /** Takes the free slot for a fresh immediate. */
  function Hold(m: ImmSide, key: ImmKey, ctrl: byte, data: seq<byte>, clock: nat): Out<ImmSide> {
    Out(m.(himm := HostImm(true, key.fromData, ctrl, key.seqNo, key.peer, data, clock + HIMM_TIMEOUT_MS,
                           Add32(m.himm.gen, 1), m.himm.polledGen), holds := m.holds + 1),
        [Held(m.holds + 1, key, clock, ctrl, data)])
  }

  /** The payload an inbound 4-way immediate is held with: a Poke loses the byte
      count its wire form carries. */
  function Imm4Payload(ctrl: byte, data: seq<byte>): Option<seq<byte>> {
    if ctrl == CTRL_POKE then
      if |data| < 8 then None else Some(data[..4] + data[8..])
    else if ImmLenOk(ctrl, data) then Some(data) else None
  }

  /** A Poke, JSR, UserProc or OSProc carried as DATA to port 0. */
  function ReceiveImm4(m: ImmSide, src: Peer, d: Datagram, clock: nat, ok: bool): Out<ImmSide> {
    var key := ImmKey(src, d.seqNo, true);
    var p := Imm4Payload(d.ctrl, d.data);
    if !m.enabled || p.None? || |p.value| > HIMM_MAX then
      Out(m, Answered(src, Verdict(TYPE_NAK, 0, d.ctrl, d.seqNo), ok))
    else if Replays(m, key, clock) then
      Out(m, Answered(src, Verdict(if m.cache.isNak then TYPE_NAK else TYPE_ACK, 0, d.ctrl, d.seqNo), ok))
    else if m.himm.active then Out(m, [])
    else Hold(m, key, d.ctrl, p.value, clock)
  }

  function ImmReply(ctrl: byte, seqNo: u32, data: seq<byte>): Datagram {
    Datagram(TYPE_IMM_REPLY, 0, ctrl % 128, seqNo, data)
  }

  /** A type-5 immediate other than a machine peek. */
  function ReceiveImmediate(m: ImmSide, src: Peer, d: Datagram, clock: nat, ok: bool): Out<ImmSide> {
    var key := ImmKey(src, d.seqNo, false);
    var nak := Verdict(TYPE_NAK, d.port, d.ctrl, d.seqNo);
    if !m.enabled || |d.data| > HIMM_MAX || !ImmLenOk(d.ctrl, d.data) then Out(m, Answered(src, nak, ok))
    else if m.himm.active then
      Out(m, if m.himm.peer == src && m.himm.seqNo == d.seqNo then [] else Answered(src, nak, ok))
    else if Replays(m, key, clock) then
      Out(m, Answered(src, if m.cache.isNak then nak else ImmReply(m.cache.ctrl, d.seqNo, m.cache.data), ok))
    else Hold(m, key, d.ctrl, d.data, clock)
  }

  /** Releases the slot with outcome `d`, remembered for replay. */
  function Settle(m: ImmSide, d: Datagram, isNak: bool, data: seq<byte>, clock: nat, ok: bool): Out<ImmSide> {
    var h := m.himm;
    Out(m.(himm := h.(active := false),
        cache := Cache(true, isNak, h.fromData, h.ctrl, h.seqNo, h.peer, data, clock + HIMM_CACHE_MS)),
        [Resolved(m.holds, KeyOf(h), clock), Sent(h.peer, d, ok, Answer)])
  }

  /** The host answers the held immediate. */
  function Reply(m: ImmSide, data: seq<byte>, clock: nat, ok: bool): Out<ImmSide> {
    var h := m.himm;
    var body := if |data| > HIMM_MAX then data[..HIMM_MAX] else data;
    if !h.active then Out(m, [])
    else if h.fromData then Settle(m, Verdict(TYPE_ACK, 0, h.ctrl, h.seqNo), false, [], clock, ok)
    else Settle(m, ImmReply(h.ctrl, h.seqNo, body), false, body, clock, ok)
  }

  /** The host takes the held immediate to execute it. */
  function Take(m: ImmSide): ImmSide {
    if !m.himm.active then m
    else m.(himm := m.himm.(polledGen := m.himm.gen), polled := m.holds)
  }

  /** The host's reply command reaches only the generation last polled. */
  function ReplyCommand(m: ImmSide, data: seq<byte>, clock: nat, ok: bool): Out<ImmSide> {
    if |data| <= HIMM_MAX && m.himm.active && m.himm.gen == m.himm.polledGen
    then Reply(m, data, clock, ok) else Out(m, [])
  }

  /** The immediate half of a poll: refuses a hold the host never answered. */
  function Reap(m: ImmSide, clock: nat, ok: bool): Out<ImmSide> {
    if m.himm.active && clock >= m.himm.due
    then Settle(m, Verdict(TYPE_NAK, 0, m.himm.ctrl, m.himm.seqNo), true, [], clock, ok)
    else Out(m, [])
  }
}
