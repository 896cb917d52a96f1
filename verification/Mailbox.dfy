/** The one-slot command mailbox between the FIQ handler and the main loop
    (src/net_service.c): the latch is atomic and may fall between any two steps of
    the poll, as may a reset. */
module Mailbox {
  import opened Bytes

  const BUSY: byte := 0x80
  const HANDLES := 8

  /** A command as the FIQ handler receives it: command pointer, address of the
      result register, data byte. */
  datatype Cmd = Cmd(cp: u32, addr: u32, data: byte)

  const NO_CMD := Cmd(0, 0, 0)

  /** Where the poll is: at rest, tearing handles down after a reset, testing the
      pending flag, reading the slot field by field, clearing the flag,
      dispatching, writing the result back. */
  datatype Pc =
    | Idle
    | Tearing(i: nat)
    | Testing
    | ReadCp
    | ReadAddr(cp: u32)
    | ReadData(cp: u32, addr: u32)
    | Clearing(cmd: Cmd)
    | Dispatching(cmd: Cmd)
    | Writing(cmd: Cmd, result: byte)

  /** `latched`, `dispatched` and `results` are history: the commands latched, those
      dispatched, and the results written back. */
  datatype Box = Box(pending: bool, slot: Cmd, resetting: bool, regs: map<u32, byte>, pc: Pc,
                     latched: seq<Cmd>, dispatched: seq<Cmd>, results: seq<byte>)

  const START := Box(false, NO_CMD, false, map[], Idle, [], [], [])

  /** A result register; it reads 0 before anything is written to it. */
  function Reg(regs: map<u32, byte>, addr: u32): byte {
    if addr in regs then regs[addr] else 0
  }

  predicate Bit7(v: byte) {
    v >= 128
  }

  function Latch(b: Box, c: Cmd): Box {
    b.(pending := true, slot := c, regs := b.regs[c.addr := BUSY], latched := b.latched + [c])
  }

  /** One step of the poll; `result` is what dispatching returns, should the step
      be a dispatch. */
  function PollStep(b: Box, result: byte): Box {
    match b.pc
    case Idle => b.(pc := if b.resetting then Tearing(0) else Testing)
    case Tearing(i) =>
      if i < HANDLES then b.(pc := Tearing(i + 1)) else b.(resetting := false, pc := Testing)
    case Testing => b.(pc := if b.pending then ReadCp else Idle)
    case ReadCp => b.(pc := ReadAddr(b.slot.cp))
    case ReadAddr(cp) => b.(pc := ReadData(cp, b.slot.addr))
    case ReadData(cp, addr) => b.(pc := Clearing(Cmd(cp, addr, b.slot.data)))
    case Clearing(cmd) => b.(pending := false, pc := Dispatching(cmd))
    case Dispatching(cmd) => b.(dispatched := b.dispatched + [cmd], pc := Writing(cmd, result))
    case Writing(cmd, r) => b.(regs := b.regs[cmd.addr := r], results := b.results + [r], pc := Idle)
  }

  datatype Event = DoLatch(c: Cmd) | DoReset | DoPoll(result: byte)

  function Step(b: Box, ev: Event): Box {
    match ev
    case DoLatch(c) => Latch(b, c)
    case DoReset => b.(resetting := true)
    case DoPoll(result) => PollStep(b, result)
  }

  function Exec(run: seq<Event>): Box {
    if run == [] then START else Step(Exec(run[..|run| - 1]), run[|run| - 1])
  }

  /** No command's result has bit 7 set: every NET_* code but BUSY is below 0x80. */
  predicate Sound(run: seq<Event>) {
    forall i :: 0 <= i < |run| && run[i].DoPoll? ==> !Bit7(run[i].result)
  }

  // ---- BUSY is never stranded, whatever the host does -----------------------

  /** Every command comes through the services port, whose result register is at
      one address. */
  predicate OnePort(run: seq<Event>, addr: u32) {
    forall i :: 0 <= i < |run| && run[i].DoLatch? ==> run[i].c.addr == addr
  }

  predicate Reading(pc: Pc) {
    pc.ReadCp? || pc.ReadAddr? || pc.ReadData? || pc.Clearing?
  }

  /** The poll will write to `addr` without further conditions. */
  predicate AboutToWrite(b: Box, addr: u32) {
    (b.pc.Dispatching? || b.pc.Writing?) && b.pc.cmd.addr == addr
  }

  ghost predicate BusyInv(b: Box, addr: u32) {
    && (b.pending ==> b.slot.addr == addr)
    && (Reading(b.pc) ==> b.pending)
    && (b.pc.ReadData? ==> b.pc.addr == addr)
    && (b.pc.Clearing? || b.pc.Dispatching? || b.pc.Writing? ==> b.pc.cmd.addr == addr)
    && (b.pc.Writing? ==> !Bit7(b.pc.result))
    && (Bit7(Reg(b.regs, addr)) ==> b.pending || AboutToWrite(b, addr))
  }

  lemma {:induction false} BusyInvHolds(run: seq<Event>, addr: u32)
    requires Sound(run) && OnePort(run, addr)
    ensures BusyInv(Exec(run), addr)
  {
    if run != [] {
      BusyInvHolds(run[..|run| - 1], addr);
    }
  }

  /** In every interleaving: while the register says BUSY, a command is pending or
      a poll is about to write a result with bit 7 clear. */
  lemma BusyNeverStranded(run: seq<Event>, addr: u32)
    requires Sound(run) && OnePort(run, addr)
    ensures var b := Exec(run);
            Bit7(Reg(b.regs, addr)) ==>
              b.pending || (AboutToWrite(b, addr) && (b.pc.Writing? ==> !Bit7(b.pc.result)))
  {
    BusyInvHolds(run, addr);
  }

  /** Steps a poll still has to take before it rests. */
  function Left(b: Box): nat {
    match b.pc
    case Idle => 0
    case Tearing(i) => if i < HANDLES then HANDLES - i + 8 else 8
    case Testing => 7
    case ReadCp => 6
    case ReadAddr(_) => 5
    case ReadData(_, _) => 4
    case Clearing(_) => 3
    case Dispatching(_) => 2
    case Writing(_, _) => 1
  }

  lemma LeftFalls(b: Box, result: byte)
    requires !b.pc.Idle?
    ensures Left(PollStep(b, result)) < Left(b)
  {
  }

  /** The rest of the poll under way, undisturbed, whatever it dispatches. */
  function Finish(b: Box, result: byte): Box
    decreases Left(b)
  {
    if b.pc.Idle? then b
    else
      LeftFalls(b, result);
      Finish(PollStep(b, result), result)
  }

  /** One whole undisturbed poll. */
  function WholePoll(b: Box, result: byte): Box {
    Finish(PollStep(b, result), result)
  }

  lemma {:induction false} FinishKeeps(b: Box, result: byte, addr: u32)
    requires BusyInv(b, addr) && !Bit7(result)
    ensures BusyInv(Finish(b, result), addr) && Finish(b, result).pc.Idle?
    ensures b.pc.Testing? || b.pc.Tearing? || Reading(b.pc) ==> !Finish(b, result).pending
    decreases Left(b)
  {
    if !b.pc.Idle? {
      FinishKeeps(PollStep(b, result), result, addr);
      FinishSettles(b, result);
    }
  }

  lemma {:induction false} FinishSettles(b: Box, result: byte)
    ensures !b.pending && !Reading(b.pc) ==> !Finish(b, result).pending
    ensures b.pc.Testing? || b.pc.Tearing? || Reading(b.pc) ==> !Finish(b, result).pending
    decreases Left(b)
  {
    if !b.pc.Idle? {
      FinishSettles(PollStep(b, result), result);
    }
  }

  /** From every reachable state, the rest of the poll under way and one more
      whole poll clear BUSY, if no further command arrives. */
  lemma BusyClears(run: seq<Event>, addr: u32, result: byte)
    requires Sound(run) && OnePort(run, addr) && !Bit7(result)
    ensures var b := WholePoll(Finish(Exec(run), result), result);
            !b.pending && !Bit7(Reg(b.regs, addr))
  {
    BusyInvHolds(run, addr);
    var b := Finish(Exec(run), result);
    FinishKeeps(Exec(run), result, addr);
    FinishKeeps(PollStep(b, result), result, addr);
  }

  // ---- a host that waits gets each command done once ------------------------

  /** Is the register of the last command still BUSY? */
  predicate Waiting(b: Box) {
    b.latched != [] && Bit7(Reg(b.regs, b.latched[|b.latched| - 1].addr))
  }

  /** The host issues a command only once bit 7 of the last one's register is clear. */
  predicate Waits(run: seq<Event>) {
    forall i :: 0 <= i < |run| && run[i].DoLatch? ==> !Waiting(Exec(run[..i]))
  }

  function Outstanding(b: Box): seq<Cmd> {
    if b.pending then [b.slot] else if b.pc.Dispatching? then [b.pc.cmd] else []
  }

  ghost predicate OnceInv(b: Box) {
    && b.latched == b.dispatched + Outstanding(b)
    && (Waiting(b) <==> b.pending || b.pc.Dispatching? || b.pc.Writing?)
    && (b.pending ==> !b.pc.Dispatching? && !b.pc.Writing?)
    && (Reading(b.pc) ==> b.pending)
    && (b.pc.ReadAddr? ==> b.pc.cp == b.slot.cp)
    && (b.pc.ReadData? ==> b.pc.cp == b.slot.cp && b.pc.addr == b.slot.addr)
    && (b.pc.Clearing? ==> b.pc.cmd == b.slot)
    && (b.pc.Writing? ==> !Bit7(b.pc.result) && b.dispatched != [] && b.pc.cmd == b.dispatched[|b.dispatched| - 1])
    && |b.dispatched| == |b.results| + (if b.pc.Writing? then 1 else 0)
    && (b.results != [] && !Waiting(b) ==>
          Reg(b.regs, b.latched[|b.latched| - 1].addr) == b.results[|b.results| - 1])
  }

  lemma {:induction false} OnceInvHolds(run: seq<Event>)
    requires Sound(run) && Waits(run)
    ensures OnceInv(Exec(run))
  {
    if run != [] {
      var n := |run| - 1;
      forall i | 0 <= i < n && run[..n][i].DoLatch? ensures !Waiting(Exec(run[..n][..i])) {
        assert run[..n][..i] == run[..i];
      }
      OnceInvHolds(run[..n]);
      OnceStep(Exec(run[..n]), run[n]);
    }
  }

  lemma OnceStep(b: Box, ev: Event)
    requires OnceInv(b) && (ev.DoLatch? ==> !Waiting(b)) && (ev.DoPoll? ==> !Bit7(ev.result))
    ensures OnceInv(Step(b, ev))
  {
    match ev
    case DoLatch(c) => LatchOnce(b, c);
    case DoReset =>
    case DoPoll(result) =>
      if b.pc.Dispatching? {
        DispatchOnce(b, result);
      } else if b.pc.Writing? {
        WriteOnce(b, result);
      } else {
        OtherStepsOnce(b, result);
      }
  }

  lemma LatchOnce(b: Box, c: Cmd)
    requires OnceInv(b) && !Waiting(b)
    ensures OnceInv(Latch(b, c))
  {
    assert b.dispatched + [] == b.dispatched;
  }

  lemma DispatchOnce(b: Box, result: byte)
    requires OnceInv(b) && b.pc.Dispatching? && !Bit7(result)
    ensures OnceInv(PollStep(b, result))
  {
    var b' := PollStep(b, result);
    assert b'.dispatched + [] == b'.dispatched;
  }

  lemma WriteOnce(b: Box, result: byte)
    requires OnceInv(b) && b.pc.Writing?
    ensures OnceInv(PollStep(b, result))
  {
    assert b.dispatched + [] == b.dispatched;
  }

  lemma OtherStepsOnce(b: Box, result: byte)
    requires OnceInv(b) && !b.pc.Dispatching? && !b.pc.Writing?
    ensures OnceInv(PollStep(b, result))
  {
    hide Reg, Bit7;
    if b.pc.Clearing? {
      var b' := PollStep(b, result);
      assert Outstanding(b') == Outstanding(b) && Waiting(b') == Waiting(b);
    } else {
      QuietStep(b, result);
      hide PollStep;
      var b' := PollStep(b, result);
      assert Outstanding(b') == Outstanding(b) && Waiting(b') == Waiting(b);
    }
  }

  /** Steps that only move the poll along, remembering what they read. */
  lemma QuietStep(b: Box, result: byte)
    requires !b.pc.Clearing? && !b.pc.Dispatching? && !b.pc.Writing? && (Reading(b.pc) ==> b.pending)
    ensures var b' := PollStep(b, result);
            && b' == b.(resetting := b'.resetting, pc := b'.pc)
            && !b'.pc.Dispatching? && !b'.pc.Writing? && (Reading(b'.pc) ==> b.pending)
            && (b'.pc.ReadAddr? ==> b'.pc.cp == b.slot.cp)
            && (b'.pc.ReadData? ==> b.pc.ReadAddr? && b'.pc.cp == b.pc.cp && b'.pc.addr == b.slot.addr)
            && (b'.pc.Clearing? ==> b.pc.ReadData? && b'.pc.cmd == Cmd(b.pc.cp, b.pc.addr, b.slot.data))
  {
  }

  /** With a waiting host every command is dispatched exactly once, whole and in
      order, resets or not; and a register that reads clear holds the result of
      the host's own last command. */
  lemma EachCommandOnce(run: seq<Event>)
    requires Sound(run) && Waits(run)
    ensures var b := Exec(run);
            && b.latched == b.dispatched + Outstanding(b)
            && (!Waiting(b) ==> b.latched == b.dispatched && |b.results| == |b.latched| &&
                                (b.latched != [] ==>
                                   Reg(b.regs, b.latched[|b.latched| - 1].addr) == b.results[|b.results| - 1]))
  {
    OnceInvHolds(run);
    var b := Exec(run);
    assert b.dispatched + [] == b.dispatched;
  }

  // ---- what a host that does not wait gets ------------------------------------

  /** The poll has read part of the slot. */
  predicate Midway(pc: Pc) {
    pc.ReadAddr? || pc.ReadData?
  }

  ghost predicate WholeInv(b: Box) {
    && (b.pending ==> b.slot in b.latched)
    && (Reading(b.pc) ==> b.pending)
    && (b.pc.ReadAddr? ==> b.pc.cp == b.slot.cp)
    && (b.pc.ReadData? ==> b.pc.cp == b.slot.cp && b.pc.addr == b.slot.addr)
    && (b.pc.Clearing? || b.pc.Dispatching? ==> b.pc.cmd in b.latched)
    && (forall k :: 0 <= k < |b.dispatched| ==> b.dispatched[k] in b.latched)
  }

  lemma WholeStep(b: Box, ev: Event)
    requires WholeInv(b) && (ev.DoLatch? ==> !Midway(b.pc))
    ensures WholeInv(Step(b, ev))
  {
  }

  /** However the host behaves: if no latch falls while the slot is half read, every
      command dispatched is one that was latched. */
  lemma {:induction false} WholeUnlessMidway(run: seq<Event>)
    requires forall i :: 0 <= i < |run| && run[i].DoLatch? ==> !Midway(Exec(run[..i]).pc)
    ensures WholeInv(Exec(run))
    ensures forall k :: 0 <= k < |Exec(run).dispatched| ==> Exec(run).dispatched[k] in Exec(run).latched
  {
    if run != [] {
      hide Step;
      var n := |run| - 1;
      forall i | 0 <= i < n && run[..n][i].DoLatch? ensures !Midway(Exec(run[..n][..i]).pc) {
        assert run[..n][..i] == run[..i];
      }
      WholeUnlessMidway(run[..n]);
      WholeStep(Exec(run[..n]), run[n]);
    }
  }

  function Latches(b: Box, cs: seq<Cmd>): Box {
    if cs == [] then b else Latch(Latches(b, cs[..|cs| - 1]), cs[|cs| - 1])
  }

  /** The command in the slot once `cs` were latched over `c`. */
  function Latest(c: Cmd, cs: seq<Cmd>): Cmd {
    if cs == [] then c else cs[|cs| - 1]
  }

  lemma {:induction false} LatchesKeep(b: Box, cs: seq<Cmd>)
    ensures Latches(b, cs).pc == b.pc && Latches(b, cs).slot == Latest(b.slot, cs)
  {
    if cs != [] {
      LatchesKeep(b, cs[..|cs| - 1]);
    }
  }

  /** Exactly what a poll reads out of the slot, with `early` latched after it has read the
      command pointer and `late` after it has read the address: the parts of up to three
      commands. It is the command it began with if and only if address and data are. */
  lemma WhatIsRead(b: Box, early: seq<Cmd>, late: seq<Cmd>, result: byte)
    requires b.pc.ReadCp?
    ensures var b1 := Latches(PollStep(b, result), early);
            var b2 := Latches(PollStep(b1, result), late);
            var first, second, third := b.slot, Latest(b.slot, early), Latest(Latest(b.slot, early), late);
            && PollStep(b2, result).pc == Clearing(Cmd(first.cp, second.addr, third.data))
            && (PollStep(b2, result).pc.cmd == first <==> second.addr == first.addr && third.data == first.data)
  {
    var b0 := PollStep(b, result);
    LatchesKeep(b0, early);
    var b1 := PollStep(Latches(b0, early), result);
    LatchesKeep(b1, late);
    hide Latches;
  }

  lemma ExecMore(run: seq<Event>, ev: Event)
    ensures Exec([]) == START && Exec(run + [ev]) == Step(Exec(run), ev)
  {
    assert (run + [ev])[..|run|] == run;
  }

  /** Three undisturbed steps of the poll. */
  lemma ExecThree(run: seq<Event>, p: Event)
    ensures Exec(run + [p, p, p]) == Step(Step(Step(Exec(run), p), p), p)
  {
    hide Exec, Step;
    ExecMore(run, p);
    ExecMore(run + [p], p);
    ExecMore(run + [p] + [p], p);
    assert run + [p] + [p] + [p] == run + [p, p, p];
  }

  /** Without waiting, a latch between two reads of the slot makes the poll dispatch
      a command nobody issued. */
  lemma TornWithoutWaiting()
    ensures exists run :: Sound(run) && OnePort(run, 9) &&
                          Exec(run).dispatched == [Cmd(1, 9, 2)] && Exec(run).latched == [Cmd(1, 9, 1), Cmd(2, 9, 2)]
  {
    hide Exec;
    var p := DoPoll(0);
    var r1 := [] + [DoLatch(Cmd(1, 9, 1))];
    var r2 := r1 + [p, p, p];
    var r3 := r2 + [DoLatch(Cmd(2, 9, 2))];
    var run := r3 + [p, p, p] + [p];
    ExecMore([], DoLatch(Cmd(1, 9, 1)));
    ExecThree(r1, p);
    ExecMore(r2, DoLatch(Cmd(2, 9, 2)));
    ExecThree(r3, p);
    ExecMore(r3 + [p, p, p], p);
    assert Sound(run) && OnePort(run, 9);
  }
}
