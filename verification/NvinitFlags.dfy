/** The execute flag over whole runs: between instructions it is 1 or 3, and
    while it is 3 the device is left alone except by RESET, I2C_IF and
    I2C_LONG_IF. */
module NvinitFlags {
  import opened Words
  import opened Wrappers
  import opened Nvinit
  import opened NvinitRun
  import opened NvinitInvariants
  import opened NvinitStructured

  predicate Settled(s: Sem) {
    s.execute == 1 || s.execute == 3
  }

  /** The instructions that reach the device whatever the flag says. */
  predicate IgnoresFlag(op: Op) {
    op.Reset? || op.I2cIf? || op.I2cLongIf?
  }

  // ---- one instruction -------------------------------------------------------

  /** Flag and strap are as they were. */
  predicate OnlyTrace(s: Sem, s': Sem) {
    s'.execute == s.execute && s'.strap == s.strap
  }

  lemma {:induction false} WriteAllKeeps(s: Sem, addr: nat, step: nat, words: seq<word>)
    ensures OnlyTrace(s, WriteAll(s, addr, step, words))
    ensures !Enabled(s) ==> WriteAll(s, addr, step, words) == s
    decreases |words|
  {
    if words != [] { WriteAllKeeps(RegWr(s, addr, words[0]), addr + step, step, words[1..]); }
  }

  lemma {:induction false} WriteColumnKeeps(s: Sem, addr: nat, incr: nat, rows: seq<seq<word>>, index: nat)
    ensures OnlyTrace(s, WriteColumn(s, addr, incr, rows, index))
    ensures !Enabled(s) ==> WriteColumn(s, addr, incr, rows, index) == s
    decreases |rows|
  {
    if rows != [] {
      var s' := if index < |rows[0]| then RegWr(s, addr, rows[0][index]) else s;
      WriteColumnKeeps(s', addr + incr, incr, rows[1..], index);
    }
  }

  lemma {:induction false} SendPairsKeeps(d: Device, s: Sem, bus: byte, dev: byte, pairs: seq<(byte, byte)>)
    ensures OnlyTrace(s, SendPairs(d, s, bus, dev, pairs))
    ensures !Enabled(s) ==> SendPairs(d, s, bus, dev, pairs) == s
    decreases |pairs|
  {
    if pairs != [] {
      var s' := if Enabled(s) then Transfer(d, s, bus, dev, [Send([pairs[0].0, pairs[0].1])]).1 else s;
      SendPairsKeeps(d, s', bus, dev, pairs[1..]);
    }
  }

  lemma {:induction false} MaskTriplesKeeps(d: Device, s: Sem, bus: byte, dev: byte, triples: seq<(byte, byte, byte)>)
    ensures OnlyTrace(s, MaskTriples(d, s, bus, dev, triples))
    ensures !Enabled(s) ==> MaskTriples(d, s, bus, dev, triples) == s
    decreases |triples|
  {
    if triples != [] {
      MaskTriplesKeeps(d, if Enabled(s) then MaskI2c(d, s, bus, dev, triples[0]) else s, bus, dev, triples[1..]);
    }
  }

  lemma VgaKeeps(d: Device, s: Sem, port: nat, index: nat, val: nat)
    ensures OnlyTrace(s, VgaWr(s, port, index, val))
    ensures OnlyTrace(s, VgaRd(d, s, port, index).1)
    ensures !Enabled(s) ==> VgaWr(s, port, index, val) == s && VgaRd(d, s, port, index).1 == s
  {
  }

  lemma {:induction false} WriteCrsKeeps(s: Sem, pairs: seq<(byte, byte)>)
    ensures OnlyTrace(s, WriteCrs(s, pairs))
    ensures !Enabled(s) ==> WriteCrs(s, pairs) == s
    decreases |pairs|
  {
    if pairs != [] { WriteCrsKeeps(VgaWr(s, 0x03d4, pairs[0].0, pairs[0].1), pairs[1..]); }
  }

  lemma {:induction false} LatchAllKeeps(s: Sem, addr0: byte, addr1: byte, base: byte, bytes: seq<byte>)
    ensures OnlyTrace(s, LatchAll(s, addr0, addr1, base, bytes))
    ensures !Enabled(s) ==> LatchAll(s, addr0, addr1, base, bytes) == s
    decreases |bytes|
  {
    if bytes != [] {
      var s' := VgaWr(VgaWr(s, 0x03d4, addr0, base), 0x03d4, addr1, bytes[0]);
      LatchAllKeeps(s', addr0, addr1, (base + 1) % 0x100, bytes[1..]);
    }
  }

  lemma {:induction false} PollKeeps(d: Device, s: Sem, test: Option<Test>, wait: nat)
    ensures OnlyTrace(s, Poll(d, s, test, wait).1)
    decreases wait
  {
    if wait > 0 && !Met(d, s, test).0 { PollKeeps(d, Met(d, s, test).1, test, wait - 1); }
  }

  lemma ResetGpioKeeps(d: Device, s: Sem, g: Gpio)
    ensures OnlyTrace(s, ResetGpio(d, s, g))
  {
  }

  lemma {:induction false} ResetGpiosKeeps(d: Device, s: Sem, gpios: seq<Gpio>, excluded: set<byte>)
    ensures OnlyTrace(s, ResetGpios(d, s, gpios, excluded))
    decreases |gpios|
  {
    if gpios != [] {
      var skip := gpios[0].func == 0xff || gpios[0].func in excluded;
      ResetGpioKeeps(d, s, gpios[0]);
      ResetGpiosKeeps(d, if skip then s else ResetGpio(d, s, gpios[0]), gpios[1..], excluded);
    }
  }

  lemma EnableVgaKeeps(d: Device, s: Sem)
    ensures OnlyTrace(s, EnableVga(d, s))
    ensures !Enabled(s) ==> EnableVga(d, s) == s
  {
  }

  lemma ResetEngineKeeps(d: Device, s: Sem, reg: nat, data1: word, data2: word)
    requires Settled(s)
    ensures OnlyTrace(s, ResetEngine(d, s, reg, data1, data2))
  {
    assert (s.execute | 4) & 0xfb == s.execute;
  }

  lemma FlagArithmetic(e: bv8)
    requires e == 1 || e == 3
    ensures e & 0xfd == 1 && e | 2 == 3 && e ^ 2 == 4 - e
    ensures (e | 4) & 0xfb == e && ((e | 4) | 2) & 0xfb == 3 && (e | 4) & 5 == 5 && (3 as bv8) & 5 == 1
  {
  }

  /** Settled again, silent if it was disabled and the instruction is not one
      of the three, and still disabled unless it was RESUME or NOT. A cached strap
      index is never replaced. */
  ghost predicate FlagKept(op: Op, s: Sem, s': Sem) {
    && Settled(s')
    && (s.strap.Some? ==> s'.strap == s.strap)
    && (s.execute == 3 && !IgnoresFlag(op) ==> s'.trace == s.trace)
    && (s.execute == 3 && !op.Resume? && !op.Not? ==> s'.execute == 3)
  }

  predicate IsGroup(op: Op) {
    op.WriteGroup? || op.WriteSequence? || op.RamRestrictGroup? || op.SendI2cBytes? || op.MaskI2cBytes? ||
    op.ZmCrs? || op.CrLatch? || op.GpioReset?
  }

  lemma GroupFlag(rom: Rom, d: Device, op: Op, s: Sem)
    requires Settled(s)
    requires IsGroup(op)
    ensures FlagKept(op, s, Effect(rom, d, op, s))
  {
    FlagArithmetic(s.execute);
    match op
    case WriteGroup(addr, words) => WriteAllKeeps(s, addr, 0, words);
    case WriteSequence(addr, words) => WriteAllKeeps(s, addr, 4, words);
    case RamRestrictGroup(addr, incr, rows) =>
      var (index, s') := RamcfgIndex(rom, d, s);
      WriteColumnKeeps(s', addr, incr, rows, index);
    case SendI2cBytes(bus, dev, pairs) => SendPairsKeeps(d, s, bus, dev, pairs);
    case MaskI2cBytes(bus, dev, triples) => MaskTriplesKeeps(d, s, bus, dev, triples);
    case ZmCrs(pairs) => WriteCrsKeeps(s, pairs);
    case CrLatch(addr0, addr1, base, bytes) =>
      var (save, s') := VgaRd(d, s, 0x03d4, addr0);
      LatchAllKeeps(s', addr0, addr1, base, bytes);
      VgaKeeps(d, LatchAll(s', addr0, addr1, base, bytes), 0x03d4, addr0, save);
    case GpioReset(excluded) => ResetGpiosKeeps(d, s, rom.gpios, excluded);
  }

  predicate IsCondition(op: Op) {
    op.Resume? || op.Not? || op.Condition? || op.IoCondition? || op.IoFlagCondition? || op.GenericCondition? ||
    op.ConditionTime?
  }

  lemma ConditionFlag(rom: Rom, d: Device, op: Op, s: Sem)
    requires Settled(s)
    requires IsCondition(op)
    ensures FlagKept(op, s, Effect(rom, d, op, s))
  {
    FlagArithmetic(s.execute);
    match op
    case ConditionTime(test, retry) => PollKeeps(d, s, test, if retry * 50 < 100 then retry * 50 else 100);
    case _ =>
  }

  lemma ForcedFlag(rom: Rom, d: Device, op: Op, s: Sem)
    requires Settled(s) && IgnoresFlag(op)
    ensures FlagKept(op, s, Effect(rom, d, op, s))
  {
    FlagArithmetic(s.execute);
    match op
    case Reset(reg, data1, data2) => ResetEngineKeeps(d, s, reg, data1, data2);
    case _ =>
  }

  lemma PlainFlag(rom: Rom, d: Device, op: Op, s: Sem)
    requires Settled(s) && !IsGroup(op) && !IsCondition(op) && !IgnoresFlag(op)
    ensures FlagKept(op, s, Effect(rom, d, op, s))
  {
    hide Merge, NvReg, ShiftBy, XlatValue, EnableVga;
    FlagArithmetic(s.execute);
    EnableVgaKeeps(d, s);
  }

  /** Every instruction keeps the flag rules. */
  lemma EffectFlag(rom: Rom, d: Device, op: Op, s: Sem)
    requires Settled(s)
    ensures FlagKept(op, s, Effect(rom, d, op, s))
  {
    hide Effect, FlagKept;
    if IsGroup(op) {
      GroupFlag(rom, d, op, s);
    } else if IsCondition(op) {
      ConditionFlag(rom, d, op, s);
    } else if IgnoresFlag(op) {
      ForcedFlag(rom, d, op, s);
    } else {
      PlainFlag(rom, d, op, s);
    }
  }

  // ---- whole runs ------------------------------------------------------------

  lemma NvKeepsSettled(rom: Rom, d: Device)
    ensures Keeps(Nv(rom, d), Settled)
  {
    forall op, s | Settled(s)
      ensures Settled(Nv(rom, d).effect(op, s))
    {
      EffectFlag(rom, d, op, s);
    }
  }

  /** Entered settled, the main loop stays so, whatever the script. */
  lemma LoopSettled(c: Cpu, vm: Vm, fuel: nat)
    requires Keeps(c, Settled) && Settled(vm.sem) && vm.nested >= 1
    ensures Holds(Settled, vm.nested, Loop(c, vm, fuel))
  {
    LoopKeeps(c, Settled, vm, fuel);
  }

  /** A top-level run needs nothing of the flag: it starts by setting it to 1. So
      does one that is told to stop early. */
  lemma RunSettled(c: Cpu, vm: Vm, start: nat, stop: Option<nat>, fuel: nat)
    requires Keeps(c, Settled) && vm.nested >= 0 && (vm.nested > 0 ==> Settled(vm.sem))
    ensures Holds(Settled, vm.nested, RunScript(c, vm, start, fuel))
    ensures Holds(Settled, vm.nested, RunUntil(c, vm, start, stop, fuel))
  {
    RunKeeps(c, Settled, vm, start, fuel);
    RunUntilKeeps(c, Settled, vm, start, stop, fuel);
  }

  /** Before each instruction it fetches, in nested runs too, the flag is 1 or 3. */
  lemma SettledBetweenInstructions(c: Cpu, vm: Vm, start: nat, fuel: nat)
    requires Keeps(c, Settled) && vm.nested >= 0 && (vm.nested > 0 ==> Settled(vm.sem))
    ensures From(Settled, RunVisits(c, vm, start, fuel), 0)
  {
    RunVisitsKeep(c, Settled, vm, start, fuel);
  }

  /** A repeat body laid out without jumps, which ends at its END_REPEAT. */
  predicate LaidOut(c: Cpu, body: Block, p: nat) {
    Extent(c, body, p).Some? && c.fetch(Extent(c, body, p).value) == EndRepeat
  }

  /** For every instruction but JUMP, and for REPEAT with a body that is laid out,
      where the next instruction is does not depend on the flag: a disabled
      stretch is parsed exactly like an enabled one. */
  lemma NextPositionIgnoresFlag(c: Cpu, body: Block, vm: Vm, e: bv8, fuel: nat)
    requires !c.fetch(vm.offset).Jump?
    requires c.fetch(vm.offset).Repeat? ==> vm.nested >= 1 && fuel >= Need(body) && LaidOut(c, body, vm.offset + 2)
    ensures var r, r' := Step(c, vm, fuel), Step(c, vm.(sem := vm.sem.(execute := e)), fuel);
            (c.fetch(vm.offset).Repeat? ==> r.Finished? && r'.Finished?) &&
            (r.Finished? && r'.Finished? ==> r.vm.offset == r'.vm.offset)
  {
    var vm' := vm.(sem := vm.sem.(execute := e));
    if c.fetch(vm.offset).Repeat? {
      var n: nat := c.fetch(vm.offset).count;
      if n > 0 {
        RepeatRuns(c, body, n, vm, fuel);
        RepeatRuns(c, body, n, vm', fuel);
      } else {
        EmptyRepeat(c, vm, n, fuel);
        EmptyRepeat(c, vm', n, fuel);
      }
    }
  }

  lemma EmptyRepeat(c: Cpu, vm: Vm, n: nat, fuel: nat)
    requires n == 0
    ensures RepeatScript(c, vm, n, fuel) == Finished(vm.(offset := vm.offset + 2))
  {
    var p := vm.offset + 2;
    assert Iterate(c, vm.(offset := p, repeat := p, repend := p), n, fuel) ==
           Finished(vm.(offset := p, repeat := p, repend := p));
  }

  // ---- disabled stretches of structured scripts ------------------------------

  predicate Quiet(b: Block)
    decreases b, 0
  {
    match b
    case Nil => true
    case Cons(head, tail) => QuietStmt(head) && Quiet(tail)
  }

  /** No instruction that re-enables or ignores the flag. A disabled subroutine
      is not entered, so its body does not matter. */
  predicate QuietStmt(stmt: Stmt)
    decreases stmt, 1
  {
    match stmt
    case Prim(op) => !IgnoresFlag(op) && !op.Resume? && !op.Not?
    case Sub(_) => true
    case NoSub => true
    case Times(_, body) => Quiet(body)
  }

  /** A quiet block met while disabled leaves the trace and the flag untouched,
      repeats and subroutine calls included. */
  lemma {:induction false} DisabledBlockIsSilent(rom: Rom, d: Device, b: Block, s: Sem)
    requires Quiet(b) && s.execute == 3
    ensures var s' := Meaning(Nv(rom, d), b, s); s'.trace == s.trace && s'.execute == 3
    decreases b, 0
  {
    FlagArithmetic(3);
    match b
    case Nil =>
    case Cons(Prim(op), tail) =>
      EffectFlag(rom, d, op, s);
      DisabledBlockIsSilent(rom, d, tail, Nv(rom, d).effect(op, s));
    case Cons(Sub(body), tail) => DisabledBlockIsSilent(rom, d, tail, s);
    case Cons(NoSub, tail) => DisabledBlockIsSilent(rom, d, tail, s);
    case Cons(Times(n, body), tail) =>
      DisabledRepeatIsSilent(rom, d, body, n, s);
      DisabledBlockIsSilent(rom, d, tail, Power(Nv(rom, d), body, n, s));
  }

  lemma {:induction false} DisabledRepeatIsSilent(rom: Rom, d: Device, body: Block, n: nat, s: Sem)
    requires Quiet(body) && s.execute == 3
    ensures var s' := Power(Nv(rom, d), body, n, s); s'.trace == s.trace && s'.execute == 3
    decreases body, 1, n
  {
    if n > 0 {
      DisabledBlockIsSilent(rom, d, body, s);
      DisabledRepeatIsSilent(rom, d, body, n - 1, Meaning(Nv(rom, d), body, s));
    }
  }
}
