/** The NVINIT main loop as a function of the interpreter's fields. One loop
    serves top-level scripts, subroutines and repeat bodies; `fuel` bounds the
    instructions and calls still allowed, since a script may jump for ever. */
module NvinitRun {
  import opened Words
  import opened Wrappers
  import opened Nvinit

  /** What the loop needs of the instruction set: the decoder and the effects. */
  datatype Cpu = Cpu(fetch: nat -> Instr, effect: (Op, Sem) -> Sem)

  function Nv(rom: Rom, d: Device): Cpu {
    Cpu((p: nat) => Decode(rom, p), (op: Op, s: Sem) => Effect(rom, d, op, s))
  }

  datatype Vm = Vm(offset: nat, nested: int, repeat: nat, repend: nat, sem: Sem)

  datatype Outcome =
    | Finished(vm: Vm)
    | BadOpcode(opcode: byte)
    | OutOfFuel

  /** A top-level script starts from a fresh execution state. */
  function Fresh(vm: Vm): Vm {
    if vm.nested == 0 then vm.(repeat := 0, repend := 0, sem := vm.sem.(execute := 1, strap := None)) else vm
  }

  function RunScript(c: Cpu, vm: Vm, start: nat, fuel: nat): Outcome
    decreases fuel, 1
  {
    var vm := Fresh(vm);
    match Loop(c, vm.(offset := start, nested := vm.nested + 1), fuel)
    case Finished(vm') => Finished(vm'.(nested := vm'.nested - 1))
    case other => other
  }

  function Loop(c: Cpu, vm: Vm, fuel: nat): Outcome
    decreases fuel, 0
  {
    if vm.offset == 0 then Finished(vm)
    else if fuel == 0 then OutOfFuel
    else
      match Step(c, vm, fuel - 1)
      case Finished(vm') => Loop(c, vm', fuel - 1)
      case other => other
  }

  function Step(c: Cpu, vm: Vm, fuel: nat): Outcome
    decreases fuel, 4
  {
    match c.fetch(vm.offset)
    case Leaf(op, length) => Finished(vm.(offset := vm.offset + length, sem := c.effect(op, vm.sem)))
    case Call(direct, target, length) => CallScript(c, vm, direct, target, length, fuel)
    case Repeat(count) => RepeatScript(c, vm, count, fuel)
    case EndRepeat =>
      Finished(if vm.repeat != 0 then vm.(repend := vm.offset + 1, offset := 0) else vm.(offset := vm.offset + 1))
    case Done => Finished(vm.(offset := 0))
    case Jump(target) => Finished(vm.(offset := if Enabled(vm.sem) then target else vm.offset + 3))
    case Unknown(op) => BadOpcode(op)
  }

  function CallScript(c: Cpu, vm: Vm, direct: bool, target: nat, length: nat, fuel: nat): Outcome
    decreases fuel, 2
  {
    if !Enabled(vm.sem) || (!direct && target == 0) then Finished(vm.(offset := vm.offset + length))
    else
      match RunScript(c, vm, target, fuel)
      case Finished(vm') => Finished(vm'.(offset := vm.offset + length))
      case other => other
  }

  function RepeatScript(c: Cpu, vm: Vm, count: nat, fuel: nat): Outcome
    decreases fuel, 3
  {
    var body := vm.offset + 2;
    match Iterate(c, vm.(offset := body, repeat := body, repend := body), count, fuel)
    case Finished(vm') => Finished(vm'.(offset := vm'.repend, repeat := vm.repeat, repend := vm.repend))
    case other => other
  }

  /** The body is run by re-entering the loop at the repeat offset. */
  function Iterate(c: Cpu, vm: Vm, count: nat, fuel: nat): Outcome
    decreases fuel, 2, count
  {
    if count == 0 then Finished(vm)
    else
      match RunScript(c, vm, vm.repeat, fuel)
      case Finished(vm') => Iterate(c, vm', count - 1, fuel)
      case other => other
  }

  /** The caller of a top-level script may name an offset to stop before; only
      the outermost loop looks at it. */
  predicate Halts(vm: Vm, stop: Option<nat>) {
    vm.offset == 0 || (stop.Some? && vm.nested == 1 && vm.offset >= stop.value)
  }

  function LoopUntil(c: Cpu, vm: Vm, stop: Option<nat>, fuel: nat): Outcome
    decreases fuel
  {
    if Halts(vm, stop) then Finished(vm)
    else if fuel == 0 then OutOfFuel
    else
      match Step(c, vm, fuel - 1)
      case Finished(vm') => LoopUntil(c, vm', stop, fuel - 1)
      case other => other
  }

  /** One turn of the loop. */
  lemma LoopTurn(c: Cpu, vm: Vm, stop: Option<nat>, fuel: nat)
    ensures LoopUntil(c, vm, stop, fuel) ==
            if Halts(vm, stop) then Finished(vm)
            else if fuel == 0 then OutOfFuel
            else if Step(c, vm, fuel - 1).Finished? then LoopUntil(c, Step(c, vm, fuel - 1).vm, stop, fuel - 1)
            else Step(c, vm, fuel - 1)
  {
    hide Step;
  }

  function RunUntil(c: Cpu, vm: Vm, start: nat, stop: Option<nat>, fuel: nat): Outcome {
    var vm := Fresh(vm);
    match LoopUntil(c, vm.(offset := start, nested := vm.nested + 1), stop, fuel)
    case Finished(vm') => Finished(vm'.(nested := vm'.nested - 1))
    case other => other
  }

  /** A top-level run takes nothing over from the run before it but what the device
      has seen: flag, strap cache and repeat state may be anything. */
  lemma TopLevelForgets(c: Cpu, vm: Vm, vm': Vm, start: nat, stop: Option<nat>, fuel: nat)
    requires vm.nested == vm'.nested == 0 && vm.sem.trace == vm'.sem.trace
    ensures RunScript(c, vm, start, fuel) == RunScript(c, vm', start, fuel)
    ensures RunUntil(c, vm, start, stop, fuel) == RunUntil(c, vm', start, stop, fuel)
  {
    hide Loop, LoopUntil;
    assert Fresh(vm).(offset := 0) == Fresh(vm').(offset := 0);
  }

  /** It starts enabled, outside any repeat and with an empty strap cache; a nested
      run starts with what it finds. */
  lemma ScriptStarts(c: Cpu, vm: Vm, start: nat, fuel: nat)
    requires vm.nested >= 0
    ensures var r := if vm.nested == 0
                     then Loop(c, Vm(start, 1, 0, 0, vm.sem.(execute := 1, strap := None)), fuel)
                     else Loop(c, vm.(offset := start, nested := vm.nested + 1), fuel);
            RunScript(c, vm, start, fuel) ==
            if r.Finished? then Finished(r.vm.(nested := r.vm.nested - 1)) else r
  {
    hide Loop;
  }

  /** Without a stop offset, and in every nested run, it is the plain loop. */
  lemma {:induction false} NoStopIsLoop(c: Cpu, vm: Vm, stop: Option<nat>, fuel: nat)
    requires stop == None
    ensures LoopUntil(c, vm, stop, fuel) == Loop(c, vm, fuel)
    decreases fuel
  {
    if vm.offset != 0 && fuel > 0 {
      match Step(c, vm, fuel - 1)
      case Finished(vm') => NoStopIsLoop(c, vm', stop, fuel - 1);
      case _ =>
    }
  }

  lemma NoStopIsRun(c: Cpu, vm: Vm, start: nat, stop: Option<nat>, fuel: nat)
    requires stop == None
    ensures RunUntil(c, vm, start, stop, fuel) == RunScript(c, vm, start, fuel)
  {
    var vm := Fresh(vm);
    NoStopIsLoop(c, vm.(offset := start, nested := vm.nested + 1), stop, fuel);
  }

  // ---- fuel only bounds --------------------------------------------------------

  /** A run that does not run out of fuel has the same outcome with more. */
  lemma {:induction false} MoreFuelSameRun(c: Cpu, vm: Vm, start: nat, fuel: nat, more: nat)
    requires fuel <= more && RunScript(c, vm, start, fuel) != OutOfFuel
    ensures RunScript(c, vm, start, more) == RunScript(c, vm, start, fuel)
    decreases fuel, 1
  {
    var vm := Fresh(vm);
    MoreFuelSameLoop(c, vm.(offset := start, nested := vm.nested + 1), fuel, more);
  }

  lemma {:induction false} MoreFuelSameLoop(c: Cpu, vm: Vm, fuel: nat, more: nat)
    requires fuel <= more && Loop(c, vm, fuel) != OutOfFuel
    ensures Loop(c, vm, more) == Loop(c, vm, fuel)
    decreases fuel, 0
  {
    if vm.offset != 0 {
      MoreFuelSameStep(c, vm, fuel - 1, more - 1);
      match Step(c, vm, fuel - 1)
      case Finished(vm') => MoreFuelSameLoop(c, vm', fuel - 1, more - 1);
      case _ =>
    }
  }

  lemma {:induction false} MoreFuelSameStep(c: Cpu, vm: Vm, fuel: nat, more: nat)
    requires fuel <= more && Step(c, vm, fuel) != OutOfFuel
    ensures Step(c, vm, more) == Step(c, vm, fuel)
    decreases fuel, 4
  {
    match c.fetch(vm.offset)
    case Call(direct, target, length) =>
      if Enabled(vm.sem) && (direct || target != 0) {
        MoreFuelSameRun(c, vm, target, fuel, more);
      }
    case Repeat(count) =>
      var body := vm.offset + 2;
      MoreFuelSameIterate(c, vm.(offset := body, repeat := body, repend := body), count, fuel, more);
    case _ =>
  }

  lemma {:induction false} MoreFuelSameIterate(c: Cpu, vm: Vm, count: nat, fuel: nat, more: nat)
    requires fuel <= more && Iterate(c, vm, count, fuel) != OutOfFuel
    ensures Iterate(c, vm, count, more) == Iterate(c, vm, count, fuel)
    decreases fuel, 2, count
  {
    if count > 0 {
      MoreFuelSameRun(c, vm, vm.repeat, fuel, more);
      match RunScript(c, vm, vm.repeat, fuel)
      case Finished(vm') => MoreFuelSameIterate(c, vm', count - 1, fuel, more);
      case _ =>
    }
  }
}
