/** What every instruction keeps, every run keeps: through subroutines, repeats
    and early stops, and at each instruction fetched on the way. */
module NvinitInvariants {
  import opened Wrappers
  import opened Nvinit
  import opened NvinitRun

  ghost predicate Keeps(c: Cpu, inv: Sem -> bool) {
    forall op, s :: inv(s) ==> inv(c.effect(op, s))
  }

  /** A run that ends does so with the invariant and the nesting it started with. */
  predicate Holds(inv: Sem -> bool, nested: int, r: Outcome) {
    r.Finished? ==> inv(r.vm.sem) && r.vm.nested == nested
  }

  lemma {:induction false} LoopKeeps(c: Cpu, inv: Sem -> bool, vm: Vm, fuel: nat)
    requires Keeps(c, inv) && inv(vm.sem) && vm.nested >= 1
    ensures Holds(inv, vm.nested, Loop(c, vm, fuel))
    decreases fuel, 0
  {
    if vm.offset != 0 && fuel > 0 {
      StepKeeps(c, inv, vm, fuel - 1);
      match Step(c, vm, fuel - 1)
      case Finished(vm') => LoopKeeps(c, inv, vm', fuel - 1);
      case _ =>
    }
  }

  lemma {:induction false} StepKeeps(c: Cpu, inv: Sem -> bool, vm: Vm, fuel: nat)
    requires Keeps(c, inv) && inv(vm.sem) && vm.nested >= 1
    ensures Holds(inv, vm.nested, Step(c, vm, fuel))
    decreases fuel, 4
  {
    match c.fetch(vm.offset)
    case Call(direct, target, length) => RunKeeps(c, inv, vm, target, fuel);
    case Repeat(count) =>
      var body := vm.offset + 2;
      IterateKeeps(c, inv, vm.(offset := body, repeat := body, repend := body), count, fuel);
    case _ =>
  }

  lemma {:induction false} IterateKeeps(c: Cpu, inv: Sem -> bool, vm: Vm, count: nat, fuel: nat)
    requires Keeps(c, inv) && inv(vm.sem) && vm.nested >= 1
    ensures Holds(inv, vm.nested, Iterate(c, vm, count, fuel))
    decreases fuel, 2, count
  {
    if count > 0 {
      RunKeeps(c, inv, vm, vm.repeat, fuel);
      match RunScript(c, vm, vm.repeat, fuel)
      case Finished(vm') => IterateKeeps(c, inv, vm', count - 1, fuel);
      case _ =>
    }
  }

  /** A top-level run needs the invariant of its fresh state only. */
  lemma {:induction false} RunKeeps(c: Cpu, inv: Sem -> bool, vm: Vm, start: nat, fuel: nat)
    requires Keeps(c, inv) && vm.nested >= 0 && inv(Fresh(vm).sem)
    ensures Holds(inv, vm.nested, RunScript(c, vm, start, fuel))
    decreases fuel, 1
  {
    var vm' := Fresh(vm);
    LoopKeeps(c, inv, vm'.(offset := start, nested := vm'.nested + 1), fuel);
  }

  lemma {:induction false} UntilKeeps(c: Cpu, inv: Sem -> bool, vm: Vm, stop: Option<nat>, fuel: nat)
    requires Keeps(c, inv) && inv(vm.sem) && vm.nested >= 1
    ensures Holds(inv, vm.nested, LoopUntil(c, vm, stop, fuel))
    decreases fuel
  {
    if !Halts(vm, stop) && fuel > 0 {
      StepKeeps(c, inv, vm, fuel - 1);
      match Step(c, vm, fuel - 1)
      case Finished(vm') => UntilKeeps(c, inv, vm', stop, fuel - 1);
      case _ =>
    }
  }

  /** Nor does stopping early need more. */
  lemma RunUntilKeeps(c: Cpu, inv: Sem -> bool, vm: Vm, start: nat, stop: Option<nat>, fuel: nat)
    requires Keeps(c, inv) && vm.nested >= 0 && inv(Fresh(vm).sem)
    ensures Holds(inv, vm.nested, RunUntil(c, vm, start, stop, fuel))
  {
    var vm' := Fresh(vm);
    UntilKeeps(c, inv, vm'.(offset := start, nested := vm'.nested + 1), stop, fuel);
  }

  // ---- every instruction fetched ---------------------------------------------------

  /** The states in which the loop fetches an instruction, in order, those of the
      runs it nests included. */
  function LoopVisits(c: Cpu, vm: Vm, fuel: nat): seq<Vm>
    decreases fuel, 0
  {
    if vm.offset == 0 || fuel == 0 then []
    else
      [vm] + StepVisits(c, vm, fuel - 1) +
      match Step(c, vm, fuel - 1)
      case Finished(vm') => LoopVisits(c, vm', fuel - 1)
      case _ => []
  }

  /** Those of the runs one instruction nests. */
  function StepVisits(c: Cpu, vm: Vm, fuel: nat): seq<Vm>
    decreases fuel, 4
  {
    match c.fetch(vm.offset)
    case Call(direct, target, length) =>
      if !Enabled(vm.sem) || (!direct && target == 0) then [] else RunVisits(c, vm, target, fuel)
    case Repeat(count) =>
      var body := vm.offset + 2;
      IterateVisits(c, vm.(offset := body, repeat := body, repend := body), count, fuel)
    case _ => []
  }

  function IterateVisits(c: Cpu, vm: Vm, count: nat, fuel: nat): seq<Vm>
    decreases fuel, 2, count
  {
    if count == 0 then []
    else
      RunVisits(c, vm, vm.repeat, fuel) +
      match RunScript(c, vm, vm.repeat, fuel)
      case Finished(vm') => IterateVisits(c, vm', count - 1, fuel)
      case _ => []
  }

  function RunVisits(c: Cpu, vm: Vm, start: nat, fuel: nat): seq<Vm>
    decreases fuel, 1
  {
    var vm := Fresh(vm);
    LoopVisits(c, vm.(offset := start, nested := vm.nested + 1), fuel)
  }

  /** From visit i on the invariant holds. */
  predicate From(inv: Sem -> bool, vs: seq<Vm>, i: int) {
    forall j :: 0 <= j < |vs| && i <= j ==> inv(vs[j].sem)
  }

  lemma FromLater(inv: Sem -> bool, a: seq<Vm>, b: seq<Vm>, i: int)
    requires From(inv, b, i - |a|) && i >= |a|
    ensures From(inv, a + b, i)
  {
  }

  lemma {:induction false} LoopVisitsKeep(c: Cpu, inv: Sem -> bool, vm: Vm, fuel: nat)
    requires Keeps(c, inv) && inv(vm.sem) && vm.nested >= 1
    ensures From(inv, LoopVisits(c, vm, fuel), 0)
    decreases fuel, 0
  {
    if vm.offset != 0 && fuel > 0 {
      StepVisitsKeep(c, inv, vm, fuel - 1);
      StepKeeps(c, inv, vm, fuel - 1);
      match Step(c, vm, fuel - 1)
      case Finished(vm') => LoopVisitsKeep(c, inv, vm', fuel - 1);
      case _ =>
    }
  }

  lemma {:induction false} StepVisitsKeep(c: Cpu, inv: Sem -> bool, vm: Vm, fuel: nat)
    requires Keeps(c, inv) && inv(vm.sem) && vm.nested >= 1
    ensures From(inv, StepVisits(c, vm, fuel), 0)
    decreases fuel, 4
  {
    match c.fetch(vm.offset)
    case Call(direct, target, length) => RunVisitsKeep(c, inv, vm, target, fuel);
    case Repeat(count) =>
      var body := vm.offset + 2;
      IterateVisitsKeep(c, inv, vm.(offset := body, repeat := body, repend := body), count, fuel);
    case _ =>
  }

  lemma {:induction false} IterateVisitsKeep(c: Cpu, inv: Sem -> bool, vm: Vm, count: nat, fuel: nat)
    requires Keeps(c, inv) && inv(vm.sem) && vm.nested >= 1
    ensures From(inv, IterateVisits(c, vm, count, fuel), 0)
    decreases fuel, 2, count
  {
    if count > 0 {
      RunVisitsKeep(c, inv, vm, vm.repeat, fuel);
      RunKeeps(c, inv, vm, vm.repeat, fuel);
      match RunScript(c, vm, vm.repeat, fuel)
      case Finished(vm') => IterateVisitsKeep(c, inv, vm', count - 1, fuel);
      case _ =>
    }
  }

  /** Before each instruction of a whole run the invariant holds. */
  lemma {:induction false} RunVisitsKeep(c: Cpu, inv: Sem -> bool, vm: Vm, start: nat, fuel: nat)
    requires Keeps(c, inv) && vm.nested >= 0 && inv(Fresh(vm).sem)
    ensures From(inv, RunVisits(c, vm, start, fuel), 0)
    decreases fuel, 1
  {
    var vm' := Fresh(vm);
    LoopVisitsKeep(c, inv, vm'.(offset := start, nested := vm'.nested + 1), fuel);
  }

  // ---- what one instruction establishes ------------------------------------------------

  /** The instruction fetched in v establishes the invariant. */
  predicate Establishes(c: Cpu, inv: Sem -> bool, v: Vm) {
    c.fetch(v.offset).Leaf? && inv(c.effect(c.fetch(v.offset).op, v.sem))
  }

  lemma {:induction false} LoopEstablished(c: Cpu, inv: Sem -> bool, vm: Vm, fuel: nat, i: nat)
    requires Keeps(c, inv) && vm.nested >= 1
    requires i < |LoopVisits(c, vm, fuel)| && Establishes(c, inv, LoopVisits(c, vm, fuel)[i])
    ensures From(inv, LoopVisits(c, vm, fuel), i + 1) && Holds(inv, vm.nested, Loop(c, vm, fuel))
    decreases fuel, 0
  {
    hide Step, StepVisits, Establishes;
    var r, inner := Step(c, vm, fuel - 1), StepVisits(c, vm, fuel - 1);
    var rest := if r.Finished? then LoopVisits(c, r.vm, fuel - 1) else [];
    assert LoopVisits(c, vm, fuel) == [vm] + inner + rest;
    StepNests(c, vm, fuel - 1);
    if i <= |inner| {
      if i > 0 {
        StepEstablished(c, inv, vm, fuel - 1, i - 1);
      } else {
        LeafEstablished(c, inv, vm, fuel - 1);
      }
      if r.Finished? {
        LoopVisitsKeep(c, inv, r.vm, fuel - 1);
        LoopKeeps(c, inv, r.vm, fuel - 1);
      }
    } else {
      LoopEstablished(c, inv, r.vm, fuel - 1, i - 1 - |inner|);
      FromLater(inv, [vm] + inner, rest, i + 1);
    }
  }

  lemma LeafEstablished(c: Cpu, inv: Sem -> bool, vm: Vm, fuel: nat)
    requires Establishes(c, inv, vm)
    ensures StepVisits(c, vm, fuel) == [] && Holds(inv, vm.nested, Step(c, vm, fuel))
  {
  }

  /** An instruction that ends leaves the nesting as it was. */
  lemma StepNests(c: Cpu, vm: Vm, fuel: nat)
    requires vm.nested >= 1
    ensures Step(c, vm, fuel).Finished? ==> Step(c, vm, fuel).vm.nested == vm.nested
  {
    StepKeeps(c, (s: Sem) => true, vm, fuel);
  }

  lemma {:induction false} StepEstablished(c: Cpu, inv: Sem -> bool, vm: Vm, fuel: nat, i: nat)
    requires Keeps(c, inv) && vm.nested >= 1
    requires i < |StepVisits(c, vm, fuel)| && Establishes(c, inv, StepVisits(c, vm, fuel)[i])
    ensures From(inv, StepVisits(c, vm, fuel), i + 1) && Holds(inv, vm.nested, Step(c, vm, fuel))
    decreases fuel, 4
  {
    match c.fetch(vm.offset)
    case Call(direct, target, length) => RunEstablished(c, inv, vm, target, fuel, i);
    case Repeat(count) =>
      var body := vm.offset + 2;
      IterateEstablished(c, inv, vm.(offset := body, repeat := body, repend := body), count, fuel, i);
    case _ =>
  }

  lemma {:induction false} IterateEstablished(c: Cpu, inv: Sem -> bool, vm: Vm, count: nat, fuel: nat, i: nat)
    requires Keeps(c, inv) && vm.nested >= 1
    requires i < |IterateVisits(c, vm, count, fuel)| && Establishes(c, inv, IterateVisits(c, vm, count, fuel)[i])
    ensures From(inv, IterateVisits(c, vm, count, fuel), i + 1)
    ensures Holds(inv, vm.nested, Iterate(c, vm, count, fuel))
    decreases fuel, 2, count
  {
    var r, first := RunScript(c, vm, vm.repeat, fuel), RunVisits(c, vm, vm.repeat, fuel);
    var rest := if r.Finished? then IterateVisits(c, r.vm, count - 1, fuel) else [];
    assert IterateVisits(c, vm, count, fuel) == first + rest;
    RunKeeps(c, (s: Sem) => true, vm, vm.repeat, fuel);
    if i < |first| {
      RunEstablished(c, inv, vm, vm.repeat, fuel, i);
      if r.Finished? {
        IterateVisitsKeep(c, inv, r.vm, count - 1, fuel);
        IterateKeeps(c, inv, r.vm, count - 1, fuel);
      }
    } else {
      IterateEstablished(c, inv, r.vm, count - 1, fuel, i - |first|);
      FromLater(inv, first, rest, i + 1);
    }
  }

  /** Once an instruction of a run establishes the invariant, it holds before each
      later one, in whatever nested run that is, and when the run ends. */
  lemma {:induction false} RunEstablished(c: Cpu, inv: Sem -> bool, vm: Vm, start: nat, fuel: nat, i: nat)
    requires Keeps(c, inv) && vm.nested >= 0
    requires i < |RunVisits(c, vm, start, fuel)| && Establishes(c, inv, RunVisits(c, vm, start, fuel)[i])
    ensures From(inv, RunVisits(c, vm, start, fuel), i + 1)
    ensures Holds(inv, vm.nested, RunScript(c, vm, start, fuel))
    decreases fuel, 1
  {
    var vm' := Fresh(vm);
    LoopEstablished(c, inv, vm'.(offset := start, nested := vm'.nested + 1), fuel, i);
  }
}
