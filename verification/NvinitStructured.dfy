/** A script laid out in the ROM as a tree of instructions, subroutine calls and
    counted repeats is run by the one main loop exactly as the tree says. */
module NvinitStructured {
  import opened Words
  import opened Wrappers
  import opened Nvinit
  import opened NvinitRun

  // ---- structured scripts and their meaning ----------------------------------

  datatype Block = Nil | Cons(head: Stmt, tail: Block)
  datatype Stmt = Prim(op: Op) | Sub(body: Block) | NoSub | Times(n: byte, body: Block)

  function Meaning(c: Cpu, b: Block, s: Sem): Sem
    decreases b, 0
  {
    match b
    case Nil => s
    case Cons(head, tail) => Meaning(c, tail, Does(c, head, s))
  }

  /** A subroutine runs only if enabled on entry, and a call of a missing one does
      nothing; a repeat runs n times whatever
      the flag; the flag carries over from each instruction to the next. */
  function Does(c: Cpu, stmt: Stmt, s: Sem): Sem
    decreases stmt, 2
  {
    match stmt
    case Prim(op) => c.effect(op, s)
    case Sub(body) => if Enabled(s) then Meaning(c, body, s) else s
    case NoSub => s
    case Times(n, body) => Power(c, body, n, s)
  }

  function Power(c: Cpu, body: Block, n: nat, s: Sem): Sem
    decreases body, 1, n
  {
    if n == 0 then s else Power(c, body, n - 1, Meaning(c, body, s))
  }

  /** Where the block ends if it is laid out at offset p. */
  function Extent(c: Cpu, b: Block, p: nat): Option<nat>
    decreases b, 0
  {
    match b
    case Nil => Some(p)
    case Cons(head, tail) =>
      match After(c, head, p)
      case Some(p') => Extent(c, tail, p')
      case None => None
  }

  function After(c: Cpu, stmt: Stmt, p: nat): Option<nat>
    decreases stmt, 2
  {
    match stmt
    case Prim(op) =>
      var i := c.fetch(p);
      if i.Leaf? && i.op == op then Some(p + i.length) else None
    case Sub(body) =>
      var i := c.fetch(p);
      if i.Call? && IsScript(c, body, i.target) then Some(p + i.length) else None
    case NoSub =>
      var i := c.fetch(p);
      if i.Call? && i.target == 0 then Some(p + i.length) else None
    case Times(n, body) =>
      match Extent(c, body, p + 2)
      case Some(e) => if c.fetch(p) == Repeat(n) && n >= 1 && c.fetch(e) == EndRepeat then Some(e + 1) else None
      case None => None
  }

  /** A block followed by DONE, at a non-zero offset. */
  predicate IsScript(c: Cpu, b: Block, p: nat)
    decreases b, 1
  {
    p != 0 &&
    match Extent(c, b, p)
    case Some(e) => c.fetch(e) == Done
    case None => false
  }

  // ---- fuel ------------------------------------------------------------------

  function Count(b: Block): nat {
    match b
    case Nil => 0
    case Cons(_, tail) => 1 + Count(tail)
  }

  function Max(a: nat, b: nat): nat {
    if a < b then b else a
  }

  /** Fuel a nested run of one of the block's bodies takes. */
  function Depth(b: Block): nat
    decreases b, 0
  {
    match b
    case Nil => 0
    case Cons(head, tail) => Max(BodyNeed(head), Depth(tail))
  }

  function BodyNeed(stmt: Stmt): nat
    decreases stmt, 2
  {
    match stmt
    case Prim(_) => 0
    case Sub(body) => Need(body)
    case NoSub => 0
    case Times(_, body) => Need(body)
  }

  function Need(b: Block): nat
    decreases b, 1
  {
    Count(b) + Depth(b) + 1
  }

  // ---- the loop computes the meaning -----------------------------------------

  lemma LoopStep(c: Cpu, vm: Vm, vm': Vm, fuel: nat)
    requires vm.offset != 0 && Step(c, vm, fuel) == Finished(vm')
    ensures Loop(c, vm, fuel + 1) == Loop(c, vm', fuel)
  {
  }

  /** Entered at a block, the loop reaches its end having done what it means. */
  lemma {:induction false} BlockRuns(c: Cpu, b: Block, vm: Vm, fuel: nat)
    requires vm.offset != 0 && vm.nested >= 1 && fuel >= Depth(b)
    requires Extent(c, b, vm.offset).Some?
    ensures Extent(c, b, vm.offset).value != 0
    ensures Loop(c, vm, fuel + Count(b)) ==
            Loop(c, vm.(offset := Extent(c, b, vm.offset).value, sem := Meaning(c, b, vm.sem)), fuel)
    decreases b, 0
  {
    match b
    case Nil =>
    case Cons(head, tail) =>
      var vm' := vm.(offset := After(c, head, vm.offset).value, sem := Does(c, head, vm.sem));
      StmtRuns(c, head, vm, fuel + Count(tail));
      LoopStep(c, vm, vm', fuel + Count(tail));
      BlockRuns(c, tail, vm', fuel);
  }

  lemma {:induction false} StmtRuns(c: Cpu, stmt: Stmt, vm: Vm, fuel: nat)
    requires vm.offset != 0 && vm.nested >= 1 && fuel >= BodyNeed(stmt)
    requires After(c, stmt, vm.offset).Some?
    ensures After(c, stmt, vm.offset).value != 0
    ensures Step(c, vm, fuel) ==
            Finished(vm.(offset := After(c, stmt, vm.offset).value, sem := Does(c, stmt, vm.sem)))
    decreases stmt, 4
  {
    match stmt
    case Prim(op) =>
    case Sub(body) => ScriptRuns(c, body, vm, c.fetch(vm.offset).target, fuel);
    case NoSub => NothingRuns(c, vm, c.fetch(vm.offset).target, fuel);
    case Times(n, body) => RepeatRuns(c, body, n, vm, fuel);
  }

  /** A run that starts at 0 is over. */
  lemma NothingRuns(c: Cpu, vm: Vm, start: nat, fuel: nat)
    requires vm.nested >= 1 && start == 0
    ensures RunScript(c, vm, start, fuel) == Finished(vm.(offset := 0))
  {
    var vm' := vm.(offset := start, nested := vm.nested + 1);
    assert Loop(c, vm', fuel) == Finished(vm');
  }

  lemma {:induction false} ScriptRuns(c: Cpu, b: Block, vm: Vm, start: nat, fuel: nat)
    requires vm.nested >= 1 && fuel >= Need(b) && IsScript(c, b, start)
    ensures RunScript(c, vm, start, fuel) == Finished(vm.(offset := 0, sem := Meaning(c, b, vm.sem)))
    decreases b, 1
  {
    var vm' := vm.(offset := start, nested := vm.nested + 1);
    BlockRuns(c, b, vm', fuel - Count(b));
    var atEnd := vm'.(offset := Extent(c, b, start).value, sem := Meaning(c, b, vm.sem));
    LoopStep(c, atEnd, atEnd.(offset := 0), fuel - Count(b) - 1);
  }

  lemma {:induction false} RepeatRuns(c: Cpu, body: Block, n: nat, vm: Vm, fuel: nat)
    requires vm.nested >= 1 && fuel >= Need(body) && n >= 1
    requires Extent(c, body, vm.offset + 2).Some?
    requires c.fetch(Extent(c, body, vm.offset + 2).value) == EndRepeat
    ensures RepeatScript(c, vm, n, fuel) ==
            Finished(vm.(offset := Extent(c, body, vm.offset + 2).value + 1, sem := Power(c, body, n, vm.sem)))
    decreases body, 3
  {
    var p := vm.offset + 2;
    IterateRuns(c, body, n, vm.(offset := p, repeat := p, repend := p), fuel);
  }

  lemma {:induction false} IterateRuns(c: Cpu, body: Block, n: nat, vm: Vm, fuel: nat)
    requires vm.nested >= 1 && fuel >= Need(body) && vm.repeat != 0
    requires Extent(c, body, vm.repeat).Some?
    requires c.fetch(Extent(c, body, vm.repeat).value) == EndRepeat
    ensures Iterate(c, vm, n, fuel) ==
            Finished(if n == 0 then vm
                     else vm.(offset := 0, repend := Extent(c, body, vm.repeat).value + 1,
                              sem := Power(c, body, n, vm.sem)))
    decreases body, 2, n
  {
    if n > 0 {
      BodyRuns(c, body, vm, fuel);
      var e := Extent(c, body, vm.repeat).value;
      IterateRuns(c, body, n - 1, vm.(offset := 0, repend := e + 1, sem := Meaning(c, body, vm.sem)), fuel);
    }
  }

  /** One pass over a repeat body ends at its END_REPEAT and records where. */
  lemma {:induction false} BodyRuns(c: Cpu, body: Block, vm: Vm, fuel: nat)
    requires vm.nested >= 1 && fuel >= Need(body) && vm.repeat != 0
    requires Extent(c, body, vm.repeat).Some?
    requires c.fetch(Extent(c, body, vm.repeat).value) == EndRepeat
    ensures RunScript(c, vm, vm.repeat, fuel) ==
            Finished(vm.(offset := 0, repend := Extent(c, body, vm.repeat).value + 1, sem := Meaning(c, body, vm.sem)))
    decreases body, 1
  {
    var e := Extent(c, body, vm.repeat).value;
    var vm' := vm.(offset := vm.repeat, nested := vm.nested + 1);
    BlockRuns(c, body, vm', fuel - Count(body));
    var atEnd := vm'.(offset := e, sem := Meaning(c, body, vm.sem));
    LoopStep(c, atEnd, atEnd.(offset := 0, repend := e + 1), fuel - Count(body) - 1);
  }

  /** Every structured script, started at top level or nested, terminates,
      leaves nesting and repeat state as it found them, and has done to the
      device exactly what its tree means. */
  lemma StructuredScriptRuns(c: Cpu, b: Block, vm: Vm, start: nat, fuel: nat)
    requires vm.nested >= 0 && IsScript(c, b, start) && fuel >= Need(b)
    ensures RunScript(c, vm, start, fuel) ==
            Finished(Fresh(vm).(offset := 0, sem := Meaning(c, b, Fresh(vm).sem)))
  {
    if vm.nested >= 1 {
      ScriptRuns(c, b, vm, start, fuel);
    } else {
      var vm' := Fresh(vm).(offset := start, nested := 1);
      BlockRuns(c, b, vm', fuel - Count(b));
      var atEnd := vm'.(offset := Extent(c, b, start).value, sem := Meaning(c, b, vm'.sem));
      assert Step(c, atEnd, fuel - Count(b) - 1) == Finished(atEnd.(offset := 0));
    }
  }

  /** REPEAT 0 is not an empty loop. Its end is only learnt by running the body,
      so control falls through and, outside any other repeat, runs it once. */
  lemma RepeatZeroRunsOnce(c: Cpu, body: Block, vm: Vm, fuel: nat)
    requires vm.offset != 0 && vm.nested >= 1 && vm.repeat == 0 && fuel >= Depth(body)
    requires c.fetch(vm.offset) == Repeat(0)
    requires Extent(c, body, vm.offset + 2).Some?
    requires c.fetch(Extent(c, body, vm.offset + 2).value) == EndRepeat
    ensures Loop(c, vm, fuel + Count(body) + 2) ==
            Loop(c, vm.(offset := Extent(c, body, vm.offset + 2).value + 1,
                             sem := Meaning(c, body, vm.sem)), fuel)
  {
    var vm' := vm.(offset := vm.offset + 2);
    assert Iterate(c, vm'.(repeat := vm.offset + 2, repend := vm.offset + 2), 0, fuel + Count(body) + 1) ==
           Finished(vm'.(repeat := vm.offset + 2, repend := vm.offset + 2));
    assert Step(c, vm, fuel + Count(body) + 1) == Finished(vm');
    BlockRuns(c, body, vm', fuel + 1);
    var atEnd := vm'.(offset := Extent(c, body, vm.offset + 2).value, sem := Meaning(c, body, vm.sem));
    assert Step(c, atEnd, fuel) == Finished(atEnd.(offset := atEnd.offset + 1));
  }

  /** Inside another repeat it is worse: the inner END_REPEAT ends the pass of
      the outer one, which goes on behind it. */
  lemma RepeatZeroEndsOuterPass(c: Cpu, body: Block, vm: Vm, fuel: nat)
    requires vm.offset != 0 && vm.nested >= 1 && vm.repeat != 0 && fuel >= Depth(body)
    requires c.fetch(vm.offset) == Repeat(0)
    requires Extent(c, body, vm.offset + 2).Some?
    requires c.fetch(Extent(c, body, vm.offset + 2).value) == EndRepeat
    ensures Loop(c, vm, fuel + Count(body) + 2) ==
            Finished(vm.(offset := 0, repend := Extent(c, body, vm.offset + 2).value + 1,
                         sem := Meaning(c, body, vm.sem)))
  {
    var p := vm.offset + 2;
    var vm' := vm.(offset := p);
    assert Iterate(c, vm.(offset := p, repeat := p, repend := p), 0, fuel + Count(body) + 1) ==
           Finished(vm.(offset := p, repeat := p, repend := p));
    assert Step(c, vm, fuel + Count(body) + 1) == Finished(vm');
    BlockRuns(c, body, vm', fuel + 1);
    var e := Extent(c, body, p).value;
    var atEnd := vm'.(offset := e, sem := Meaning(c, body, vm.sem));
    LoopStep(c, atEnd, atEnd.(offset := 0, repend := e + 1), fuel);
  }

  function Append(a: Block, b: Block): Block {
    match a
    case Nil => b
    case Cons(head, tail) => Cons(head, Append(tail, b))
  }

  lemma {:induction false} AppendMeans(c: Cpu, a: Block, b: Block, s: Sem)
    ensures Meaning(c, Append(a, b), s) == Meaning(c, b, Meaning(c, a, s))
    decreases a
  {
    match a
    case Nil =>
    case Cons(head, tail) => AppendMeans(c, tail, b, Does(c, head, s));
  }

  /** An outer body `first`, then REPEAT 0 around `second`. */
  predicate AroundZero(c: Cpu, first: Block, second: Block, p: nat) {
    Extent(c, first, p).Some? && c.fetch(Extent(c, first, p).value) == Repeat(0) &&
    Extent(c, second, Extent(c, first, p).value + 2).Some? &&
    c.fetch(Extent(c, second, Extent(c, first, p).value + 2).value) == EndRepeat
  }

  /** So REPEAT n { first; REPEAT 0 { second } rest } runs first and second n
      times, and what follows the inner END_REPEAT once, outside the loop. */
  lemma {:induction false} ZeroPasses(c: Cpu, first: Block, second: Block, n: nat, vm: Vm, fuel: nat)
    requires vm.nested >= 1 && vm.repeat != 0 && AroundZero(c, first, second, vm.repeat)
    requires fuel >= Count(first) + Count(second) + Depth(first) + Depth(second) + 2
    ensures Iterate(c, vm, n, fuel) ==
            Finished(if n == 0 then vm
                     else vm.(offset := 0, repend := Extent(c, second, Extent(c, first, vm.repeat).value + 2).value + 1,
                              sem := Power(c, Append(first, second), n, vm.sem)))
    decreases n
  {
    IterateTurn(c, vm, n, fuel);
    PowerTurn(c, Append(first, second), n, vm.sem);
    hide RunScript, Iterate, Meaning, Power, Extent, Append, Count, Depth;
    if n > 0 {
      ZeroPass(c, first, second, vm, fuel);
      AppendMeans(c, first, second, vm.sem);
      var e := Extent(c, second, Extent(c, first, vm.repeat).value + 2).value;
      var vm' := vm.(offset := 0, repend := e + 1, sem := Meaning(c, Append(first, second), vm.sem));
      PowerTurn(c, Append(first, second), n - 1, vm'.sem);
      ZeroPasses(c, first, second, n - 1, vm', fuel);
    }
  }

  lemma IterateTurn(c: Cpu, vm: Vm, n: nat, fuel: nat)
    ensures Iterate(c, vm, n, fuel) ==
            if n == 0 then Finished(vm)
            else if RunScript(c, vm, vm.repeat, fuel).Finished?
            then Iterate(c, RunScript(c, vm, vm.repeat, fuel).vm, n - 1, fuel)
            else RunScript(c, vm, vm.repeat, fuel)
  {
    hide RunScript;
  }

  lemma PowerTurn(c: Cpu, body: Block, n: nat, s: Sem)
    ensures Power(c, body, n, s) == if n == 0 then s else Power(c, body, n - 1, Meaning(c, body, s))
  {
    hide Meaning;
  }

  lemma ZeroPass(c: Cpu, first: Block, second: Block, vm: Vm, fuel: nat)
    requires vm.nested >= 1 && vm.repeat != 0 && AroundZero(c, first, second, vm.repeat)
    requires fuel >= Count(first) + Count(second) + Depth(first) + Depth(second) + 2
    ensures RunScript(c, vm, vm.repeat, fuel) ==
            Finished(vm.(offset := 0, repend := Extent(c, second, Extent(c, first, vm.repeat).value + 2).value + 1,
                         sem := Meaning(c, second, Meaning(c, first, vm.sem))))
  {
    hide Meaning, Extent, Count, Depth, Loop, Step;
    var vm' := vm.(offset := vm.repeat, nested := vm.nested + 1);
    BlockRuns(c, first, vm', fuel - Count(first));
    var atZero := vm'.(offset := Extent(c, first, vm.repeat).value, sem := Meaning(c, first, vm.sem));
    RepeatZeroEndsOuterPass(c, second, atZero, fuel - Count(first) - Count(second) - 2);
  }

  lemma RepeatAroundZero(c: Cpu, first: Block, second: Block, n: nat, vm: Vm, fuel: nat)
    requires vm.nested >= 1 && n >= 1 && AroundZero(c, first, second, vm.offset + 2)
    requires fuel >= Count(first) + Count(second) + Depth(first) + Depth(second) + 2
    ensures RepeatScript(c, vm, n, fuel) ==
            Finished(vm.(offset := Extent(c, second, Extent(c, first, vm.offset + 2).value + 2).value + 1,
                         sem := Power(c, Append(first, second), n, vm.sem)))
  {
    hide Meaning, Append, Power, Extent, RunScript;
    var p := vm.offset + 2;
    ZeroPasses(c, first, second, n, vm.(offset := p, repeat := p, repend := p), fuel);
  }

  // ---- stopping early ----------------------------------------------------------

  /** Each statement of a block laid out at p starts below `stop`. */
  predicate StartsBelow(c: Cpu, b: Block, p: nat, stop: nat)
    decreases b
  {
    match b
    case Nil => true
    case Cons(head, tail) => p < stop && After(c, head, p).Some? && StartsBelow(c, tail, After(c, head, p).value, stop)
  }

  lemma {:induction false} BlockRunsUntil(c: Cpu, b: Block, vm: Vm, stop: nat, fuel: nat)
    requires vm.offset != 0 && vm.nested >= 1 && fuel >= Depth(b)
    requires Extent(c, b, vm.offset).Some? && StartsBelow(c, b, vm.offset, stop)
    ensures LoopUntil(c, vm, Some(stop), fuel + Count(b)) ==
            LoopUntil(c, vm.(offset := Extent(c, b, vm.offset).value, sem := Meaning(c, b, vm.sem)), Some(stop), fuel)
    decreases b
  {
    match b
    case Nil =>
    case Cons(head, tail) =>
      var vm' := vm.(offset := After(c, head, vm.offset).value, sem := Does(c, head, vm.sem));
      StmtRuns(c, head, vm, fuel + Count(tail));
      BlockRunsUntil(c, tail, vm', stop, fuel);
  }

  /** A top-level run told to stop before an offset runs exactly the statements
      that start below it, calls and repeats among them in full, and stays there. */
  lemma StopsBefore(c: Cpu, b: Block, vm: Vm, start: nat, stop: nat, fuel: nat)
    requires vm.nested == 0 && start != 0 && fuel >= Need(b)
    requires Extent(c, b, start).Some? && StartsBelow(c, b, start, stop) && Extent(c, b, start).value >= stop
    ensures RunUntil(c, vm, start, Some(stop), fuel) ==
            Finished(Fresh(vm).(offset := Extent(c, b, start).value, sem := Meaning(c, b, Fresh(vm).sem)))
  {
    var vm' := Fresh(vm).(offset := start, nested := 1);
    BlockRunsUntil(c, b, vm', stop, fuel - Count(b));
  }
}
