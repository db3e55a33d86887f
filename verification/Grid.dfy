/** All threads of a launch, interleaved instruction by instruction in any
    order a schedule gives: the vector operation, element by element. */
module Grid {
  import opened Words
  import opened Dwords
  import opened Kernel
  import opened Threads

  /** The threads, the memory they share, and every store made so far. */
  datatype System = System(threads: seq<Thread>, mem: Mem, log: seq<Access>)

  function StepOf(image: seq<byte>, l: Launch, s: System, t: nat): Stepped
    requires t < |s.threads| && l.blockDim > 0
  {
    Exec(Fetch(image, s.threads[t].pc), l, t / l.blockDim, s.threads[t], s.mem)
  }

  /** Thread t executes one instruction of the image. */
  function Turn(image: seq<byte>, l: Launch, s: System, t: nat): System {
    if t >= |s.threads| || l.blockDim == 0 then s
    else
      var step := StepOf(image, l, s, t);
      match step.store
      case None => System(s.threads[t := step.thread], s.mem, s.log)
      case Some(addr, val) => System(s.threads[t := step.thread], s.mem[addr := val], s.log + [step.store])
  }

  function Run(image: seq<byte>, l: Launch, s: System, sched: seq<nat>): System
    decreases |sched|
  {
    if sched == [] then s else Turn(image, l, Run(image, l, s, sched[..|sched| - 1]), sched[|sched| - 1])
  }

  function Launched(l: Launch, mem: Mem): System
    requires Valid(l)
  {
    System(seq(|l.junk|, t requires 0 <= t < |l.junk| => Begin(l, t)), mem, [])
  }

  /** How often thread t was given a turn. */
  function Turns(sched: seq<nat>, t: nat): nat
    decreases |sched|
  {
    if sched == [] then 0
    else Turns(sched[..|sched| - 1], t) + if sched[|sched| - 1] == t then 1 else 0
  }

  /** How often an address was stored to. */
  function Stores(log: seq<Access>, addr: nat): nat
    decreases |log|
  {
    if log == [] then 0
    else
      var last := log[|log| - 1];
      Stores(log[..|log| - 1], addr) + if last.Some? && last.addr == addr then 1 else 0
  }

  function Progress(l: Launch, mul: bool, mem: Mem, sched: seq<nat>, t: nat): nat
    requires Valid(l) && t < |l.junk|
  {
    var last := Last(l, ViewOf(l, mul, mem, t));
    if Turns(sched, t) < last then Turns(sched, t) else last
  }

  predicate ThreadsOk(l: Launch, mul: bool, start: Mem, sched: seq<nat>, s: System)
    requires Valid(l)
  {
    |s.threads| == |l.junk| &&
    forall t :: 0 <= t < |l.junk| ==>
      Reaches(l, ViewOf(l, mul, start, t), Progress(l, mul, start, sched, t), s.threads[t])
  }

  /** Element t has been stored. */
  predicate Stored(l: Launch, sched: seq<nat>, t: nat) {
    t < l.n && Turns(sched, t) >= 14
  }

  predicate IsOut(l: Launch, addr: nat) {
    l.out <= addr < l.out + 4 * l.n && (addr - l.out) % 4 == 0
  }

  /** What the store log and memory say about one address. */
  predicate CellOk(l: Launch, mul: bool, start: Mem, sched: seq<nat>, s: System, addr: nat) {
    if IsOut(l, addr) && Stored(l, sched, (addr - l.out) / 4)
    then Get(s.mem, addr) == Wanted(l, mul, start, (addr - l.out) / 4) && Stores(s.log, addr) == 1
    else Get(s.mem, addr) == Get(start, addr) && Stores(s.log, addr) == 0
  }

  ghost predicate MemOk(l: Launch, mul: bool, start: Mem, sched: seq<nat>, s: System) {
    forall addr: nat :: CellOk(l, mul, start, sched, s, addr)
  }

  lemma InputsKept(l: Launch, mul: bool, start: Mem, sched: seq<nat>, s: System, t: nat)
    requires Valid(l) && MemOk(l, mul, start, sched, s)
    ensures SameInputs(l, t, start, s.mem)
  {
    hide Stored, Get, Stores, CeilDiv, Count;
    if t < l.n {
      assert !IsOut(l, l.a + 4 * t) && CellOk(l, mul, start, sched, s, l.a + 4 * t);
      assert !IsOut(l, l.b + 4 * t) && CellOk(l, mul, start, sched, s, l.b + 4 * t);
    }
  }

  lemma TurnsSnoc(sched: seq<nat>, t: nat, u: nat)
    ensures Turns(sched + [t], u) == Turns(sched, u) + if t == u then 1 else 0
  {
    assert (sched + [t])[..|sched|] == sched;
  }

  lemma StoresSnoc(log: seq<Access>, x: Access, addr: nat)
    ensures Stores(log + [x], addr) == Stores(log, addr) + if x.Some? && x.addr == addr then 1 else 0
  {
    assert (log + [x])[..|log|] == log;
  }

  /** A turn of thread t, said in terms of its progress. */
  lemma TurnIs(l: Launch, mul: bool, start: Mem, sched: seq<nat>, s: System, t: nat)
    requires Valid(l) && ThreadsOk(l, mul, start, sched, s) && MemOk(l, mul, start, sched, s) && t < |l.junk|
    ensures var v := ViewOf(l, mul, start, t);
            var k := Progress(l, mul, start, sched, t);
            var step := StepOf(KernelImage(mul), l, s, t);
            if k < Last(l, v)
            then Reaches(l, v, k + 1, step.thread) && step.store == StoreAt(l, mul, start, t, k)
            else Reaches(l, v, k, step.thread) && step.store == None
  {
    hide KernelImage, Listing, Fetch, CeilDiv, Count, Turns, Stores, Wanted, Exec;
    var v := ViewOf(l, mul, start, t);
    var k := Progress(l, mul, start, sched, t);
    InputsKept(l, mul, start, sched, s, t);
    assert Reaches(l, v, k, s.threads[t]);
    FetchIsListing(mul, s.threads[t].pc);
    hide Valid, MemOk, ThreadsOk, SameInputs;
    if k < Last(l, v) {
      ThreadMoves(l, mul, start, t, k, s.threads[t], s.mem);
    } else {
      ThreadRests(l, mul, v, s.threads[t], Listing(mul, s.threads[t].pc), s.mem);
    }
  }

  lemma ProgressSnoc(l: Launch, mul: bool, start: Mem, sched: seq<nat>, t: nat, u: nat)
    requires Valid(l) && u < |l.junk|
    ensures var k := Progress(l, mul, start, sched, u);
            Progress(l, mul, start, sched + [t], u) ==
            if t == u && k < Last(l, ViewOf(l, mul, start, u)) then k + 1 else k
  {
    TurnsSnoc(sched, t, u);
    hide Valid, ViewOf;
  }

  lemma TurnKeepsThreads(l: Launch, mul: bool, start: Mem, sched: seq<nat>, s: System, t: nat)
    requires Valid(l) && ThreadsOk(l, mul, start, sched, s) && MemOk(l, mul, start, sched, s)
    ensures ThreadsOk(l, mul, start, sched + [t], Turn(KernelImage(mul), l, s, t))
  {
    hide KernelImage, StepOf, Fetch, CeilDiv, Count, Turns, Stores, Wanted, Exec, Progress, ViewOf, Reaches, Regs;
    if t < |l.junk| {
      TurnIs(l, mul, start, sched, s, t);
    }
    var s' := Turn(KernelImage(mul), l, s, t);
    assert |s'.threads| == |l.junk|;
    assert forall u :: 0 <= u < |l.junk| && u != t ==> s'.threads[u] == s.threads[u];
    hide MemOk, Turn;
    forall u | 0 <= u < |l.junk|
      ensures Reaches(l, ViewOf(l, mul, start, u), Progress(l, mul, start, sched + [t], u), s'.threads[u])
    {
      ProgressSnoc(l, mul, start, sched, t, u);
    }
  }

  /** The store of a turn is the fourteenth turn of a thread inside the data. */
  lemma StoreIsLastTurn(l: Launch, mul: bool, start: Mem, sched: seq<nat>, t: nat)
    requires Valid(l) && t < |l.junk|
    ensures var k := Progress(l, mul, start, sched, t);
            k < Last(l, ViewOf(l, mul, start, t)) && StoreAt(l, mul, start, t, k).Some? <==>
            t < l.n && Turns(sched, t) == 13
  {
    hide Valid;
  }

  lemma TurnStores(l: Launch, mul: bool, start: Mem, sched: seq<nat>, s: System, t: nat)
    requires Valid(l) && ThreadsOk(l, mul, start, sched, s) && MemOk(l, mul, start, sched, s)
    ensures var s' := Turn(KernelImage(mul), l, s, t);
            if t < |l.junk| && t < l.n && Turns(sched, t) == 13
            then
              s'.mem == s.mem[l.out + 4 * t := Wanted(l, mul, start, t)] &&
              s'.log == s.log + [Some(l.out + 4 * t, Wanted(l, mul, start, t))]
            else s'.mem == s.mem && s'.log == s.log
  {
    hide KernelImage, StepOf, Fetch, CeilDiv, Count, Turns, Stores, Wanted, Exec, Progress, ViewOf, Reaches, Regs,
         MemOk;
    if t < |l.junk| {
      TurnIs(l, mul, start, sched, s, t);
      StoreIsLastTurn(l, mul, start, sched, t);
    }
  }

  lemma TurnKeepsCell(l: Launch, mul: bool, start: Mem, sched: seq<nat>, s: System, t: nat, addr: nat)
    requires Valid(l) && ThreadsOk(l, mul, start, sched, s) && MemOk(l, mul, start, sched, s)
    ensures CellOk(l, mul, start, sched + [t], Turn(KernelImage(mul), l, s, t), addr)
  {
    hide KernelImage, Turn, Turns, Stores, Wanted, Valid, ThreadsOk;
    assert CellOk(l, mul, start, sched, s, addr);
    TurnStores(l, mul, start, sched, s, t);
    ElementsHaveThreads(l);
    StoresSnoc(s.log, Some(l.out + 4 * t, Wanted(l, mul, start, t)), addr);
    if IsOut(l, addr) {
      TurnsSnoc(sched, t, (addr - l.out) / 4);
    }
  }

  /** The grid is large enough. */
  lemma ElementsHaveThreads(l: Launch)
    requires Valid(l)
    ensures l.n <= |l.junk|
  {
    CeilCovers(l.n, l.blockDim);
  }

  lemma CeilCovers(n: nat, d: nat)
    requires d > 0
    ensures n <= Count(CeilDiv(n, d), d)
  {
    var q, r := (n + d - 1) / d, (n + d - 1) % d;
    assert n + d - 1 == d * q + r;
  }

  /** The system after a schedule, from launch. */
  function After(l: Launch, mul: bool, start: Mem, sched: seq<nat>): System
    requires Valid(l)
  {
    Run(KernelImage(mul), l, Launched(l, start), sched)
  }

  lemma {:induction false} EveryScheduleKeeps(l: Launch, mul: bool, start: Mem, sched: seq<nat>)
    requires Valid(l)
    ensures var s := After(l, mul, start, sched);
            ThreadsOk(l, mul, start, sched, s) && MemOk(l, mul, start, sched, s)
    decreases |sched|
  {
    hide KernelImage, Turn, Reaches, Begin, ViewOf, Valid, IsOut, Stored, Wanted;
    if sched == [] {
      forall t | 0 <= t < |l.junk| ensures Reaches(l, ViewOf(l, mul, start, t), 0, Begin(l, t)) {
        BeginReaches(l, mul, start, t);
      }
      NothingStored(l, mul, start, Launched(l, start).threads);
    } else {
      var before, t := sched[..|sched| - 1], sched[|sched| - 1];
      var s := After(l, mul, start, before);
      assert before + [t] == sched;
      EveryScheduleKeeps(l, mul, start, before);
      hide ThreadsOk, MemOk;
      TurnKeepsThreads(l, mul, start, before, s, t);
      AllCellsKept(l, mul, start, before, s, t);
    }
  }

  lemma NothingStored(l: Launch, mul: bool, start: Mem, threads: seq<Thread>)
    ensures MemOk(l, mul, start, [], System(threads, start, []))
  {
    hide IsOut, Get, Wanted;
  }

  lemma AllCellsKept(l: Launch, mul: bool, start: Mem, sched: seq<nat>, s: System, t: nat)
    requires Valid(l) && ThreadsOk(l, mul, start, sched, s) && MemOk(l, mul, start, sched, s)
    ensures MemOk(l, mul, start, sched + [t], Turn(KernelImage(mul), l, s, t))
  {
    hide KernelImage, Turn, Valid, ThreadsOk, CellOk;
    forall addr: nat ensures CellOk(l, mul, start, sched + [t], Turn(KernelImage(mul), l, s, t), addr) {
      TurnKeepsCell(l, mul, start, sched, s, t, addr);
    }
  }

  // ---- the theorem -------------------------------------------------------------

  predicate AllDone(s: System) {
    forall t :: 0 <= t < |s.threads| ==> s.threads[t].done
  }

  /** A thread is done exactly when it has had its turns: fourteen inside the
      data, six past the end. So every fair schedule ends. */
  lemma DoneIffTurns(l: Launch, mul: bool, start: Mem, sched: seq<nat>, t: nat)
    requires Valid(l) && t < |l.junk|
    ensures var s := After(l, mul, start, sched);
            t < |s.threads| && (s.threads[t].done <==> Turns(sched, t) >= if t < l.n then 14 else 6)
  {
    hide After, Regs, CeilDiv, Count, MemOk, Turns;
    EveryScheduleKeeps(l, mul, start, sched);
    var s := After(l, mul, start, sched);
    assert Reaches(l, ViewOf(l, mul, start, t), Progress(l, mul, start, sched, t), s.threads[t]);
  }

  /** Each out[i] has been stored exactly once, with the operation applied to
      the a[i] and b[i] of the launch, and nothing else was stored anywhere. */
  ghost predicate IsVectorOperation(l: Launch, mul: bool, start: Mem, s: System) {
    (forall i: nat :: i < l.n ==>
      Get(s.mem, l.out + 4 * i) == Wanted(l, mul, start, i) && Stores(s.log, l.out + 4 * i) == 1) &&
    (forall addr: nat :: !IsOut(l, addr) ==> Get(s.mem, addr) == Get(start, addr) && Stores(s.log, addr) == 0)
  }

  /** Whatever the order of the threads, once all are done the launch has been
      the vector operation. */
  lemma VectorOperation(l: Launch, mul: bool, start: Mem, sched: seq<nat>)
    requires Valid(l)
    requires AllDone(After(l, mul, start, sched))
    ensures IsVectorOperation(l, mul, start, After(l, mul, start, sched))
  {
    hide After, Turns, Stores, Wanted, Get;
    var s := After(l, mul, start, sched);
    EveryScheduleKeeps(l, mul, start, sched);
    ElementsHaveThreads(l);
    hide Valid, ThreadsOk;
    forall i: nat | i < l.n
      ensures Get(s.mem, l.out + 4 * i) == Wanted(l, mul, start, i) && Stores(s.log, l.out + 4 * i) == 1
    {
      DoneIffTurns(l, mul, start, sched, i);
      assert CellOk(l, mul, start, sched, s, l.out + 4 * i);
    }
    forall addr: nat | !IsOut(l, addr) ensures Get(s.mem, addr) == Get(start, addr) && Stores(s.log, addr) == 0 {
      assert CellOk(l, mul, start, sched, s, addr);
    }
  }
}
