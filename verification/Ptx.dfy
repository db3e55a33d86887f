/** The same kernel in PTX, as the repository hands it to ptxas: one thread of
    it makes exactly the store the hand-assembled thread makes. */
module Ptx {
  import opened Bits
  import opened Words
  import opened Dwords
  import opened Kernel
  import opened Threads

  datatype Special = Tid | Ntid | Ctaid

  datatype PtxOp =
    | LdParam(d: nat, slot: nat)
    | MovSpecial(d: nat, special: Special)
    | MadLo(d: nat, x: nat, y: nat, z: nat)
    | SetpGe(x: nat, y: nat)
    | RetIf
    | ShlImm(d: nat, x: nat, amount: nat)
    | AddU32(d: nat, x: nat, y: nat)
    | LdGlobal(d: nat, x: nat)
    | ArithF32(d: nat, x: nat, y: nat)
    | StGlobal(x: nat, y: nat)
    | Ret

  /** The body of the entry, line by line; parameters are a, b, out, N. */
  function PtxListing(pc: nat): PtxOp {
    if pc == 0 then LdParam(1, 4)
    else if pc == 1 then LdParam(2, 5)
    else if pc == 2 then LdParam(3, 6)
    else if pc == 3 then LdParam(4, 7)
    else if pc == 4 then MovSpecial(5, Tid)
    else if pc == 5 then MovSpecial(6, Ntid)
    else if pc == 6 then MovSpecial(7, Ctaid)
    else if pc == 7 then MadLo(8, 7, 6, 5)
    else if pc == 8 then SetpGe(8, 4)
    else if pc == 9 then RetIf
    else if pc == 10 then ShlImm(0, 8, 2)
    else if pc == 11 then AddU32(5, 1, 0)
    else if pc == 12 then LdGlobal(1, 5)
    else if pc == 13 then AddU32(7, 2, 0)
    else if pc == 14 then LdGlobal(2, 7)
    else if pc == 15 then ArithF32(3, 1, 2)
    else if pc == 16 then AddU32(8, 3, 0)
    else if pc == 17 then StGlobal(8, 3)
    else Ret
  }

  /** Integer registers, float registers, the one predicate, stores made. */
  datatype State = State(pc: nat, r: seq<word>, f: seq<word>, p: bool, done: bool, out: seq<Access>)

  function WithR(st: State, d: nat, v: int): State {
    st.(pc := st.pc + 1, r := Set32(st.r, d, v))
  }

  function WithF(st: State, d: nat, v: word): State {
    st.(pc := st.pc + 1, f := Set32(st.f, d, v))
  }

  function SpecialValue(l: Launch, t: nat, special: Special): int
    requires l.blockDim > 0
  {
    match special
    case Tid => t % l.blockDim
    case Ntid => l.blockDim
    case Ctaid => t / l.blockDim
  }

  function PtxExec(op: PtxOp, l: Launch, mul: bool, mem: Mem, t: nat, st: State): (st': State)
    requires l.blockDim > 0
    ensures st'.pc == st.pc + 1
  {
    match op
    case LdParam(d, slot) => WithR(st, d, Word32(l, slot))
    case MovSpecial(d, special) => WithR(st, d, SpecialValue(l, t, special))
    case MadLo(d, x, y, z) => WithR(st, d, Get32(st.r, x) * Get32(st.r, y) + Get32(st.r, z))
    case SetpGe(x, y) => st.(pc := st.pc + 1, p := Get32(st.r, x) >= Get32(st.r, y))
    case RetIf => st.(pc := st.pc + 1, done := st.p)
    case ShlImm(d, x, amount) => WithR(st, d, Get32(st.r, x) * Pow2(amount))
    case AddU32(d, x, y) => WithR(st, d, Get32(st.r, x) + Get32(st.r, y))
    case LdGlobal(d, x) => WithF(st, d, Get(mem, Get32(st.r, x)))
    case ArithF32(d, x, y) =>
      WithF(st, d, if mul then l.mul(Get32(st.f, x), Get32(st.f, y)) else l.add(Get32(st.f, x), Get32(st.f, y)))
    case StGlobal(x, y) => st.(pc := st.pc + 1, out := st.out + [Some(Get32(st.r, x), Get32(st.f, y))])
    case Ret => st.(pc := st.pc + 1, done := true)
  }

  const END := 19

  function RunPtx(l: Launch, mul: bool, mem: Mem, t: nat, st: State): State
    requires l.blockDim > 0
    decreases END - st.pc
  {
    if st.done || st.pc >= END then st else RunPtx(l, mul, mem, t, PtxExec(PtxListing(st.pc), l, mul, mem, t, st))
  }

  predicate Running(st: State, pc: nat) {
    |st.r| == 10 && |st.f| == 4 && st.pc == pc && !st.done && st.out == []
  }

  predicate Params(l: Launch, st: State) {
    |st.r| == 10 && st.r[1] == l.a && st.r[2] == l.b && st.r[3] == l.out && st.r[4] == l.n
  }

  lemma Unfold(op: PtxOp, l: Launch, mul: bool, mem: Mem, t: nat, st: State) returns (st': State)
    requires l.blockDim > 0 && !st.done && st.pc < END && op == PtxListing(st.pc)
    ensures st' == PtxExec(op, l, mul, mem, t, st) && RunPtx(l, mul, mem, t, st) == RunPtx(l, mul, mem, t, st')
  {
    st' := PtxExec(op, l, mul, mem, t, st);
  }

  lemma AtRest(l: Launch, mul: bool, mem: Mem, t: nat, st: State)
    requires l.blockDim > 0 && st.done
    ensures RunPtx(l, mul, mem, t, st) == st
  {
  }

  lemma ParamsLoaded(l: Launch, mul: bool, mem: Mem, t: nat, st: State) returns (st': State)
    requires l.blockDim > 0 && 0 < l.n < U32 && l.a < U32 && l.b < U32 && l.out < U32
    requires Running(st, 0)
    ensures RunPtx(l, mul, mem, t, st) == RunPtx(l, mul, mem, t, st') && Running(st', 4) && Params(l, st')
  {
    hide RunPtx;
    var s1 := Unfold(LdParam(1, 4), l, mul, mem, t, st);
    var s2 := Unfold(LdParam(2, 5), l, mul, mem, t, s1);
    var s3 := Unfold(LdParam(3, 6), l, mul, mem, t, s2);
    st' := Unfold(LdParam(4, 7), l, mul, mem, t, s3);
  }

  lemma SpecialsRead(l: Launch, mul: bool, mem: Mem, t: nat, st: State) returns (st': State)
    requires Valid(l) && t < |l.junk| && Running(st, 4) && Params(l, st)
    ensures RunPtx(l, mul, mem, t, st) == RunPtx(l, mul, mem, t, st') && Running(st', 7) && Params(l, st')
    ensures st'.r[5] == t % l.blockDim && st'.r[6] == l.blockDim && st'.r[7] == t / l.blockDim
  {
    hide RunPtx, CeilDiv, Count;
    IndexFits(l.blockDim, l.gridDim, t);
    var s1 := Unfold(MovSpecial(5, Tid), l, mul, mem, t, st);
    assert s1.r == st.r[5 := t % l.blockDim];
    var s2 := Unfold(MovSpecial(6, Ntid), l, mul, mem, t, s1);
    assert s2.r == s1.r[6 := l.blockDim];
    st' := Unfold(MovSpecial(7, Ctaid), l, mul, mem, t, s2);
  }

  lemma IndexComputed(l: Launch, mul: bool, mem: Mem, t: nat, st: State) returns (st': State)
    requires Valid(l) && t < |l.junk| && Running(st, 7) && Params(l, st)
    requires st.r[5] == t % l.blockDim && st.r[6] == l.blockDim && st.r[7] == t / l.blockDim
    ensures RunPtx(l, mul, mem, t, st) == RunPtx(l, mul, mem, t, st') && Running(st', 8) && Params(l, st')
    ensures st'.r[8] == t
  {
    hide RunPtx, CeilDiv, Count;
    IndexFits(l.blockDim, l.gridDim, t);
    assert st.r[7] * st.r[6] + st.r[5] == t;
    st' := Unfold(MadLo(8, 7, 6, 5), l, mul, mem, t, st);
  }

  lemma PastEndReturns(l: Launch, mul: bool, mem: Mem, t: nat, st: State)
    requires Valid(l) && t >= l.n && Running(st, 8) && Params(l, st) && st.r[8] == t
    ensures RunPtx(l, mul, mem, t, st).out == [] && RunPtx(l, mul, mem, t, st).done
  {
    hide RunPtx, CeilDiv, Count;
    var s1 := Unfold(SetpGe(8, 4), l, mul, mem, t, st);
    var s2 := Unfold(RetIf, l, mul, mem, t, s1);
    AtRest(l, mul, mem, t, s2);
  }

  predicate Inside(l: Launch, t: nat) {
    l.blockDim > 0 && t < l.n && l.a + 4 * t < U32 && l.b + 4 * t < U32 && l.out + 4 * t < U32
  }

  lemma ElementInside(l: Launch, t: nat)
    requires Valid(l) && t < l.n
    ensures Inside(l, t)
  {
    hide CeilDiv, Count;
  }

  lemma StaysIn(l: Launch, mul: bool, mem: Mem, t: nat, st: State) returns (st': State)
    requires Inside(l, t) && Running(st, 8) && Params(l, st) && st.r[8] == t
    ensures RunPtx(l, mul, mem, t, st) == RunPtx(l, mul, mem, t, st') && Running(st', 10) && Params(l, st')
    ensures st'.r[8] == t
  {
    hide RunPtx;
    var s1 := Unfold(SetpGe(8, 4), l, mul, mem, t, st);
    st' := Unfold(RetIf, l, mul, mem, t, s1);
  }

  lemma OffsetComputed(l: Launch, mul: bool, mem: Mem, t: nat, st: State) returns (st': State)
    requires Inside(l, t) && Running(st, 10) && Params(l, st) && st.r[8] == t
    ensures RunPtx(l, mul, mem, t, st) == RunPtx(l, mul, mem, t, st') && Running(st', 11) && Params(l, st')
    ensures st'.r[0] == 4 * t
  {
    hide RunPtx;
    assert Pow2(2) == 4;
    st' := Unfold(ShlImm(0, 8, 2), l, mul, mem, t, st);
  }

  lemma FirstLoaded(l: Launch, mul: bool, mem: Mem, t: nat, st: State) returns (st': State)
    requires Inside(l, t) && Running(st, 11) && Params(l, st) && st.r[0] == 4 * t
    ensures RunPtx(l, mul, mem, t, st) == RunPtx(l, mul, mem, t, st') && Running(st', 13) && Params(l, st')
    ensures st'.r[0] == 4 * t && st'.f[1] == Get(mem, l.a + 4 * t)
  {
    hide RunPtx, Get;
    var s1 := Unfold(AddU32(5, 1, 0), l, mul, mem, t, st);
    assert s1.r == st.r[5 := l.a + 4 * t];
    st' := Unfold(LdGlobal(1, 5), l, mul, mem, t, s1);
  }

  lemma SecondLoaded(l: Launch, mul: bool, mem: Mem, t: nat, st: State) returns (st': State)
    requires Inside(l, t) && Running(st, 13) && Params(l, st) && st.r[0] == 4 * t
    ensures RunPtx(l, mul, mem, t, st) == RunPtx(l, mul, mem, t, st') && Running(st', 15) && Params(l, st')
    ensures st'.r[0] == 4 * t && st'.f[1] == st.f[1] && st'.f[2] == Get(mem, l.b + 4 * t)
  {
    hide RunPtx, Get;
    var s1 := Unfold(AddU32(7, 2, 0), l, mul, mem, t, st);
    assert s1.r == st.r[7 := l.b + 4 * t];
    st' := Unfold(LdGlobal(2, 7), l, mul, mem, t, s1);
  }

  lemma ResultComputed(l: Launch, mul: bool, mem: Mem, t: nat, st: State) returns (st': State)
    requires Inside(l, t) && Running(st, 15) && Params(l, st) && st.r[0] == 4 * t
    requires st.f[1] == Get(mem, l.a + 4 * t) && st.f[2] == Get(mem, l.b + 4 * t)
    ensures RunPtx(l, mul, mem, t, st) == RunPtx(l, mul, mem, t, st') && Running(st', 17)
    ensures st'.r[8] == l.out + 4 * t && st'.f[3] == Wanted(l, mul, mem, t)
  {
    hide RunPtx, Get;
    var s1 := Unfold(ArithF32(3, 1, 2), l, mul, mem, t, st);
    assert s1.f == st.f[3 := Wanted(l, mul, mem, t)] && s1.r == st.r;
    hide Wanted;
    st' := Unfold(AddU32(8, 3, 0), l, mul, mem, t, s1);
  }

  lemma ResultStored(l: Launch, mul: bool, mem: Mem, t: nat, addr: nat, val: word, st: State)
    requires l.blockDim > 0 && Running(st, 17) && st.r[8] == addr && st.f[3] == val
    ensures RunPtx(l, mul, mem, t, st).out == [Some(addr, val)]
    ensures RunPtx(l, mul, mem, t, st).done
  {
    hide RunPtx;
    var s1 := Unfold(StGlobal(8, 3), l, mul, mem, t, st);
    var s2 := Unfold(Ret, l, mul, mem, t, s1);
    AtRest(l, mul, mem, t, s2);
  }

  /** The stores element t calls for. */
  function Effect(l: Launch, mul: bool, mem: Mem, t: nat): seq<Access> {
    if t < l.n then [Some(l.out + 4 * t, Wanted(l, mul, mem, t))] else []
  }

  /** A PTX thread, from any register contents, makes exactly its one store. */
  lemma PtxThread(l: Launch, mul: bool, mem: Mem, t: nat, st: State)
    requires Valid(l) && t < |l.junk| && Running(st, 0)
    ensures RunPtx(l, mul, mem, t, st).out == Effect(l, mul, mem, t) && RunPtx(l, mul, mem, t, st).done
  {
    hide RunPtx, CeilDiv, Count, Get, Wanted;
    var s4 := ParamsLoaded(l, mul, mem, t, st);
    var s7 := SpecialsRead(l, mul, mem, t, s4);
    var s8 := IndexComputed(l, mul, mem, t, s7);
    if t < l.n {
      ElementInside(l, t);
      var s10 := StaysIn(l, mul, mem, t, s8);
      var s11 := OffsetComputed(l, mul, mem, t, s10);
      var s13 := FirstLoaded(l, mul, mem, t, s11);
      var s15 := SecondLoaded(l, mul, mem, t, s13);
      var s17 := ResultComputed(l, mul, mem, t, s15);
      ResultStored(l, mul, mem, t, l.out + 4 * t, Wanted(l, mul, mem, t), s17);
    } else {
      PastEndReturns(l, mul, mem, t, s8);
    }
  }

  // ---- against the hand-assembled thread ----------------------------------------

  /** The stores thread t of the image makes in n steps when it runs alone. */
  function SassStores(image: seq<byte>, l: Launch, t: nat, th: Thread, mem: Mem, n: nat): seq<Access>
    requires l.blockDim > 0
    decreases n
  {
    if n == 0 then []
    else
      var s := Exec(Fetch(image, th.pc), l, t / l.blockDim, th, mem);
      (if s.store.Some? then [s.store] else []) + SassStores(image, l, t, s.thread, mem, n - 1)
  }

  lemma {:induction false} SassThread(l: Launch, mul: bool, mem: Mem, t: nat, th: Thread, k: nat, n: nat)
    requires Valid(l) && t < |l.junk| && Reaches(l, ViewOf(l, mul, mem, t), k, th)
    requires n + k >= 14 || k == Last(l, ViewOf(l, mul, mem, t))
    ensures SassStores(KernelImage(mul), l, t, th, mem, n) == if k < 14 then Effect(l, mul, mem, t) else []
    decreases n
  {
    hide KernelImage, Fetch, Exec, Listing, Wanted, Get, CeilDiv, Count, Regs;
    var v := ViewOf(l, mul, mem, t);
    FetchIsListing(mul, th.pc);
    if n > 0 {
      if k < Last(l, v) {
        ThreadMoves(l, mul, mem, t, k, th, mem);
        var s := Exec(Listing(mul, k), l, v.block, th, mem);
        SassThread(l, mul, mem, t, s.thread, k + 1, n - 1);
      } else {
        ThreadRests(l, mul, v, th, Listing(mul, k), mem);
        SassThread(l, mul, mem, t, th, k, n - 1);
      }
    }
  }

  /** The PTX source and the hand-assembled image compute the same function. */
  lemma PtxIsSass(l: Launch, mul: bool, mem: Mem, t: nat, st: State)
    requires Valid(l) && t < |l.junk| && Running(st, 0)
    ensures RunPtx(l, mul, mem, t, st).out == SassStores(KernelImage(mul), l, t, Begin(l, t), mem, 14)
  {
    hide KernelImage, RunPtx, SassStores, Reaches, Effect;
    PtxThread(l, mul, mem, t, st);
    BeginReaches(l, mul, mem, t);
    SassThread(l, mul, mem, t, Begin(l, t), 0, 14);
  }
}
