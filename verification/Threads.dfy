/** One thread of the vector kernel: the machine it runs on, what its registers
    hold after each instruction, and the same thread written in PTX. */
module Threads {
  import opened Bits
  import opened Words
  import opened Dwords
  import opened Kernel

  /** A one-dimensional launch. `add` and `mul` are whatever the hardware
      computes on 32-bit patterns; `junk` is what the registers start with. */
  datatype Launch = Launch(blockDim: nat, gridDim: nat, a: nat, b: nat, out: nat, n: nat,
                           add: (word, word) -> word, mul: (word, word) -> word, junk: seq<seq<word>>)

  predicate Apart(p: nat, q: nat, n: nat) {
    p + 4 * n <= q || q + 4 * n <= p
  }

  predicate Buffer(at: nat, n: nat) {
    at % 4 == 0 && at + 4 * n <= U32
  }

  function CeilDiv(n: nat, d: nat): nat
    requires d > 0
  {
    (n + d - 1) / d
  }

  function Count(gridDim: nat, blockDim: nat): nat {
    gridDim * blockDim
  }

  /** The launch main() makes: enough blocks for n elements, and buffers that
      do not overlap the output. */
  predicate Valid(l: Launch) {
    0 < l.n && 0 < l.blockDim < 0x10000 && l.gridDim == CeilDiv(l.n, l.blockDim) < 0x10000 &&
    Buffer(l.a, l.n) && Buffer(l.b, l.n) && Buffer(l.out, l.n) && Apart(l.a, l.out, l.n) && Apart(l.b, l.out, l.n) &&
    |l.junk| == Count(l.gridDim, l.blockDim) && forall t :: 0 <= t < |l.junk| ==> |l.junk[t]| == 4
  }

  /** Shared memory of a block, 16-bit and 32-bit slots. */
  function Half16(l: Launch, block: int, slot: nat): int {
    if slot == 1 then l.blockDim else if slot == 6 then block else 0
  }

  function Word32(l: Launch, slot: nat): nat {
    if slot == 4 then l.a else if slot == 5 then l.b else if slot == 6 then l.out else if slot == 7 then l.n else 0
  }

  // ---- the machine -----------------------------------------------------------

  datatype Thread = Thread(pc: nat, r: seq<word>, c0: bool, done: bool)
  datatype Access = None | Some(addr: nat, val: word)
  datatype Stepped = Stepped(thread: Thread, store: Access)

  function Get32(r: seq<word>, k: nat): word {
    if k < |r| then r[k] else 0
  }

  function Set32(r: seq<word>, k: nat, v: int): seq<word> {
    if k < |r| then r[k := v % U32] else r
  }

  function Get16(r: seq<word>, half: nat): int {
    if half % 2 == 1 then Get32(r, half / 2) / 0x10000 else Get32(r, half / 2) % 0x10000
  }

  function Set16(r: seq<word>, half: nat, v: int): seq<word> {
    var w := Get32(r, half / 2);
    Set32(r, half / 2, if half % 2 == 1 then w % 0x10000 + 0x10000 * v else w - w % 0x10000 + v % 0x10000)
  }

  function Next(th: Thread, r: seq<word>): Stepped {
    Stepped(th.(pc := th.pc + 1, r := r), None)
  }

  function Exec(op: Op, l: Launch, block: int, th: Thread, mem: Mem): Stepped {
    var r := th.r;
    if th.done then Stepped(th, None) else
    match op
    case LoadHalf(half, slot) => Next(th, Set16(r, half, Half16(l, block, slot)))
    case WidenHalf(dst, half) => Next(th, Set32(r, dst, Get16(r, half)))
    case MulHalves(dst, slot, half) => Next(th, Set32(r, dst, Half16(l, block, slot) * Get16(r, half)))
    case Add(dst, first, right) =>
      var x := if first.Reg? then Get32(r, first.r) else Word32(l, first.slot);
      Next(th, Set32(r, dst, x + Get32(r, right)))
    case SetLessEqual(slot, reg) =>
      Stepped(th.(pc := th.pc + 1, c0 := Word32(l, slot) <= Get32(r, reg)), None)
    case ReturnIfSet => Stepped(th.(pc := th.pc + 1, done := th.c0), None)
    case ShiftLeft(dst, src, amount) => Next(th, Set32(r, dst, Get32(r, src) * Pow2(amount)))
    case Load(dst, addr) => Next(th, Set32(r, dst, Get(mem, Get32(r, addr))))
    case FAdd(dst, left, right) => Next(th, Set32(r, dst, l.add(Get32(r, left), Get32(r, right))))
    case FMul(dst, left, right) => Next(th, Set32(r, dst, l.mul(Get32(r, left), Get32(r, right))))
    case Store(addr, src) =>
      Stepped(th.(pc := th.pc + 1, done := true), Some(Get32(r, addr), Get32(r, src)))
    case Undefined => Stepped(th, None)
  }

  /** A thread starts with its index in the block in the low half of R0. */
  function Begin(l: Launch, t: nat): Thread
    requires Valid(l) && t < |l.junk|
  {
    Thread(0, Set16(l.junk[t], 0, t % l.blockDim), false, false)
  }

  /** The result element t should get, from the memory at launch. */
  function Wanted(l: Launch, mul: bool, mem: Mem, t: nat): word {
    var x, y := Get(mem, l.a + 4 * t), Get(mem, l.b + 4 * t);
    if mul then l.mul(x, y) else l.add(x, y)
  }

  // ---- what the registers hold -------------------------------------------------

  /** The numbers a thread computes with: its start registers, block and index
      in it, the product of block and block size, its global index, and, when
      that is inside the buffers, the byte offset, the two operands and the result. */
  datatype View = View(x: seq<word>, block: int, tid: int, first: int, i: nat, va: word, vb: word, res: word)

  function ViewOf(l: Launch, mul: bool, mem: Mem, t: nat): View
    requires Valid(l) && t < |l.junk|
  {
    View(l.junk[t], t / l.blockDim, t % l.blockDim, l.blockDim * (t / l.blockDim), t, Get(mem, l.a + 4 * t),
         Get(mem, l.b + 4 * t), Wanted(l, mul, mem, t))
  }

  predicate Fits(l: Launch, v: View) {
    v.first == l.blockDim * v.block && Bounded(l, v)
  }

  predicate Bounded(l: Launch, v: View) {
    |v.x| == 4 && 0 <= v.block < 0x10000 && 0 <= v.tid < 0x10000 && 0 <= v.first &&
    v.i == v.first + v.tid < U32 && l.n < U32 &&
    (v.i < l.n ==> l.a + 4 * v.i < U32 && l.b + 4 * v.i < U32 && l.out + 4 * v.i < U32)
  }

  lemma IndexFits(d: nat, g: nat, t: nat)
    requires 0 < d < 0x10000 && g < 0x10000 && t < Count(g, d)
    ensures 0 <= t / d < 0x10000 && 0 <= t % d < 0x10000 && t == d * (t / d) + t % d < U32 && 0 <= d * (t / d)
  {
    QuotientBelow(d, t / d, t % d, g);
    ProductBelow(d, g);
    ProductNatural(d, t / d);
  }

  lemma ViewFits(l: Launch, mul: bool, mem: Mem, t: nat)
    requires Valid(l) && t < |l.junk|
    ensures Fits(l, ViewOf(l, mul, mem, t))
  {
    hide Count, CeilDiv, Wanted, Get;
    IndexFits(l.blockDim, l.gridDim, t);
  }

  lemma ProductBelow(d: nat, g: nat)
    requires d < 0x10000 && g < 0x10000
    ensures g * d < U32
  {
    ProductNatural(g, 0x10000 - d);
  }

  function Regs(l: Launch, v: View, k: nat): seq<int>
    requires |v.x| == 4
  {
    var off := 4 * v.i;
    if k == 0 then [v.x[0] - v.x[0] % 0x10000 + v.tid, v.x[1], v.x[2], v.x[3]]
    else if k == 1 then [v.tid + 0x10000 * v.block, v.x[1], v.x[2], v.x[3]]
    else if k == 2 then [v.tid + 0x10000 * v.block, v.tid, v.x[2], v.x[3]]
    else if k == 3 then [v.first, v.tid, v.x[2], v.x[3]]
    else if k <= 6 then [v.i, v.tid, v.x[2], v.x[3]]
    else if k == 7 then [v.i, v.tid, off, v.x[3]]
    else if k == 8 then [l.a + off, v.tid, off, v.x[3]]
    else if k == 9 then [l.a + off, v.tid, off, l.b + off]
    else if k == 10 then [l.a + off, v.va, off, l.b + off]
    else if k == 11 then [v.vb, v.va, off, l.b + off]
    else if k == 12 then [v.res, v.va, off, l.b + off]
    else [v.res, l.out + off, off, l.b + off]
  }

  /** Position a thread comes to rest at: it leaves at the return when its index
      is past the end, and after the store otherwise. */
  function Last(l: Launch, v: View): nat {
    if v.i < l.n then 14 else 6
  }

  predicate Reaches(l: Launch, v: View, k: nat, th: Thread) {
    |v.x| == 4 && k <= Last(l, v) &&
    th.pc == k && th.r == Regs(l, v, k) && th.done == (k == Last(l, v)) && (k == 5 ==> th.c0 == (l.n <= v.i))
  }

  lemma LowHalf(x: word, low: nat)
    requires low < 0x10000
    ensures low % 0x10000 == low && 0 <= x - x % 0x10000 + low < U32
    ensures (x - x % 0x10000 + low) % U32 == x - x % 0x10000 + low
    ensures (x - x % 0x10000 + low) % 0x10000 == low
  {
    var hi := x / 0x10000;
    assert x - x % 0x10000 == 0x10000 * hi && hi < 0x10000;
    RemainderIs(0x10000 * hi + low, 0x10000, hi, low);
  }

  lemma BeginReaches(l: Launch, mul: bool, mem: Mem, t: nat)
    requires Valid(l) && t < |l.junk|
    ensures Reaches(l, ViewOf(l, mul, mem, t), 0, Begin(l, t))
  {
    ViewFits(l, mul, mem, t);
    LowHalf(l.junk[t][0], t % l.blockDim);
    hide Count, CeilDiv, Wanted, Get;
  }

  /** The instruction at k takes a thread that reached k on to k + 1. */
  predicate Moves(l: Launch, mul: bool, v: View, k: nat, th: Thread, mem: Mem, store: Access) {
    var s := Exec(Listing(mul, k), l, v.block, th, mem);
    Reaches(l, v, k + 1, s.thread) && s.store == store
  }

  lemma StepBlock(l: Launch, mul: bool, v: View, th: Thread, mem: Mem)
    requires Bounded(l, v) && Reaches(l, v, 0, th)
    ensures Moves(l, mul, v, 0, th, mem, None)
  {
    LowHalf(v.x[0], v.tid);
  }

  lemma PackedHalves(tid: int, block: int)
    requires 0 <= tid < 0x10000
    ensures (tid + 0x10000 * block) % 0x10000 == tid && (tid + 0x10000 * block) / 0x10000 == block
  {
    RemainderIs(tid + 0x10000 * block, 0x10000, block, tid);
  }

  lemma StepWiden(l: Launch, mul: bool, v: View, th: Thread, mem: Mem)
    requires Bounded(l, v) && Reaches(l, v, 1, th)
    ensures Moves(l, mul, v, 1, th, mem, None)
  {
    PackedHalves(v.tid, v.block);
  }

  lemma HalfProduct(l: Launch, v: View, r: seq<word>)
    requires Fits(l, v) && r == Regs(l, v, 2)
    ensures Half16(l, v.block, 1) * Get16(r, 1) == v.first
  {
    PackedHalves(v.tid, v.block);
    assert Get16(r, 1) == v.block;
  }

  lemma StepProduct(l: Launch, mul: bool, v: View, th: Thread, mem: Mem)
    requires Fits(l, v) && Reaches(l, v, 2, th)
    ensures Moves(l, mul, v, 2, th, mem, None)
  {
    HalfProduct(l, v, th.r);
    hide Half16, Get16, Fits;
    BoundedOf(l, v);
  }

  lemma BoundedOf(l: Launch, v: View)
    requires Fits(l, v)
    ensures Bounded(l, v)
  {
  }

  lemma StepTest(l: Launch, mul: bool, v: View, k: nat, th: Thread, mem: Mem)
    requires Bounded(l, v) && Reaches(l, v, k, th) && 3 <= k < 6
    ensures Moves(l, mul, v, k, th, mem, None)
  {
  }

  lemma StepShift(l: Launch, mul: bool, v: View, th: Thread, mem: Mem)
    requires Bounded(l, v) && v.i < l.n && Reaches(l, v, 6, th)
    ensures Moves(l, mul, v, 6, th, mem, None)
  {
    assert Pow2(2) == 4;
  }

  lemma StepAddress(l: Launch, mul: bool, v: View, k: nat, th: Thread, mem: Mem)
    requires Bounded(l, v) && v.i < l.n && Reaches(l, v, k, th) && 7 <= k < 9
    ensures Moves(l, mul, v, k, th, mem, None)
  {
  }

  lemma StepLoad(l: Launch, mul: bool, v: View, k: nat, th: Thread, mem: Mem)
    requires Bounded(l, v) && v.i < l.n && Reaches(l, v, k, th) && 9 <= k < 11
    requires v.va == Get(mem, l.a + 4 * v.i) && v.vb == Get(mem, l.b + 4 * v.i)
    ensures Moves(l, mul, v, k, th, mem, None)
  {
  }

  lemma StepResult(l: Launch, mul: bool, v: View, k: nat, th: Thread, mem: Mem)
    requires Bounded(l, v) && v.i < l.n && Reaches(l, v, k, th) && 11 <= k < 13
    requires v.res == if mul then l.mul(v.va, v.vb) else l.add(v.va, v.vb)
    ensures Moves(l, mul, v, k, th, mem, None)
  {
  }

  lemma StepStore(l: Launch, mul: bool, v: View, th: Thread, mem: Mem)
    requires Bounded(l, v) && v.i < l.n && Reaches(l, v, 13, th)
    ensures Moves(l, mul, v, 13, th, mem, Some(l.out + 4 * v.i, v.res))
  {
  }

  // ---- a whole thread ----------------------------------------------------------

  predicate SameInputs(l: Launch, t: nat, m: Mem, m': Mem) {
    t < l.n ==> Get(m, l.a + 4 * t) == Get(m', l.a + 4 * t) && Get(m, l.b + 4 * t) == Get(m', l.b + 4 * t)
  }

  /** The store a thread makes at its k-th instruction, if any. */
  function StoreAt(l: Launch, mul: bool, mem: Mem, t: nat, k: nat): Access {
    if k == 13 && t < l.n then Some(l.out + 4 * t, Wanted(l, mul, mem, t)) else None
  }

  /** An instruction of thread t run on a memory that still holds its two
      inputs does what it would have done on the memory at launch. */
  lemma ThreadMoves(l: Launch, mul: bool, start: Mem, t: nat, k: nat, th: Thread, mem: Mem)
    requires Valid(l) && t < |l.junk| && SameInputs(l, t, start, mem)
    requires Reaches(l, ViewOf(l, mul, start, t), k, th) && k < Last(l, ViewOf(l, mul, start, t))
    ensures Moves(l, mul, ViewOf(l, mul, start, t), k, th, mem, StoreAt(l, mul, start, t, k))
  {
    var v := ViewOf(l, mul, start, t);
    ViewFits(l, mul, start, t);
    BoundedOf(l, v);
    hide Valid, Fits, Bounded, Moves, Reaches, Get;
    if k == 0 {
      StepBlock(l, mul, v, th, mem);
    } else if k == 1 {
      StepWiden(l, mul, v, th, mem);
    } else if k == 2 {
      StepProduct(l, mul, v, th, mem);
    } else if k < 6 {
      StepTest(l, mul, v, k, th, mem);
    } else if k == 6 {
      StepShift(l, mul, v, th, mem);
    } else if k < 9 {
      StepAddress(l, mul, v, k, th, mem);
    } else if k < 11 {
      StepLoad(l, mul, v, k, th, mem);
    } else if k < 13 {
      StepResult(l, mul, v, k, th, mem);
    } else {
      StepStore(l, mul, v, th, mem);
    }
  }

  /** A thread at rest stays there. */
  lemma ThreadRests(l: Launch, mul: bool, v: View, th: Thread, op: Op, mem: Mem)
    requires Reaches(l, v, Last(l, v), th)
    ensures Exec(op, l, v.block, th, mem) == Stepped(th, None)
  {
  }
}
