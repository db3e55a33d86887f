/** The launch push buffer: `build_compute_push` of examples_en210/add.py, and
    what the compute engine's registers hold when it meets the launch method. */
module ComputePush {
  import opened Bits
  import opened Words
  import opened PushStream

  const SUBC_CP := 6
  const SET_OBJECT := 0x0000
  const WAIT_FOR_IDLE := 0x0110
  const DMA_GLOBAL := 0x01a0
  const DMA_LOCAL := 0x01b8
  const DMA_STACK := 0x01bc
  const DMA_CODE_CB := 0x01c0
  const STACK_ADDRESS_HIGH := 0x0218
  const STACK_SIZE_LOG := 0x0220
  const SHADER_SCHEDULING := 0x0290
  const LOCAL_ADDRESS_HIGH := 0x0294
  const LOCAL_SIZE_LOG := 0x029c
  const WORK_DISTRIBUTION := 0x02a0
  const BLOCK_ALLOC := 0x02b4
  const LANES32_ENABLE := 0x02b8
  const REG_ALLOC_TEMP := 0x02c0
  const BLOCKDIM_LATCH := 0x02f8
  const LOCAL_WARPS_LOG_ALLOC := 0x02fc
  const LOCAL_WARPS_NO_CLAMP := 0x0300
  const STACK_WARPS_LOG_ALLOC := 0x0304
  const STACK_WARPS_NO_CLAMP := 0x0308
  const LAUNCH := 0x0368
  const USER_PARAM_COUNT := 0x0374
  const CODE_CB_FLUSH := 0x0380
  const UNK0384 := 0x0384
  const GRIDID := 0x0388
  const GRIDDIM := 0x03a4
  const SHARED_SIZE := 0x03a8
  const BLOCKDIM_XY := 0x03ac
  const BLOCKDIM_Z := 0x03b0
  const START_ID := 0x03b4
  const REG_MODE := 0x03b8
  const SLOTS := 16

  const COMPUTE_HANDLE: word := 0x85c0

  function GlobalAddr(i: nat): nat { 0x0400 + 0x20 * i }
  function GlobalLimit(i: nat): nat { 0x040c + 0x20 * i }
  function GlobalMode(i: nat): nat { 0x0410 + 0x20 * i }
  function UserParam(i: nat): nat { 0x0600 + 4 * i }

  /** Arguments of build_compute_push; what goes into the push unmasked is 32-bit. */
  datatype Args = Args(dma: word, kernel: nat, stack: nat, a: word, b: word, out: word, n: word,
                       blockDim: nat, gridDim: nat)

  predicate Dims(x: Args) {
    x.blockDim < U32 && x.gridDim < U32
  }

  /** (1 << 16) | dim, the extent in y and in x. */
  function Extents(dim: nat): (r: nat)
    ensures dim < U32 ==> r < U32
    ensures dim < 0x10000 ==> r == 0x10000 + dim
  {
    ExtentsFit(dim);
    Or(0x10000, dim)
  }

  lemma ExtentsFit(dim: nat)
    ensures dim < U32 ==> Or(0x10000, dim) < U32
    ensures dim < 0x10000 ==> Or(0x10000, dim) == 0x10000 + dim
  {
    hide Or, Pow2;
    Powers();
    if dim < U32 {
      OrBound(0x10000, dim, 32);
    }
    if dim < 0x10000 {
      OrPut(0x10000, 1, dim, 16, 0x10000);
    }
  }

  /** The two address words, high byte first. */
  function Halves(address: nat): (r: seq<word>)
    ensures |r| == 2
  {
    [address / U32 % 0x100, address % U32]
  }

  function One(mthd: nat, arg: word): Call {
    Call(SUBC_CP, mthd, [arg], true)
  }

  function SetupCalls(x: Args): seq<Call> {
    [ One(SET_OBJECT, COMPUTE_HANDLE), One(WORK_DISTRIBUTION, 1), One(DMA_STACK, x.dma),
      Call(SUBC_CP, STACK_ADDRESS_HIGH, Halves(x.stack), true), One(STACK_SIZE_LOG, 4), One(SHADER_SCHEDULING, 1),
      One(LANES32_ENABLE, 1), One(REG_MODE, 2), One(UNK0384, 0x100), One(DMA_GLOBAL, x.dma) ]
  }

  function SlotCalls(i: nat): seq<Call> {
    [Call(SUBC_CP, GlobalAddr(i), [0, 0], true), One(GlobalLimit(i), 0xFFFFFFFF), One(GlobalMode(i), 1)]
  }

  function AllSlots(n: nat): seq<Call> {
    if n == 0 then [] else AllSlots(n - 1) + SlotCalls(n - 1)
  }

  function LocalCalls(x: Args): seq<Call> {
    [ One(LOCAL_WARPS_LOG_ALLOC, 7), One(LOCAL_WARPS_NO_CLAMP, 1), One(STACK_WARPS_LOG_ALLOC, 7),
      One(STACK_WARPS_NO_CLAMP, 1), One(USER_PARAM_COUNT, 0), One(DMA_CODE_CB, x.dma), One(DMA_LOCAL, x.dma),
      Call(SUBC_CP, LOCAL_ADDRESS_HIGH, Halves(x.stack), true), One(LOCAL_SIZE_LOG, 4) ]
  }

  /** (0x14 + 0x10 + 0x3f) & ~0x3f. */
  const SHARED: word := 0x40

  function GridCalls(x: Args): seq<Call>
    requires Dims(x)
  {
    [ One(CODE_CB_FLUSH, 0), One(START_ID, x.kernel % U32), One(SHARED_SIZE, SHARED), One(REG_ALLOC_TEMP, 4),
      One(BLOCKDIM_XY, Extents(x.blockDim)), One(BLOCKDIM_Z, 1), One(BLOCK_ALLOC, Extents(x.blockDim)),
      One(BLOCKDIM_LATCH, 1), One(GRIDDIM, Extents(x.gridDim)), One(GRIDID, 1) ]
  }

  function ParamCalls(x: Args): seq<Call> {
    [ One(USER_PARAM_COUNT, 0x400), One(UserParam(0), x.a), One(UserParam(1), x.b), One(UserParam(2), x.out),
      One(UserParam(3), x.n) ]
  }

  function GoCalls(): seq<Call> {
    [One(LAUNCH, 0), One(WAIT_FOR_IDLE, 0)]
  }

  function PushCalls(x: Args): seq<Call>
    requires Dims(x)
  {
    SetupCalls(x) + AllSlots(SLOTS) + LocalCalls(x) + GridCalls(x) + ParamCalls(x) + GoCalls()
  }

  // ---- the same as method and argument, in numbers -----------------------------------

  type Pair = (nat, word)

  /** Writes of these methods, all on subchannel 6. */
  function OnSix(ps: seq<Pair>): (r: seq<Write>)
    ensures |r| == |ps|
  {
    seq(|ps|, i requires 0 <= i < |ps| => Write(6, ps[i].0, ps[i].1))
  }

  /** The sixteen global memory slots: address 0, the last byte, linear. */
  function SlotPairs(n: nat): seq<Pair> {
    if n == 0 then []
    else SlotPairs(n - 1) + [(0x400 + 0x20 * (n - 1), 0), (0x404 + 0x20 * (n - 1), 0),
                             (0x40c + 0x20 * (n - 1), 0xffffffff), (0x410 + 0x20 * (n - 1), 1)]
  }

  function SetupPairs(x: Args): seq<Pair> {
    [ (0x000, 0x85c0), (0x2a0, 1), (0x1bc, x.dma), (0x218, x.stack / U32 % 0x100), (0x21c, x.stack % U32), (0x220, 4),
      (0x290, 1), (0x2b8, 1), (0x3b8, 2), (0x384, 0x100), (0x1a0, x.dma) ]
  }

  function LocalPairs(x: Args): seq<Pair> {
    [ (0x2fc, 7), (0x300, 1), (0x304, 7), (0x308, 1), (0x374, 0), (0x1c0, x.dma), (0x1b8, x.dma),
      (0x294, x.stack / U32 % 0x100), (0x298, x.stack % U32), (0x29c, 4) ]
  }

  function GridPairs(x: Args): seq<Pair>
    requires Dims(x)
  {
    ExtentsFit(x.blockDim);
    ExtentsFit(x.gridDim);
    [ (0x380, 0), (0x3b4, x.kernel % U32), (0x3a8, 0x40), (0x2c0, 4), (0x3ac, Or(0x10000, x.blockDim)), (0x3b0, 1),
      (0x2b4, Or(0x10000, x.blockDim)), (0x2f8, 1), (0x3a4, Or(0x10000, x.gridDim)), (0x388, 1) ]
  }

  function ParamPairs(x: Args): seq<Pair> {
    [(0x374, 0x400), (0x600, x.a), (0x604, x.b), (0x608, x.out), (0x60c, x.n)]
  }

  /** Every method of the launch and its argument, in order. */
  function LaunchPairs(x: Args): seq<Pair>
    requires Dims(x)
  {
    SetupPairs(x) + SlotPairs(16) + LocalPairs(x) + GridPairs(x) + ParamPairs(x) + [(0x368, 0), (0x110, 0)]
  }

  lemma OnSixAppend(a: seq<Pair>, b: seq<Pair>)
    ensures OnSix(a + b) == OnSix(a) + OnSix(b)
  {
  }

  /** These calls write these pairs. */
  predicate Writing(cs: seq<Call>, ps: seq<Pair>) {
    WritesOfAll(cs) == OnSix(ps)
  }

  lemma WritingBoth(a: seq<Call>, b: seq<Call>, p: seq<Pair>, q: seq<Pair>)
    requires Writing(a, p) && Writing(b, q)
    ensures Writing(a + b, p + q)
  {
    hide WritesOfAll, OnSix;
    WritesAppend(a, b);
    OnSixAppend(p, q);
  }

  lemma WritingOne(mthd: nat, arg: word)
    ensures Writing([One(mthd, arg)], [(mthd, arg)])
  {
    assert [One(mthd, arg)][1..] == [];
    assert WritesOfAll([One(mthd, arg)]) == WritesOf(One(mthd, arg)) + WritesOfAll([]);
    assert WritesOf(One(mthd, arg)) == [Write(6, mthd, arg)];
  }

  lemma WritingTwo(mthd: nat, args: seq<word>)
    requires |args| == 2
    ensures Writing([Call(SUBC_CP, mthd, args, true)], [(mthd, args[0]), (mthd + 4, args[1])])
  {
    var c := Call(SUBC_CP, mthd, args, true);
    assert [c][1..] == [];
    assert WritesOfAll([c]) == WritesOf(c) + WritesOfAll([]);
    assert WritesOf(c) == [Write(6, mthd, args[0]), Write(6, mthd + 4, args[1])];
  }

  function Ones(ps: seq<Pair>): (r: seq<Call>)
    ensures |r| == |ps|
  {
    seq(|ps|, i requires 0 <= i < |ps| => One(ps[i].0, ps[i].1))
  }

  lemma {:induction false} WritingOnes(ps: seq<Pair>)
    ensures Writing(Ones(ps), ps)
    decreases |ps|
  {
    if ps == [] {
      assert Ones(ps) == [];
    } else {
      WritingOnes(ps[1..]);
      WritingOne(ps[0].0, ps[0].1);
      WritingBoth([One(ps[0].0, ps[0].1)], Ones(ps[1..]), [(ps[0].0, ps[0].1)], ps[1..]);
      assert Ones(ps) == [One(ps[0].0, ps[0].1)] + Ones(ps[1..]) && ps == [(ps[0].0, ps[0].1)] + ps[1..];
    }
  }

  /** Single calls, one with two arguments, single calls. */
  lemma WritingAround(cs: seq<Call>, a: seq<Pair>, mthd: nat, args: seq<word>, b: seq<Pair>, ps: seq<Pair>)
    requires |args| == 2 && cs == Ones(a) + [Call(SUBC_CP, mthd, args, true)] + Ones(b)
    requires ps == a + [(mthd, args[0]), (mthd + 4, args[1])] + b
    ensures Writing(cs, ps)
  {
    hide Writing, Ones;
    WritingOnes(a);
    WritingTwo(mthd, args);
    WritingOnes(b);
    WritingBoth(Ones(a), [Call(SUBC_CP, mthd, args, true)], a, [(mthd, args[0]), (mthd + 4, args[1])]);
    WritingBoth(Ones(a) + [Call(SUBC_CP, mthd, args, true)], Ones(b), a + [(mthd, args[0]), (mthd + 4, args[1])], b);
  }

  lemma SetupWrites(x: Args)
    ensures Writing(SetupCalls(x), SetupPairs(x))
  {
    hide Writing;
    WritingAround(SetupCalls(x), SetupPairs(x)[..3], 0x218, Halves(x.stack), SetupPairs(x)[5..], SetupPairs(x));
  }

  lemma LocalWrites(x: Args)
    ensures Writing(LocalCalls(x), LocalPairs(x))
  {
    hide Writing;
    WritingAround(LocalCalls(x), LocalPairs(x)[..7], 0x294, Halves(x.stack), LocalPairs(x)[9..], LocalPairs(x));
  }

  lemma {:induction false} SlotWrites(n: nat)
    ensures Writing(AllSlots(n), SlotPairs(n))
    decreases n
  {
    if n == 0 {
      assert OnSix([]) == [];
    } else {
      SlotWrites(n - 1);
      var i := n - 1;
      var ps := [(0x400 + 0x20 * i, 0), (0x404 + 0x20 * i, 0), (0x40c + 0x20 * i, 0xffffffff), (0x410 + 0x20 * i, 1)];
      OneSlotWrites(i, ps);
      WritingBoth(AllSlots(n - 1), SlotCalls(n - 1), SlotPairs(n - 1), ps);
    }
  }

  lemma OneSlotWrites(i: nat, ps: seq<Pair>)
    requires ps == [(0x400 + 0x20 * i, 0), (0x404 + 0x20 * i, 0), (0x40c + 0x20 * i, 0xffffffff), (0x410 + 0x20 * i, 1)]
    ensures Writing(SlotCalls(i), ps)
  {
    hide Writing;
    assert Ones([]) == [];
    WritingAround(SlotCalls(i), [], 0x400 + 0x20 * i, [0, 0], ps[2..], ps);
  }

  lemma GridWrites(x: Args)
    requires Dims(x)
    ensures Writing(GridCalls(x), GridPairs(x))
  {
    hide Writing, Or;
    WritingOnes(GridPairs(x));
    assert Ones(GridPairs(x)) == GridCalls(x);
  }

  lemma ParamWrites(x: Args)
    ensures Writing(ParamCalls(x), ParamPairs(x)) && Writing(GoCalls(), [(0x368, 0), (0x110, 0)])
  {
    hide Writing;
    WritingOnes(ParamPairs(x));
    assert Ones(ParamPairs(x)) == ParamCalls(x);
    WritingOnes([(0x368, 0), (0x110, 0)]);
    assert Ones([(0x368, 0), (0x110, 0)]) == GoCalls();
  }

  /** What the launch push writes, method by method. */
  lemma LaunchWrites(x: Args)
    requires Dims(x)
    ensures WritesOfAll(PushCalls(x)) == OnSix(LaunchPairs(x))
  {
    SetupWrites(x);
    SlotWrites(16);
    LocalWrites(x);
    GridWrites(x);
    ParamWrites(x);
    assert SLOTS == 16;
    var a, b, c, d, e, g := SetupCalls(x), AllSlots(16), LocalCalls(x), GridCalls(x), ParamCalls(x), GoCalls();
    var p, q, r, s := SetupPairs(x), SlotPairs(16), LocalPairs(x), GridPairs(x);
    var t, u := ParamPairs(x), [(0x368, 0), (0x110, 0)];
    hide SetupCalls, AllSlots, LocalCalls, GridCalls, ParamCalls, GoCalls, SetupPairs, SlotPairs, LocalPairs, GridPairs,
         ParamPairs, OnSix, WritesOfAll;
    WritingBoth(a, b, p, q);
    WritingBoth(a + b, c, p + q, r);
    WritingBoth(a + b + c, d, p + q + r, s);
    WritingBoth(a + b + c + d, e, p + q + r + s, t);
    WritingBoth(a + b + c + d + e, g, p + q + r + s + t, u);
  }

  // ---- the builder ------------------------------------------------------------------

  predicate AllEncodable(cs: seq<Call>) {
    forall i :: 0 <= i < |cs| ==> Encodable(cs[i])
  }

  lemma {:induction false} EncodeAppend(a: seq<Call>, b: seq<Call>)
    requires AllEncodable(a) && AllEncodable(b)
    ensures AllEncodable(a + b) && EncodeAll(a + b) == EncodeAll(a) + EncodeAll(b)
    decreases |a|
  {
    hide Encode, Encodable;
    if a == [] {
      assert a + b == b;
    } else {
      EncodeAppend(a[1..], b);
      assert (a + b)[1..] == a[1..] + b;
    }
  }

  lemma {:induction false} SlotsEncodable(n: nat)
    requires n <= SLOTS
    ensures AllEncodable(AllSlots(n)) && |AllSlots(n)| == 3 * n
    decreases n
  {
    if n > 0 {
      SlotEncodable(n - 1);
      hide SlotCalls, Encodable;
      SlotsEncodable(n - 1);
    }
  }

  lemma PartsEncodable(x: Args)
    requires Dims(x)
    ensures AllEncodable(SetupCalls(x)) && AllEncodable(LocalCalls(x)) && AllEncodable(GridCalls(x))
    ensures AllEncodable(ParamCalls(x)) && AllEncodable(GoCalls())
  {
  }

  lemma PushEncodable(x: Args)
    requires Dims(x)
    ensures AllEncodable(PushCalls(x)) && |PushCalls(x)| == 84
  {
    PartsEncodable(x);
    SlotsEncodable(SLOTS);
    hide Encodable, AllSlots;
  }

  function Emit(cs: seq<Call>): seq<word>
    requires AllEncodable(cs)
  {
    EncodeAll(cs)
  }

  /** w is the encoding of these calls. */
  predicate Built(w: seq<word>, done: seq<Call>) {
    AllEncodable(done) && w == Emit(done)
  }

  lemma BuiltMore(w: seq<word>, done: seq<Call>, cs: seq<Call>)
    requires Built(w, done) && AllEncodable(cs)
    ensures Built(w + Emit(cs), done + cs)
  {
    hide EncodeAll, Encodable;
    EncodeAppend(done, cs);
  }

  lemma BuiltNothing()
    ensures Built([], [])
  {
  }

  /** The sixteen global memory slots, in the source's loop. */
  method EmitSlots(w0: seq<word>, ghost done: seq<Call>) returns (w: seq<word>)
    requires Built(w0, done)
    ensures Built(w, done + AllSlots(SLOTS))
  {
    hide AllEncodable, SlotCalls, Built, Emit;
    w := w0;
    SlotsStart(done);
    for i := 0 to SLOTS
      invariant Built(w, done + AllSlots(i))
    {
      SlotEncodable(i);
      BuiltMore(w, done + AllSlots(i), SlotCalls(i));
      w := w + Emit(SlotCalls(i));
      assert done + AllSlots(i) + SlotCalls(i) == done + (AllSlots(i) + SlotCalls(i));
    }
  }

  /** The word list, section by section. */
  method BuildComputePush(x: Args) returns (w: seq<word>)
    requires Dims(x)
    ensures Built(w, PushCalls(x)) && Decode(w) == OnSix(LaunchPairs(x))
  {
    PartsEncodable(x);
    hide AllEncodable, SetupCalls, LocalCalls, GridCalls, ParamCalls, GoCalls, Built, Emit, AllSlots;
    BuiltNothing();
    BuiltMore([], [], SetupCalls(x));
    w := [] + Emit(SetupCalls(x));
    assert [] + SetupCalls(x) == SetupCalls(x);
    w := EmitSlots(w, SetupCalls(x));
    ghost var done := SetupCalls(x) + AllSlots(SLOTS);
    BuiltMore(w, done, LocalCalls(x));
    w, done := w + Emit(LocalCalls(x)), done + LocalCalls(x);
    BuiltMore(w, done, GridCalls(x));
    w, done := w + Emit(GridCalls(x)), done + GridCalls(x);
    BuiltMore(w, done, ParamCalls(x));
    w, done := w + Emit(ParamCalls(x)), done + ParamCalls(x);
    BuiltMore(w, done, GoCalls());
    w := w + Emit(GoCalls());
    DecodesToPairs(x, w);
  }

  lemma DecodesToPairs(x: Args, w: seq<word>)
    requires Dims(x) && Built(w, PushCalls(x))
    ensures Decode(w) == OnSix(LaunchPairs(x))
  {
    hide PushCalls, LaunchPairs, OnSix, Decode, EncodeAll, WritesOfAll;
    LaunchWrites(x);
    PushRoundTrip(PushCalls(x));
  }

  lemma SlotEncodable(i: nat)
    requires i < SLOTS
    ensures AllEncodable(SlotCalls(i))
  {
  }

  lemma SlotsStart(cs: seq<Call>)
    ensures cs + AllSlots(0) == cs
  {
  }

  // ---- the engine ---------------------------------------------------------------------

  type Registers = map<nat, word>

  function Read(r: Registers, mthd: nat): word {
    if mthd in r then r[mthd] else 0
  }

  /** The engine's registers after these methods. */
  function Apply(ws: seq<Write>, r: Registers): Registers
    decreases |ws|
  {
    if ws == [] then r else Apply(ws[1..], r[ws[0].mthd := ws[0].arg])
  }

  /** The registers at each launch, in order. */
  function Launches(ws: seq<Write>, r: Registers): seq<Registers>
    decreases |ws|
  {
    if ws == [] then []
    else (if ws[0].mthd == LAUNCH then [r] else []) + Launches(ws[1..], r[ws[0].mthd := ws[0].arg])
  }

  predicate NoLaunch(ws: seq<Write>) {
    forall i :: 0 <= i < |ws| ==> ws[i].mthd != LAUNCH
  }

  lemma {:induction false} LaunchesAfter(a: seq<Write>, b: seq<Write>, r: Registers)
    requires NoLaunch(a)
    ensures Launches(a + b, r) == Launches(b, Apply(a, r))
    decreases |a|
  {
    if a == [] {
      assert a + b == b;
    } else {
      assert (a + b)[1..] == a[1..] + b;
      LaunchesAfter(a[1..], b, r[a[0].mthd := a[0].arg]);
    }
  }

  lemma {:induction false} ApplyAppend(a: seq<Write>, b: seq<Write>, r: Registers)
    ensures Apply(a + b, r) == Apply(b, Apply(a, r))
    decreases |a|
  {
    if a == [] {
      assert a + b == b;
    } else {
      assert (a + b)[1..] == a[1..] + b;
      ApplyAppend(a[1..], b, r[a[0].mthd := a[0].arg]);
    }
  }

  /** A method not among these keeps its value. */
  lemma {:induction false} ApplyKeeps(ws: seq<Write>, r: Registers, mthd: nat)
    requires forall i :: 0 <= i < |ws| ==> ws[i].mthd != mthd
    ensures Read(Apply(ws, r), mthd) == Read(r, mthd)
    decreases |ws|
  {
    if ws != [] {
      ApplyKeeps(ws[1..], r[ws[0].mthd := ws[0].arg], mthd);
    }
  }

  /** The last write of a method is what the register holds. */
  lemma {:induction false} ApplySets(ws: seq<Write>, r: Registers, i: nat)
    requires i < |ws| && forall j :: i < j < |ws| ==> ws[j].mthd != ws[i].mthd
    ensures Read(Apply(ws, r), ws[i].mthd) == ws[i].arg
    decreases |ws|
  {
    var r' := r[ws[0].mthd := ws[0].arg];
    if i == 0 {
      ApplyKeeps(ws[1..], r', ws[0].mthd);
    } else {
      ApplySets(ws[1..], r', i - 1);
    }
  }

  lemma {:induction false} WritesAppend(a: seq<Call>, b: seq<Call>)
    ensures WritesOfAll(a + b) == WritesOfAll(a) + WritesOfAll(b)
    decreases |a|
  {
    if a == [] {
      assert a + b == b;
    } else {
      assert (a + b)[1..] == a[1..] + b;
      WritesAppend(a[1..], b);
    }
  }

  // ---- what a list of calls does ---------------------------------------------------------

  /** No write of these calls goes to this method. */
  predicate Avoids(cs: seq<Call>, mthd: nat) {
    forall i :: 0 <= i < |cs| ==> cs[i].inc && forall k :: 0 <= k < |cs[i].args| ==> cs[i].mthd + 4 * k != mthd
  }

  lemma {:induction false} CallsKeep(cs: seq<Call>, r: Registers, mthd: nat)
    requires Avoids(cs, mthd)
    ensures Read(Apply(WritesOfAll(cs), r), mthd) == Read(r, mthd)
    ensures forall i :: 0 <= i < |WritesOfAll(cs)| ==> WritesOfAll(cs)[i].mthd != mthd
    decreases |cs|
  {
    if cs != [] {
      hide Read;
      ApplyAppend(WritesOf(cs[0]), WritesOfAll(cs[1..]), r);
      ApplyKeeps(WritesOf(cs[0]), r, mthd);
      CallsKeep(cs[1..], Apply(WritesOf(cs[0]), r), mthd);
      hide Apply;
    }
  }

  /** The register of a call with one argument that no later call touches. */
  lemma {:induction false} CallSets(cs: seq<Call>, r: Registers, k: nat, mthd: nat, arg: word)
    requires k < |cs| && cs[k] == One(mthd, arg) && Avoids(cs[k + 1..], mthd)
    ensures Read(Apply(WritesOfAll(cs), r), mthd) == arg
    decreases |cs|
  {
    hide Read, Avoids;
    var r' := Apply(WritesOf(cs[0]), r);
    ApplyAppend(WritesOf(cs[0]), WritesOfAll(cs[1..]), r);
    if k == 0 {
      CallsKeep(cs[1..], r', mthd);
      ApplySets(WritesOf(cs[0]), r, 0);
    } else {
      assert cs[1..][k - 1] == cs[k] && cs[1..][k..] == cs[k + 1..];
      CallSets(cs[1..], r', k - 1, mthd, arg);
    }
  }

  /** A global memory slot that spans the whole 32-bit space from 0, linear. */
  predicate FullRange(r: Registers, i: nat) {
    Read(r, GlobalAddr(i)) == 0 && Read(r, GlobalAddr(i) + 4) == 0 && Read(r, GlobalLimit(i)) == 0xFFFFFFFF &&
    Read(r, GlobalMode(i)) == 1
  }

  lemma SlotSets(r: Registers, i: nat)
    ensures FullRange(Apply(WritesOfAll(SlotCalls(i)), r), i)
  {
    hide Apply, Read;
    var cs := SlotCalls(i);
    CallSets(cs, r, 1, GlobalLimit(i), 0xFFFFFFFF);
    CallSets(cs, r, 2, GlobalMode(i), 1);
    var r' := Apply(WritesOf(cs[0]), r);
    ApplyAppend(WritesOf(cs[0]), WritesOfAll(cs[1..]), r);
    ApplySets(WritesOf(cs[0]), r, 0);
    ApplySets(WritesOf(cs[0]), r, 1);
    CallsKeep(cs[1..], r', GlobalAddr(i));
    CallsKeep(cs[1..], r', GlobalAddr(i) + 4);
  }

  lemma SlotsApart(i: nat, j: nat)
    requires i < j
    ensures Avoids(SlotCalls(j), GlobalAddr(i)) && Avoids(SlotCalls(j), GlobalAddr(i) + 4)
    ensures Avoids(SlotCalls(j), GlobalLimit(i)) && Avoids(SlotCalls(j), GlobalMode(i))
  {
  }

  lemma SlotsUnfold(r: Registers, n: nat)
    requires n > 0
    ensures Apply(WritesOfAll(AllSlots(n)), r) ==
            Apply(WritesOfAll(SlotCalls(n - 1)), Apply(WritesOfAll(AllSlots(n - 1)), r))
  {
    hide Apply, WritesOfAll, SlotCalls;
    WritesAppend(AllSlots(n - 1), SlotCalls(n - 1));
    ApplyAppend(WritesOfAll(AllSlots(n - 1)), WritesOfAll(SlotCalls(n - 1)), r);
  }

  lemma {:induction false} AllSlotsSet(r: Registers, n: nat, i: nat)
    requires i < n
    ensures FullRange(Apply(WritesOfAll(AllSlots(n)), r), i)
    decreases n
  {
    hide Apply, Read, SlotCalls, Avoids, WritesOfAll, AllSlots;
    var r' := Apply(WritesOfAll(AllSlots(n - 1)), r);
    SlotsUnfold(r, n);
    if i == n - 1 {
      SlotSets(r', i);
    } else {
      AllSlotsSet(r, n - 1, i);
      SlotsApart(i, n - 1);
      CallsKeep(SlotCalls(n - 1), r', GlobalAddr(i));
      CallsKeep(SlotCalls(n - 1), r', GlobalAddr(i) + 4);
      CallsKeep(SlotCalls(n - 1), r', GlobalLimit(i));
      CallsKeep(SlotCalls(n - 1), r', GlobalMode(i));
    }
  }

  lemma {:induction false} SlotsAvoid(n: nat, mthd: nat)
    requires mthd < 0x400
    ensures Avoids(AllSlots(n), mthd)
    decreases n
  {
    if n > 0 {
      SlotsAvoid(n - 1, mthd);
    }
  }

  /** Stack and local memory share one buffer; their objects are the caller's. */
  predicate StackState(x: Args, r: Registers) {
    Read(r, DMA_STACK) == x.dma && Read(r, DMA_LOCAL) == x.dma &&
    Read(r, STACK_ADDRESS_HIGH) == Halves(x.stack)[0] && Read(r, STACK_ADDRESS_HIGH + 4) == Halves(x.stack)[1] &&
    Read(r, LOCAL_ADDRESS_HIGH) == Halves(x.stack)[0] && Read(r, LOCAL_ADDRESS_HIGH + 4) == Halves(x.stack)[1] &&
    Read(r, STACK_SIZE_LOG) == 4 && Read(r, LOCAL_SIZE_LOG) == 4
  }

  /** Room for the parameters, four registers a thread, striped, one block deep. */
  predicate ThreadState(x: Args, r: Registers)
    requires Dims(x)
  {
    Read(r, SHARED_SIZE) == SHARED && Read(r, REG_ALLOC_TEMP) == 4 && Read(r, REG_MODE) == 2 &&
    Read(r, BLOCK_ALLOC) == Extents(x.blockDim) && Read(r, BLOCKDIM_Z) == 1
  }

  /** The compute engine as the launch finds it. */
  predicate LaunchState(x: Args, r: Registers)
    requires Dims(x)
  {
    Read(r, SET_OBJECT) == 0x85c0 && Read(r, DMA_GLOBAL) == x.dma && Read(r, DMA_CODE_CB) == x.dma &&
    Read(r, START_ID) == x.kernel % U32 &&
    Read(r, BLOCKDIM_XY) == Extents(x.blockDim) && Read(r, GRIDDIM) == Extents(x.gridDim) &&
    Read(r, USER_PARAM_COUNT) == 0x400 &&
    Read(r, UserParam(0)) == x.a && Read(r, UserParam(1)) == x.b && Read(r, UserParam(2)) == x.out &&
    Read(r, UserParam(3)) == x.n && StackState(x, r) && ThreadState(x, r) &&
    forall i :: 0 <= i < SLOTS ==> FullRange(r, i)
  }

  /** Registers after each section, from any state. */
  function Sections(x: Args, r: Registers): Registers
    requires Dims(x)
  {
    var r := Apply(WritesOfAll(SetupCalls(x)), r);
    var r := Apply(WritesOfAll(AllSlots(SLOTS)), r);
    var r := Apply(WritesOfAll(LocalCalls(x)), r);
    var r := Apply(WritesOfAll(GridCalls(x)), r);
    Apply(WritesOfAll(ParamCalls(x)), r)
  }

  lemma DmaKept(x: Args, r: Registers)
    requires Dims(x)
    ensures Read(Sections(x, r), DMA_GLOBAL) == x.dma && Read(Sections(x, r), DMA_CODE_CB) == x.dma
  {
    hide Apply, Read, WritesOfAll, AllSlots;
    var r1 := Apply(WritesOfAll(SetupCalls(x)), r);
    var r2 := Apply(WritesOfAll(AllSlots(SLOTS)), r1);
    var r3 := Apply(WritesOfAll(LocalCalls(x)), r2);
    var r4 := Apply(WritesOfAll(GridCalls(x)), r3);
    CallSets(SetupCalls(x), r, 9, DMA_GLOBAL, x.dma);
    SlotsAvoid(SLOTS, DMA_GLOBAL);
    CallsKeep(AllSlots(SLOTS), r1, DMA_GLOBAL);
    CallsKeep(LocalCalls(x), r2, DMA_GLOBAL);
    CallsKeep(GridCalls(x), r3, DMA_GLOBAL);
    CallsKeep(ParamCalls(x), r4, DMA_GLOBAL);
    CallSets(LocalCalls(x), r2, 5, DMA_CODE_CB, x.dma);
    CallsKeep(GridCalls(x), r3, DMA_CODE_CB);
    CallsKeep(ParamCalls(x), r4, DMA_CODE_CB);
  }

  /** A call with two arguments that no later call touches. */
  lemma {:induction false} PairSets(cs: seq<Call>, r: Registers, k: nat, mthd: nat, args: seq<word>)
    requires k < |cs| && |args| == 2 && cs[k] == Call(SUBC_CP, mthd, args, true)
    requires Avoids(cs[k + 1..], mthd) && Avoids(cs[k + 1..], mthd + 4)
    ensures Read(Apply(WritesOfAll(cs), r), mthd) == args[0] && Read(Apply(WritesOfAll(cs), r), mthd + 4) == args[1]
    decreases |cs|
  {
    hide Read, Avoids;
    var r' := Apply(WritesOf(cs[0]), r);
    ApplyAppend(WritesOf(cs[0]), WritesOfAll(cs[1..]), r);
    if k == 0 {
      CallsKeep(cs[1..], r', mthd);
      CallsKeep(cs[1..], r', mthd + 4);
      ApplySets(WritesOf(cs[0]), r, 0);
      ApplySets(WritesOf(cs[0]), r, 1);
    } else {
      assert cs[1..][k - 1] == cs[k] && cs[1..][k..] == cs[k + 1..];
      PairSets(cs[1..], r', k - 1, mthd, args);
    }
  }

  /** A register that no section after the first touches. */
  lemma FirstKept(x: Args, r: Registers, mthd: nat)
    requires Dims(x) && mthd < 0x400
    requires Avoids(LocalCalls(x), mthd) && Avoids(GridCalls(x), mthd) && Avoids(ParamCalls(x), mthd)
    ensures Read(Sections(x, r), mthd) == Read(Apply(WritesOfAll(SetupCalls(x)), r), mthd)
  {
    hide Apply, Read, WritesOfAll, AllSlots, SetupCalls, LocalCalls, GridCalls, ParamCalls, Avoids;
    var r1 := Apply(WritesOfAll(SetupCalls(x)), r);
    var r2 := Apply(WritesOfAll(AllSlots(SLOTS)), r1);
    SlotsAvoid(SLOTS, mthd);
    CallsKeep(AllSlots(SLOTS), r1, mthd);
    LocalKept(x, r, mthd, r2);
    CallsKeep(LocalCalls(x), r2, mthd);
  }

  /** A register that no section after the third touches. */
  lemma LocalKept(x: Args, r: Registers, mthd: nat, r2: Registers)
    requires Dims(x) && Avoids(GridCalls(x), mthd) && Avoids(ParamCalls(x), mthd)
    requires r2 == Apply(WritesOfAll(AllSlots(SLOTS)), Apply(WritesOfAll(SetupCalls(x)), r))
    ensures Read(Sections(x, r), mthd) == Read(Apply(WritesOfAll(LocalCalls(x)), r2), mthd)
  {
    hide Apply, Read, WritesOfAll, AllSlots, SetupCalls, LocalCalls, GridCalls, ParamCalls, Avoids;
    var r3 := Apply(WritesOfAll(LocalCalls(x)), r2);
    var r4 := Apply(WritesOfAll(GridCalls(x)), r3);
    CallsKeep(GridCalls(x), r3, mthd);
    CallsKeep(ParamCalls(x), r4, mthd);
  }

  lemma SetupAvoided(x: Args, mthd: nat)
    requires Dims(x) && mthd in {SET_OBJECT, DMA_STACK, STACK_ADDRESS_HIGH, STACK_ADDRESS_HIGH + 4, STACK_SIZE_LOG,
                                 REG_MODE}
    ensures Avoids(LocalCalls(x), mthd) && Avoids(GridCalls(x), mthd) && Avoids(ParamCalls(x), mthd)
  {
    hide Extents, Halves;
  }

  lemma LocalAvoided(x: Args, mthd: nat)
    requires Dims(x) && mthd in {DMA_LOCAL, LOCAL_ADDRESS_HIGH, LOCAL_ADDRESS_HIGH + 4, LOCAL_SIZE_LOG}
    ensures Avoids(GridCalls(x), mthd) && Avoids(ParamCalls(x), mthd)
  {
    hide Extents, Halves;
  }

  lemma SetupKept(x: Args, r: Registers, mthd: nat)
    requires Dims(x) && mthd in {SET_OBJECT, DMA_STACK, STACK_ADDRESS_HIGH, STACK_ADDRESS_HIGH + 4, STACK_SIZE_LOG,
                                 REG_MODE}
    ensures Read(Sections(x, r), mthd) == Read(Apply(WritesOfAll(SetupCalls(x)), r), mthd)
  {
    hide Apply, Read, WritesOfAll, AllSlots, SetupCalls, LocalCalls, GridCalls, ParamCalls, Avoids, Sections;
    SetupAvoided(x, mthd);
    FirstKept(x, r, mthd);
  }

  lemma StackSet(x: Args, r: Registers)
    requires Dims(x)
    ensures var s := Sections(x, r);
            Read(s, SET_OBJECT) == 0x85c0 && Read(s, DMA_STACK) == x.dma && Read(s, STACK_SIZE_LOG) == 4 &&
            Read(s, REG_MODE) == 2 &&
            Read(s, STACK_ADDRESS_HIGH) == Halves(x.stack)[0] && Read(s, STACK_ADDRESS_HIGH + 4) == Halves(x.stack)[1]
  {
    hide Apply, Read, WritesOfAll, AllSlots, Sections, Extents, Halves;
    var s := SetupCalls(x);
    CallSets(s, r, 0, SET_OBJECT, 0x85c0);
    SetupKept(x, r, SET_OBJECT);
    CallSets(s, r, 2, DMA_STACK, x.dma);
    PairSets(s, r, 3, STACK_ADDRESS_HIGH, Halves(x.stack));
    CallSets(s, r, 4, STACK_SIZE_LOG, 4);
    CallSets(s, r, 7, REG_MODE, 2);
    SetupKept(x, r, DMA_STACK);
    SetupKept(x, r, STACK_ADDRESS_HIGH);
    SetupKept(x, r, STACK_ADDRESS_HIGH + 4);
    SetupKept(x, r, STACK_SIZE_LOG);
    SetupKept(x, r, REG_MODE);
  }

  lemma LocalSet(x: Args, r: Registers)
    requires Dims(x)
    ensures var s := Sections(x, r);
            Read(s, DMA_LOCAL) == x.dma && Read(s, LOCAL_SIZE_LOG) == 4 &&
            Read(s, LOCAL_ADDRESS_HIGH) == Halves(x.stack)[0] && Read(s, LOCAL_ADDRESS_HIGH + 4) == Halves(x.stack)[1]
  {
    hide Apply, Read, WritesOfAll, AllSlots, Sections, Extents, Halves, SetupCalls, GridCalls, ParamCalls;
    var r2 := Apply(WritesOfAll(AllSlots(SLOTS)), Apply(WritesOfAll(SetupCalls(x)), r));
    var l := LocalCalls(x);
    CallSets(l, r2, 6, DMA_LOCAL, x.dma);
    PairSets(l, r2, 7, LOCAL_ADDRESS_HIGH, Halves(x.stack));
    CallSets(l, r2, 8, LOCAL_SIZE_LOG, 4);
    LocalAvoided(x, DMA_LOCAL);
    LocalAvoided(x, LOCAL_ADDRESS_HIGH);
    LocalAvoided(x, LOCAL_ADDRESS_HIGH + 4);
    LocalAvoided(x, LOCAL_SIZE_LOG);
    hide Avoids, LocalCalls;
    LocalKept(x, r, DMA_LOCAL, r2);
    LocalKept(x, r, LOCAL_ADDRESS_HIGH, r2);
    LocalKept(x, r, LOCAL_ADDRESS_HIGH + 4, r2);
    LocalKept(x, r, LOCAL_SIZE_LOG, r2);
  }

  lemma GridSet(x: Args, r: Registers)
    requires Dims(x)
    ensures Read(Sections(x, r), START_ID) == x.kernel % U32 && Read(Sections(x, r), BLOCKDIM_XY) == Extents(x.blockDim)
    ensures Read(Sections(x, r), GRIDDIM) == Extents(x.gridDim)
  {
    hide Apply, Read, WritesOfAll, AllSlots, SetupCalls, LocalCalls, Extents;
    var r3 := Apply(WritesOfAll(LocalCalls(x)),
                    Apply(WritesOfAll(AllSlots(SLOTS)), Apply(WritesOfAll(SetupCalls(x)), r)));
    var r4 := Apply(WritesOfAll(GridCalls(x)), r3);
    CallSets(GridCalls(x), r3, 1, START_ID, x.kernel % U32);
    CallSets(GridCalls(x), r3, 4, BLOCKDIM_XY, Extents(x.blockDim));
    CallSets(GridCalls(x), r3, 8, GRIDDIM, Extents(x.gridDim));
    CallsKeep(ParamCalls(x), r4, START_ID);
    CallsKeep(ParamCalls(x), r4, BLOCKDIM_XY);
    CallsKeep(ParamCalls(x), r4, GRIDDIM);
  }

  lemma ThreadSet(x: Args, r: Registers)
    requires Dims(x) && Read(Sections(x, r), REG_MODE) == 2
    ensures ThreadState(x, Sections(x, r))
  {
    hide Apply, Read, WritesOfAll, AllSlots, SetupCalls, LocalCalls, Extents;
    var r3 := Apply(WritesOfAll(LocalCalls(x)),
                    Apply(WritesOfAll(AllSlots(SLOTS)), Apply(WritesOfAll(SetupCalls(x)), r)));
    var r4 := Apply(WritesOfAll(GridCalls(x)), r3);
    CallSets(GridCalls(x), r3, 2, SHARED_SIZE, SHARED);
    CallSets(GridCalls(x), r3, 3, REG_ALLOC_TEMP, 4);
    CallSets(GridCalls(x), r3, 5, BLOCKDIM_Z, 1);
    CallSets(GridCalls(x), r3, 6, BLOCK_ALLOC, Extents(x.blockDim));
    CallsKeep(ParamCalls(x), r4, SHARED_SIZE);
    CallsKeep(ParamCalls(x), r4, REG_ALLOC_TEMP);
    CallsKeep(ParamCalls(x), r4, BLOCKDIM_Z);
    CallsKeep(ParamCalls(x), r4, BLOCK_ALLOC);
  }

  lemma ParamsSet(x: Args, r: Registers)
    requires Dims(x)
    ensures var s := Sections(x, r);
            Read(s, USER_PARAM_COUNT) == 0x400 && Read(s, UserParam(0)) == x.a && Read(s, UserParam(1)) == x.b &&
            Read(s, UserParam(2)) == x.out && Read(s, UserParam(3)) == x.n
  {
    hide Apply, Read, WritesOfAll, AllSlots, SetupCalls, LocalCalls, GridCalls;
    var r4 := Apply(WritesOfAll(GridCalls(x)), Apply(WritesOfAll(LocalCalls(x)),
                    Apply(WritesOfAll(AllSlots(SLOTS)), Apply(WritesOfAll(SetupCalls(x)), r))));
    CallSets(ParamCalls(x), r4, 0, USER_PARAM_COUNT, 0x400);
    CallSets(ParamCalls(x), r4, 1, UserParam(0), x.a);
    CallSets(ParamCalls(x), r4, 2, UserParam(1), x.b);
    CallSets(ParamCalls(x), r4, 3, UserParam(2), x.out);
    CallSets(ParamCalls(x), r4, 4, UserParam(3), x.n);
  }

  lemma SlotKept(x: Args, r: Registers, i: nat, mthd: nat)
    requires Dims(x) && i < SLOTS && 0x400 <= mthd < 0x600
    ensures Read(Sections(x, r), mthd) ==
            Read(Apply(WritesOfAll(AllSlots(SLOTS)), Apply(WritesOfAll(SetupCalls(x)), r)), mthd)
  {
    hide Apply, Read, WritesOfAll, AllSlots, SetupCalls;
    var r2 := Apply(WritesOfAll(AllSlots(SLOTS)), Apply(WritesOfAll(SetupCalls(x)), r));
    var r3 := Apply(WritesOfAll(LocalCalls(x)), r2);
    var r4 := Apply(WritesOfAll(GridCalls(x)), r3);
    CallsKeep(LocalCalls(x), r2, mthd);
    CallsKeep(GridCalls(x), r3, mthd);
    CallsKeep(ParamCalls(x), r4, mthd);
  }

  lemma SlotsKept(x: Args, r: Registers, i: nat)
    requires Dims(x) && i < SLOTS
    ensures FullRange(Sections(x, r), i)
  {
    hide Apply, Read, WritesOfAll, AllSlots, SetupCalls, Sections;
    AllSlotsSet(Apply(WritesOfAll(SetupCalls(x)), r), SLOTS, i);
    SlotKept(x, r, i, GlobalAddr(i));
    SlotKept(x, r, i, GlobalAddr(i) + 4);
    SlotKept(x, r, i, GlobalLimit(i));
    SlotKept(x, r, i, GlobalMode(i));
  }

  /** Whatever the engine held before, the push buffer launches exactly once, and
      the engine then holds the kernel, the grid, the parameters and the objects
      the caller asked for. */
  lemma LaunchedAsAsked(x: Args, r: Registers)
    requires Dims(x)
    ensures var ls := Launches(WritesOfAll(PushCalls(x)), r);
            |ls| == 1 && LaunchState(x, ls[0])
  {
    PushLaunches(x, r);
    hide Sections, Read, FullRange, PushCalls, ThreadState, Extents;
    DmaKept(x, r);
    StackSet(x, r);
    LocalSet(x, r);
    GridSet(x, r);
    ThreadSet(x, r);
    ParamsSet(x, r);
    forall i | 0 <= i < SLOTS ensures FullRange(Sections(x, r), i) {
      SlotsKept(x, r, i);
    }
  }

  lemma PushLaunches(x: Args, r: Registers)
    requires Dims(x)
    ensures Launches(WritesOfAll(PushCalls(x)), r) == [Sections(x, r)]
  {
    hide Launches, Apply, AllSlots, SetupCalls, LocalCalls, GridCalls, ParamCalls, GoCalls, WritesOfAll, NoLaunch;
    var a, b, c, d, e, g := SetupCalls(x), AllSlots(SLOTS), LocalCalls(x), GridCalls(x), ParamCalls(x), GoCalls();
    SectionsQuiet(x);
    WritesAppend(a + b + c + d + e, g);
    WritesAppend(a + b + c + d, e);
    WritesAppend(a + b + c, d);
    WritesAppend(a + b, c);
    WritesAppend(a, b);
    var wa, wb, wc, wd, we, wg :=
      WritesOfAll(a), WritesOfAll(b), WritesOfAll(c), WritesOfAll(d), WritesOfAll(e), WritesOfAll(g);
    assert wa + wb + wc + wd + we + wg == wa + (wb + (wc + (wd + (we + wg))));
    var r1 := Apply(wa, r);
    var r2 := Apply(wb, r1);
    var r3 := Apply(wc, r2);
    var r4 := Apply(wd, r3);
    LaunchesAfter(wa, wb + (wc + (wd + (we + wg))), r);
    LaunchesAfter(wb, wc + (wd + (we + wg)), r1);
    LaunchesAfter(wc, wd + (we + wg), r2);
    LaunchesAfter(wd, we + wg, r3);
    LaunchesAfter(we, wg, r4);
    GoLaunches(Apply(we, r4));
  }

  lemma GoLaunches(r: Registers)
    ensures Launches(WritesOfAll(GoCalls()), r) == [r]
  {
    assert WritesOf(One(LAUNCH, 0)) == [Write(SUBC_CP, LAUNCH, 0)];
    assert WritesOf(One(WAIT_FOR_IDLE, 0)) == [Write(SUBC_CP, WAIT_FOR_IDLE, 0)];
    assert WritesOfAll(GoCalls()) == [Write(SUBC_CP, LAUNCH, 0), Write(SUBC_CP, WAIT_FOR_IDLE, 0)];
  }

  lemma SectionsQuiet(x: Args)
    requires Dims(x)
    ensures NoLaunch(WritesOfAll(SetupCalls(x))) && NoLaunch(WritesOfAll(AllSlots(SLOTS)))
    ensures NoLaunch(WritesOfAll(LocalCalls(x))) && NoLaunch(WritesOfAll(GridCalls(x)))
    ensures NoLaunch(WritesOfAll(ParamCalls(x)))
  {
    hide WritesOfAll, Apply, AllSlots;
    var r: Registers := map[];
    CallsKeep(SetupCalls(x), r, LAUNCH);
    SlotsAvoid(SLOTS, LAUNCH);
    CallsKeep(AllSlots(SLOTS), r, LAUNCH);
    CallsKeep(LocalCalls(x), r, LAUNCH);
    CallsKeep(GridCalls(x), r, LAUNCH);
    CallsKeep(ParamCalls(x), r, LAUNCH);
  }
}
