/** From staged memory to results: the doorbell, the push buffer, the launch, the
    kernel image and its threads, put together as main() of
    examples_en210/add.py does. */
module EndToEnd {
  import opened Words
  import opened Dwords
  import opened Pramin
  import opened DwordView
  import opened Gmmu
  import opened PushStream
  import opened Ramht
  import opened Channel
  import opened Doorbell
  import P = ComputePush
  import K = Kernel
  import S = Sass
  import T = Threads
  import G = Grid

  const KERNEL_ADDR: word := 0x240000
  const INPUT_A_ADDR: word := 0x250000
  const INPUT_B_ADDR: word := 0x260000
  const OUTPUT_ADDR: word := 0x270000
  const STACK_ADDR: word := 0x280000

  /** The arguments main() hands to build_compute_push. */
  function ArgsFor(n: nat, block: nat): P.Args
    requires n < U32 && block > 0
  {
    P.Args(VRAM_DMA_HANDLE, KERNEL_ADDR, STACK_ADDR, INPUT_A_ADDR, INPUT_B_ADDR, OUTPUT_ADDR, n, block,
           T.CeilDiv(n, block))
  }

  /** Sizes the buffer layout has room for. */
  predicate Sized(n: nat, block: nat) {
    1 <= n <= 16384 && 1 <= block < 0x10000
  }

  lemma GridFits(n: nat, block: nat)
    requires Sized(n, block)
    ensures T.CeilDiv(n, block) <= n < 0x10000 && P.Dims(ArgsFor(n, block))
  {
    var d, x := block, n + block - 1;
    var q, r := x / d, x % d;
    assert x == d * q + r;
    AtLeastTimes(n, d, 1);
    assert d * (n + 1) == d * n + d;
    if q > n {
      AtLeastTimes(d, q, n + 1);
    }
  }

  lemma AtLeastTimes(d: nat, q: nat, k: nat)
    requires q >= k
    ensures d * q >= d * k
  {
    var e := q - k;
    assert d * q == d * k + d * e;
  }

  /** The kernel, the inputs and the output lie outside everything staged. */
  lemma DataKept(m: Mem, push: seq<word>, ctxvals: seq<word>, size: nat, a: nat)
    requires Short(push) && a % 4 == 0 && KERNEL_ADDR <= a < CTXVALS
    ensures Get(Staged(m, push, ctxvals, size), a) == Get(m, a)
  {
    hide Hash, StagePush, StageInstance, Get, Identity, DmaObject, GrPointer, GpEntry, ObjectContext, Staged;
    FinalGet(m, push, ctxvals, size, a);
    SlotsDiffer();
    StagePushGet(StageInstance(m), push, a);
    StageInstanceGet(m, a);
  }

  /** n dwords of memory as bytes. */
  function WordsAt(m: Mem, at: nat, n: nat): seq<word> {
    seq(n, i requires 0 <= i < n => Get(m, at + 4 * i))
  }

  function BytesAt(m: Mem, at: nat, n: nat): seq<byte> {
    ToBytes(WordsAt(m, at, n))
  }

  const KERNEL_WORDS := 22

  /** The kernel has been uploaded. */
  predicate Uploaded(m: Mem, mul: bool) {
    BytesAt(m, 0x240000, KERNEL_WORDS) == K.KernelImage(mul)
  }

  /** The launch that the engine's registers describe. */
  function LaunchFrom(r: P.Registers, add: (word, word) -> word, mul: (word, word) -> word,
                      junk: seq<seq<word>>): T.Launch
    requires P.Read(r, P.BLOCKDIM_XY) >= 0x10000 && P.Read(r, P.GRIDDIM) >= 0x10000
  {
    T.Launch(P.Read(r, P.BLOCKDIM_XY) - 0x10000, P.Read(r, P.GRIDDIM) - 0x10000, P.Read(r, P.UserParam(0)),
             P.Read(r, P.UserParam(1)), P.Read(r, P.UserParam(2)), P.Read(r, P.UserParam(3)), add, mul, junk)
  }

  /** Its register contents are arbitrary, one set of four for each thread. */
  predicate Junk(n: nat, block: nat, junk: seq<seq<word>>)
    requires block > 0
  {
    |junk| == T.Count(T.CeilDiv(n, block), block) && forall t :: 0 <= t < |junk| ==> |junk[t]| == 4
  }

  lemma LaunchIsValid(n: nat, block: nat, r: P.Registers, add: (word, word) -> word, mul: (word, word) -> word,
                      junk: seq<seq<word>>)
    requires Sized(n, block) && P.Dims(ArgsFor(n, block)) && P.LaunchState(ArgsFor(n, block), r) && Junk(n, block, junk)
    ensures P.Read(r, P.BLOCKDIM_XY) == 0x10000 + block && P.Read(r, P.GRIDDIM) == 0x10000 + T.CeilDiv(n, block)
    ensures T.Valid(LaunchFrom(r, add, mul, junk))
    ensures LaunchFrom(r, add, mul, junk) ==
            T.Launch(block, T.CeilDiv(n, block), INPUT_A_ADDR, INPUT_B_ADDR, OUTPUT_ADDR, n, add, mul, junk)
  {
    hide T.CeilDiv, T.Count, P.Read, P.Extents, P.StackState, P.ThreadState, P.FullRange;
    GridFits(n, block);
  }

  lemma UploadKept(m: Mem, mul: bool, push: seq<word>, ctxvals: seq<word>, size: nat)
    requires Short(push) && Uploaded(m, mul)
    ensures Uploaded(Staged(m, push, ctxvals, size), mul)
  {
    hide Staged, ToBytes, K.KernelImage, Get;
    var m' := Staged(m, push, ctxvals, size);
    forall i | 0 <= i < KERNEL_WORDS ensures Get(m', KERNEL_ADDR + 4 * i) == Get(m, KERNEL_ADDR + 4 * i) {
      DataKept(m, push, ctxvals, size, KERNEL_ADDR + 4 * i);
    }
    assert WordsAt(m', KERNEL_ADDR, KERNEL_WORDS) == WordsAt(m, KERNEL_ADDR, KERNEL_WORDS);
  }

  lemma {:induction false} EncodedSize(cs: seq<Call>)
    requires P.AllEncodable(cs) && Few(cs)
    ensures |EncodeAll(cs)| <= 3 * |cs|
    decreases |cs|
  {
    if cs != [] {
      EncodedSize(cs[1..]);
    }
  }

  /** The memory create_channel leaves for a launch over n elements. */
  function StagedFor(m: Mem, n: nat, block: nat, ctxvals: seq<word>, size: nat): Mem
    requires Sized(n, block)
  {
    hide T.CeilDiv, P.PushCalls, EncodeAll, Encodable;
    GridFits(n, block);
    PushFits(n, block);
    Staged(m, EncodeAll(P.PushCalls(ArgsFor(n, block))), ctxvals, size)
  }

  lemma PushFits(n: nat, block: nat)
    requires Sized(n, block) && P.Dims(ArgsFor(n, block))
    ensures P.AllEncodable(P.PushCalls(ArgsFor(n, block)))
    ensures Short(EncodeAll(P.PushCalls(ArgsFor(n, block))))
  {
    hide T.CeilDiv;
    var x := ArgsFor(n, block);
    P.PushEncodable(x);
    FewArguments(x);
    hide P.PushCalls, P.AllEncodable;
    EncodedSize(P.PushCalls(x));
  }

  predicate Few(cs: seq<Call>) {
    forall i :: 0 <= i < |cs| ==> |cs[i].args| <= 2
  }

  lemma FewArguments(x: P.Args)
    requires P.Dims(x)
    ensures Few(P.PushCalls(x))
  {
    FewInSections(x);
    SlotArguments(P.SLOTS);
    hide P.AllSlots, P.SetupCalls, P.LocalCalls, P.GridCalls, P.ParamCalls, P.GoCalls;
  }

  lemma FewInSections(x: P.Args)
    requires P.Dims(x)
    ensures Few(P.SetupCalls(x)) && Few(P.LocalCalls(x)) && Few(P.GridCalls(x))
    ensures Few(P.ParamCalls(x)) && Few(P.GoCalls())
  {
  }

  lemma {:induction false} SlotArguments(k: nat)
    ensures Few(P.AllSlots(k))
    decreases k
  {
    if k > 0 {
      SlotArguments(k - 1);
    }
  }

  /** The GPU starting from the RAMFC in m launches exactly once, holding r. */
  ghost predicate LaunchesWith(m: Mem, r0: P.Registers, r: P.Registers) {
    (forall i :: 0 <= i < |Fetch(m)| ==> Fetch(m)[i].Some?) && P.Launches(Decode(Loaded(Fetch(m))), r0) == [r]
  }

  /** The handle resolves to an object over all of physical video memory. */
  ghost predicate Physical(m: Mem, handle: word) {
    Lookup(m, TableBase(m), handle).Context? &&
    ReadDma(m, ObjectAt(Lookup(m, TableBase(m), handle).context)) == DmaView(2, 0, 0xffffffffff, Direct(1, 2))
  }

  /** The handle resolves to an object of the compute class, in the graphics engine. */
  ghost predicate Compute(m: Mem, handle: word) {
    Lookup(m, TableBase(m), handle).Context? &&
    Engine(Lookup(m, TableBase(m), handle).context) == 1 &&
    Get(m, ObjectAt(Lookup(m, TableBase(m), handle).context)) == 0x85c0
  }

  /** The object bound is the compute engine's, the code and data objects of the launch
      reach all of memory, and the kernel image stands where the launch starts. */
  ghost predicate Launchable(m: Mem, mul: bool, r: P.Registers) {
    Compute(m, P.Read(r, P.SET_OBJECT)) && Physical(m, P.Read(r, P.DMA_CODE_CB)) &&
    Physical(m, P.Read(r, P.DMA_GLOBAL)) &&
    BytesAt(m, P.Read(r, P.START_ID), KERNEL_WORDS) == K.KernelImage(mul)
  }

  /** From the doorbell, whatever was in the engine before: one launch, of the
      uploaded kernel, over the caller's arrays, through objects that reach them. */
  lemma LaunchReached(m: Mem, mul: bool, n: nat, block: nat, ctxvals: seq<word>, size: nat, r0: P.Registers)
    returns (r: P.Registers)
    requires Sized(n, block) && Uploaded(m, mul)
    ensures P.Dims(ArgsFor(n, block))
    ensures LaunchesWith(StagedFor(m, n, block, ctxvals, size), r0, r) && P.LaunchState(ArgsFor(n, block), r)
    ensures Launchable(StagedFor(m, n, block, ctxvals, size), mul, r)
  {
    hide T.CeilDiv, Staged, Fetch, Decode, P.PushCalls, P.Launches, EncodeAll, WritesOfAll, BytesAt, K.KernelImage,
         Lookup, ReadDma, TableBase, P.Read, P.AllEncodable;
    GridFits(n, block);
    PushFits(n, block);
    var cs := P.PushCalls(ArgsFor(n, block));
    CallsEncodable(cs);
    DoorbellFindsEverything(m, cs, ctxvals, size);
    P.LaunchedAsAsked(ArgsFor(n, block), r0);
    UploadKept(m, mul, EncodeAll(cs), ctxvals, size);
    r := P.Launches(WritesOfAll(cs), r0)[0];
  }

  lemma CallsEncodable(cs: seq<Call>)
    requires P.AllEncodable(cs)
    ensures forall i :: 0 <= i < |cs| ==> Encodable(cs[i])
  {
  }

  /** The operation on one pair of inputs. */
  function Applied(mul: bool, add: (word, word) -> word, times: (word, word) -> word, x: word, y: word): word {
    if mul then times(x, y) else add(x, y)
  }

  /** Memory `end` holds the results for the inputs of m and otherwise equals m'. */
  ghost predicate HasResults(end: Mem, m': Mem, m: Mem, mul: bool, n: nat, add: (word, word) -> word,
                             times: (word, word) -> word) {
    (forall i: nat :: i < n ==>
      Get(end, 0x270000 + 4 * i) ==
      Applied(mul, add, times, Get(m, 0x250000 + 4 * i), Get(m, 0x260000 + 4 * i))) &&
    (forall a: nat :: !Covers(0x270000, n, a) ==> Get(end, a) == Get(m', a))
  }

  /** End to end: upload the kernel and the inputs, stage the channel, ring the
      doorbell, let the threads of the launch run in any order. When all are
      done, out[i] is the operation on a[i] and b[i] as they were uploaded, and
      nothing but the output has changed since the doorbell. */
  lemma ResultsAreCorrect(m: Mem, mul: bool, n: nat, block: nat, ctxvals: seq<word>, size: nat, l: T.Launch,
                          m': Mem, sched: seq<nat>)
    requires Sized(n, block) && m' == StagedFor(m, n, block, ctxvals, size)
    requires l == T.Launch(block, T.CeilDiv(n, block), INPUT_A_ADDR, INPUT_B_ADDR, OUTPUT_ADDR, n, l.add, l.mul, l.junk)
    requires T.Valid(l) && G.AllDone(G.After(l, mul, m', sched))
    ensures HasResults(G.After(l, mul, m', sched).mem, m', m, mul, n, l.add, l.mul)
  {
    hide T.CeilDiv, T.Count, G.After, Get, G.Stores, StagedFor;
    G.VectorOperation(l, mul, m', sched);
    forall i: nat | i < n
      ensures Get(m', INPUT_A_ADDR + 4 * i) == Get(m, INPUT_A_ADDR + 4 * i)
      ensures Get(m', INPUT_B_ADDR + 4 * i) == Get(m, INPUT_B_ADDR + 4 * i)
    {
      InputKept(m, n, block, ctxvals, size, INPUT_A_ADDR + 4 * i);
      InputKept(m, n, block, ctxvals, size, INPUT_B_ADDR + 4 * i);
    }
  }

  lemma InputKept(m: Mem, n: nat, block: nat, ctxvals: seq<word>, size: nat, a: nat)
    requires Sized(n, block) && a % 4 == 0 && KERNEL_ADDR <= a < CTXVALS
    ensures Get(StagedFor(m, n, block, ctxvals, size), a) == Get(m, a)
  {
    hide T.CeilDiv, Staged, P.PushCalls, EncodeAll, Get;
    GridFits(n, block);
    PushFits(n, block);
    DataKept(m, EncodeAll(P.PushCalls(ArgsFor(n, block))), ctxvals, size, a);
  }

  /** The launch r describes is one the threads can run, and from memory m' the
      bytes at its start address leave the results, in whatever order they run. */
  ghost predicate Computes(m': Mem, r: P.Registers, m: Mem, mul: bool, n: nat, add: (word, word) -> word,
                           times: (word, word) -> word, junk: seq<seq<word>>) {
    P.Read(r, P.BLOCKDIM_XY) >= 0x10000 && P.Read(r, P.GRIDDIM) >= 0x10000 &&
    var l := LaunchFrom(r, add, times, junk);
    var image := BytesAt(m', P.Read(r, P.START_ID), KERNEL_WORDS);
    T.Valid(l) &&
    forall sched: seq<nat> :: G.AllDone(G.Run(image, l, G.Launched(l, m'), sched)) ==>
      HasResults(G.Run(image, l, G.Launched(l, m'), sched).mem, m', m, mul, n, add, times)
  }

  /** The program of the repository from end to end: with kernel and inputs in
      memory, whatever else is there and whatever the engine held, the doorbell
      leads to one launch, that launch is one the threads can run, and the bytes
      where it starts compute the operation into the output under every schedule. */
  lemma DoorbellToResults(m: Mem, mul: bool, n: nat, block: nat, ctxvals: seq<word>, size: nat, r0: P.Registers,
                          add: (word, word) -> word, times: (word, word) -> word, junk: seq<seq<word>>)
    returns (r: P.Registers)
    requires Sized(n, block) && Uploaded(m, mul) && Junk(n, block, junk)
    ensures LaunchesWith(StagedFor(m, n, block, ctxvals, size), r0, r)
    ensures Launchable(StagedFor(m, n, block, ctxvals, size), mul, r)
    ensures Computes(StagedFor(m, n, block, ctxvals, size), r, m, mul, n, add, times, junk)
  {
    hide T.CeilDiv, T.Count, T.Valid, Junk, Physical, Compute, LaunchesWith, StagedFor, HasResults, BytesAt,
         K.KernelImage, G.Run, G.Launched, P.Read;
    r := LaunchReached(m, mul, n, block, ctxvals, size, r0);
    LaunchIsValid(n, block, r, add, times, junk);
    var l, m' := LaunchFrom(r, add, times, junk), StagedFor(m, n, block, ctxvals, size);
    forall sched | G.AllDone(G.Run(K.KernelImage(mul), l, G.Launched(l, m'), sched))
      ensures HasResults(G.Run(K.KernelImage(mul), l, G.Launched(l, m'), sched).mem, m', m, mul, n, add, times)
    {
      ResultsAreCorrect(m, mul, n, block, ctxvals, size, l, m', sched);
    }
  }

  // ---- the upload ----------------------------------------------------------------

  /** What main() uploads before it stages the channel: the kernel, the two inputs
      as 32-bit patterns, and zeros for the output. */
  function Uploads(m: Mem, mul: bool, a: seq<word>, b: seq<word>): Mem {
    UploadsOf(m, DwordsOf(K.KernelImage(mul)), a, b)
  }

  function UploadsOf(m: Mem, kernel: seq<word>, a: seq<word>, b: seq<word>): Mem {
    var m := Put(m, KERNEL_ADDR, kernel);
    var m := Put(m, INPUT_A_ADDR, a);
    var m := Put(m, INPUT_B_ADDR, b);
    Put(m, OUTPUT_ADDR, Zeros(|a|))
  }

  /** Two inputs of one size the layout has room for. */
  predicate Inputs(a: seq<word>, b: seq<word>, block: nat) {
    |a| == |b| && Sized(|a|, block)
  }

  lemma KernelWords(mul: bool)
    ensures |DwordsOf(K.KernelImage(mul))| == KERNEL_WORDS && |Padded(K.KernelImage(mul))| == 4 * KERNEL_WORDS
    ensures ToBytes(DwordsOf(K.KernelImage(mul))) == K.KernelImage(mul)
  {
    hide K.KernelCode, S.Assemble, ToBytes, FromBytes, Padded, S.AllInRange;
    K.KernelInRange(mul);
    K.ImageIsListing(mul);
    DwordsOfPacked(S.Assemble(K.KernelCode(mul)));
  }

  lemma UploadGet(m: Mem, kernel: seq<word>, a: seq<word>, b: seq<word>, at: nat)
    ensures Get(UploadsOf(m, kernel, a, b), at) ==
            if Covers(OUTPUT_ADDR, |a|, at) then 0
            else if Covers(INPUT_B_ADDR, |b|, at) then b[(at - INPUT_B_ADDR) / 4]
            else if Covers(INPUT_A_ADDR, |a|, at) then a[(at - INPUT_A_ADDR) / 4]
            else if Covers(KERNEL_ADDR, |kernel|, at) then kernel[(at - KERNEL_ADDR) / 4]
            else Get(m, at)
  {
    hide Put, Get;
    var m1 := Put(m, KERNEL_ADDR, kernel);
    var m2 := Put(m1, INPUT_A_ADDR, a);
    var m3 := Put(m2, INPUT_B_ADDR, b);
    PutGet(m, KERNEL_ADDR, kernel, at);
    PutGet(m1, INPUT_A_ADDR, a, at);
    PutGet(m2, INPUT_B_ADDR, b, at);
    ZeroedGet(m3, OUTPUT_ADDR, |a|, at);
  }

  /** Afterwards kernel and inputs are in place. */
  lemma UploadInPlace(m: Mem, mul: bool, a: seq<word>, b: seq<word>)
    requires |a| == |b| <= 16384
    ensures Uploaded(Uploads(m, mul, a, b), mul)
    ensures forall i: nat :: i < |a| ==> Get(Uploads(m, mul, a, b), INPUT_A_ADDR + 4 * i) == a[i]
    ensures forall i: nat :: i < |b| ==> Get(Uploads(m, mul, a, b), INPUT_B_ADDR + 4 * i) == b[i]
  {
    hide UploadsOf, K.KernelImage, DwordsOf, ToBytes, Get;
    KernelWords(mul);
    var m', ws := Uploads(m, mul, a, b), DwordsOf(K.KernelImage(mul));
    forall i: nat | i < |a|
      ensures Get(m', INPUT_A_ADDR + 4 * i) == a[i] && Get(m', INPUT_B_ADDR + 4 * i) == b[i]
    {
      UploadGet(m, ws, a, b, INPUT_A_ADDR + 4 * i);
      UploadGet(m, ws, a, b, INPUT_B_ADDR + 4 * i);
    }
    forall i: nat | i < KERNEL_WORDS ensures Get(m', KERNEL_ADDR + 4 * i) == ws[i] {
      UploadGet(m, ws, a, b, KERNEL_ADDR + 4 * i);
    }
    assert WordsAt(m', KERNEL_ADDR, KERNEL_WORDS) == ws;
  }

  /** From memory m' under r, in whatever order the threads run, the bytes at the
      start address leave op(a[i], b[i]) in every out[i] and change nothing else. */
  ghost predicate Delivers(m': Mem, r: P.Registers, mul: bool, a: seq<word>, b: seq<word>, add: (word, word) -> word,
                           times: (word, word) -> word, junk: seq<seq<word>>)
    requires |a| == |b|
  {
    P.Read(r, P.BLOCKDIM_XY) >= 0x10000 && P.Read(r, P.GRIDDIM) >= 0x10000 &&
    var l := LaunchFrom(r, add, times, junk);
    var image := BytesAt(m', P.Read(r, P.START_ID), KERNEL_WORDS);
    T.Valid(l) &&
    forall sched: seq<nat> :: G.AllDone(G.Run(image, l, G.Launched(l, m'), sched)) ==>
      Delivered(G.Run(image, l, G.Launched(l, m'), sched).mem, m', mul, a, b, add, times)
  }

  ghost predicate Delivered(end: Mem, m': Mem, mul: bool, a: seq<word>, b: seq<word>, add: (word, word) -> word,
                            times: (word, word) -> word)
    requires |a| == |b|
  {
    (forall i: nat :: i < |a| ==> Get(end, OUTPUT_ADDR + 4 * i) == Applied(mul, add, times, a[i], b[i])) &&
    (forall at: nat :: !Covers(OUTPUT_ADDR, |a|, at) ==> Get(end, at) == Get(m', at))
  }

  lemma ResultsDelivered(end: Mem, m': Mem, m: Mem, mul: bool, a: seq<word>, b: seq<word>, add: (word, word) -> word,
                         times: (word, word) -> word)
    requires |a| == |b| <= 16384 && HasResults(end, m', Uploads(m, mul, a, b), mul, |a|, add, times)
    ensures Delivered(end, m', mul, a, b, add, times)
  {
    hide Uploads, Get, Uploaded;
    UploadInPlace(m, mul, a, b);
  }

  /** The whole program, from two arrays: whatever memory and engine held before,
      upload, staging and doorbell lead to one launch that delivers the results. */
  lemma ProgramDelivers(m: Mem, mul: bool, a: seq<word>, b: seq<word>, block: nat, ctxvals: seq<word>, size: nat,
                        r0: P.Registers, add: (word, word) -> word, times: (word, word) -> word, junk: seq<seq<word>>)
    returns (r: P.Registers)
    requires Inputs(a, b, block) && Junk(|a|, block, junk)
    ensures LaunchesWith(StagedFor(Uploads(m, mul, a, b), |a|, block, ctxvals, size), r0, r)
    ensures Launchable(StagedFor(Uploads(m, mul, a, b), |a|, block, ctxvals, size), mul, r)
    ensures Delivers(StagedFor(Uploads(m, mul, a, b), |a|, block, ctxvals, size), r, mul, a, b, add, times, junk)
  {
    hide T.CeilDiv, T.Count, T.Valid, Junk, Physical, Compute, LaunchesWith, StagedFor, HasResults, Delivered, BytesAt,
         K.KernelImage, G.Run, G.Launched, P.Read, Uploads, Launchable, Uploaded, G.AllDone;
    var u := Uploads(m, mul, a, b);
    UploadInPlace(m, mul, a, b);
    r := DoorbellToResults(u, mul, |a|, block, ctxvals, size, r0, add, times, junk);
    var m' := StagedFor(u, |a|, block, ctxvals, size);
    var image, l := BytesAt(m', P.Read(r, P.START_ID), KERNEL_WORDS), LaunchFrom(r, add, times, junk);
    forall sched | G.AllDone(G.Run(image, l, G.Launched(l, m'), sched))
      ensures Delivered(G.Run(image, l, G.Launched(l, m'), sched).mem, m', mul, a, b, add, times)
    {
      ResultsDelivered(G.Run(image, l, G.Launched(l, m'), sched).mem, m', m, mul, a, b, add, times);
    }
  }

  /** run_add from the upload to the doorbell, through the window: the memory at the
      doorbell, the last register written, is the one `ProgramDelivers` speaks of. */
  method RunAdd(v: Vram, mul: bool, a: seq<word>, b: seq<word>, block: nat, ctxvals: seq<byte>, size: nat)
    requires v.Valid() && Inputs(a, b, block) && v.Reachable(CTXVALS, |Padded(ctxvals)|)
    modifies v, v.iface.board
    ensures v.Valid()
    ensures View(v) == StagedFor(Uploads(old(View(v)), mul, a, b), |a|, block, DwordsOf(ctxvals), size)
    ensures Log(v) != [] && Log(v)[|Log(v)| - 1] == Rung(GP_PUT, 0xF, 1, View(v))
  {
    hide ViewOf, Log, Uploads, Staged, K.KernelImage, Put, ChannelLog, T.CeilDiv, P.PushCalls, EncodeAll, DwordsOf,
         Encodable, Padded;
    Upload(v, mul, a, b);
    GridFits(|a|, block);
    var x := ArgsFor(|a|, block);
    PushFits(|a|, block);
    var push := P.BuildComputePush(x);
    DoorbellIsLast(View(v), push, DwordsOf(ctxvals), size);
    CreateChannel(v, push, ctxvals, size);
  }

  method Upload(v: Vram, mul: bool, a: seq<word>, b: seq<word>)
    requires v.Valid() && |a| == |b| <= 16384
    modifies v, v.iface.board
    ensures v.Valid() && Log(v) == old(Log(v)) && View(v) == Uploads(old(View(v)), mul, a, b)
  {
    hide ViewOf, K.KernelImage, Put, DwordsOf, Padded;
    KernelWords(mul);
    StoreBlock(v, KERNEL_ADDR, K.KernelImage(mul));
    StorePacked(v, INPUT_A_ADDR, a);
    StorePacked(v, INPUT_B_ADDR, b);
    Zero(v, OUTPUT_ADDR, |a|);
  }
}
