/** Channel staging of examples_en210/add.py: everything `create_channel` and
    the callback of `make_setup_fn` put into video memory before the doorbell,
    and what the GPU finds there starting from the RAMFC. */
module Channel {
  import opened Bits
  import opened Words
  import opened Dwords
  import opened Pramin
  import opened DwordView
  import opened Gmmu
  import opened PushStream
  import opened Ramht

  // ---- layout ----------------------------------------------------------------

  const INST := VRAM_BASE
  const PUSH_BUF := VRAM_BASE + 0x10000
  const GP_FIFO := VRAM_BASE + 0x20000
  const RUNLIST := VRAM_BASE + 0x21000
  const CTXVALS := VRAM_BASE + 0x190000
  const INST_DWORDS := 0x4000
  const FIFO_DWORDS := 0x400
  const GPUOBJ := INST + 0x40
  const GR_CTX := INST + 0x20
  const CACHE_OFF := 0x4400
  const RAMFC := INST + 0x5400
  const RAMHT_OFF := 0x5500
  const TABLE := INST + RAMHT_OFF
  const DMA_OFF := 0xD500
  const PUSH_DMA_OFF := 0xFFE0
  const CHAN_ID := 1
  const EXTRA_START := 0x240000
  const EXTRA_END := 0x2A0000

  const COMPUTE_CLASS: word := 0x85c0
  const COMPUTE_HANDLE: word := 0x85c0
  const VRAM_DMA_HANDLE: word := 0xbeef0201

  // ---- DMA objects -----------------------------------------------------------

  datatype Target = Vram | Pci | Ncoh | Vm
  datatype Access = ReadOnly | ReadWrite

  /** Target and access fields of an object that does not go through the page table. */
  function TargetBits(t: Target): (r: nat)
    ensures r < 4
  {
    match t
    case Vram => 1
    case Pci => 2
    case Ncoh => 3
    case Vm => 0
  }

  function AccessBits(a: Access): nat {
    if a.ReadOnly? then 1 else 2
  }

  /** comp, kind, priv, class, target and access bits of the first dword. */
  function DmaFlags(comp: nat, kind: nat, priv: nat, target: nat, access: nat): nat {
    Or(Or(Or(Or(Or(comp * 0x20000000, kind * 0x400000), priv * 0x100000), 2), target), access)
  }

  function DmaHigh(start: nat, limit: nat): nat {
    Or(limit / U32 % 0x100 * 0x1000000, start / U32 % 0x100)
  }

  /** make_dma_object: an access mode is kept except through the page table. */
  function DmaObject(start: nat, limit: nat, target: Target, access: Access): (r: seq<word>)
    ensures |r| == 6
  {
    [(if target.Vm? then DmaFlags(3, 0x7f, 0, 0, 0)
      else DmaFlags(0, 0, 1, TargetBits(target) * 0x10000, AccessBits(access) * 0x40000)) % U32,
     limit % U32, start % U32, DmaHigh(start, limit) % U32, 0, if target.Vm? then 0 else 0x10000]
  }

  lemma VmFlags()
    ensures DmaFlags(3, 0x7f, 0, 0, 0) == 0x7fc00002
  {
    hide Or, Pow2;
    Powers();
    OrPut(0x60000000, 3, 0x1fc00000, 29, 0x20000000);
    OrPut(0x7fc00000, 0x7fc00000, 0, 0, 1);
    OrPut(0x7fc00000, 0x1ff, 2, 22, 0x400000);
    OrPut(0x7fc00002, 0x7fc00002, 0, 0, 1);
  }

  lemma DirectFlags(t: nat, a: nat)
    requires t < 4 && a < 4
    ensures DmaFlags(0, 0, 1, t * 0x10000, a * 0x40000) == 0x100002 + t * 0x10000 + a * 0x40000
  {
    hide Or, Pow2;
    Powers();
    var x, y := t * 0x10000, a * 0x40000;
    OrPut(0, 0, 0, 0, 1);
    OrPut(0, 0, 0x100000, 22, 0x400000);
    OrPut(0x100000, 1, 2, 20, 0x100000);
    OrAssociative(0x100000, 2, x);
    OrPut(x, t, 2, 16, 0x10000);
    OrAssociative(0x100000, 2 + x, y);
    OrPut(y, a, 2 + x, 18, 0x40000);
    OrPut(0x100000, 1, 2 + x + y, 20, 0x100000);
  }

  lemma DirectFields(t: nat, a: nat)
    requires 0 < t < 4 && a < 4
    ensures var flags := 0x100002 + t * 0x10000 + a * 0x40000;
            flags < U32 && flags % 0x1000 == 2 && flags / 0x400000 != 0x1ff && flags / 0x10000 % 4 == t &&
            flags / 0x40000 % 4 == a
  {
    var flags := 0x100002 + t * 0x10000 + a * 0x40000;
    RemainderIs(flags, 0x1000, 0x100 + t * 0x10 + a * 0x40, 2);
    RemainderIs(flags, 0x10000, 4 * (4 + a) + t, 2);
    RemainderIs(4 * (4 + a) + t, 4, 4 + a, t);
    RemainderIs(flags, 0x40000, 4 + a, t * 0x10000 + 2);
    RemainderIs(4 + a, 4, 1, a);
  }

  /** How the engine gets at the memory of an object: through the page table, or
      directly, in which memory and whether it may write. */
  datatype Space = Paged | Direct(target: nat, access: nat)

  function SpaceOf(target: Target, access: Access): Space {
    if target.Vm? then Paged else Direct(TargetBits(target), AccessBits(access))
  }

  /** Class, first and last byte, and space, as the DMA engine reads them. */
  datatype DmaView = DmaView(cls: nat, start: nat, limit: nat, space: Space)

  function ReadDma(m: Mem, at: nat): DmaView {
    DmaView(Get(m, at) % 0x1000,
            Get(m, at + 8) + Get(m, at + 12) % 0x100 * U32,
            Get(m, at + 4) + Get(m, at + 12) / 0x1000000 * U32,
            if Get(m, at) / 0x400000 == 0x1ff then Paged
            else Direct(Get(m, at) / 0x10000 % 4, Get(m, at) / 0x40000 % 4))
  }

  ghost predicate Holds(m: Mem, at: nat, ws: seq<word>) {
    forall i :: 0 <= i < |ws| ==> Get(m, at + 4 * i) == ws[i]
  }

  lemma DmaHighFields(start: nat, limit: nat)
    requires start < 0x100 * U32 && limit < 0x100 * U32
    ensures DmaHigh(start, limit) < U32
    ensures DmaHigh(start, limit) % 0x100 == start / U32 && DmaHigh(start, limit) / 0x1000000 == limit / U32
  {
    hide Or, Pow2;
    Powers();
    var sh, lh := start / U32, limit / U32;
    assert start == U32 * sh + start % U32 && limit == U32 * lh + limit % U32;
    RemainderIs(sh, 0x100, 0, sh);
    RemainderIs(lh, 0x100, 0, lh);
    OrPut(lh * 0x1000000, lh, sh, 24, 0x1000000);
    RemainderIs(lh * 0x1000000 + sh, 0x1000000, lh, sh);
    RemainderIs(lh * 0x1000000 + sh, 0x100, lh * 0x10000, sh);
  }

  /** First dword of an object, by the memory it is in and whether it may be written. */
  function DmaKind(target: Target, access: Access): word {
    match target
    case Vm => 0x7fc00002
    case Vram => if access.ReadOnly? then 0x150002 else 0x190002
    case Pci => if access.ReadOnly? then 0x160002 else 0x1a0002
    case Ncoh => if access.ReadOnly? then 0x170002 else 0x1b0002
  }

  lemma DmaKindIs(target: Target, access: Access)
    requires !target.Vm?
    ensures DmaFlags(0, 0, 1, TargetBits(target) * 0x10000, AccessBits(access) * 0x40000) == DmaKind(target, access)
  {
    DirectFlags(TargetBits(target), AccessBits(access));
    hide DmaFlags;
  }

  lemma HighHalves(start: nat, limit: nat)
    requires start < 0x100 * U32 && limit < 0x100 * U32
    ensures start / U32 < 0x100 && limit / U32 < 0x100
  {
  }

  /** The six dwords of an object in numbers. */
  lemma DmaWords(start: nat, limit: nat, target: Target, access: Access)
    requires start < 0x100 * U32 && limit < 0x100 * U32
    ensures start / U32 < 0x100 && limit / U32 < 0x100
    ensures DmaObject(start, limit, target, access) ==
            [DmaKind(target, access), limit % U32, start % U32, limit / U32 * 0x1000000 + start / U32, 0,
             if target.Vm? then 0 else 0x10000]
  {
    hide DmaFlags, DmaHigh, TargetBits, AccessBits;
    HighHalves(start, limit);
    VmFlags();
    DmaHighIs(start, limit);
    if !target.Vm? {
      DmaKindIs(target, access);
    }
  }

  lemma DmaHighIs(start: nat, limit: nat)
    requires start < 0x100 * U32 && limit < 0x100 * U32
    ensures DmaHigh(start, limit) == limit / U32 * 0x1000000 + start / U32 < U32
  {
    hide Or, Pow2;
    Powers();
    RemainderIs(start / U32, 0x100, 0, start / U32);
    RemainderIs(limit / U32, 0x100, 0, limit / U32);
    OrPut(limit / U32 * 0x1000000, limit / U32, start / U32, 24, 0x1000000);
  }

  /** Any object in memory reads back with its own window and space. */
  lemma DmaReadsBack(m: Mem, at: nat, start: nat, limit: nat, target: Target, access: Access)
    requires start < 0x100 * U32 && limit < 0x100 * U32
    requires Holds(m, at, DmaObject(start, limit, target, access))
    ensures ReadDma(m, at) == DmaView(2, start, limit, SpaceOf(target, access))
  {
    hide Get, DmaFlags, DmaHigh;
    VmFlags();
    DirectFlags(TargetBits(target), AccessBits(access));
    if !target.Vm? {
      DirectFields(TargetBits(target), AccessBits(access));
    }
    DmaHighFields(start, limit);
    RemainderIs(DmaHigh(start, limit), U32, 0, DmaHigh(start, limit));
    var o := DmaObject(start, limit, target, access);
    assert Get(m, at + 4 * 0) == o[0] && Get(m, at + 4 * 1) == o[1] && Get(m, at + 4 * 2) == o[2] &&
           Get(m, at + 4 * 3) == o[3];
    hide TargetBits, AccessBits;
    assert limit == limit % U32 + limit / U32 * U32 && start == start % U32 + start / U32 * U32;
  }

  // ---- the structures --------------------------------------------------------

  /** The dwords create_channel puts into the RAMFC, as (offset, value). */
  function RamfcFields(): (r: seq<(nat, nat)>)
    ensures |r| == 11
  {
    hide Or;
    [(0x3c, 0x403f6078), (0x44, 0x01003fff), (0x48, PUSH_DMA_OFF / 0x10), (0x50, GP_FIFO % U32),
     (0x54, FifoWord(GP_FIFO / U32, 9)), (0x60, 0x7fffffff), (0x78, 0), (0x7c, DevmWord(0xfff)),
     (0x80, TableWord(RAMHT_BITS, RAMHT_OFF / 0x10)),
     (0x88, (INST + CACHE_OFF) / 0x400), (0x98, INST / 0x1000)]
  }

  function FifoWord(high: nat, log2: nat): nat {
    Or(high % 0x10000, log2 * 0x10000)
  }

  function DevmWord(devm: nat): nat {
    Or(0x30000000, devm)
  }

  function TableWord(bits: nat, base: nat): nat
    requires bits >= 9
  {
    Or(Or((bits - 9) * 0x8000000, 4 * 0x1000000), base)
  }

  function PutFields(m: Mem, at: nat, fields: seq<(nat, nat)>): Mem
    decreases |fields|
  {
    if fields == [] then m else PutFields(m[at + fields[0].0 := fields[0].1 % U32], at, fields[1..])
  }

  /** Context pointer of the GR engine: flags, last byte, first byte, high bits. */
  function GrPointer(size: nat): (r: seq<word>)
    ensures |r| == 6
  {
    var limit := CTXVALS + size - 1;
    [0x00190000, limit % U32, CTXVALS % U32, DmaHigh(CTXVALS, limit) % U32, 0, 0]
  }

  function GpObject(): seq<word> {
    [COMPUTE_CLASS, 0, 0, 0]
  }

  const GR_ENGN_ID := 1
  const DMA_ENGN_ID := 0

  function ObjectContext(engine: nat, offset: nat): nat {
    Or(engine * 0x100000, offset / 0x10)
  }

  // ---- staging as one function of memory -------------------------------------

  function SetupFn(m: Mem, ctxvals: seq<word>, size: nat): Mem
  {
    var m := ExtendGmmu(m, EXTRA_START, EXTRA_END);
    var m := Put(m, INST + DMA_OFF, DmaObject(0, 0xffffffffff, Vram, ReadWrite));
    var m := Insert(m, TABLE, VRAM_DMA_HANDLE, ObjectContext(DMA_ENGN_ID, DMA_OFF) % U32);
    var m := Put(m, GPUOBJ, GpObject());
    var m := Insert(m, TABLE, COMPUTE_HANDLE, ObjectContext(GR_ENGN_ID, GPUOBJ - INST) % U32);
    var m := Put(m, GR_CTX, GrPointer(size));
    Put(m, CTXVALS, ctxvals)
  }

  function PushEntry(length: nat): Entry {
    Entry(PUSH_BUF, length, 0, 0, 0, 0)
  }

  /** The instance block up to the RAMFC. */
  function StageInstance(m: Mem): Mem {
    var m := Put(m, INST, Zeros(INST_DWORDS));
    var m := SetupGmmu(m, INST);
    var m := Put(m, INST + PUSH_DMA_OFF, DmaObject(0, 0xffffffffff, Vm, ReadWrite));
    PutFields(m, RAMFC, RamfcFields())
  }

  predicate Fits(push: seq<word>) {
    |push| < 0x400000
  }

  function StagePush(m: Mem, push: seq<word>): Mem
    requires Fits(push)
  {
    var m := Put(m, PUSH_BUF, push);
    var m := Put(m, GP_FIFO, Zeros(FIFO_DWORDS));
    Put(m, GP_FIFO, GpEntry(PushEntry(|push|)))
  }

  /** Everything create_channel has written when it rings the doorbell. */
  function Staged(m: Mem, push: seq<word>, ctxvals: seq<word>, size: nat): Mem
    requires Fits(push)
  {
    SetupFn(StagePush(StageInstance(m), push), ctxvals, size)[RUNLIST := CHAN_ID]
  }

  // ---- the registers written ---------------------------------------------------

  const CHAN_REG := 0x002600 + CHAN_ID * 4
  const RUNLIST_REG := 0x0032f4
  const RUNLIST_COMMIT := 0x0032ec
  const PFIFO_INTR := 0x002100
  const GP_PUT := 0xc00000 + CHAN_ID * 0x2000 + 0x8c

  /** Memory when setup_gmmu flushes. */
  function GmmuStaged(m: Mem): Mem {
    SetupGmmu(Put(m, INST, Zeros(INST_DWORDS)), INST)
  }

  /** Memory when the callback's extension flushes. */
  function ExtensionStaged(m: Mem, push: seq<word>): Mem
    requires Fits(push)
  {
    ExtendGmmu(StagePush(StageInstance(m), push), EXTRA_START, EXTRA_END)
  }

  /** Every register create_channel writes up to the doorbell, in order, each with
      the memory at that time: two flushes, the bind on the staged structures, and
      the start, the interrupts and the doorbell once the runlist is there too. */
  function ChannelLog(m: Mem, push: seq<word>, ctxvals: seq<word>, size: nat): seq<Rung>
    requires Fits(push)
  {
    hide SetupGmmu, ExtendGmmu, StageInstance, StagePush, Or;
    var bound := SetupFn(StagePush(StageInstance(m), push), ctxvals, size);
    var staged := Staged(m, push, ctxvals, size);
    Flushes(GmmuStaged(m), 7) + Flushes(ExtensionStaged(m, push), 7) + [Rung(CHAN_REG, 0xF, RAMFC / 0x100, bound)] +
    [Rung(RUNLIST_REG, 0xF, RUNLIST / 0x1000, staged), Rung(RUNLIST_COMMIT, 0xF, 1, staged),
     Rung(CHAN_REG, 0xF, Or(RAMFC / 0x100, 0x80000000) % U32, staged), Rung(PFIFO_INTR, 0xF, 0xffffffff, staged),
     Rung(GP_PUT, 0xF, 1, staged)]
  }

  // ---- the same, in place ----------------------------------------------------

  method WriteFields(v: Vram, at: nat, fields: seq<(nat, nat)>)
    requires v.Valid() && at % 4 == 0 && forall i :: 0 <= i < |fields| ==> v.Reachable(at + fields[i].0, 4)
    modifies v, v.iface.board
    ensures v.Valid() && Log(v) == old(Log(v)) && View(v) == PutFields(old(View(v)), at, fields)
  {
    hide ViewOf;
    var i := 0;
    while i < |fields|
      invariant 0 <= i <= |fields| && v.Valid() && Log(v) == old(Log(v))
      invariant PutFields(View(v), at, fields[i..]) == PutFields(old(View(v)), at, fields)
    {
      Store(v, at + fields[i].0, fields[i].1);
      assert fields[i..][1..] == fields[i + 1..];
      i := i + 1;
    }
  }

  method RunSetupFn(v: Vram, ctxvals: seq<byte>, size: nat)
    requires v.Valid() && v.Reachable(CTXVALS, |Padded(ctxvals)|)
    modifies v, v.iface.board
    ensures v.Valid() && View(v) == SetupFn(old(View(v)), DwordsOf(ctxvals), size)
    ensures Log(v) == old(Log(v)) + Flushes(ExtendGmmu(old(View(v)), EXTRA_START, EXTRA_END), 7)
  {
    hide ViewOf, Log, Or, DmaObject, Insert, ExtendGmmu, Put, Hash, GrPointer, Flushes, DwordsOf;
    Extend(v, EXTRA_START, EXTRA_END);
    StorePacked(v, INST + DMA_OFF, DmaObject(0, 0xffffffffff, Vram, ReadWrite));
    RamhtInsert(v, TABLE, VRAM_DMA_HANDLE, ObjectContext(DMA_ENGN_ID, DMA_OFF) % U32);
    StoreEach(v, GPUOBJ, GpObject());
    RamhtInsert(v, TABLE, COMPUTE_HANDLE, ObjectContext(GR_ENGN_ID, GPUOBJ - INST) % U32);
    StoreEach(v, GR_CTX, GrPointer(size));
    StoreBlock(v, CTXVALS, ctxvals);
  }

  /** The instance block and its GMMU. */
  method WriteInstance(v: Vram)
    requires v.Valid()
    modifies v, v.iface.board
    ensures v.Valid() && View(v) == StageInstance(old(View(v)))
    ensures Log(v) == old(Log(v)) + Flushes(GmmuStaged(old(View(v))), 7)
  {
    hide ViewOf, Log, Or, DmaObject, SetupGmmu, Put, PutFields, Flushes;
    Zero(v, INST, INST_DWORDS);
    Setup(v, INST);
    StorePacked(v, INST + PUSH_DMA_OFF, DmaObject(0, 0xffffffffff, Vm, ReadWrite));
    WriteFields(v, RAMFC, RamfcFields());
  }

  /** The push buffer, word by word, and its ring. */
  method WritePush(v: Vram, push: seq<word>)
    requires v.Valid() && Fits(push)
    modifies v, v.iface.board
    ensures v.Valid() && Log(v) == old(Log(v)) && View(v) == StagePush(old(View(v)), push)
  {
    hide ViewOf, Put, GpEntry;
    StoreEach(v, PUSH_BUF, push);
    Zero(v, GP_FIFO, FIFO_DWORDS);
    StorePacked(v, GP_FIFO, GpEntry(PushEntry(|push|)));
  }

  /** The registers from the bind to the doorbell. */
  method StartChannel(v: Vram)
    requires v.Valid()
    modifies v, v.iface.board
    ensures v.Valid() && View(v) == old(View(v))[RUNLIST := CHAN_ID]
    ensures Log(v) == old(Log(v)) + [Rung(CHAN_REG, 0xF, RAMFC / 0x100, old(View(v)))] +
                      [Rung(RUNLIST_REG, 0xF, RUNLIST / 0x1000, View(v)), Rung(RUNLIST_COMMIT, 0xF, 1, View(v)),
                       Rung(CHAN_REG, 0xF, Or(RAMFC / 0x100, 0x80000000) % U32, View(v)),
                       Rung(PFIFO_INTR, 0xF, 0xffffffff, View(v)), Rung(GP_PUT, 0xF, 1, View(v))]
  {
    hide ViewOf, Log, Or;
    Ring(v, CHAN_REG, RAMFC / 0x100);
    Store(v, RUNLIST, CHAN_ID);
    Ring(v, RUNLIST_REG, RUNLIST / 0x1000);
    Ring(v, RUNLIST_COMMIT, 1);
    Ring(v, CHAN_REG, Or(RAMFC / 0x100, 0x80000000));
    Ring(v, PFIFO_INTR, 0xffffffff);
    Ring(v, GP_PUT, 1);
  }

  /** create_channel up to and with the doorbell, through the window: the memory it
      leaves, and the registers it writes on the way. */
  method CreateChannel(v: Vram, push: seq<word>, ctxvals: seq<byte>, size: nat)
    requires v.Valid() && Fits(push) && v.Reachable(CTXVALS, |Padded(ctxvals)|)
    modifies v, v.iface.board
    ensures v.Valid() && View(v) == Staged(old(View(v)), push, DwordsOf(ctxvals), size)
    ensures Log(v) == old(Log(v)) + ChannelLog(old(View(v)), push, DwordsOf(ctxvals), size)
  {
    hide ViewOf, Log, Or, StageInstance, StagePush, SetupFn, Flushes, GmmuStaged, ExtendGmmu, DwordsOf;
    WriteInstance(v);
    WritePush(v, push);
    RunSetupFn(v, ctxvals, size);
    StartChannel(v);
  }

  /** Those from the bind on, in numbers. */
  lemma ChannelLogValues(m: Mem, push: seq<word>, ctxvals: seq<word>, size: nat)
    requires Fits(push)
    ensures var staged := Staged(m, push, ctxvals, size);
            ChannelLog(m, push, ctxvals, size) ==
            Flushes(GmmuStaged(m), 7) + Flushes(ExtensionStaged(m, push), 7) +
            [ Rung(0x2604, 0xF, 0x1054, SetupFn(StagePush(StageInstance(m), push), ctxvals, size)),
              Rung(0x32f4, 0xF, 0x121, staged), Rung(0x32ec, 0xF, 1, staged), Rung(0x2604, 0xF, 0x80001054, staged),
              Rung(0x2100, 0xF, 0xffffffff, staged), Rung(0xc0208c, 0xF, 1, staged) ]
  {
    hide Or, Pow2, Staged, SetupFn, StagePush, StageInstance, GmmuStaged, ExtensionStaged, Flushes;
    assert Or(0x1054, 0x80000000) == 0x80001054 by {
      Powers();
      PowSplit(3, 28);
      OrPut(0x80000000, 1, 0x1054, 31, 0x80000000);
    }
  }

  /** The last of them is the doorbell, when everything is staged. */
  lemma DoorbellIsLast(m: Mem, push: seq<word>, ctxvals: seq<word>, size: nat)
    requires Fits(push)
    ensures |ChannelLog(m, push, ctxvals, size)| == 20
    ensures ChannelLog(m, push, ctxvals, size)[19] == Rung(GP_PUT, 0xF, 1, Staged(m, push, ctxvals, size))
    ensures forall i :: 0 <= i < 19 ==> ChannelLog(m, push, ctxvals, size)[i].reg != GP_PUT
  {
    hide Staged, SetupFn, StagePush, StageInstance, GmmuStaged, ExtensionStaged, Or;
    OnlyFlushes(GmmuStaged(m), 7);
    OnlyFlushes(ExtensionStaged(m, push), 7);
  }

  lemma {:induction false} OnlyFlushes(m: Mem, n: nat)
    requires n <= 7
    ensures |Flushes(m, n)| == n && forall i :: 0 <= i < n ==> Flushes(m, n)[i].reg == TLB_FLUSH
  {
    hide Or;
    if n > 0 {
      OnlyFlushes(m, n - 1);
    }
  }

  // ---- values ----------------------------------------------------------------

  /** The two handles fold to an odd and an even slot. */
  lemma SlotsDiffer()
    ensures Hash(VRAM_DMA_HANDLE) != Hash(COMPUTE_HANDLE)
    ensures Hash(VRAM_DMA_HANDLE) < SLOTS && Hash(COMPUTE_HANDLE) < SLOTS
  {
    hide Fold;
    FoldBound(0, VRAM_DMA_HANDLE);
    FoldBound(0, COMPUTE_HANDLE);
    FoldParity(0, VRAM_DMA_HANDLE);
    FoldParity(0, COMPUTE_HANDLE);
    assert DigitSum(0xbe) == 0xbe;
    assert DigitSum(0xbeef0) == 0xef0 + 0xbe;
    assert DigitSum(VRAM_DMA_HANDLE) == 0x201 + 0xef0 + 0xbe;
    assert DigitSum(8) == 8;
    assert DigitSum(COMPUTE_HANDLE) == 0x5c0 + 8;
  }

  lemma ContextValues()
    ensures ObjectContext(DMA_ENGN_ID, DMA_OFF) == 0xd50 && ObjectContext(GR_ENGN_ID, GPUOBJ - INST) == 0x100004
  {
    hide Or, Pow2;
    Powers();
    OrPut(0, 0, 0xd50, 20, 0x100000);
    OrPut(0x100000, 1, 4, 20, 0x100000);
  }

  lemma PointerHigh(size: nat)
    ensures var limit := CTXVALS + size - 1;
            limit < 0x100 * U32 ==> GrPointer(size)[3] == limit / U32 * 0x1000000
  {
    var limit := CTXVALS + size - 1;
    if limit < 0x100 * U32 {
      hide Or, Pow2;
      Powers();
      var lh := limit / U32;
      RemainderIs(lh, 0x100, 0, lh);
      OrPut(lh * 0x1000000, lh, 0, 24, 0x1000000);
      RemainderIs(lh * 0x1000000, U32, 0, lh * 0x1000000);
    }
  }

  lemma RamfcValues()
    ensures RamfcFields() ==
            [(0x3c, 0x403f6078), (0x44, 0x01003fff), (0x48, 0xffe), (0x50, 0x120000), (0x54, 0x90000),
             (0x60, 0x7fffffff), (0x78, 0), (0x7c, 0x30000fff), (0x80, 0x1c000550), (0x88, 0x411), (0x98, 0x100)]
  {
    hide Or, Pow2;
    Powers();
    OrPut(0x90000, 9, 0, 16, 0x10000);
    OrPut(0x30000000, 3, 0xfff, 28, 0x10000000);
    OrPut(0x18000000, 3, 0x4000000, 27, 0x8000000);
    OrPut(0x1c000000, 7, 0x550, 26, 0x4000000);
  }

  // ---- the memory map --------------------------------------------------------

  /** a is one of the two dwords of the handle's slot. */
  predicate IsSlot(a: nat, handle: word) {
    a == SlotAt(TABLE, handle) || a == SlotAt(TABLE, handle) + 4
  }

  function SlotDword(a: nat, handle: word, context: nat): nat {
    if a == SlotAt(TABLE, handle) then handle else context % U32
  }

  /** What the setup callback leaves at each dword address. */
  function SetupAt(m: Mem, ctxvals: seq<word>, size: nat, a: nat): nat
  {
    if Covers(CTXVALS, |ctxvals|, a) then ctxvals[(a - CTXVALS) / 4]
    else if Covers(GR_CTX, 6, a) then GrPointer(size)[(a - GR_CTX) / 4]
    else if IsSlot(a, COMPUTE_HANDLE) then
      SlotDword(a, COMPUTE_HANDLE, ObjectContext(GR_ENGN_ID, GPUOBJ - INST))
    else if Covers(GPUOBJ, 4, a) then GpObject()[(a - GPUOBJ) / 4]
    else if IsSlot(a, VRAM_DMA_HANDLE) then
      SlotDword(a, VRAM_DMA_HANDLE, ObjectContext(DMA_ENGN_ID, DMA_OFF))
    else if Covers(INST + DMA_OFF, 6, a) then DmaObject(0, 0xffffffffff, Vram, ReadWrite)[(a - INST - DMA_OFF) / 4]
    else if IsPteOf(a, EXTRA_START / PAGE, PageCount(EXTRA_START, EXTRA_END)) then Identity(a)
    else Get(m, a)
  }

  lemma SetupFnGet(m: Mem, ctxvals: seq<word>, size: nat, a: nat)
    requires a % 4 == 0
    ensures Get(SetupFn(m, ctxvals, size), a) == SetupAt(m, ctxvals, size, a)
  {
    hide Put, DmaObject, GrPointer, ObjectContext, Hash, ExtendGmmu, Identity, DmaHigh;
    var m1 := ExtendGmmu(m, EXTRA_START, EXTRA_END);
    ExtendWrites(m, (EXTRA_START, EXTRA_END));
    var m2 := Put(m1, INST + DMA_OFF, DmaObject(0, 0xffffffffff, Vram, ReadWrite));
    PutGet(m1, INST + DMA_OFF, DmaObject(0, 0xffffffffff, Vram, ReadWrite), a);
    var m3 := Insert(m2, TABLE, VRAM_DMA_HANDLE, ObjectContext(DMA_ENGN_ID, DMA_OFF) % U32);
    var m4 := Put(m3, GPUOBJ, GpObject());
    PutGet(m3, GPUOBJ, GpObject(), a);
    var m5 := Insert(m4, TABLE, COMPUTE_HANDLE, ObjectContext(GR_ENGN_ID, GPUOBJ - INST) % U32);
    var m6 := Put(m5, GR_CTX, GrPointer(size));
    PutGet(m5, GR_CTX, GrPointer(size), a);
    PutGet(m6, CTXVALS, ctxvals, a);
  }

  /** What the push buffer and the GPFIFO hold. */
  function PushAt(m: Mem, push: seq<word>, a: nat): nat
    requires Fits(push)
  {
    if Covers(GP_FIFO, 2, a) then GpEntry(PushEntry(|push|))[(a - GP_FIFO) / 4]
    else if Covers(GP_FIFO, FIFO_DWORDS, a) then 0
    else if Covers(PUSH_BUF, |push|, a) then push[(a - PUSH_BUF) / 4]
    else Get(m, a)
  }

  lemma StagePushGet(m: Mem, push: seq<word>, a: nat)
    requires Fits(push)
    ensures Get(StagePush(m, push), a) == PushAt(m, push, a)
  {
    hide Put, GpEntry;
    var m1 := Put(m, PUSH_BUF, push);
    PutGet(m, PUSH_BUF, push, a);
    var m2 := Put(m1, GP_FIFO, Zeros(FIFO_DWORDS));
    ZeroedGet(m1, GP_FIFO, FIFO_DWORDS, a);
    PutGet(m2, GP_FIFO, GpEntry(PushEntry(|push|)), a);
  }

  /** A field of a list with distinct offsets. */
  lemma {:induction false} PutFieldsGet(m: Mem, at: nat, fields: seq<(nat, nat)>, a: nat)
    requires forall i, j :: 0 <= i < j < |fields| ==> fields[i].0 != fields[j].0
    ensures (forall i :: 0 <= i < |fields| ==> a != at + fields[i].0) ==> Get(PutFields(m, at, fields), a) == Get(m, a)
    ensures forall i :: 0 <= i < |fields| && a == at + fields[i].0 ==>
              Get(PutFields(m, at, fields), a) == fields[i].1 % U32
    decreases |fields|
  {
    if fields != [] {
      var m' := m[at + fields[0].0 := fields[0].1 % U32];
      PutFieldsGet(m', at, fields[1..], a);
      assert forall i :: 0 <= i < |fields| - 1 ==> fields[1..][i] == fields[i + 1];
      if a == at + fields[0].0 {
        forall i | 0 <= i < |fields| - 1
          ensures a != at + fields[1..][i].0
        {
          assert fields[0].0 != fields[i + 1].0;
        }
      }
    }
  }

  /** What zeroing and the GMMU set-up leave. */
  function GmmuAt(m: Mem, a: nat): nat {
    if IsPteOf(a, SETUP_START / PAGE, PageCount(SETUP_START, SETUP_END)) then Identity(a)
    else if a == INST + INST_PGD_OFF then PGT_ADDR + 3
    else if a == INST + INST_PGD_OFF + 4 then 0
    else if Covers(PGT_ADDR, 2 * CLEARED, a) then 0
    else if Covers(INST, INST_DWORDS, a) then 0
    else Get(m, a)
  }

  lemma GmmuGet(m: Mem, a: nat)
    requires a % 4 == 0
    ensures Get(SetupGmmu(Put(m, INST, Zeros(INST_DWORDS)), INST), a) == GmmuAt(m, a)
  {
    hide Put, Identity, Or, ExtendGmmu;
    var m0 := Put(m, INST, Zeros(INST_DWORDS));
    ZeroedGet(m, INST, INST_DWORDS, a);
    var m1 := Put(m0, PGT_ADDR, Zeros(2 * CLEARED));
    ZeroedGet(m0, PGT_ADDR, 2 * CLEARED, a);
    PdeValue();
    RemainderIs(PGT_ADDR + 3, U32, 0, PGT_ADDR + 3);
    ExtendWrites(SetPde(m1, INST), (SETUP_START, SETUP_END));
  }

  /** a is one of the RAMFC dwords, at index i of the list. */
  predicate IsField(a: nat, i: nat)
    requires i < |RamfcFields()|
  {
    a == RAMFC + RamfcFields()[i].0
  }

  lemma FieldsDistinct()
    ensures forall i, j :: 0 <= i < j < 11 ==> RamfcFields()[i].0 != RamfcFields()[j].0
    ensures forall i :: 0 <= i < 11 ==> 0x3c <= RamfcFields()[i].0 < 0x100
  {
    hide FifoWord, DevmWord, TableWord;
  }

  /** Outside the RAMFC the instance block holds the push DMA object, the page
      directory, and zeros. */
  lemma StageInstanceGet(m: Mem, a: nat)
    requires a % 4 == 0
    ensures !(RAMFC <= a < RAMFC + 0x100) ==>
              Get(StageInstance(m), a) ==
              if Covers(INST + PUSH_DMA_OFF, 6, a)
              then DmaObject(0, 0xffffffffff, Vm, ReadWrite)[(a - INST - PUSH_DMA_OFF) / 4]
              else GmmuAt(m, a)
    ensures forall i :: 0 <= i < 11 && IsField(a, i) ==>
              Get(StageInstance(m), a) == RamfcFields()[i].1 % U32
  {
    hide Put, DmaObject, SetupGmmu, GmmuAt, RamfcFields, PutFields;
    FieldsDistinct();
    var m1 := SetupGmmu(Put(m, INST, Zeros(INST_DWORDS)), INST);
    GmmuGet(m, a);
    var m2 := Put(m1, INST + PUSH_DMA_OFF, DmaObject(0, 0xffffffffff, Vm, ReadWrite));
    PutGet(m1, INST + PUSH_DMA_OFF, DmaObject(0, 0xffffffffff, Vm, ReadWrite), a);
    PutFieldsGet(m2, RAMFC, RamfcFields(), a);
  }
}
