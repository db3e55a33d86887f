/** What the GPU finds when the doorbell is rung: starting from the RAMFC every
    structure the staging wrote is intact and reachable. */
module Doorbell {
  import opened Words
  import opened Wrappers
  import opened Dwords
  import opened Gmmu
  import opened PushStream
  import opened Ramht
  import opened Channel

  // ---- how the GPU follows the RAMFC -----------------------------------------

  function PushDmaAt(m: Mem): nat {
    INST + Get(m, RAMFC + 0x48) * 0x10
  }

  function FifoBase(m: Mem): nat {
    Get(m, RAMFC + 0x50) + Get(m, RAMFC + 0x54) % 0x10000 * U32
  }

  function FifoLog2(m: Mem): nat {
    Get(m, RAMFC + 0x54) / 0x10000
  }

  function TableBase(m: Mem): nat {
    INST + Get(m, RAMFC + 0x80) % 0x1000000 * 0x10
  }

  function TableBits(m: Mem): nat {
    Get(m, RAMFC + 0x80) / 0x8000000 + 9
  }

  function FifoEntry(m: Mem, i: nat): Entry {
    ReadEntry(Get(m, FifoBase(m) + 8 * i), Get(m, FifoBase(m) + 8 * i + 4))
  }

  /** A dword at a virtual address; an unmapped one faults. */
  function Load(m: Mem, va: nat): Option<word> {
    match Walk(m, INST, va)
    case Some(pa) => Some(Get(m, pa))
    case None => None
  }

  /** The push words GPFIFO entry 0 names, as the fetcher gets them. */
  function Fetch(m: Mem): seq<Option<word>> {
    var e := FifoEntry(m, 0);
    seq(e.length, i requires 0 <= i < e.length => Load(m, e.addr + 4 * i))
  }

  /** Engine and object a handle resolves to. */
  function Engine(context: word): nat {
    context / 0x100000
  }

  function ObjectAt(context: word): nat {
    INST + context % 0x100000 * 0x10
  }

  // ---- the final memory ------------------------------------------------------

  /** Dwords from the push buffer to the ring, and to the page table. */
  const BEFORE_RING := 0x4000
  const BEFORE_TABLE := 0x8000

  predicate Short(push: seq<word>) {
    |push| <= BEFORE_RING
  }

  lemma FinalGet(m: Mem, push: seq<word>, ctxvals: seq<word>, size: nat, a: nat)
    requires Fits(push) && a % 4 == 0
    ensures Get(Staged(m, push, ctxvals, size), a) ==
            if a == RUNLIST then CHAN_ID else SetupAt(StagePush(StageInstance(m), push), ctxvals, size, a)
  {
    hide SetupFn, SetupAt, StagePush, StageInstance;
    SetupFnGet(StagePush(StageInstance(m), push), ctxvals, size, a);
  }

  /** Addresses below the context image that neither the setup callback nor the
      push staging touch keep what the instance staging left. */
  lemma InstanceKept(m: Mem, push: seq<word>, ctxvals: seq<word>, size: nat, a: nat)
    requires Fits(push) && a % 4 == 0 && INST + 0x50 <= a < INST + 0x10000
    requires !(TABLE <= a < TABLE + 8 * SLOTS) && !Covers(INST + DMA_OFF, 6, a)
    ensures Get(Staged(m, push, ctxvals, size), a) == Get(StageInstance(m), a)
  {
    hide StagePush, StageInstance, Get, Hash, Identity, DmaObject, GrPointer, GpEntry, ObjectContext;
    FinalGet(m, push, ctxvals, size, a);
    SlotsDiffer();
    StagePushGet(StageInstance(m), push, a);
  }

  lemma PageTableKept(m: Mem, push: seq<word>, ctxvals: seq<word>, size: nat, p: nat)
    requires |push| <= BEFORE_TABLE && SETUP_START / PAGE <= p < SETUP_END / PAGE
    ensures Get(Staged(m, push, ctxvals, size), PGT_ADDR + 8 * p) == p * PAGE + 1
    ensures Get(Staged(m, push, ctxvals, size), PGT_ADDR + 8 * p + 4) == 0
  {
    hide StagePush, StageInstance, Get, Hash, Identity, DmaObject, GrPointer, GpEntry, ObjectContext;
    DwordsAligned(PGT_ADDR, p);
    IdentityAt(p);
    SlotsDiffer();
    PageTableDword(m, push, ctxvals, size, PGT_ADDR + 8 * p);
    PageTableDword(m, push, ctxvals, size, PGT_ADDR + 8 * p + 4);
  }

  lemma PageTableDword(m: Mem, push: seq<word>, ctxvals: seq<word>, size: nat, a: nat)
    requires |push| <= BEFORE_TABLE && a % 4 == 0
    requires PGT_ADDR + 8 * (SETUP_START / PAGE) <= a < PGT_ADDR + 8 * (SETUP_END / PAGE)
    ensures Get(Staged(m, push, ctxvals, size), a) == Identity(a)
  {
    hide StagePush, StageInstance, Get, Hash, Identity, DmaObject, GrPointer, GpEntry, ObjectContext;
    FinalGet(m, push, ctxvals, size, a);
    SlotsDiffer();
    StagePushGet(StageInstance(m), push, a);
    StageInstanceGet(m, a);
  }

  lemma FinalDirectory(m: Mem, push: seq<word>, ctxvals: seq<word>, size: nat)
    requires Fits(push)
    ensures Directory(Staged(m, push, ctxvals, size), INST)
  {
    hide Staged, StageInstance, Get, Identity, DmaObject;
    forall i | 0 <= i < 0x800
      ensures Get(Staged(m, push, ctxvals, size), INST + INST_PGD_OFF + 8 * i) == if i == 0 then PGT_ADDR + 3 else 0
    {
      DirectoryDword(m, push, ctxvals, size, i);
    }
    assert Get(Staged(m, push, ctxvals, size), INST + INST_PGD_OFF + 8 * 0) == PGT_ADDR + 3;
    DirectoryDword(m, push, ctxvals, size, 0);
  }

  lemma DirectoryDword(m: Mem, push: seq<word>, ctxvals: seq<word>, size: nat, i: nat)
    requires Fits(push) && i < 0x800
    ensures Get(Staged(m, push, ctxvals, size), INST + INST_PGD_OFF + 8 * i) == if i == 0 then PGT_ADDR + 3 else 0
    ensures Get(Staged(m, push, ctxvals, size), INST + INST_PGD_OFF + 8 * i + 4) == 0
  {
    hide Staged, StageInstance, Get, Identity, DmaObject;
    var a := INST + INST_PGD_OFF + 8 * i;
    DwordsAligned(INST + INST_PGD_OFF, i);
    InstanceKept(m, push, ctxvals, size, a);
    InstanceKept(m, push, ctxvals, size, a + 4);
    StageInstanceGet(m, a);
    StageInstanceGet(m, a + 4);
    DwordsAligned(0, i);
  }

  // ---- what is found ---------------------------------------------------------

  lemma RamfcDword(m: Mem, push: seq<word>, ctxvals: seq<word>, size: nat, i: nat)
    requires Fits(push) && i < 11
    ensures Get(Staged(m, push, ctxvals, size), RAMFC + RamfcFields()[i].0) == RamfcFields()[i].1 % U32
  {
    hide Staged, StageInstance, Get, DmaObject, FifoWord, DevmWord, TableWord;
    var a := RAMFC + RamfcFields()[i].0;
    assert a % 4 == 0;
    InstanceKept(m, push, ctxvals, size, a);
    StageInstanceGet(m, a);
    assert IsField(a, i);
  }

  /** The RAMFC names the push DMA object, the ring and the hash table. */
  lemma RamfcPointers(m: Mem, push: seq<word>, ctxvals: seq<word>, size: nat)
    requires Fits(push)
    ensures var m' := Staged(m, push, ctxvals, size);
            && PushDmaAt(m') == INST + PUSH_DMA_OFF
            && FifoBase(m') == GP_FIFO && FifoLog2(m') == 9
            && TableBase(m') == TABLE && TableBits(m') == RAMHT_BITS
            && Get(m', RAMFC + 0x98) * 0x1000 == INST
  {
    hide Staged, Get, RamfcFields;
    RamfcValues();
    RamfcDword(m, push, ctxvals, size, 2);
    RamfcDword(m, push, ctxvals, size, 3);
    RamfcDword(m, push, ctxvals, size, 4);
    RamfcDword(m, push, ctxvals, size, 8);
    RamfcDword(m, push, ctxvals, size, 10);
  }

  lemma PushDmaFound(m: Mem, push: seq<word>, ctxvals: seq<word>, size: nat)
    requires Fits(push)
    ensures var m' := Staged(m, push, ctxvals, size);
            ReadDma(m', PushDmaAt(m')) == DmaView(2, 0, 0xffffffffff, Paged)
  {
    hide Staged, StageInstance, Get, DmaObject, ReadDma;
    var m' := Staged(m, push, ctxvals, size);
    RamfcPointers(m, push, ctxvals, size);
    forall i | 0 <= i < 6
      ensures Get(m', INST + PUSH_DMA_OFF + 4 * i) == DmaObject(0, 0xffffffffff, Vm, ReadWrite)[i]
    {
      InstanceKept(m, push, ctxvals, size, INST + PUSH_DMA_OFF + 4 * i);
      StageInstanceGet(m, INST + PUSH_DMA_OFF + 4 * i);
    }
    DmaReadsBack(m', INST + PUSH_DMA_OFF, 0, 0xffffffffff, Vm, ReadWrite);
  }

  /** Ring and push buffer are as StagePush left them. */
  lemma PushKept(m: Mem, push: seq<word>, ctxvals: seq<word>, size: nat, a: nat)
    requires Fits(push) && a % 4 == 0 && PUSH_BUF <= a < GP_FIFO + 4 * FIFO_DWORDS
    ensures Get(Staged(m, push, ctxvals, size), a) == PushAt(StageInstance(m), push, a)
  {
    hide StagePush, StageInstance, Get, Hash, Identity, DmaObject, GrPointer, GpEntry, ObjectContext;
    FinalGet(m, push, ctxvals, size, a);
    SlotsDiffer();
    StagePushGet(StageInstance(m), push, a);
  }

  /** Entry 0 names the push buffer, the other entries are empty. */
  lemma FifoFound(m: Mem, push: seq<word>, ctxvals: seq<word>, size: nat, i: nat)
    requires Fits(push) && i < 0x200
    ensures var m' := Staged(m, push, ctxvals, size);
            FifoEntry(m', i) == if i == 0 then PushEntry(|push|) else Entry(0, 0, 0, 0, 0, 0)
  {
    hide Staged, StageInstance, Get, GpEntry, ReadEntry;
    RamfcPointers(m, push, ctxvals, size);
    DwordsAligned(GP_FIFO, i);
    DwordsAligned(0, i);
    PushKept(m, push, ctxvals, size, GP_FIFO + 8 * i);
    PushKept(m, push, ctxvals, size, GP_FIFO + 8 * i + 4);
    EntryRoundTrip(PushEntry(|push|));
    EmptyEntry(0);
  }

  lemma EmptyEntry(w: word)
    requires w == 0
    ensures ReadEntry(w, w) == Entry(0, 0, 0, 0, 0, 0)
  {
    assert w / 4 == 0 && w % 0x100 == 0 && w / 0x400 == 0 && w / 0x100 == 0 && w / 0x200 == 0 && w / 2 == 0;
  }

  /** What stands in the push buffer's place at word i: the ring and the runlist
      are staged after it and lie 64 KiB behind its start. */
  function StagedWord(push: seq<word>, i: nat): word
    requires Fits(push) && i < |push|
  {
    hide GpEntry;
    if i == BEFORE_RING then GpEntry(PushEntry(|push|))[0]
    else if i == BEFORE_RING + 1 then GpEntry(PushEntry(|push|))[1]
    else if BEFORE_RING < i < BEFORE_RING + FIFO_DWORDS then 0
    else if i == BEFORE_RING + FIFO_DWORDS then CHAN_ID
    else push[i]
  }

  /** Each push word before the page table loads through it. */
  lemma PushWordFound(m: Mem, push: seq<word>, ctxvals: seq<word>, size: nat, i: nat)
    requires |push| <= BEFORE_TABLE && i < |push|
    ensures Load(Staged(m, push, ctxvals, size), PUSH_BUF + 4 * i) == Some(StagedWord(push, i))
  {
    hide Staged, StagePush, StageInstance, Get, GpEntry, Walk, SecondLevel, Directory;
    var m', va := Staged(m, push, ctxvals, size), PUSH_BUF + 4 * i;
    FinalPush(m, push, ctxvals, size, i);
    FinalDirectory(m, push, ctxvals, size);
    WalkIsEntry(m', INST, va);
    assert va == PAGE * (va / PAGE) + va % PAGE;
    PageTableKept(m, push, ctxvals, size, va / PAGE);
    IdentityEntry(m', va);
  }

  lemma FinalPush(m: Mem, push: seq<word>, ctxvals: seq<word>, size: nat, i: nat)
    requires |push| <= BEFORE_TABLE && i < |push|
    ensures Get(Staged(m, push, ctxvals, size), PUSH_BUF + 4 * i) == StagedWord(push, i)
  {
    hide StagePush, StageInstance, Get, Hash, Identity, DmaObject, GrPointer, GpEntry, ObjectContext;
    var a := PUSH_BUF + 4 * i;
    FinalGet(m, push, ctxvals, size, a);
    SlotsDiffer();
    StagePushGet(StageInstance(m), push, a);
  }

  /** The GPU gets the push words as they were handed in. */
  ghost predicate Fetches(m: Mem, push: seq<word>) {
    |Fetch(m)| == |push| && forall i :: 0 <= i < |push| ==> Fetch(m)[i] == Some(push[i])
  }

  /** Following the RAMFC to the ring and the ring to the push buffer yields
      exactly the push words. */
  lemma FetchIsPush(m: Mem, push: seq<word>, ctxvals: seq<word>, size: nat)
    requires Short(push)
    ensures Fetches(Staged(m, push, ctxvals, size), push)
  {
    hide Staged, Load, FifoEntry;
    FifoFound(m, push, ctxvals, size, 0);
    forall i | 0 <= i < |push|
      ensures Load(Staged(m, push, ctxvals, size), PUSH_BUF + 4 * i) == Some(push[i])
    {
      PushWordFound(m, push, ctxvals, size, i);
    }
  }

  // ---- pushes over 64 KiB ------------------------------------------------------

  /** Where ring and runlist stand, the push says the same. */
  predicate RingAgrees(push: seq<word>)
    requires Fits(push)
  {
    forall i :: 0 <= i < |push| ==> push[i] == StagedWord(push, i)
  }

  /** Dwords from the push buffer to the entry of the first page that is not mapped. */
  const BEFORE_ENTRY := BEFORE_TABLE + 2 * (SETUP_END / PAGE)

  /** The word after the mapped pages faults as long as the push has not reached
      that page's entry. */
  lemma BeyondFaults(m: Mem, push: seq<word>, ctxvals: seq<word>, size: nat)
    requires BEFORE_TABLE < |push| <= BEFORE_ENTRY
    ensures Load(Staged(m, push, ctxvals, size), PUSH_BUF + 4 * BEFORE_TABLE) == None
  {
    hide Staged, StagePush, StageInstance, Get, GpEntry, Walk, SecondLevel, Directory, Hash, Identity, DmaObject,
         GrPointer, ObjectContext;
    var m', va := Staged(m, push, ctxvals, size), PUSH_BUF + 4 * BEFORE_TABLE;
    assert va == SETUP_END;
    FinalDirectory(m, push, ctxvals, size);
    WalkIsEntry(m', INST, va);
    BeyondCleared(m, push, ctxvals, size, PGT_ADDR + 8 * (SETUP_END / PAGE));
    EmptyFaults(m', va);
  }

  lemma BeyondCleared(m: Mem, push: seq<word>, ctxvals: seq<word>, size: nat, pte: nat)
    requires |push| <= BEFORE_ENTRY && pte == PGT_ADDR + 8 * (SETUP_END / PAGE)
    ensures Get(Staged(m, push, ctxvals, size), pte) == 0
  {
    hide Staged, StagePush, StageInstance, Get, GpEntry, Hash, Identity, DmaObject, GrPointer, ObjectContext, GmmuAt;
    FinalGet(m, push, ctxvals, size, pte);
    SlotsDiffer();
    StagePushGet(StageInstance(m), push, pte);
    StageInstanceGet(m, pte);
    ClearedAt(m, pte);
  }

  lemma ClearedAt(m: Mem, pte: nat)
    requires pte == PGT_ADDR + 8 * (SETUP_END / PAGE)
    ensures GmmuAt(m, pte) == 0
  {
  }

  lemma EmptyFaults(m: Mem, va: nat)
    requires Get(m, PGT_ADDR + 8 * (va / PAGE)) == 0
    ensures SecondLevel(m, va) == None
  {
  }

  /** Exactly when a push, of any length that does not run into the entries of
      its own pages, is fetched as it was handed in: it ends before the page
      table and agrees with what is staged over it. */
  lemma FetchedIff(m: Mem, push: seq<word>, ctxvals: seq<word>, size: nat)
    requires |push| <= BEFORE_ENTRY
    ensures Fetches(Staged(m, push, ctxvals, size), push) <==> |push| <= BEFORE_TABLE && RingAgrees(push)
  {
    hide Staged, Load, FifoEntry, StagedWord;
    var m' := Staged(m, push, ctxvals, size);
    FifoFound(m, push, ctxvals, size, 0);
    if |push| <= BEFORE_TABLE {
      forall i | 0 <= i < |push| ensures Fetch(m')[i] == Some(StagedWord(push, i)) {
        PushWordFound(m, push, ctxvals, size, i);
      }
    } else {
      BeyondFaults(m, push, ctxvals, size);
      assert Fetch(m')[BEFORE_TABLE] == None;
    }
  }

  /** An input: one word more than 64 KiB of ones is not fetched as ones. */
  lemma OnesNotFetched(m: Mem, ctxvals: seq<word>, size: nat)
    ensures !Fetches(Staged(m, Ones(BEFORE_RING + 1), ctxvals, size), Ones(BEFORE_RING + 1))
  {
    hide Staged, Fetches;
    var push := Ones(BEFORE_RING + 1);
    GpLowIs(PushEntry(|push|));
    assert push[BEFORE_RING] != StagedWord(push, BEFORE_RING);
    FetchedIff(m, push, ctxvals, size);
  }

  function Ones(n: nat): (r: seq<word>)
    ensures |r| == n && forall i :: 0 <= i < n ==> r[i] == 1
  {
    seq<word>(n, _ => 1)
  }

  /** A longer push is its own page table: it is staged after the set-up, and its
      words from BEFORE_TABLE on are the entries the fetch goes through, but for
      the range that extend_gmmu maps later. */
  lemma LongPushIsTable(m: Mem, push: seq<word>, ctxvals: seq<word>, size: nat, va: nat)
    requires Fits(push) && va < EXTRA_START && BEFORE_TABLE + 2 * (va / PAGE) + 2 <= |push|
    ensures var low, high := push[BEFORE_TABLE + 2 * (va / PAGE)], push[BEFORE_TABLE + 2 * (va / PAGE) + 1];
            Walk(Staged(m, push, ctxvals, size), INST, va) ==
            if low % 2 == 0 then None else Some(low / PAGE * PAGE + high % 0x100 * U32 + va % PAGE)
  {
    hide Staged, Get, Walk, Directory;
    var m', p := Staged(m, push, ctxvals, size), va / PAGE;
    assert va == PAGE * p + va % PAGE;
    FinalDirectory(m, push, ctxvals, size);
    WalkIsEntry(m', INST, va);
    EntryFromPush(m, push, ctxvals, size, 2 * p);
    EntryFromPush(m, push, ctxvals, size, 2 * p + 1);
  }

  lemma EntryFromPush(m: Mem, push: seq<word>, ctxvals: seq<word>, size: nat, k: nat)
    requires Fits(push) && k < 2 * (EXTRA_START / PAGE) && BEFORE_TABLE + k < |push|
    ensures Get(Staged(m, push, ctxvals, size), PGT_ADDR + 4 * k) == push[BEFORE_TABLE + k]
  {
    hide StagePush, StageInstance, Get, Hash, Identity, DmaObject, GrPointer, GpEntry, ObjectContext;
    var a := PGT_ADDR + 4 * k;
    assert a == PUSH_BUF + 4 * (BEFORE_TABLE + k);
    FinalGet(m, push, ctxvals, size, a);
    SlotsDiffer();
    StagePushGet(StageInstance(m), push, a);
  }

  // ---- objects ---------------------------------------------------------------

  lemma SlotKept(m: Mem, push: seq<word>, ctxvals: seq<word>, size: nat, handle: word)
    requires Fits(push) && (handle == VRAM_DMA_HANDLE || handle == COMPUTE_HANDLE)
    ensures var m' := Staged(m, push, ctxvals, size);
            Get(m', SlotAt(TABLE, handle)) == handle &&
            Get(m', SlotAt(TABLE, handle) + 4) == if handle == COMPUTE_HANDLE then 0x100004 else 0xd50
  {
    hide StagePush, StageInstance, Get, Hash, Identity, DmaObject, GrPointer, GpEntry, ObjectContext;
    SlotsDiffer();
    ContextValues();
    DwordsAligned(TABLE, Hash(handle));
    FinalGet(m, push, ctxvals, size, SlotAt(TABLE, handle));
    FinalGet(m, push, ctxvals, size, SlotAt(TABLE, handle) + 4);
  }

  /** Both handles are found, in engine 0 and 1. */
  lemma HandlesFound(m: Mem, push: seq<word>, ctxvals: seq<word>, size: nat)
    requires Fits(push)
    ensures var m' := Staged(m, push, ctxvals, size);
            && Lookup(m', TableBase(m'), VRAM_DMA_HANDLE) == Context(0xd50)
            && Lookup(m', TableBase(m'), COMPUTE_HANDLE) == Context(0x100004)
  {
    hide Staged, Get, Hash, TableBase;
    RamfcPointers(m, push, ctxvals, size);
    SlotKept(m, push, ctxvals, size, VRAM_DMA_HANDLE);
    SlotKept(m, push, ctxvals, size, COMPUTE_HANDLE);
  }

  /** Their contexts lead to a DMA object over all of video memory and to an
      object of the compute class. */
  lemma ObjectsFound(m: Mem, push: seq<word>, ctxvals: seq<word>, size: nat)
    requires Fits(push)
    ensures var m' := Staged(m, push, ctxvals, size);
            && ObjectAt(0xd50) == INST + DMA_OFF && Engine(0xd50) == DMA_ENGN_ID
            && ReadDma(m', INST + DMA_OFF) == DmaView(2, 0, 0xffffffffff, Direct(1, 2))
            && ObjectAt(0x100004) == GPUOBJ && Engine(0x100004) == GR_ENGN_ID
            && Get(m', GPUOBJ) == COMPUTE_CLASS
  {
    hide StagePush, StageInstance, Get, Hash, Identity, DmaObject, GrPointer, GpEntry, ObjectContext, ReadDma, Staged;
    var m' := Staged(m, push, ctxvals, size);
    SlotsDiffer();
    forall i | 0 <= i < 6
      ensures Get(m', INST + DMA_OFF + 4 * i) == DmaObject(0, 0xffffffffff, Vram, ReadWrite)[i]
    {
      FinalGet(m, push, ctxvals, size, INST + DMA_OFF + 4 * i);
    }
    DmaReadsBack(m', INST + DMA_OFF, 0, 0xffffffffff, Vram, ReadWrite);
    FinalGet(m, push, ctxvals, size, GPUOBJ);
  }

  /** The GR context pointer spans the context image, which is in place. */
  lemma ContextFound(m: Mem, push: seq<word>, ctxvals: seq<word>, size: nat)
    requires Fits(push)
    ensures var m', limit := Staged(m, push, ctxvals, size), CTXVALS + size - 1;
            && Get(m', GR_CTX) == 0x190000
            && Get(m', GR_CTX + 8) == CTXVALS && Get(m', GR_CTX + 4) == limit % U32
            && (limit < 0x100 * U32 ==> Get(m', GR_CTX + 12) == limit / U32 * 0x1000000)
            && Get(m', GR_CTX + 16) == Get(m', GR_CTX + 20) == 0
    ensures var m' := Staged(m, push, ctxvals, size);
            && (forall i :: 0 <= i < |ctxvals| ==> Get(m', CTXVALS + 4 * i) == ctxvals[i])
            && Get(m', RUNLIST) == CHAN_ID
  {
    hide StagePush, StageInstance, Get, Hash, Identity, DmaObject, GpEntry, ObjectContext, DmaHigh, Staged;
    var m' := Staged(m, push, ctxvals, size);
    SlotsDiffer();
    forall i | 0 <= i < 6 ensures Get(m', GR_CTX + 4 * i) == GrPointer(size)[i] {
      FinalGet(m, push, ctxvals, size, GR_CTX + 4 * i);
    }
    assert Get(m', GR_CTX + 4 * 0) == GrPointer(size)[0] && Get(m', GR_CTX + 4 * 1) == GrPointer(size)[1] &&
           Get(m', GR_CTX + 4 * 2) == GrPointer(size)[2] && Get(m', GR_CTX + 4 * 3) == GrPointer(size)[3] &&
           Get(m', GR_CTX + 4 * 4) == GrPointer(size)[4] && Get(m', GR_CTX + 4 * 5) == GrPointer(size)[5];
    PointerHigh(size);
    FinalGet(m, push, ctxvals, size, RUNLIST);
    forall i | 0 <= i < |ctxvals|
      ensures Get(m', CTXVALS + 4 * i) == ctxvals[i]
    {
      FinalGet(m, push, ctxvals, size, CTXVALS + 4 * i);
    }
  }

  // ---- the whole chain -------------------------------------------------------

  function Loaded(f: seq<Option<word>>): (r: seq<word>)
    requires forall i :: 0 <= i < |f| ==> f[i].Some?
    ensures |r| == |f|
  {
    seq(|f|, i requires 0 <= i < |f| => f[i].value)
  }

  /** A GPU that starts from the RAMFC in m executes these methods: the push DMA
      object, the ring and the page table lead to words that decode to them, and
      both handles they use resolve to their objects. */
  ghost predicate Executes(m: Mem, cs: seq<Call>) {
    && ReadDma(m, PushDmaAt(m)) == DmaView(2, 0, 0xffffffffff, Paged)
    && (forall i :: 0 <= i < |Fetch(m)| ==> Fetch(m)[i].Some?)
    && Decode(Loaded(Fetch(m))) == WritesOfAll(cs)
    && Lookup(m, TableBase(m), 0x85c0) == Context(0x100004)
    && Get(m, ObjectAt(0x100004)) == 0x85c0
    && Lookup(m, TableBase(m), 0xbeef0201) == Context(0xd50)
    && ReadDma(m, ObjectAt(0xd50)) == DmaView(2, 0, 0xffffffffff, Direct(1, 2))
  }

  /** At the doorbell, for any methods that encode into at most 64 KiB, any
      context image and any earlier contents of memory, the GPU finds it all. */
  lemma DoorbellFindsEverything(m: Mem, cs: seq<Call>, ctxvals: seq<word>, size: nat)
    requires forall i :: 0 <= i < |cs| ==> Encodable(cs[i])
    requires Short(EncodeAll(cs))
    ensures Executes(Staged(m, EncodeAll(cs), ctxvals, size), cs)
  {
    hide Staged, Fetch, Decode, ReadDma, Lookup, Get, EncodeAll, TableBase, PushDmaAt;
    var push := EncodeAll(cs);
    FetchIsPush(m, push, ctxvals, size);
    PushRoundTrip(cs);
    assert Loaded(Fetch(Staged(m, push, ctxvals, size))) == push;
    PushDmaFound(m, push, ctxvals, size);
    HandlesFound(m, push, ctxvals, size);
    ObjectsFound(m, push, ctxvals, size);
  }
}
