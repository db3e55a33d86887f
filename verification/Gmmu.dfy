/** The two-level page table of setup_gmmu and extend_gmmu in
    examples_en210/add.py, and the walk the GPU makes through it. */
module Gmmu {
  import opened Bits
  import opened Words
  import opened Wrappers
  import opened Dwords
  import opened Pramin
  import opened DwordView

  const VRAM_BASE := 0x100000
  const PGT_ADDR := 0x130000
  const INST_PGD_OFF := 0x0200
  const PAGE := 0x1000
  /** Addresses one page directory entry covers. */
  const REACH := 0x2000_0000

  // ---- the walk --------------------------------------------------------------

  /** Physical address of a 40-bit virtual one. */
  function Walk(m: Mem, inst: nat, va: nat): Option<nat> {
    var pde := inst + INST_PGD_OFF + 8 * (va / REACH % 0x800);
    if Get(m, pde) % 4 != 3 then None
    else
      var pgt := Get(m, pde) / PAGE * PAGE + Get(m, pde + 4) % 0x100 * U32;
      var pte := pgt + 8 * (va / PAGE % 0x20000);
      if Get(m, pte) % 2 == 0 then None
      else Some(Get(m, pte) / PAGE * PAGE + Get(m, pte + 4) % 0x100 * U32 + va % PAGE)
  }

  // ---- the writers -----------------------------------------------------------

  /** Pages setup_gmmu clears, and the range it maps. */
  const CLEARED := 512
  const SETUP_START := 0x100000
  const SETUP_END := 0x130000

  function PteAddr(va: nat): nat {
    PGT_ADDR + 8 * (va / PAGE % 0x20000)
  }

  function Put64(m: Mem, at: nat, w: nat): Mem {
    m[at := w % U32][at + 4 := w / U32 % 0x100]
  }

  /** One identity entry, valid bit set. */
  function MapPage(m: Mem, va: nat): Mem {
    Put64(m, PteAddr(va), Or(va, 1))
  }

  function MapPages(m: Mem, va: nat, n: nat): Mem
    decreases n
  {
    if n == 0 then m else MapPages(MapPage(m, va), va + PAGE, n - 1)
  }

  /** Pages of range(start, end, 0x1000). */
  function PageCount(start: nat, end: nat): nat {
    if start < end then (end - start + PAGE - 1) / PAGE else 0
  }

  function SetPde(m: Mem, inst: nat): Mem {
    Put64(m, inst + INST_PGD_OFF, Or(3, PGT_ADDR))
  }

  function ExtendGmmu(m: Mem, start: nat, end: nat): Mem {
    MapPages(m, start, PageCount(start, end))
  }

  function SetupGmmu(m: Mem, inst: nat): Mem {
    ExtendGmmu(SetPde(Put(m, PGT_ADDR, Zeros(2 * CLEARED)), inst), SETUP_START, SETUP_END)
  }

  const TLB_FLUSH := 0x100c80

  /** Engines whose TLB is flushed, in order. */
  function TlbEngines(): (r: seq<nat>)
    ensures |r| == 7
  {
    [0x00, 0x01, 0x06, 0x08, 0x09, 0x0a, 0x0d]
  }

  /** What a flush writes while memory is m. */
  function Flushes(m: Mem, n: nat): seq<Rung>
    requires n <= 7
  {
    if n == 0 then []
    else Flushes(m, n - 1) + [Rung(TLB_FLUSH, 0xF, Or(TlbEngines()[n - 1] * 0x10000, 1) % U32, m)]
  }

  /** The flushes in numbers. */
  lemma FlushValues(m: Mem)
    ensures Flushes(m, 7) ==
            [ Rung(0x100c80, 0xF, 0x1, m), Rung(0x100c80, 0xF, 0x10001, m), Rung(0x100c80, 0xF, 0x60001, m),
              Rung(0x100c80, 0xF, 0x80001, m), Rung(0x100c80, 0xF, 0x90001, m), Rung(0x100c80, 0xF, 0xa0001, m),
              Rung(0x100c80, 0xF, 0xd0001, m) ]
  {
    hide Or, Pow2;
    Powers();
    forall i | 0 <= i < 7 ensures Or(TlbEngines()[i] * 0x10000, 1) == TlbEngines()[i] * 0x10000 + 1 {
      OrPut(TlbEngines()[i] * 0x10000, TlbEngines()[i], 1, 16, 0x10000);
    }
    assert Flushes(m, 0) == [];
    assert Flushes(m, 2) == [Rung(0x100c80, 0xF, 0x1, m), Rung(0x100c80, 0xF, 0x10001, m)];
    assert Flushes(m, 4) == Flushes(m, 2) + [Rung(0x100c80, 0xF, 0x60001, m), Rung(0x100c80, 0xF, 0x80001, m)];
    assert Flushes(m, 6) == Flushes(m, 4) + [Rung(0x100c80, 0xF, 0x90001, m), Rung(0x100c80, 0xF, 0xa0001, m)];
  }

  method Write64(v: Vram, at: nat, w: nat)
    requires v.Valid() && v.Reachable(at, 8)
    modifies v, v.iface.board
    ensures v.Valid() && Log(v) == old(Log(v)) && View(v) == Put64(old(View(v)), at, w)
  {
    hide ViewOf;
    WordAligned(at, 1);
    Store(v, at, w);
    Store(v, at + 4, w / U32 % 0x100);
  }

  method Flush(v: Vram)
    requires v.Valid()
    modifies v.iface.board
    ensures v.Valid() && View(v) == old(View(v)) && Log(v) == old(Log(v)) + Flushes(View(v), 7)
  {
    hide ViewOf, Log, Or;
    var i := 0;
    while i < 7
      invariant 0 <= i <= 7 && v.Valid() && View(v) == old(View(v))
      invariant Log(v) == old(Log(v)) + Flushes(View(v), i)
    {
      Ring(v, TLB_FLUSH, Or(TlbEngines()[i] * 0x10000, 1));
      i := i + 1;
    }
  }

  method Setup(v: Vram, inst: nat)
    requires v.Valid() && v.Reachable(inst, INST_PGD_OFF + 8)
    modifies v, v.iface.board
    ensures v.Valid() && View(v) == SetupGmmu(old(View(v)), inst)
    ensures Log(v) == old(Log(v)) + Flushes(View(v), 7)
  {
    hide ViewOf, Log, Or, Put64, MapPages, Flushes;
    Zero(v, PGT_ADDR, 2 * CLEARED);
    SumAligned(inst, INST_PGD_OFF);
    Write64(v, inst + INST_PGD_OFF, Or(3, PGT_ADDR));
    MapRange(v, SETUP_START, SETUP_END);
    Flush(v);
  }

  method Extend(v: Vram, start: nat, end: nat)
    requires v.Valid()
    modifies v, v.iface.board
    ensures v.Valid() && View(v) == ExtendGmmu(old(View(v)), start, end)
    ensures Log(v) == old(Log(v)) + Flushes(View(v), 7)
  {
    hide ViewOf, Log, MapPages, Flushes;
    MapRange(v, start, end);
    Flush(v);
  }

  method MapRange(v: Vram, start: nat, end: nat)
    requires v.Valid()
    modifies v, v.iface.board
    ensures v.Valid() && Log(v) == old(Log(v)) && View(v) == ExtendGmmu(old(View(v)), start, end)
  {
    hide ViewOf, Log;
    var va := start;
    ghost var left := PageCount(start, end);
    while va < end
      invariant va >= start && left == PageCount(va, end) && v.Valid() && Log(v) == old(Log(v))
      invariant MapPages(View(v), va, left) == ExtendGmmu(old(View(v)), start, end)
      decreases left
    {
      OnePageLess(va, end);
      EntryAligned(va);
      Write64(v, PteAddr(va), Or(va, 1));
      va := va + PAGE;
      left := left - 1;
    }
  }

  lemma EntryAligned(va: nat)
    ensures PteAddr(va) % 4 == 0 && PteAddr(va) + 8 <= PGT_ADDR + 0x100000
  {
    DwordsAligned(PGT_ADDR, va / PAGE % 0x20000);
  }

  lemma OnePageLess(va: nat, end: nat)
    requires va < end
    ensures PageCount(va, end) == PageCount(va + PAGE, end) + 1
  {
  }

  // ---- what each write can change --------------------------------------------

  /** Page directory in place: entry 0 names the page table, the rest are empty. */
  ghost predicate Directory(m: Mem, inst: nat) {
    && Get(m, inst + INST_PGD_OFF) == PGT_ADDR + 3 && Get(m, inst + INST_PGD_OFF + 4) == 0
    && forall i :: 1 <= i < 0x800 ==> Get(m, inst + INST_PGD_OFF + 8 * i) == 0
  }

  /** Instance blocks the staging uses lie outside the page table. */
  predicate Apart(inst: nat) {
    inst + 0x10000 <= PGT_ADDR || PGT_ADDR + 8 * 0x20000 <= inst
  }

  /** Page p as an address, and back. */
  lemma PageOf(p: nat, offset: nat)
    requires offset < PAGE
    ensures (p * PAGE + offset) / PAGE == p && (p * PAGE + offset) % PAGE == offset
  {
    RemainderIs(p * PAGE + offset, PAGE, p, offset);
  }

  lemma MapPageGet(m: Mem, p: nat, a: nat)
    requires p < 0x20000
    ensures Get(MapPage(m, p * PAGE), a) ==
            if a == PGT_ADDR + 8 * p then p * PAGE + 1 else if a == PGT_ADDR + 8 * p + 4 then 0 else Get(m, a)
  {
    hide Or, Pow2;
    Powers();
    OrPut(p * PAGE, p * 0x800, 1, 1, 2);
    PageOf(p, 0);
    RemainderIs(p, 0x20000, 0, p);
    RemainderIs(p * PAGE + 1, U32, 0, p * PAGE + 1);
  }

  /** a is a dword of the entries of the n pages from p on. */
  predicate IsPteOf(a: nat, p: nat, n: nat) {
    PGT_ADDR + 8 * p <= a < PGT_ADDR + 8 * (p + n)
  }

  /** What the entry of page (a - PGT_ADDR) / 8 holds at a when it maps itself. */
  function Identity(a: nat): nat
    requires a >= PGT_ADDR
  {
    if (a - PGT_ADDR) % 8 == 0 then (a - PGT_ADDR) / 8 * PAGE + 1 else 0
  }

  lemma IdentityAt(p: nat)
    ensures Identity(PGT_ADDR + 8 * p) == p * PAGE + 1 && Identity(PGT_ADDR + 8 * p + 4) == 0
  {
    RemainderIs(8 * p, 8, p, 0);
    RemainderIs(8 * p + 4, 8, p, 4);
  }

  lemma {:induction false} MapPagesGet(m: Mem, p: nat, n: nat, a: nat)
    requires p + n <= 0x20000 && a % 4 == 0
    ensures Get(MapPages(m, p * PAGE, n), a) == if IsPteOf(a, p, n) then Identity(a) else Get(m, a)
    decreases n
  {
    if n > 0 {
      hide MapPage, Identity, Get;
      MapPageGet(m, p, a);
      IdentityAt(p);
      MapPagesGet(MapPage(m, p * PAGE), p + 1, n - 1, a);
      assert p * PAGE + PAGE == (p + 1) * PAGE;
      if PGT_ADDR + 8 * p <= a < PGT_ADDR + 8 * p + 8 { OnlyTwoDwords(a, p); }
    }
  }

  lemma OnlyTwoDwords(a: nat, p: nat)
    requires a % 4 == 0 && PGT_ADDR + 8 * p <= a < PGT_ADDR + 8 * p + 8
    ensures a == PGT_ADDR + 8 * p || a == PGT_ADDR + 8 * p + 4
  {
    assert a == 4 * (a / 4);
  }

  // ---- what a walk finds -----------------------------------------------------

  /** The second level alone. */
  function SecondLevel(m: Mem, va: nat): Option<nat> {
    var pte := PGT_ADDR + 8 * (va / PAGE);
    if Get(m, pte) % 2 == 0 then None
    else Some(Get(m, pte) / PAGE * PAGE + Get(m, pte + 4) % 0x100 * U32 + va % PAGE)
  }

  /** With the directory in place, everything from 512 MiB up is unmapped and
      below it the page table decides. */
  lemma WalkIsEntry(m: Mem, inst: nat, va: nat)
    requires Directory(m, inst) && va < 0x800 * REACH
    ensures Walk(m, inst, va) == if va >= REACH then None else SecondLevel(m, va)
  {
    var i, r := va / REACH, va % REACH;
    assert va == REACH * i + r;
    RemainderIs(i, 0x800, 0, i);
    if va >= REACH {
      assert Get(m, inst + INST_PGD_OFF + 8 * i) == 0;
    } else {
      RemainderIs(PGT_ADDR + 3, 4, PGT_ADDR / 4, 3);
      RemainderIs(PGT_ADDR + 3, PAGE, PGT_ADDR / PAGE, 3);
      var p, o := va / PAGE, va % PAGE;
      assert va == PAGE * p + o;
      RemainderIs(p, 0x20000, 0, p);
    }
  }

  lemma IdentityEntry(m: Mem, va: nat)
    requires Get(m, PGT_ADDR + 8 * (va / PAGE)) == va / PAGE * PAGE + 1
    requires Get(m, PGT_ADDR + 8 * (va / PAGE) + 4) == 0
    ensures SecondLevel(m, va) == Some(va)
  {
    var p, o := va / PAGE, va % PAGE;
    assert va == PAGE * p + o;
    RemainderIs(p * PAGE + 1, PAGE, p, 1);
    RemainderIs(p * PAGE + 1, 2, p * 0x800, 1);
  }

  lemma {:induction false} ZeroedGet(m: Mem, at: nat, n: nat, a: nat)
    ensures Get(Put(m, at, Zeros(n)), a) == if Covers(at, n, a) then 0 else Get(m, a)
  {
    PutGet(m, at, Zeros(n), a);
  }

  predicate IsRange(r: (nat, nat)) {
    r.0 % PAGE == 0 && r.1 % PAGE == 0 && r.1 <= REACH
  }

  predicate InRange(r: (nat, nat), va: nat) {
    r.0 <= va < r.1
  }

  /** A range in pages. */
  lemma RangePages(r: (nat, nat), va: nat)
    requires IsRange(r) && r.0 < r.1
    ensures r.0 == r.0 / PAGE * PAGE
    ensures r.0 / PAGE + PageCount(r.0, r.1) == r.1 / PAGE <= 0x20000
    ensures InRange(r, va) <==> r.0 / PAGE <= va / PAGE < r.1 / PAGE
  {
    var p, q := r.0 / PAGE, r.1 / PAGE;
    assert r.0 == PAGE * p && r.1 == PAGE * q;
    RemainderIs(r.1 - r.0 + PAGE - 1, PAGE, q - p, PAGE - 1);
    assert va == PAGE * (va / PAGE) + va % PAGE;
  }

  /** m' is m with the entries of n pages from p on written as identity. */
  ghost predicate Extended(m': Mem, m: Mem, p: nat, n: nat) {
    forall a: nat :: a % 4 == 0 ==> Get(m', a) == if IsPteOf(a, p, n) then Identity(a) else Get(m, a)
  }

  /** extend_gmmu writes the entries of its own pages and nothing else. */
  lemma ExtendWrites(m: Mem, r: (nat, nat))
    requires IsRange(r)
    ensures Extended(ExtendGmmu(m, r.0, r.1), m, r.0 / PAGE, PageCount(r.0, r.1))
  {
    hide Identity, Get;
    var p, n := r.0 / PAGE, PageCount(r.0, r.1);
    if n > 0 {
      RangePages(r, r.0);
      forall a: nat | a % 4 == 0
        ensures Get(ExtendGmmu(m, r.0, r.1), a) == if IsPteOf(a, p, n) then Identity(a) else Get(m, a)
      {
        MapPagesGet(m, p, n, a);
      }
    }
  }

  lemma DwordsAligned(base: nat, i: nat)
    requires base % 4 == 0
    ensures (base + 8 * i) % 4 == 0 && (base + 8 * i + 4) % 4 == 0
  {
    RemainderIs(8 * i, 4, 2 * i, 0);
    SumAligned(base, 8 * i);
    SumAligned(base + 8 * i, 4);
  }

  lemma DirectoryKept(m: Mem, m': Mem, inst: nat, p: nat, n: nat)
    requires Directory(m, inst) && Apart(inst) && inst % 4 == 0 && p + n <= 0x20000
    requires Extended(m', m, p, n)
    ensures Directory(m', inst)
  {
    hide Get, Identity;
    SumAligned(inst, INST_PGD_OFF);
    forall i | 0 <= i < 0x800
      ensures Get(m', inst + INST_PGD_OFF + 8 * i) == Get(m, inst + INST_PGD_OFF + 8 * i)
    {
      DwordsAligned(inst + INST_PGD_OFF, i);
    }
    assert Get(m', inst + INST_PGD_OFF + 8 * 0) == Get(m, inst + INST_PGD_OFF + 8 * 0);
    DwordsAligned(inst + INST_PGD_OFF, 0);
  }

  lemma EntryOf(m: Mem, m': Mem, r: (nat, nat), va: nat)
    requires IsRange(r) && r.0 < r.1
    requires Extended(m', m, r.0 / PAGE, PageCount(r.0, r.1))
    ensures SecondLevel(m', va) == if InRange(r, va) then Some(va) else SecondLevel(m, va)
  {
    hide Identity, Get;
    var p := va / PAGE;
    RangePages(r, va);
    DwordsAligned(PGT_ADDR, p);
    IdentityAt(p);
    if InRange(r, va) { IdentityEntry(m', va); }
  }

  lemma ExtendKeeps(m: Mem, inst: nat, r: (nat, nat), va: nat)
    requires Directory(m, inst) && Apart(inst) && inst % 4 == 0 && IsRange(r)
    ensures Directory(ExtendGmmu(m, r.0, r.1), inst)
    ensures SecondLevel(ExtendGmmu(m, r.0, r.1), va) == if InRange(r, va) then Some(va) else SecondLevel(m, va)
  {
    if r.0 < r.1 {
      hide SecondLevel, Directory, Identity;
      RangePages(r, va);
      ExtendWrites(m, r);
      DirectoryKept(m, ExtendGmmu(m, r.0, r.1), inst, r.0 / PAGE, PageCount(r.0, r.1));
      EntryOf(m, ExtendGmmu(m, r.0, r.1), r, va);
    }
  }

  /** One extend_gmmu: the range now walks to itself and every other walk is as
      before. */
  lemma ExtendWalk(m: Mem, inst: nat, r: (nat, nat), va: nat)
    requires Directory(m, inst) && Apart(inst) && inst % 4 == 0 && IsRange(r) && va < 0x800 * REACH
    ensures Directory(ExtendGmmu(m, r.0, r.1), inst)
    ensures Walk(ExtendGmmu(m, r.0, r.1), inst, va) == if InRange(r, va) then Some(va) else Walk(m, inst, va)
  {
    hide SecondLevel, Walk, Directory;
    ExtendKeeps(m, inst, r, va);
    WalkIsEntry(m, inst, va);
    WalkIsEntry(ExtendGmmu(m, r.0, r.1), inst, va);
  }

  // ---- setting up ------------------------------------------------------------

  lemma PdeValue()
    ensures Or(3, PGT_ADDR) == PGT_ADDR + 3
  {
    hide Or, Pow2;
    Powers();
    OrPut(PGT_ADDR, PGT_ADDR / 4, 3, 2, 4);
  }

  /** The state before the identity entries go in. */
  function Prepared(m: Mem, inst: nat): Mem {
    SetPde(Put(m, PGT_ADDR, Zeros(2 * CLEARED)), inst)
  }

  lemma PreparedDirectory(m: Mem, inst: nat)
    requires Apart(inst) && inst % 4 == 0
    requires forall i :: 0 <= i < 0x800 ==> Get(m, inst + INST_PGD_OFF + 8 * i) == 0
    ensures Directory(Prepared(m, inst), inst)
  {
    hide Or;
    PdeValue();
    forall i | 1 <= i < 0x800
      ensures Get(Prepared(m, inst), inst + INST_PGD_OFF + 8 * i) == 0
    {
      ZeroedGet(m, PGT_ADDR, 2 * CLEARED, inst + INST_PGD_OFF + 8 * i);
    }
    RemainderIs(PGT_ADDR + 3, U32, 0, PGT_ADDR + 3);
  }

  lemma SetupRange()
    ensures IsRange((SETUP_START, SETUP_END)) && SETUP_START < SETUP_END
  {
  }

  /** setup_gmmu on a cleared directory leaves entry 0 naming the page table. */
  lemma SetupMakesDirectory(m: Mem, inst: nat)
    requires Apart(inst) && inst % 4 == 0
    requires forall i :: 0 <= i < 0x800 ==> Get(m, inst + INST_PGD_OFF + 8 * i) == 0
    ensures Directory(SetupGmmu(m, inst), inst)
  {
    hide Directory;
    PreparedDirectory(m, inst);
    SetupRange();
    ExtendKeeps(Prepared(m, inst), inst, (SETUP_START, SETUP_END), 0);
  }

  /** It maps its range and leaves the rest of what it cleared unmapped. */
  lemma SetupWalk(m: Mem, inst: nat, va: nat)
    requires Apart(inst) && inst % 4 == 0 && va < REACH
    ensures SETUP_START <= va < SETUP_END ==> SecondLevel(SetupGmmu(m, inst), va) == Some(va)
    ensures va < CLEARED * PAGE && !(SETUP_START <= va < SETUP_END) ==> SecondLevel(SetupGmmu(m, inst), va) == None
  {
    hide SecondLevel;
    SetupRange();
    ExtendWrites(Prepared(m, inst), (SETUP_START, SETUP_END));
    EntryOf(Prepared(m, inst), SetupGmmu(m, inst), (SETUP_START, SETUP_END), va);
    if va < CLEARED * PAGE { ClearedEntry(m, inst, va); }
  }

  lemma ClearedEntry(m: Mem, inst: nat, va: nat)
    requires Apart(inst) && inst % 4 == 0 && va < CLEARED * PAGE
    ensures SecondLevel(Prepared(m, inst), va) == None
  {
    hide Or;
    var p := va / PAGE;
    assert va == PAGE * p + va % PAGE;
    var pte := PGT_ADDR + 8 * p;
    ZeroedGet(m, PGT_ADDR, 2 * CLEARED, pte);
    RemainderIs(8 * p, 4, 2 * p, 0);
    assert Covers(PGT_ADDR, 2 * CLEARED, pte);
  }

  /** The entries above the 512 that setup_gmmu clears are left as they were, so
      whatever the page table held there still maps. */
  lemma SetupLeavesRest(m: Mem, inst: nat, va: nat)
    requires Apart(inst) && inst % 4 == 0 && CLEARED * PAGE <= va < REACH
    ensures SecondLevel(SetupGmmu(m, inst), va) == SecondLevel(m, va)
  {
    SetupRange();
    ExtendWrites(Prepared(m, inst), (SETUP_START, SETUP_END));
    hide SecondLevel;
    EntryOf(Prepared(m, inst), SetupGmmu(m, inst), (SETUP_START, SETUP_END), va);
    PreparedLeavesRest(m, inst, va);
  }

  lemma PreparedLeavesRest(m: Mem, inst: nat, va: nat)
    requires Apart(inst) && inst % 4 == 0 && CLEARED * PAGE <= va < REACH
    ensures SecondLevel(Prepared(m, inst), va) == SecondLevel(m, va)
  {
    hide Or, Put;
    var p := va / PAGE;
    assert va == PAGE * p + va % PAGE;
    assert CLEARED <= p < 0x20000;
    ZeroedGet(m, PGT_ADDR, 2 * CLEARED, PGT_ADDR + 8 * p);
    ZeroedGet(m, PGT_ADDR, 2 * CLEARED, PGT_ADDR + 8 * p + 4);
  }

  // ---- any sequence of calls -------------------------------------------------

  function ExtendAll(m: Mem, rs: seq<(nat, nat)>): Mem
    decreases |rs|
  {
    if rs == [] then m else ExtendAll(ExtendGmmu(m, rs[0].0, rs[0].1), rs[1..])
  }

  ghost predicate Mapped(rs: seq<(nat, nat)>, va: nat) {
    exists i :: 0 <= i < |rs| && InRange(rs[i], va)
  }

  /** After any number of extensions a walk of a mapped page is the identity and
      every other walk is what it was. */
  lemma {:induction false} ExtendAllWalk(m: Mem, inst: nat, rs: seq<(nat, nat)>, va: nat)
    requires Directory(m, inst) && Apart(inst) && inst % 4 == 0 && va < 0x800 * REACH
    requires forall i :: 0 <= i < |rs| ==> IsRange(rs[i])
    ensures Directory(ExtendAll(m, rs), inst)
    ensures Walk(ExtendAll(m, rs), inst, va) == if Mapped(rs, va) then Some(va) else Walk(m, inst, va)
    decreases |rs|
  {
    if rs != [] {
      hide Walk, Directory;
      ExtendWalk(m, inst, rs[0], va);
      ExtendAllWalk(ExtendGmmu(m, rs[0].0, rs[0].1), inst, rs[1..], va);
      if Mapped(rs, va) {
        var i :| 0 <= i < |rs| && InRange(rs[i], va);
        assert i == 0 || InRange(rs[1..][i - 1], va);
      }
      if Mapped(rs[1..], va) {
        var i :| 0 <= i < |rs[1..]| && InRange(rs[1..][i], va);
        assert InRange(rs[i + 1], va);
      }
    }
  }

  /** From a cleared instance block: set up, then extend at will. Every address
      is settled: its own if mapped, unmapped from 512 MiB up and where
      setup_gmmu cleared, and whatever the table held before everywhere else. */
  lemma GmmuIsIdentity(m: Mem, inst: nat, rs: seq<(nat, nat)>, va: nat)
    requires Apart(inst) && inst % 4 == 0 && va < 0x800 * REACH
    requires forall i :: 0 <= i < 0x800 ==> Get(m, inst + INST_PGD_OFF + 8 * i) == 0
    requires forall i :: 0 <= i < |rs| ==> IsRange(rs[i])
    ensures Walk(ExtendAll(SetupGmmu(m, inst), rs), inst, va) ==
            if Mapped(rs, va) || 0x100000 <= va < 0x130000 then Some(va)
            else if va >= 0x2000_0000 || va < 0x200000 then None
            else SecondLevel(m, va)
  {
    hide Walk, SecondLevel, Directory;
    var m1 := SetupGmmu(m, inst);
    SetupMakesDirectory(m, inst);
    ExtendAllWalk(m1, inst, rs, va);
    WalkIsEntry(m1, inst, va);
    WalkIsEntry(ExtendAll(m1, rs), inst, va);
    if va < REACH { SetupWalk(m, inst, va); }
    if CLEARED * PAGE <= va < REACH { SetupLeavesRest(m, inst, va); }
  }

  /** "Every page not mapped is unmapped" holds of an address if and only if it is
      out of the table's reach, was cleared, or its old entry was invalid. */
  lemma UnmappedIff(m: Mem, inst: nat, rs: seq<(nat, nat)>, va: nat)
    requires Apart(inst) && inst % 4 == 0 && va < 0x800 * REACH
    requires forall i :: 0 <= i < 0x800 ==> Get(m, inst + INST_PGD_OFF + 8 * i) == 0
    requires forall i :: 0 <= i < |rs| ==> IsRange(rs[i])
    requires !Mapped(rs, va) && !(0x100000 <= va < 0x130000)
    ensures Walk(ExtendAll(SetupGmmu(m, inst), rs), inst, va) == None <==>
            va >= 0x2000_0000 || va < 0x200000 || Get(m, 0x130000 + 8 * (va / 0x1000)) % 2 == 0
  {
    GmmuIsIdentity(m, inst, rs, va);
    hide Walk, SetupGmmu, ExtendAll;
  }

  /** One stale entry, for the first page setup_gmmu does not clear, is enough:
      that page then walks to physical address 0. */
  lemma StaleEntryMaps()
    ensures Walk(SetupGmmu(map[PGT_ADDR + 8 * CLEARED := 1], VRAM_BASE), VRAM_BASE, CLEARED * PAGE) == Some(0)
  {
    var m: Mem := map[PGT_ADDR + 8 * CLEARED := 1];
    assert SecondLevel(m, CLEARED * PAGE) == Some(0);
    hide Walk, SecondLevel, SetupGmmu;
    GmmuIsIdentity(m, VRAM_BASE, [], CLEARED * PAGE);
  }
}
