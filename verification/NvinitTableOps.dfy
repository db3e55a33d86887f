/** The strap-table instructions of a script from their bytes, and the tables of the
    memory configuration behind them. */
module NvinitTableOps {
  import opened Words
  import opened Wrappers
  import opened Nvinit
  import opened NvinitTraces
  import opened NvinitRun
  import opened NvinitStrap
  import opened NvinitLayout

  // ---- the M table --------------------------------------------------------------

  /** How many memory configurations the M table has room for. */
  predicate CountAt(rom: Rom, n: nat) {
    var m := rom.tables.m;
    if m == 0 || m + 3 > |rom.image| then n == 0
    else if rom.tables.mVersion == 1 then
      if m + 5 < |rom.image| && rom.image[m + 5] >= 5 then Byte(rom, m + 2, n) else n == 0
    else if rom.tables.mVersion == 2 then
      if rom.image[m] >= 3 then Byte(rom, m, n) else n == 0
    else n == 0
  }

  lemma CountRead(rom: Rom, n: nat)
    requires CountAt(rom, n)
    ensures RamcfgCount(rom) == n
  {
  }

  /** Entry i of the M0203 table: strap and group, in a header, length and count that
      stand before it. */
  predicate GroupAt(rom: Rom, i: nat, strap: nat, group: nat) {
    var t := rom.tables.m0203;
    t + 4 <= |rom.image| &&
    var e := t + rom.image[t + 1] as int + i * rom.image[t + 2] as int;
    0 <= e && e + 2 <= |rom.image| && i < rom.image[t + 3] as int &&
    rom.image[e] as int / 0x10 == strap && rom.image[e + 1] as int % 0x10 == group
  }

  /** The table is there, in the version that has it. */
  predicate HasGroups(rom: Rom) {
    var t := rom.tables;
    t.m != 0 && t.m < |rom.image| && t.m0203 != 0 && t.m0203 + 6 <= |rom.image| && t.mVersion == 2 &&
    rom.image[t.m] >= 7 && rom.image[t.m0203] == 0x10
  }

  predicate GroupsAt(rom: Rom, entries: seq<(nat, nat)>) {
    forall j :: 0 <= j < |entries| ==> GroupAt(rom, j, entries[j].0, entries[j].1)
  }

  lemma {:induction false} GroupFrom(rom: Rom, strap: nat, entries: seq<(nat, nat)>, i: nat, k: nat)
    requires HasGroups(rom) && GroupsAt(rom, entries) && k <= i < |entries| && entries[i].0 == strap
    requires forall j :: k <= j < i ==> entries[j].0 != strap
    ensures M0203Group(rom, strap, k) == Some(entries[i].1)
    decreases i - k
  {
    assert GroupAt(rom, k, entries[k].0, entries[k].1);
    EntryRead(rom, k, entries[k].0, entries[k].1);
    hide GroupAt;
    if k < i {
      GroupFrom(rom, strap, entries, i, k + 1);
    }
  }

  lemma EntryRead(rom: Rom, i: nat, strap: nat, group: nat)
    requires GroupAt(rom, i, strap, group)
    ensures var t := rom.tables.m0203;
            var e := t + rom.Rd08(t + 1) + i * rom.Rd08(t + 2);
            0 <= e && e + 2 <= |rom.image| && i < rom.Rd08(t + 3) && rom.Rd08(e) / 0x10 == strap &&
            rom.Rd08(e + 1) % 0x10 == group
  {
  }

  /** The index for a strap is the group of the first entry that has it. */
  lemma FirstGroupCounts(rom: Rom, strap: nat, entries: seq<(nat, nat)>, i: nat)
    requires HasGroups(rom) && GroupsAt(rom, entries) && i < |entries| && entries[i].0 == strap
    requires forall j :: 0 <= j < i ==> entries[j].0 != strap
    ensures StrapIndex(rom, strap) == entries[i].1
  {
    GroupFrom(rom, strap, entries, i, 0);
  }

  /** Without that table it is the byte of the translation table, or the strap. */
  lemma NoGroups(rom: Rom, strap: nat)
    requires rom.tables.m == 0 || rom.tables.m0203 == 0 || rom.tables.mVersion != 2
    ensures StrapIndex(rom, strap) ==
            if rom.tables.m != 0 && rom.tables.mXlat != 0 && rom.tables.mXlat + strap < |rom.image|
            then rom.image[rom.tables.mXlat + strap] else strap
  {
  }

  // ---- the instructions ------------------------------------------------------------

  /** The strap an enabled reader goes by and the register read it takes: none when an
      index is cached or a strap is forced. */
  function Asked(rom: Rom, d: Device, s: Sem): (nat, seq<Event>) {
    match s.strap
    case Some(index) => (index, [])
    case None =>
      match rom.forcedStrap
      case Some(strap) => (StrapIndex(rom, strap % 0x10), [])
      case None => (StrapIndex(rom, d.read32(s.trace, 0x101000) / 4 % 0x10), [Rd32(0x101000)])
  }

  lemma AskedIs(rom: Rom, d: Device, s: Sem)
    requires s.execute == 1
    ensures RamcfgIndex(rom, d, s) ==
            (Asked(rom, d, s).0, s.(trace := s.trace + Asked(rom, d, s).1, strap := Some(Asked(rom, d, s).0)))
  {
    hide StrapIndex, NvReg;
    StrapRegIs();
    assert s.trace + [] == s.trace;
  }

  lemma StrapRegIs()
    ensures NvReg(STRAP_REG) == 0x101000
  {
  }

  /** Rows of n words each, one behind the other. */
  predicate RowsAt(rom: Rom, p: nat, rows: seq<seq<word>>, n: nat) {
    forall i :: 0 <= i < |rows| ==> |rows[i]| == n && Dwords(rom, p + 4 * n * i, rows[i])
  }

  lemma RowsRead(rom: Rom, p: nat, rows: seq<seq<word>>, n: nat)
    requires RowsAt(rom, p, rows, n)
    ensures Rows(rom, p, |rows|, n) == rows && Wide(rows, n)
  {
    hide Dwords;
    forall i | 0 <= i < |rows| ensures Rows(rom, p, |rows|, n)[i] == rows[i] {
      DwordsRead(rom, p + 4 * n * i, rows[i]);
    }
  }

  predicate RamRestrictGroupAt(rom: Rom, p: nat, addr: word, incr: byte, rows: seq<seq<word>>, n: nat) {
    Byte(rom, p, 0x8f) && Dword(rom, p + 1, addr) && Byte(rom, p + 5, incr) && Byte(rom, p + 6, |rows|) &&
    RowsAt(rom, p + 7, rows, n) && CountAt(rom, n)
  }

  lemma RamRestrictGroupDecodes(rom: Rom, p: nat, addr: word, incr: byte, rows: seq<seq<word>>, n: nat)
    requires RamRestrictGroupAt(rom, p, addr, incr, rows, n)
    ensures Decode(rom, p) == Leaf(RamRestrictGroup(addr, incr, rows), 7 + 4 * n * |rows|)
  {
    ByteRead(rom, p, 0x8f);
    DwordRead(rom, p + 1, addr);
    ByteRead(rom, p + 5, incr);
    ByteRead(rom, p + 6, |rows|);
    RowsRead(rom, p + 7, rows, n);
    CountRead(rom, n);
    hide Dword, Half, Byte, ByteIn, DwordIn, ByteOf, Rows, Pairs, Triples, Elements, ConditionAt, IoConditionAt,
         IoFlagAt, MacroAt, SubTarget, RamcfgCount, RowsAt, CountAt;
  }

  lemma RowsWide(rom: Rom, p: nat, addr: word, incr: byte, rows: seq<seq<word>>, n: nat)
    requires RamRestrictGroupAt(rom, p, addr, incr, rows, n)
    ensures Wide(rows, n)
  {
    hide Dwords;
    RowsRead(rom, p + 7, rows, n);
  }

  /** RAM_RESTRICT_ZM_REG_GROUP writes the strap's word of each row, and caches the index. */
  lemma RamRestrictGroupStep(rom: Rom, d: Device, v: Vm, fuel: nat, addr: word, incr: byte, rows: seq<seq<word>>,
                             n: nat)
    requires RamRestrictGroupAt(rom, v.offset, addr, incr, rows, n) && On(v)
    ensures Wide(rows, n)
    ensures var (index, read) := Asked(rom, d, v.sem);
            Turns(rom, d, v, fuel, 7 + 4 * n * |rows|,
                  v.sem.(trace := v.sem.trace + read + GroupEvents(addr, incr, Chosen(rows, n, index)),
                         strap := Some(index)))
  {
    hide Effect, Decode, RamRestrictGroupAt, RowsAt, Asked, GroupEvents, Chosen, Wide;
    RamRestrictGroupDecodes(rom, v.offset, addr, incr, rows, n);
    LeafTurns(rom, d, v, fuel, RamRestrictGroup(addr, incr, rows), 7 + 4 * n * |rows|);
    RowsWide(rom, v.offset, addr, incr, rows, n);
    GroupIs(rom, d, v.sem, addr, incr, rows, n);
  }

  lemma GroupIs(rom: Rom, d: Device, s: Sem, addr: nat, incr: byte, rows: seq<seq<word>>, n: nat)
    requires s.execute == 1 && Wide(rows, n)
    ensures var (index, read) := Asked(rom, d, s);
            Effect(rom, d, RamRestrictGroup(addr, incr, rows), s) ==
            s.(trace := s.trace + read + GroupEvents(addr, incr, Chosen(rows, n, index)), strap := Some(index))
  {
    AskedIs(rom, d, s);
    var (index, s') := RamcfgIndex(rom, d, s);
    TableWrites(rom, d, RamRestrictGroup(addr, incr, rows), s', n, index);
    hide Asked, RamcfgIndex, GroupEvents, Chosen, WriteColumn;
    CachedIndex(rom, d, s', index);
  }

  lemma CachedIndex(rom: Rom, d: Device, s: Sem, index: nat)
    requires s.strap == Some(index)
    ensures RamcfgIndex(rom, d, s) == (index, s)
  {
  }

  predicate RamRestrictPllAt(rom: Rom, p: nat, n: nat) {
    Byte(rom, p, 0x87) && CountAt(rom, n)
  }

  lemma RamRestrictPllDecodes(rom: Rom, p: nat, n: nat)
    requires RamRestrictPllAt(rom, p, n)
    ensures Decode(rom, p) == Leaf(RamRestrictPll, 2 + 4 * n)
  {
    ByteRead(rom, p, 0x87);
    CountRead(rom, n);
    hide Dword, Half, Byte, ByteIn, DwordIn, ByteOf, Rows, Pairs, Triples, Elements, ConditionAt, IoConditionAt,
         IoFlagAt, MacroAt, SubTarget, RamcfgCount, CountAt;
  }

  /** RAM_RESTRICT_PLL works the index out and caches it, and programs nothing. */
  lemma RamRestrictPllStep(rom: Rom, d: Device, v: Vm, fuel: nat, n: nat)
    requires RamRestrictPllAt(rom, v.offset, n) && On(v)
    ensures var (index, read) := Asked(rom, d, v.sem);
            Turns(rom, d, v, fuel, 2 + 4 * n, v.sem.(trace := v.sem.trace + read, strap := Some(index)))
  {
    hide Effect, Decode, RamRestrictPllAt, Asked, RamcfgIndex;
    RamRestrictPllDecodes(rom, v.offset, n);
    LeafTurns(rom, d, v, fuel, RamRestrictPll, 2 + 4 * n);
    AskedIs(rom, d, v.sem);
    PllIs(rom, d, v.sem);
  }

  lemma PllIs(rom: Rom, d: Device, s: Sem)
    ensures Effect(rom, d, RamRestrictPll, s) == RamcfgIndex(rom, d, s).1
  {
    hide RamcfgIndex;
  }
}
