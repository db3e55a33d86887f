/** The memory-strap cache of `_ramcfg_index` in examples_en210/add.py: who asks
    first, enabled or not, decides for the rest of the script, through every
    subroutine and repeat. */
module NvinitStrap {
  import opened Words
  import opened Wrappers
  import opened Nvinit
  import opened NvinitTraces
  import opened NvinitRun
  import opened NvinitInvariants
  import opened NvinitFlags

  /** The index an enabled reader with an empty cache would work out. */
  function OwnIndex(rom: Rom, d: Device, trace: seq<Event>): nat {
    match rom.forcedStrap
    case Some(strap) => StrapIndex(rom, strap % 0x10)
    case None => StrapIndex(rom, d.read32(trace, STRAP_REG) / 4 % 0x10)
  }

  /** A disabled first reader touches nothing and caches the index of strap 0,
      unless the strap is forced. */
  lemma DisabledReaderCachesZero(rom: Rom, d: Device, s: Sem)
    requires !Enabled(s) && s.strap == None && rom.forcedStrap == None
    ensures RamcfgIndex(rom, d, s) == (StrapIndex(rom, 0), s.(strap := Some(StrapIndex(rom, 0))))
  {
  }

  /** What a script does between: it meets a reader while disabled, then RESUME. */
  function AfterDisabledReader(rom: Rom, d: Device, s: Sem): Sem {
    Effect(rom, d, Resume, Effect(rom, d, RamRestrictPll, s))
  }

  /** Whatever the cache and the flag were: the next, enabled, reader gets its own
      strap's index if and only if the strap is forced, or the cache already held
      that index, or it was empty and strap 0 happens to have the same index. */
  lemma NextReaderRightIff(rom: Rom, d: Device, s: Sem)
    requires s.execute == 3
    ensures var next := AfterDisabledReader(rom, d, s);
            Enabled(next) && next.trace == s.trace &&
            (RamcfgIndex(rom, d, next).0 == OwnIndex(rom, d, next.trace) <==>
             match s.strap
             case Some(index) => index == OwnIndex(rom, d, s.trace)
             case None => rom.forcedStrap.Some? || StrapIndex(rom, 0) == OwnIndex(rom, d, s.trace))
  {
    hide StrapIndex;
    assert NvReg(STRAP_REG) == STRAP_REG;
  }

  // ---- for the rest of the script ------------------------------------------------

  predicate IsReader(op: Op) {
    op.RamRestrictPll? || op.RamRestrictGroup?
  }

  /** The index that is cached once a reader has been met in s while disabled. */
  function CachedIn(rom: Rom, s: Sem): nat {
    match s.strap
    case Some(index) => index
    case None => StrapIndex(rom, if rom.forcedStrap.Some? then rom.forcedStrap.value % 0x10 else 0)
  }

  lemma DisabledReaderCaches(rom: Rom, d: Device, op: Op, s: Sem)
    requires s.execute == 3 && IsReader(op)
    ensures Effect(rom, d, op, s) == s.(strap := Some(CachedIn(rom, s)))
  {
    hide StrapIndex;
    if op.RamRestrictGroup? {
      WriteColumnKeeps(RamcfgIndex(rom, d, s).1, op.addr, op.incr, op.rows, CachedIn(rom, s));
    }
  }

  /** The flag is settled and this index is cached. */
  function CacheIs(index: nat): Sem -> bool {
    (s: Sem) => Settled(s) && s.strap == Some(index)
  }

  /** No instruction replaces a cached index. */
  lemma NvKeepsCache(rom: Rom, d: Device, index: nat)
    ensures Keeps(Nv(rom, d), CacheIs(index))
  {
    hide Effect;
    forall op, s | CacheIs(index)(s)
      ensures CacheIs(index)(Nv(rom, d).effect(op, s))
    {
      EffectFlag(rom, d, op, s);
    }
  }

  /** So no run does, in whatever nesting it was entered. */
  lemma LoopKeepsCache(rom: Rom, d: Device, vm: Vm, fuel: nat)
    requires vm.nested >= 1 && Settled(vm.sem) && vm.sem.strap.Some?
    ensures Loop(Nv(rom, d), vm, fuel).Finished? ==> Loop(Nv(rom, d), vm, fuel).vm.sem.strap == vm.sem.strap
  {
    hide Nv;
    NvKeepsCache(rom, d, vm.sem.strap.value);
    LoopKeeps(Nv(rom, d), CacheIs(vm.sem.strap.value), vm, fuel);
  }

  /** v is about to execute a reader while disabled. */
  predicate ReadsDisabled(rom: Rom, v: Vm) {
    v.sem.execute == 3 && Decode(rom, v.offset).Leaf? && IsReader(Decode(rom, v.offset).op)
  }

  /** After a reader met while disabled, every later one of the script, wherever it
      stands, gets the index cached there. That is its own strap's if and only if
      the strap is forced, or the cache already held that index, or it was empty
      and strap 0 happens to have the same index. */
  lemma LaterReaderRightIff(rom: Rom, d: Device, vm: Vm, start: nat, fuel: nat, i: nat, j: nat)
    requires vm.nested >= 0 && i < j < |RunVisits(Nv(rom, d), vm, start, fuel)|
    requires ReadsDisabled(rom, RunVisits(Nv(rom, d), vm, start, fuel)[i])
    ensures var s, s' := RunVisits(Nv(rom, d), vm, start, fuel)[i].sem, RunVisits(Nv(rom, d), vm, start, fuel)[j].sem;
            Settled(s') && s'.strap == Some(CachedIn(rom, s)) &&
            (RamcfgIndex(rom, d, s').0 == OwnIndex(rom, d, s'.trace) <==>
             match s.strap
             case Some(index) => index == OwnIndex(rom, d, s'.trace)
             case None => rom.forcedStrap.Some? || StrapIndex(rom, 0) == OwnIndex(rom, d, s'.trace))
  {
    hide Decode, Effect, StrapIndex, RunVisits;
    var c, vs := Nv(rom, d), RunVisits(Nv(rom, d), vm, start, fuel);
    var op, index := Decode(rom, vs[i].offset).op, CachedIn(rom, vs[i].sem);
    DisabledReaderCaches(rom, d, op, vs[i].sem);
    NvKeepsCache(rom, d, index);
    RunEstablished(c, CacheIs(index), vm, start, fuel, i);
    assert CacheIs(index)(vs[j].sem);
  }

  // ---- what a later strap table writes -------------------------------------------

  predicate Wide(rows: seq<seq<word>>, n: nat) {
    forall i :: 0 <= i < |rows| ==> |rows[i]| == n
  }

  /** A strap table has as many columns as there are configurations. */
  lemma TablesAreWide(rom: Rom, p: nat)
    requires Decode(rom, p).Leaf? && Decode(rom, p).op.RamRestrictGroup?
    ensures Wide(Decode(rom, p).op.rows, RamcfgCount(rom))
  {
    hide RamcfgCount;
  }

  /** The words of a table for an index: its column, or none past the last. */
  function Chosen(rows: seq<seq<word>>, n: nat, index: nat): seq<word>
    requires Wide(rows, n)
  {
    if index < n then Column(rows, index) else []
  }

  lemma TableWrites(rom: Rom, d: Device, op: Op, s: Sem, n: nat, index: nat)
    requires op.RamRestrictGroup? && s.execute == 1 && s.strap == Some(index) && Wide(op.rows, n)
    ensures Effect(rom, d, op, s) ==
            s.(trace := s.trace + GroupEvents(op.addr, op.incr, Chosen(op.rows, n, index)))
  {
    hide GroupEvents, Column;
    if index < n {
      ColumnIsGroup(s, op.addr, op.incr, op.rows, index);
      GroupTrace(s, op.addr, op.incr, Column(op.rows, index));
    } else {
      NoSuchColumn(s, op.addr, op.incr, op.rows, index);
      NoEvents(op.addr, op.incr);
    }
  }

  lemma NoEvents(addr: nat, step: nat)
    ensures GroupEvents(addr, step, []) == []
  {
  }

  /** Every enabled strap table of the script from then on writes the words of the
      cached index. Those are its own strap's if and only if the two columns agree. */
  lemma LaterTableRightIff(rom: Rom, d: Device, vm: Vm, start: nat, fuel: nat, i: nat, j: nat)
    requires vm.nested >= 0 && i < j < |RunVisits(Nv(rom, d), vm, start, fuel)|
    requires ReadsDisabled(rom, RunVisits(Nv(rom, d), vm, start, fuel)[i])
    requires var v := RunVisits(Nv(rom, d), vm, start, fuel)[j];
             v.sem.execute == 1 && Decode(rom, v.offset).Leaf? && Decode(rom, v.offset).op.RamRestrictGroup?
    ensures var s, v := RunVisits(Nv(rom, d), vm, start, fuel)[i].sem, RunVisits(Nv(rom, d), vm, start, fuel)[j];
            var op, n := Decode(rom, v.offset).op, RamcfgCount(rom);
            Wide(op.rows, n) &&
            var got, own := Chosen(op.rows, n, CachedIn(rom, s)), Chosen(op.rows, n, OwnIndex(rom, d, v.sem.trace));
            Effect(rom, d, op, v.sem).trace == v.sem.trace + GroupEvents(op.addr, op.incr, got) &&
            (GroupEvents(op.addr, op.incr, got) == GroupEvents(op.addr, op.incr, own) <==> got == own)
  {
    hide Decode, Effect, StrapIndex, RunVisits, OwnIndex, CachedIn, Chosen, GroupEvents, RamcfgCount;
    var s, v := RunVisits(Nv(rom, d), vm, start, fuel)[i].sem, RunVisits(Nv(rom, d), vm, start, fuel)[j];
    var op, n := Decode(rom, v.offset).op, RamcfgCount(rom);
    LaterReaderRightIff(rom, d, vm, start, fuel, i, j);
    TablesAreWide(rom, v.offset);
    TableWrites(rom, d, op, v.sem, n, CachedIn(rom, s));
    SameEventsSameWords(op.addr, op.incr, Chosen(op.rows, n, CachedIn(rom, s)),
                        Chosen(op.rows, n, OwnIndex(rom, d, v.sem.trace)));
  }

  lemma SameEventsSameWords(addr: nat, step: nat, a: seq<word>, b: seq<word>)
    ensures GroupEvents(addr, step, a) == GroupEvents(addr, step, b) <==> a == b
  {
    hide NvReg, Times;
    if GroupEvents(addr, step, a) == GroupEvents(addr, step, b) {
      assert |GroupEvents(addr, step, a)| == |a| && |GroupEvents(addr, step, b)| == |b|;
      forall i | 0 <= i < |a| ensures a[i] == b[i] {
        assert GroupEvents(addr, step, a)[i] == GroupEvents(addr, step, b)[i];
      }
    }
  }
}
