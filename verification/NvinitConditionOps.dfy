/** The conditions of a script from their bytes, table entries included: what is read
    to decide them, and that a false one leaves the script disabled. */
module NvinitConditionOps {
  import opened Bits
  import opened Words
  import opened Wrappers
  import opened Nvinit
  import opened NvinitTraces
  import opened NvinitRun
  import opened NvinitLayout
  import opened NvinitVgaOps

  /** Entry of the condition table: register, mask and value. */
  predicate TestEntry(rom: Rom, cond: byte, reg: word, mask: word, val: word) {
    var t := rom.tables.condition + 12 * cond;
    rom.tables.condition != 0 && Dword(rom, t, reg) && Dword(rom, t + 4, mask) && Dword(rom, t + 8, val)
  }

  predicate NoTestEntry(rom: Rom, cond: byte) {
    rom.tables.condition == 0 || rom.tables.condition + 12 * cond + 12 > |rom.image|
  }

  lemma TestRead(rom: Rom, cond: byte, reg: word, mask: word, val: word)
    requires TestEntry(rom, cond, reg, mask, val)
    ensures ConditionAt(rom, cond) == Some(Test(reg, mask, val))
  {
    var t := rom.tables.condition + 12 * cond;
    DwordRead(rom, t, reg);
    DwordRead(rom, t + 4, mask);
    DwordRead(rom, t + 8, val);
    hide DwordIn;
  }

  /** Entry of the io-condition table: five bytes. */
  predicate IoEntry(rom: Rom, cond: byte, port: half, index: byte, mask: byte, val: byte) {
    var t := rom.tables.ioCondition + 5 * cond;
    rom.tables.ioCondition != 0 && Half(rom, t, port) && Byte(rom, t + 2, index) && Byte(rom, t + 3, mask) &&
    Byte(rom, t + 4, val)
  }

  lemma IoRead(rom: Rom, cond: byte, port: half, index: byte, mask: byte, val: byte)
    requires IoEntry(rom, cond, port, index, mask, val)
    ensures IoConditionAt(rom, cond) == Some(IoTest(port, index, mask, val))
  {
    var t := rom.tables.ioCondition + 5 * cond;
    HalfRead(rom, t, port);
    FlagBytes(rom, t, index, mask, val);
    hide Half, ByteIn;
  }

  /** The flag bit up or down. */
  lemma Flagged(s: Sem)
    requires s.execute == 1
    ensures SetEnabled(s, false) == s.(execute := 3) && SetEnabled(s, true) == s
  {
  }

  lemma RegRead(d: Device, s: Sem, reg: nat)
    requires s.execute == 1
    ensures RegRd(d, s, reg) == (d.read32(s.trace, NvReg(reg)), s.(trace := s.trace + [Rd32(NvReg(reg))]))
  {
    hide NvReg;
  }

  lemma TestDecides(d: Device, s: Sem, reg: word, mask: word, val: word)
    requires s.execute == 1
    ensures DisableUnless(Met(d, s, Some(Test(reg, mask, val)))) ==
            s.(trace := s.trace + [Rd32(NvReg(reg))],
               execute := if And(d.read32(s.trace, NvReg(reg)), mask) == val then 1 else 3)
  {
    RegRead(d, s, reg);
    Flagged(s.(trace := s.trace + [Rd32(NvReg(reg))]));
    hide RegRd, SetEnabled, NvReg, And;
  }

  lemma ConditionIs(rom: Rom, d: Device, s: Sem, test: Option<Test>)
    requires s.execute == 1
    ensures Effect(rom, d, Op.Condition(test), s) == DisableUnless(Met(d, s, test))
  {
    hide Met, DisableUnless;
  }

  predicate ConditionOpAt(rom: Rom, p: nat, cond: byte) {
    Byte(rom, p, 0x75) && Byte(rom, p + 1, cond)
  }

  lemma ConditionDecodes(rom: Rom, p: nat, cond: byte)
    requires ConditionOpAt(rom, p, cond)
    ensures Decode(rom, p) == Leaf(Op.Condition(ConditionAt(rom, cond)), 2)
  {
    ByteRead(rom, p, 0x75);
    ByteRead(rom, p + 1, cond);
    hide Dword, Half, Byte, ByteIn, DwordIn, ByteOf, Rows, Pairs, Triples, Elements, ConditionAt, IoConditionAt,
         IoFlagAt, MacroAt, SubTarget, RamcfgCount;
  }

  /** CONDITION is one masked comparison. */
  lemma ConditionStep(rom: Rom, d: Device, v: Vm, fuel: nat, cond: byte, reg: word, mask: word, val: word)
    requires ConditionOpAt(rom, v.offset, cond) && On(v) && TestEntry(rom, cond, reg, mask, val)
    ensures Decides(rom, d, v, fuel, 2, [Rd32(NvReg(reg))], And(d.read32(v.sem.trace, NvReg(reg)), mask) == val)
  {
    hide Effect, Decode, ConditionOpAt, TestEntry, ConditionAt, DisableUnless, Met, NvReg, And;
    ConditionDecodes(rom, v.offset, cond);
    LeafTurns(rom, d, v, fuel, Op.Condition(ConditionAt(rom, cond)), 2);
    TestRead(rom, cond, reg, mask, val);
    TestDecides(d, v.sem, reg, mask, val);
    ConditionIs(rom, d, v.sem, Some(Test(reg, mask, val)));
  }

  /** Without its entry it is false, and nothing is read. */
  lemma NoConditionStep(rom: Rom, d: Device, v: Vm, fuel: nat, cond: byte)
    requires ConditionOpAt(rom, v.offset, cond) && On(v) && NoTestEntry(rom, cond)
    ensures Decides(rom, d, v, fuel, 2, [], false)
  {
    ConditionDecodes(rom, v.offset, cond);
    LeafTurns(rom, d, v, fuel, Op.Condition(None), 2);
    ConditionIs(rom, d, v.sem, None);
    Flagged(v.sem);
    assert v.sem.trace + [] == v.sem.trace;
    hide Effect, Decode, SetEnabled;
  }

  predicate StrapConditionAt(rom: Rom, p: nat, mask: word, val: word) {
    Byte(rom, p, 0x73) && Dword(rom, p + 1, mask) && Dword(rom, p + 5, val)
  }

  lemma StrapConditionDecodes(rom: Rom, p: nat, mask: word, val: word)
    requires StrapConditionAt(rom, p, mask, val)
    ensures Decode(rom, p) == Leaf(Op.Condition(Some(Test(0x101000, mask, val))), 9)
  {
    ByteRead(rom, p, 0x73);
    DwordRead(rom, p + 1, mask);
    DwordRead(rom, p + 5, val);
    hide Dword, Half, Byte, ByteIn, DwordIn, ByteOf, Rows, Pairs, Triples, Elements, ConditionAt, IoConditionAt,
         IoFlagAt, MacroAt, SubTarget, RamcfgCount;
  }

  /** STRAP_CONDITION compares the strap register. */
  lemma StrapConditionStep(rom: Rom, d: Device, v: Vm, fuel: nat, mask: word, val: word)
    requires StrapConditionAt(rom, v.offset, mask, val) && On(v)
    ensures Decides(rom, d, v, fuel, 9, [Rd32(0x101000)], And(d.read32(v.sem.trace, 0x101000), mask) == val)
  {
    hide Effect, Decode, StrapConditionAt, DisableUnless, Met, And;
    StrapConditionDecodes(rom, v.offset, mask, val);
    LeafTurns(rom, d, v, fuel, Op.Condition(Some(Test(0x101000, mask, val))), 9);
    assert NvReg(0x101000) == 0x101000;
    TestDecides(d, v.sem, 0x101000, mask, val);
    ConditionIs(rom, d, v.sem, Some(Test(0x101000, mask, val)));
    hide NvReg;
  }

  predicate RamConditionAt(rom: Rom, p: nat, mask: byte, val: byte) {
    Byte(rom, p, 0x6d) && Byte(rom, p + 1, mask) && Byte(rom, p + 2, val)
  }

  lemma RamConditionDecodes(rom: Rom, p: nat, mask: byte, val: byte)
    requires RamConditionAt(rom, p, mask, val)
    ensures Decode(rom, p) == Leaf(Op.Condition(Some(Test(0x100000, mask, val))), 3)
  {
    ByteRead(rom, p, 0x6d);
    ByteRead(rom, p + 1, mask);
    ByteRead(rom, p + 2, val);
    hide Dword, Half, Byte, ByteIn, DwordIn, ByteOf, Rows, Pairs, Triples, Elements, ConditionAt, IoConditionAt,
         IoFlagAt, MacroAt, SubTarget, RamcfgCount;
  }

  /** RAM_CONDITION compares the memory configuration register. */
  lemma RamConditionStep(rom: Rom, d: Device, v: Vm, fuel: nat, mask: byte, val: byte)
    requires RamConditionAt(rom, v.offset, mask, val) && On(v)
    ensures Decides(rom, d, v, fuel, 3, [Rd32(0x100000)], And(d.read32(v.sem.trace, 0x100000), mask) == val)
  {
    hide Effect, Decode, RamConditionAt, DisableUnless, Met, And;
    RamConditionDecodes(rom, v.offset, mask, val);
    LeafTurns(rom, d, v, fuel, Op.Condition(Some(Test(0x100000, mask, val))), 3);
    assert NvReg(0x100000) == 0x100000;
    TestDecides(d, v.sem, 0x100000, mask, val);
    ConditionIs(rom, d, v.sem, Some(Test(0x100000, mask, val)));
    hide NvReg;
  }

  predicate IoConditionOpAt(rom: Rom, p: nat, cond: byte) {
    Byte(rom, p, 0x76) && Byte(rom, p + 1, cond)
  }

  lemma IoConditionDecodes(rom: Rom, p: nat, cond: byte)
    requires IoConditionOpAt(rom, p, cond)
    ensures Decode(rom, p) == Leaf(Op.IoCondition(IoConditionAt(rom, cond)), 2)
  {
    ByteRead(rom, p, 0x76);
    ByteRead(rom, p + 1, cond);
    hide Dword, Half, Byte, ByteIn, DwordIn, ByteOf, Rows, Pairs, Triples, Elements, ConditionAt, IoConditionAt,
         IoFlagAt, MacroAt, SubTarget, RamcfgCount;
  }

  /** IO_CONDITION compares an indexed register. */
  lemma IoConditionStep(rom: Rom, d: Device, v: Vm, fuel: nat, cond: byte, port: half, index: byte, mask: byte,
                        val: byte)
    requires IoConditionOpAt(rom, v.offset, cond) && On(v) && IoEntry(rom, cond, port, index, mask, val)
    ensures Decides(rom, d, v, fuel, 2, Indexed(d, v.sem.trace, port, index).1,
                    And(Indexed(d, v.sem.trace, port, index).0, mask) == val)
  {
    hide Effect, Decode, IoConditionOpAt, IoEntry, IoConditionAt, And, Indexed;
    IoConditionDecodes(rom, v.offset, cond);
    LeafTurns(rom, d, v, fuel, Op.IoCondition(IoConditionAt(rom, cond)), 2);
    IoRead(rom, cond, port, index, mask, val);
    IoDecides(rom, d, v.sem, port, index, mask, val);
  }

  lemma IoDecides(rom: Rom, d: Device, s: Sem, port: nat, index: byte, mask: word, val: word)
    requires s.execute == 1
    ensures Effect(rom, d, Op.IoCondition(Some(IoTest(port, index, mask, val))), s) ==
            s.(trace := s.trace + Indexed(d, s.trace, port, index).1,
               execute := if And(Indexed(d, s.trace, port, index).0, mask) == val then 1 else 3)
  {
    IndexedIs(d, s, port, index);
    Flagged(VgaRd(d, s, port, index).1);
    hide VgaRd, Indexed, SetEnabled, And;
  }

  /** Without its entry it is false too. */
  lemma NoIoConditionStep(rom: Rom, d: Device, v: Vm, fuel: nat, cond: byte)
    requires IoConditionOpAt(rom, v.offset, cond) && On(v)
    requires rom.tables.ioCondition == 0 || rom.tables.ioCondition + 5 * cond + 5 > |rom.image|
    ensures Decides(rom, d, v, fuel, 2, [], false)
  {
    IoConditionDecodes(rom, v.offset, cond);
    LeafTurns(rom, d, v, fuel, Op.IoCondition(None), 2);
    NothingThere(rom, d, v.sem);
    assert v.sem.trace + [] == v.sem.trace;
    hide Effect, Decode;
  }

  lemma NothingThere(rom: Rom, d: Device, s: Sem)
    requires s.execute == 1
    ensures Effect(rom, d, Op.IoCondition(None), s) == Effect(rom, d, Op.IoFlagCondition(None), s) == s.(execute := 3)
  {
    Flagged(s);
    hide SetEnabled;
  }

  predicate IoFlagConditionOpAt(rom: Rom, p: nat, cond: byte) {
    Byte(rom, p, 0x39) && Byte(rom, p + 1, cond)
  }

  lemma IoFlagConditionDecodes(rom: Rom, p: nat, cond: byte)
    requires IoFlagConditionOpAt(rom, p, cond)
    ensures Decode(rom, p) == Leaf(Op.IoFlagCondition(IoFlagAt(rom, cond)), 2)
  {
    ByteRead(rom, p, 0x39);
    ByteRead(rom, p + 1, cond);
    hide Dword, Half, Byte, ByteIn, DwordIn, ByteOf, Rows, Pairs, Triples, Elements, ConditionAt, IoConditionAt,
         IoFlagAt, MacroAt, SubTarget, RamcfgCount;
  }

  /** The byte that an indexed value selects from an io flag's table; 0 past the image. */
  predicate Selects(rom: Rom, at: nat, x: nat) {
    if at < |rom.image| then Byte(rom, at, x) else x == 0
  }

  /** IO_FLAG_CONDITION compares the byte that an indexed register selects. */
  lemma IoFlagConditionStep(rom: Rom, d: Device, v: Vm, fuel: nat, cond: byte, f: IoFlag, x: byte)
    requires IoFlagConditionOpAt(rom, v.offset, cond) && On(v) && FlagEntry(rom, cond, f)
    requires Selects(rom, f.data + Picked(Indexed(d, v.sem.trace, f.port, f.index).0, f.mask, f.shift), x)
    ensures Decides(rom, d, v, fuel, 2, Indexed(d, v.sem.trace, f.port, f.index).1, And(x, f.dataMask) == f.val)
  {
    hide Effect, Decode, IoFlagConditionOpAt, FlagEntry, IoFlagAt, And, Indexed, Selects, Picked;
    IoFlagConditionDecodes(rom, v.offset, cond);
    LeafTurns(rom, d, v, fuel, Op.IoFlagCondition(IoFlagAt(rom, cond)), 2);
    FlagRead(rom, cond, f);
    FlagDecides(rom, d, v.sem, f, x);
  }

  lemma FlagDecides(rom: Rom, d: Device, s: Sem, f: IoFlag, x: byte)
    requires s.execute == 1
    requires Selects(rom, f.data + Picked(Indexed(d, s.trace, f.port, f.index).0, f.mask, f.shift), x)
    ensures Effect(rom, d, Op.IoFlagCondition(Some(f)), s) ==
            s.(trace := s.trace + Indexed(d, s.trace, f.port, f.index).1,
               execute := if And(x, f.dataMask) == f.val then 1 else 3)
  {
    IndexedIs(d, s, f.port, f.index);
    Flagged(VgaRd(d, s, f.port, f.index).1);
    hide VgaRd, Indexed, SetEnabled, And, Shr;
  }

  lemma NoIoFlagConditionStep(rom: Rom, d: Device, v: Vm, fuel: nat, cond: byte)
    requires IoFlagConditionOpAt(rom, v.offset, cond) && On(v) && NoFlagEntry(rom, cond)
    ensures Decides(rom, d, v, fuel, 2, [], false)
  {
    IoFlagConditionDecodes(rom, v.offset, cond);
    LeafTurns(rom, d, v, fuel, Op.IoFlagCondition(None), 2);
    NothingThere(rom, d, v.sem);
    assert v.sem.trace + [] == v.sem.trace;
    hide Effect, Decode;
  }

  predicate GenericConditionAt(rom: Rom, p: nat, size: byte) {
    Byte(rom, p, 0x3a) && Byte(rom, p + 2, size)
  }

  lemma GenericConditionDecodes(rom: Rom, p: nat, size: byte)
    requires GenericConditionAt(rom, p, size)
    ensures Decode(rom, p) == Leaf(Op.GenericCondition, 3 + size)
  {
    ByteRead(rom, p, 0x3a);
    ByteRead(rom, p + 2, size);
    hide Dword, Half, Byte, ByteIn, DwordIn, ByteOf, Rows, Pairs, Triples, Elements, ConditionAt, IoConditionAt,
         IoFlagAt, MacroAt, SubTarget, RamcfgCount;
  }

  /** GENERIC_CONDITION is false, and steps over what belongs to it. */
  lemma GenericConditionStep(rom: Rom, d: Device, v: Vm, fuel: nat, size: byte)
    requires GenericConditionAt(rom, v.offset, size) && On(v)
    ensures Decides(rom, d, v, fuel, 3 + size, [], false)
  {
    hide Effect, Decode, GenericConditionAt;
    GenericConditionDecodes(rom, v.offset, size);
    LeafTurns(rom, d, v, fuel, Op.GenericCondition, 3 + size);
    GenericIs(rom, d, v.sem);
    assert v.sem.trace + [] == v.sem.trace;
  }

  lemma GenericIs(rom: Rom, d: Device, s: Sem)
    requires s.execute == 1
    ensures Effect(rom, d, Op.GenericCondition, s) == s.(execute := 3)
  {
    Flagged(s);
    hide SetEnabled;
  }

  predicate ConditionTimeAt(rom: Rom, p: nat, cond: byte, retry: byte) {
    Byte(rom, p, 0x56) && Byte(rom, p + 1, cond) && Byte(rom, p + 2, retry)
  }

  lemma ConditionTimeDecodes(rom: Rom, p: nat, cond: byte, retry: byte)
    requires ConditionTimeAt(rom, p, cond, retry)
    ensures Decode(rom, p) == Leaf(Op.ConditionTime(ConditionAt(rom, cond), retry), 3)
  {
    ByteRead(rom, p, 0x56);
    ByteRead(rom, p + 1, cond);
    ByteRead(rom, p + 2, retry);
    hide Dword, Half, Byte, ByteIn, DwordIn, ByteOf, Rows, Pairs, Triples, Elements, ConditionAt, IoConditionAt,
         IoFlagAt, MacroAt, SubTarget, RamcfgCount;
  }

  /** Tries of a poll: fifty for each retry, at most a hundred. */
  function Tries(retry: byte): nat {
    if retry == 0 then 0 else if retry == 1 then 50 else 100
  }

  lemma PollDecides(rom: Rom, d: Device, s: Sem, t: Test, retry: byte) returns (n: nat, on: bool)
    requires s.execute == 1
    ensures Polled(d, s, t, retry, n, on)
    ensures Effect(rom, d, Op.ConditionTime(Some(t), retry), s) ==
            s.(trace := s.trace + Reads(NvReg(t.reg), n), execute := if on then 1 else 3)
  {
    hide Poll, SetEnabled, Hit, Reads, NvReg;
    n := PollStopsAtHit(d, s, t, Tries(retry));
    on := Poll(d, s, Some(t), Tries(retry)).0;
    Flagged(Poll(d, s, Some(t), Tries(retry)).1);
    assert Tries(retry) == if retry * 50 < 100 then retry * 50 else 100;
    assert Polled(d, s, t, retry, n, on);
    hide Tries, Polled;
    assert Effect(rom, d, Op.ConditionTime(Some(t), retry), s) == DisableUnless(Poll(d, s, Some(t), Tries(retry)));
  }

  /** n reads, the last of them the first hit, or as many as there are tries and none. */
  predicate Polled(d: Device, s: Sem, t: Test, retry: byte, n: nat, on: bool) {
    if on then 0 < n <= Tries(retry) && Hit(d, s, t, n - 1) && forall k :: 0 <= k < n - 1 ==> !Hit(d, s, t, k)
    else n == Tries(retry) && forall k :: 0 <= k < n ==> !Hit(d, s, t, k)
  }

  /** CONDITION_TIME polls until its condition holds or the tries are used up. */
  lemma ConditionTimeStep(rom: Rom, d: Device, v: Vm, fuel: nat, cond: byte, retry: byte, reg: word, mask: word,
                          val: word) returns (n: nat, on: bool)
    requires ConditionTimeAt(rom, v.offset, cond, retry) && On(v) && TestEntry(rom, cond, reg, mask, val)
    ensures Polled(d, v.sem, Test(reg, mask, val), retry, n, on)
    ensures Decides(rom, d, v, fuel, 3, Reads(NvReg(reg), n), on)
  {
    hide Effect, Decode, ConditionTimeAt, TestEntry, ConditionAt, Polled, Reads, NvReg;
    ConditionTimeDecodes(rom, v.offset, cond, retry);
    LeafTurns(rom, d, v, fuel, Op.ConditionTime(ConditionAt(rom, cond), retry), 3);
    TestRead(rom, cond, reg, mask, val);
    n, on := PollDecides(rom, d, v.sem, Test(reg, mask, val), retry);
  }

  /** Without its entry it is false, and nothing is read. */
  lemma NoConditionTimeStep(rom: Rom, d: Device, v: Vm, fuel: nat, cond: byte, retry: byte)
    requires ConditionTimeAt(rom, v.offset, cond, retry) && On(v) && NoTestEntry(rom, cond)
    ensures Decides(rom, d, v, fuel, 3, [], false)
  {
    ConditionTimeDecodes(rom, v.offset, cond, retry);
    LeafTurns(rom, d, v, fuel, Op.ConditionTime(None, retry), 3);
    assert v.sem.trace + [] == v.sem.trace;
    hide Effect, Decode;
    TimedOut(rom, d, v.sem, retry);
  }

  lemma {:induction false} NoPoll(d: Device, s: Sem, wait: nat)
    ensures Poll(d, s, None, wait) == (false, s)
    decreases wait
  {
    if wait > 0 {
      NoPoll(d, s, wait - 1);
    }
  }

  lemma TimedOut(rom: Rom, d: Device, s: Sem, retry: byte)
    requires s.execute == 1
    ensures Effect(rom, d, Op.ConditionTime(None, retry), s) == s.(execute := 3)
  {
    NoPoll(d, s, if retry * 50 < 100 then retry * 50 else 100);
    Flagged(s);
    hide SetEnabled, Poll;
  }

  // ---- the flag itself ---------------------------------------------------------------

  predicate ResumeAt(rom: Rom, p: nat) {
    Byte(rom, p, 0x72)
  }

  lemma ResumeDecodes(rom: Rom, p: nat)
    requires ResumeAt(rom, p)
    ensures Decode(rom, p) == Leaf(Op.Resume, 1)
  {
    ByteRead(rom, p, 0x72);
    hide Dword, Half, Byte, ByteIn, DwordIn, ByteOf, Rows, Pairs, Triples, Elements, ConditionAt, IoConditionAt,
         IoFlagAt, MacroAt, SubTarget, RamcfgCount;
  }

  /** RESUME enables. */
  lemma ResumeStep(rom: Rom, d: Device, v: Vm, fuel: nat)
    requires ResumeAt(rom, v.offset) && (v.sem.execute == 1 || v.sem.execute == 3)
    ensures Turns(rom, d, v, fuel, 1, v.sem.(execute := 1))
  {
    hide Effect, Decode, ResumeAt;
    ResumeDecodes(rom, v.offset);
    LeafTurns(rom, d, v, fuel, Op.Resume, 1);
    ResumeIs(rom, d, v.sem);
  }

  lemma ResumeIs(rom: Rom, d: Device, s: Sem)
    requires s.execute == 1 || s.execute == 3
    ensures Effect(rom, d, Op.Resume, s) == s.(execute := 1)
  {
  }

  predicate NotAt(rom: Rom, p: nat) {
    Byte(rom, p, 0x38)
  }

  lemma NotDecodes(rom: Rom, p: nat)
    requires NotAt(rom, p)
    ensures Decode(rom, p) == Leaf(Op.Not, 1)
  {
    ByteRead(rom, p, 0x38);
    hide Dword, Half, Byte, ByteIn, DwordIn, ByteOf, Rows, Pairs, Triples, Elements, ConditionAt, IoConditionAt,
         IoFlagAt, MacroAt, SubTarget, RamcfgCount;
  }

  /** NOT turns the flag over. */
  lemma NotStep(rom: Rom, d: Device, v: Vm, fuel: nat)
    requires NotAt(rom, v.offset) && (v.sem.execute == 1 || v.sem.execute == 3)
    ensures Turns(rom, d, v, fuel, 1, v.sem.(execute := if v.sem.execute == 1 then 3 else 1))
  {
    hide Effect, Decode, NotAt;
    NotDecodes(rom, v.offset);
    LeafTurns(rom, d, v, fuel, Op.Not, 1);
    NotIs(rom, d, v.sem);
  }

  lemma NotIs(rom: Rom, d: Device, s: Sem)
    requires s.execute == 1 || s.execute == 3
    ensures Effect(rom, d, Op.Not, s) == s.(execute := if s.execute == 1 then 3 else 1)
  {
  }
}
