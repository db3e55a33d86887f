/** The VGA and port instructions of a script from their bytes: indexed registers are
    a byte written to the port and one read or written behind it, in the window at
    0x601000. */
module NvinitVgaOps {
  import opened Bits
  import opened Words
  import opened Wrappers
  import opened Nvinit
  import opened NvinitTraces
  import opened NvinitEvents
  import opened NvinitRun
  import opened NvinitLayout

  predicate IsIndex(port: nat) {
    port == 0x03c4 || port == 0x03ce || port == 0x03d4
  }

  /** Reading an indexed register: its value and the two accesses. Other ports are
      left alone and read as 0. */
  function Indexed(d: Device, trace: seq<Event>, port: nat, index: byte): (byte, seq<Event>) {
    if IsIndex(port) then
      (d.read8(trace + [Wr8(0x601000 + port, index)], 0x601001 + port),
       [Wr8(0x601000 + port, index), Rd8(0x601001 + port)])
    else (0, [])
  }

  function IndexWrite(port: nat, index: byte, val: nat): seq<Event> {
    if IsIndex(port) then [Wr8(0x601000 + port, index), Wr8(0x601001 + port, val % 0x100)] else []
  }

  lemma IndexedIs(d: Device, s: Sem, port: nat, index: byte)
    requires s.execute == 1
    ensures VgaRd(d, s, port, index).0 == Indexed(d, s.trace, port, index).0
    ensures VgaRd(d, s, port, index).1 == s.(trace := s.trace + Indexed(d, s.trace, port, index).1)
  {
    assert s.trace + [] == s.trace;
    assert s.trace + [Wr8(0x601000 + port, index)] + [Rd8(0x601001 + port)] ==
           s.trace + [Wr8(0x601000 + port, index), Rd8(0x601001 + port)];
  }

  lemma IndexWriteIs(s: Sem, port: nat, index: byte, val: nat)
    requires s.execute == 1
    ensures VgaWr(s, port, index, val) == s.(trace := s.trace + IndexWrite(port, index, val))
  {
    assert s.trace + [] == s.trace;
    assert s.trace + [Wr8(0x601000 + port, index)] + [Wr8(0x601001 + port, val % 0x100)] ==
           s.trace + [Wr8(0x601000 + port, index), Wr8(0x601001 + port, val % 0x100)];
  }

  /** The masked bits of a value, as a number. */
  function Picked(value: nat, mask: nat, shift: nat): nat {
    Shr(And(value, mask), shift)
  }

  lemma PickedIs(value: nat, mask: nat, shift: nat)
    ensures Picked(value, mask, shift) == And(value, mask) / Pow2(shift)
  {
    ShiftsAreMulDiv(And(value, mask), shift);
  }

  predicate CrAt(rom: Rom, p: nat, index: byte, mask: byte, data: byte) {
    Byte(rom, p, 0x52) && Byte(rom, p + 1, index) && Byte(rom, p + 2, mask) && Byte(rom, p + 3, data)
  }

  lemma CrDecodes(rom: Rom, p: nat, index: byte, mask: byte, data: byte)
    requires CrAt(rom, p, index, mask, data)
    ensures Decode(rom, p) == Leaf(Op.Cr(index, mask, data), 4)
  {
    ByteRead(rom, p, 0x52);
    ByteRead(rom, p + 1, index);
    ByteRead(rom, p + 2, mask);
    ByteRead(rom, p + 3, data);
    hide Dword, Half, Byte, ByteIn, DwordIn, ByteOf, Rows, Pairs, Triples, Elements, ConditionAt, IoConditionAt,
         IoFlagAt, MacroAt, SubTarget, RamcfgCount;
  }

  /** CR keeps the masked bits of a CRTC register and ors in its data. */
  lemma CrLeaves(rom: Rom, d: Device, s: Sem, index: byte, mask: byte, data: byte)
    requires s.execute == 1
    ensures Effect(rom, d, Op.Cr(index, mask, data), s) ==
            s.(trace := s.trace + Indexed(d, s.trace, 0x03d4, index).1 +
                   IndexWrite(0x03d4, index, Or(And(Indexed(d, s.trace, 0x03d4, index).0, mask), data)))
  {
    IndexedIs(d, s, 0x03d4, index);
    var (value, s1) := VgaRd(d, s, 0x03d4, index);
    IndexWriteIs(s1, 0x03d4, index, Or(And(value, mask), data));
    hide And, Or, VgaRd, VgaWr, Indexed, IndexWrite;
  }

  lemma CrStep(rom: Rom, d: Device, v: Vm, fuel: nat, index: byte, mask: byte, data: byte)
    requires CrAt(rom, v.offset, index, mask, data) && On(v)
    ensures Leaves(rom, d, v, fuel, 4,
                   Indexed(d, v.sem.trace, 0x03d4, index).1 +
                   IndexWrite(0x03d4, index, Or(And(Indexed(d, v.sem.trace, 0x03d4, index).0, mask), data)))
  {
    hide Effect, Decode, CrAt, Indexed, IndexWrite, And, Or;
    CrDecodes(rom, v.offset, index, mask, data);
    LeafTurns(rom, d, v, fuel, Op.Cr(index, mask, data), 4);
    CrLeaves(rom, d, v.sem, index, mask, data);
  }

  predicate ZmCrAt(rom: Rom, p: nat, index: byte, data: byte) {
    Byte(rom, p, 0x53) && Byte(rom, p + 1, index) && Byte(rom, p + 2, data)
  }

  lemma ZmCrDecodes(rom: Rom, p: nat, index: byte, data: byte)
    requires ZmCrAt(rom, p, index, data)
    ensures Decode(rom, p) == Leaf(ZmCrs([(index, data)]), 3)
  {
    ByteRead(rom, p, 0x53);
    ByteRead(rom, p + 1, index);
    ByteRead(rom, p + 2, data);
    hide Dword, Half, Byte, ByteIn, DwordIn, ByteOf, Rows, Pairs, Triples, Elements, ConditionAt, IoConditionAt,
         IoFlagAt, MacroAt, SubTarget, RamcfgCount;
  }

  lemma OnePair(s: Sem, index: byte, data: byte)
    ensures WriteCrs(s, [(index, data)]) == VgaWr(s, 0x03d4, index, data)
  {
    hide VgaWr;
    assert [(index, data)][1..] == [];
    assert WriteCrs(VgaWr(s, 0x03d4, index, data), []) == VgaWr(s, 0x03d4, index, data);
  }

  /** ZM_CR writes a CRTC register. */
  lemma ZmCrLeaves(rom: Rom, d: Device, s: Sem, index: byte, data: byte)
    requires s.execute == 1
    ensures Effect(rom, d, ZmCrs([(index, data)]), s) ==
            s.(trace := s.trace + IndexWrite(0x03d4, index, data))
  {
    OnePair(s, index, data);
    IndexWriteIs(s, 0x03d4, index, data);
    hide VgaWr, IndexWrite, WriteCrs;
  }

  lemma ZmCrStep(rom: Rom, d: Device, v: Vm, fuel: nat, index: byte, data: byte)
    requires ZmCrAt(rom, v.offset, index, data) && On(v)
    ensures Leaves(rom, d, v, fuel, 3,
                   IndexWrite(0x03d4, index, data))
  {
    hide Effect, Decode, ZmCrAt, IndexWrite;
    ZmCrDecodes(rom, v.offset, index, data);
    LeafTurns(rom, d, v, fuel, ZmCrs([(index, data)]), 3);
    ZmCrLeaves(rom, d, v.sem, index, data);
  }

  /** Index and data of each pair in turn. */
  function PairWrites(pairs: seq<(byte, byte)>): seq<Event>
    decreases |pairs|
  {
    if pairs == [] then []
    else [Wr8(0x6013d4, pairs[0].0), Wr8(0x6013d5, pairs[0].1)] + PairWrites(pairs[1..])
  }

  lemma {:induction false} PairWritesIs(pairs: seq<(byte, byte)>)
    ensures PairWrites(pairs) == CrEvents(pairs)
    decreases |pairs|
  {
    if pairs != [] {
      PairWritesIs(pairs[1..]);
    }
  }

  predicate ZmCrGroupAt(rom: Rom, p: nat, pairs: seq<(byte, byte)>) {
    Byte(rom, p, 0x54) && Byte(rom, p + 1, |pairs|) && PairsAt(rom, p + 2, pairs)
  }

  lemma ZmCrGroupDecodes(rom: Rom, p: nat, pairs: seq<(byte, byte)>)
    requires ZmCrGroupAt(rom, p, pairs)
    ensures Decode(rom, p) == Leaf(ZmCrs(pairs), 2 + 2 * |pairs|)
  {
    ByteRead(rom, p, 0x54);
    ByteRead(rom, p + 1, |pairs|);
    PairsRead(rom, p + 2, pairs);
    hide Dword, Half, Byte, ByteIn, DwordIn, ByteOf, Rows, Pairs, Triples, Elements, ConditionAt, IoConditionAt,
         IoFlagAt, MacroAt, SubTarget, RamcfgCount, PairsAt;
  }

  /** ZM_CR_GROUP writes its pairs in order. */
  lemma ZmCrGroupStep(rom: Rom, d: Device, v: Vm, fuel: nat, pairs: seq<(byte, byte)>)
    requires ZmCrGroupAt(rom, v.offset, pairs) && On(v)
    ensures Leaves(rom, d, v, fuel, 2 + 2 * |pairs|, PairWrites(pairs))
  {
    hide Effect, Decode, ZmCrGroupAt, PairWrites, CrEvents, WriteCrs;
    ZmCrGroupDecodes(rom, v.offset, pairs);
    LeafTurns(rom, d, v, fuel, ZmCrs(pairs), 2 + 2 * |pairs|);
    CrTrace(v.sem, pairs);
    PairWritesIs(pairs);
    CrsIs(rom, d, v.sem, pairs);
  }

  lemma CrsIs(rom: Rom, d: Device, s: Sem, pairs: seq<(byte, byte)>)
    ensures Effect(rom, d, ZmCrs(pairs), s) == WriteCrs(s, pairs)
  {
    hide WriteCrs;
  }

  predicate CrLatchAt(rom: Rom, p: nat, addr0: byte, addr1: byte, base: byte, bytes: seq<byte>) {
    Byte(rom, p, 0x51) && Byte(rom, p + 1, addr0) && Byte(rom, p + 2, addr1) && Byte(rom, p + 3, base) &&
    Byte(rom, p + 4, |bytes|) && Octets(rom, p + 5, bytes)
  }

  lemma CrLatchDecodes(rom: Rom, p: nat, addr0: byte, addr1: byte, base: byte, bytes: seq<byte>)
    requires CrLatchAt(rom, p, addr0, addr1, base, bytes)
    ensures Decode(rom, p) == Leaf(CrLatch(addr0, addr1, base, bytes), 5 + |bytes|)
  {
    ByteRead(rom, p, 0x51);
    ByteRead(rom, p + 1, addr0);
    ByteRead(rom, p + 2, addr1);
    ByteRead(rom, p + 3, base);
    ByteRead(rom, p + 4, |bytes|);
    OctetsRead(rom, p + 5, bytes);
    hide Dword, Half, Byte, ByteIn, DwordIn, ByteOf, Rows, Pairs, Triples, Elements, ConditionAt, IoConditionAt,
         IoFlagAt, MacroAt, SubTarget, RamcfgCount, Octets;
  }

  lemma LatchLeaves(rom: Rom, d: Device, s: Sem, addr0: byte, addr1: byte, base: byte, bytes: seq<byte>)
    requires s.execute == 1
    ensures Effect(rom, d, CrLatch(addr0, addr1, base, bytes), s) ==
            s.(trace := s.trace + Indexed(d, s.trace, 0x03d4, addr0).1 +
                        PairWrites(LatchPairs(addr0, addr1, base, bytes)) +
                        IndexWrite(0x03d4, addr0, Indexed(d, s.trace, 0x03d4, addr0).0))
  {
    IndexedIs(d, s, 0x03d4, addr0);
    var (save, s1) := VgaRd(d, s, 0x03d4, addr0);
    LatchIsPairs(s1, addr0, addr1, base, base, bytes);
    CrTrace(s1, LatchPairs(addr0, addr1, base, bytes));
    PairWritesIs(LatchPairs(addr0, addr1, base, bytes));
    var s2 := LatchAll(s1, addr0, addr1, base, bytes);
    IndexWriteIs(s2, 0x03d4, addr0, save);
    hide VgaRd, VgaWr, LatchAll, LatchPairs, PairWrites, CrEvents, Indexed, IndexWrite, WriteCrs;
  }

  /** CR_INDEX_ADDRESS_LATCHED writes its bytes under a counting index and restores the register. */
  lemma CrLatchStep(rom: Rom, d: Device, v: Vm, fuel: nat, addr0: byte, addr1: byte, base: byte, bytes: seq<byte>)
    requires CrLatchAt(rom, v.offset, addr0, addr1, base, bytes) && On(v)
    ensures Leaves(rom, d, v, fuel, 5 + |bytes|,
                   Indexed(d, v.sem.trace, 0x03d4, addr0).1 + PairWrites(LatchPairs(addr0, addr1, base, bytes)) +
                   IndexWrite(0x03d4, addr0, Indexed(d, v.sem.trace, 0x03d4, addr0).0))
  {
    hide Effect, Decode, CrLatchAt, PairWrites, LatchPairs, Indexed, IndexWrite;
    CrLatchDecodes(rom, v.offset, addr0, addr1, base, bytes);
    LeafTurns(rom, d, v, fuel, CrLatch(addr0, addr1, base, bytes), 5 + |bytes|);
    LatchLeaves(rom, d, v.sem, addr0, addr1, base, bytes);
    assert v.sem.trace + Indexed(d, v.sem.trace, 0x03d4, addr0).1 + PairWrites(LatchPairs(addr0, addr1, base, bytes)) +
           IndexWrite(0x03d4, addr0, Indexed(d, v.sem.trace, 0x03d4, addr0).0) ==
           v.sem.trace + (Indexed(d, v.sem.trace, 0x03d4, addr0).1 + PairWrites(LatchPairs(addr0, addr1, base, bytes)) +
                          IndexWrite(0x03d4, addr0, Indexed(d, v.sem.trace, 0x03d4, addr0).0));
  }

  predicate IoAt(rom: Rom, p: nat, port: half, mask: byte, data: byte) {
    Byte(rom, p, 0x69) && Half(rom, p + 1, port) && Byte(rom, p + 3, mask) && Byte(rom, p + 4, data)
  }

  lemma IoDecodes(rom: Rom, p: nat, port: half, mask: byte, data: byte)
    requires IoAt(rom, p, port, mask, data)
    ensures Decode(rom, p) == Leaf(Op.Io(port, mask, data), 5)
  {
    ByteRead(rom, p, 0x69);
    HalfRead(rom, p + 1, port);
    ByteRead(rom, p + 3, mask);
    ByteRead(rom, p + 4, data);
    hide Dword, Half, Byte, ByteIn, DwordIn, ByteOf, Rows, Pairs, Triples, Elements, ConditionAt, IoConditionAt,
         IoFlagAt, MacroAt, SubTarget, RamcfgCount;
  }

  /** IO rewrites a port, after the enable sequence if it is the enable value. */
  lemma IoStep(rom: Rom, d: Device, v: Vm, fuel: nat, port: half, mask: byte, data: byte)
    requires IoAt(rom, v.offset, port, mask, data) && On(v)
    ensures var before := if port == 0x03c3 && data == 0x01 then Play(d, v.sem.trace, VgaMasks() + VgaWrites())
                          else v.sem.trace;
            Turns(rom, d, v, fuel, 5,
                  v.sem.(trace := before +
                    [Rd8(0x601000 + port),
                     Wr8(0x601000 + port, Or(data, And(d.read8(before, 0x601000 + port), mask)) % 0x100)]))
  {
    hide Effect, Decode, IoAt, And, Or, Play, VgaMasks, VgaWrites;
    IoDecodes(rom, v.offset, port, mask, data);
    LeafTurns(rom, d, v, fuel, Op.Io(port, mask, data), 5);
    IoLeaves(rom, d, v.sem, port, mask, data);
    RemainderIs(port, 0x10000, 0, port);
    assert VGA_WINDOW == 0x601000;
  }

  predicate CopyAt(rom: Rom, p: nat, reg: word, shift: byte, srcMask: byte, port: half, index: byte, mask: byte) {
    Byte(rom, p, 0x37) && Dword(rom, p + 1, reg) && Byte(rom, p + 5, shift) && Byte(rom, p + 6, srcMask) &&
    Half(rom, p + 7, port) && Byte(rom, p + 9, index) && Byte(rom, p + 10, mask)
  }

  lemma CopyDecodes(rom: Rom, p: nat, reg: word, shift: byte, srcMask: byte, port: half, index: byte, mask: byte)
    requires CopyAt(rom, p, reg, shift, srcMask, port, index, mask)
    ensures Decode(rom, p) == Leaf(CopyVga(reg, shift, srcMask, port, index, mask), 11)
  {
    ByteRead(rom, p, 0x37);
    DwordRead(rom, p + 1, reg);
    ByteRead(rom, p + 5, shift);
    ByteRead(rom, p + 6, srcMask);
    HalfRead(rom, p + 7, port);
    ByteRead(rom, p + 9, index);
    ByteRead(rom, p + 10, mask);
    hide Dword, Half, Byte, ByteIn, DwordIn, ByteOf, Rows, Pairs, Triples, Elements, ConditionAt, IoConditionAt,
         IoFlagAt, MacroAt, SubTarget, RamcfgCount;
  }

  /** A register read behind an indexed one. */
  function Behind(d: Device, trace: seq<Event>, port: nat, index: byte, reg: word): word {
    d.read32(trace + Indexed(d, trace, port, index).1, NvReg(reg))
  }

  /** COPY moves shifted and masked bits of a register into an indexed one, keeping the masked bits of that. */
  lemma CopyLeaves(rom: Rom, d: Device, s: Sem, reg: word, shift: byte, srcMask: byte, port: half, index: byte,
                   mask: byte)
    requires s.execute == 1
    ensures Effect(rom, d, CopyVga(reg, shift, srcMask, port, index, mask), s) ==
            s.(trace := s.trace + Indexed(d, s.trace, port, index).1 + [Rd32(NvReg(reg))] +
                   IndexWrite(port, index, Or(And(Indexed(d, s.trace, port, index).0, mask),
                                              And(Shifted(Behind(d, s.trace, port, index, reg), shift), srcMask))))
  {
    IndexedIs(d, s, port, index);
    var (value, s1) := VgaRd(d, s, port, index);
    var (data, s2) := RegRd(d, s1, reg);
    ShiftByIs(data, shift);
    IndexWriteIs(s2, port, index, Or(And(value, mask), And(ShiftBy(data, shift), srcMask)));
    hide And, Or, VgaRd, VgaWr, Indexed, IndexWrite, NvReg, Shifted, ShiftBy;
  }

  lemma CopyStep(rom: Rom, d: Device, v: Vm, fuel: nat, reg: word, shift: byte, srcMask: byte, port: half,
                 index: byte, mask: byte)
    requires CopyAt(rom, v.offset, reg, shift, srcMask, port, index, mask) && On(v)
    ensures Leaves(rom, d, v, fuel, 11,
                   Indexed(d, v.sem.trace, port, index).1 + [Rd32(NvReg(reg))] +
                   IndexWrite(port, index, Or(And(Indexed(d, v.sem.trace, port, index).0, mask),
                                              And(Shifted(Behind(d, v.sem.trace, port, index, reg), shift), srcMask))))
  {
    hide Effect, Decode, CopyAt, Indexed, IndexWrite, And, Or, NvReg, Shifted;
    CopyDecodes(rom, v.offset, reg, shift, srcMask, port, index, mask);
    LeafTurns(rom, d, v, fuel, CopyVga(reg, shift, srcMask, port, index, mask), 11);
    CopyLeaves(rom, d, v.sem, reg, shift, srcMask, port, index, mask);
  }

  predicate IoRestrictProgAt(rom: Rom, p: nat, port: half, index: byte, mask: byte, shift: byte, reg: word,
                             words: seq<word>) {
    Byte(rom, p, 0x32) && Half(rom, p + 1, port) && Byte(rom, p + 3, index) && Byte(rom, p + 4, mask) &&
    Byte(rom, p + 5, shift) && Byte(rom, p + 6, |words|) && Dword(rom, p + 7, reg) && Dwords(rom, p + 11, words)
  }

  lemma IoRestrictProgDecodes(rom: Rom, p: nat, port: half, index: byte, mask: byte, shift: byte, reg: word,
                              words: seq<word>)
    requires IoRestrictProgAt(rom, p, port, index, mask, shift, reg, words)
    ensures Decode(rom, p) == Leaf(IoRestrictProg(port, index, mask, shift, reg, words), 11 + 4 * |words|)
  {
    ByteRead(rom, p, 0x32);
    HalfRead(rom, p + 1, port);
    ByteRead(rom, p + 3, index);
    ByteRead(rom, p + 4, mask);
    ByteRead(rom, p + 5, shift);
    ByteRead(rom, p + 6, |words|);
    DwordRead(rom, p + 7, reg);
    DwordsRead(rom, p + 11, words);
    hide Dword, Half, Byte, ByteIn, DwordIn, ByteOf, Rows, Pairs, Triples, Elements, ConditionAt, IoConditionAt,
         IoFlagAt, MacroAt, SubTarget, RamcfgCount, Dwords;
  }

  /** IO_RESTRICT_PROG writes the word that the indexed register selects. */
  lemma IoRestrictProgLeaves(rom: Rom, d: Device, s: Sem, port: half, index: byte, mask: byte, shift: byte, reg: word,
                             words: seq<word>, n: nat)
    requires s.execute == 1 && n == Picked(Indexed(d, s.trace, port, index).0, mask, shift)
    ensures Effect(rom, d, IoRestrictProg(port, index, mask, shift, reg, words), s) ==
            s.(trace := s.trace + Indexed(d, s.trace, port, index).1 +
                   (if n < |words| then [Wr32(NvReg(reg), words[n])] else []))
  {
    IndexedIs(d, s, port, index);
    hide And, Shr, VgaRd, Indexed, NvReg;
  }

  lemma IoRestrictProgStep(rom: Rom, d: Device, v: Vm, fuel: nat, port: half, index: byte, mask: byte, shift: byte,
                           reg: word, words: seq<word>, n: nat)
    requires IoRestrictProgAt(rom, v.offset, port, index, mask, shift, reg, words) && On(v)
    requires n == Picked(Indexed(d, v.sem.trace, port, index).0, mask, shift)
    ensures Leaves(rom, d, v, fuel, 11 + 4 * |words|,
                   Indexed(d, v.sem.trace, port, index).1 +
                   (if n < |words| then [Wr32(NvReg(reg), words[n])] else []))
  {
    hide Effect, Decode, IoRestrictProgAt, Indexed, Picked, NvReg;
    IoRestrictProgDecodes(rom, v.offset, port, index, mask, shift, reg, words);
    LeafTurns(rom, d, v, fuel, IoRestrictProg(port, index, mask, shift, reg, words), 11 + 4 * |words|);
    IoRestrictProgLeaves(rom, d, v.sem, port, index, mask, shift, reg, words, n);
  }

  // ---- the condition table of the indexed flags ------------------------------------

  /** Entry of the io-flag table: nine bytes. */
  predicate FlagEntry(rom: Rom, cond: byte, f: IoFlag) {
    var t := rom.tables.ioFlag + 9 * cond;
    rom.tables.ioFlag != 0 && f.port < 0x10000 && f.data < 0x10000 && Half(rom, t, f.port) &&
    Byte(rom, t + 2, f.index) && Byte(rom, t + 3, f.mask) && Byte(rom, t + 4, f.shift) && Half(rom, t + 5, f.data) &&
    Byte(rom, t + 7, f.dataMask) && Byte(rom, t + 8, f.val)
  }

  predicate NoFlagEntry(rom: Rom, cond: byte) {
    rom.tables.ioFlag == 0 || rom.tables.ioFlag + 9 * cond + 9 > |rom.image|
  }

  lemma FlagRead(rom: Rom, cond: byte, f: IoFlag)
    requires FlagEntry(rom, cond, f)
    ensures IoFlagAt(rom, cond) == Some(f)
  {
    var t := rom.tables.ioFlag + 9 * cond;
    HalfRead(rom, t, f.port);
    HalfRead(rom, t + 5, f.data);
    FlagBytes(rom, t, f.index, f.mask, f.shift);
    ByteRead(rom, t + 7, f.dataMask);
    ByteRead(rom, t + 8, f.val);
    hide Half, ByteIn;
  }

  lemma FlagBytes(rom: Rom, t: nat, index: nat, mask: nat, shift: nat)
    requires Byte(rom, t + 2, index) && Byte(rom, t + 3, mask) && Byte(rom, t + 4, shift)
    ensures rom.Rd08(t + 2) == index && rom.Rd08(t + 3) == mask && rom.Rd08(t + 4) == shift
  {
  }

  /** The flag an IO_RESTRICT_PLL goes by: none for 0. */
  predicate FlagFor(rom: Rom, cond: byte, flag: Option<IoFlag>) {
    if cond == 0 then flag == None
    else if flag.Some? then FlagEntry(rom, cond, flag.value) else NoFlagEntry(rom, cond)
  }

  lemma FlagForRead(rom: Rom, cond: byte, flag: Option<IoFlag>)
    requires FlagFor(rom, cond, flag)
    ensures (if cond > 0 then IoFlagAt(rom, cond) else None) == flag
  {
    hide FlagEntry;
    if cond > 0 && flag.Some? {
      FlagRead(rom, cond, flag.value);
    }
  }

  predicate IoRestrictPllAt(rom: Rom, p: nat, port: half, index: byte, mask: byte, shift: byte, cond: byte,
                            count: byte, flag: Option<IoFlag>) {
    Byte(rom, p, 0x34) && Half(rom, p + 1, port) && Byte(rom, p + 3, index) && Byte(rom, p + 4, mask) &&
    Byte(rom, p + 5, shift) && Byte(rom, p + 6, cond) && Byte(rom, p + 7, count) && FlagFor(rom, cond, flag)
  }

  lemma IoRestrictPllDecodes(rom: Rom, p: nat, port: half, index: byte, mask: byte, shift: byte, cond: byte,
                             count: byte, flag: Option<IoFlag>)
    requires IoRestrictPllAt(rom, p, port, index, mask, shift, cond, count, flag)
    ensures Decode(rom, p) == Leaf(IoRestrictPll(port, index, mask, shift, count, flag), 12 + 2 * count)
  {
    ByteRead(rom, p, 0x34);
    HalfRead(rom, p + 1, port);
    ByteRead(rom, p + 3, index);
    ByteRead(rom, p + 4, mask);
    ByteRead(rom, p + 5, shift);
    ByteRead(rom, p + 6, cond);
    ByteRead(rom, p + 7, count);
    FlagForRead(rom, cond, flag);
    hide Dword, Half, Byte, ByteIn, DwordIn, ByteOf, Rows, Pairs, Triples, Elements, ConditionAt, IoConditionAt,
         IoFlagAt, MacroAt, SubTarget, RamcfgCount, FlagFor, FlagEntry, NoFlagEntry;
  }

  /** IO_RESTRICT_PLL reads the indexed register and, if that selects a frequency, its flag; no PLL is written. */
  lemma IoRestrictPllLeaves(rom: Rom, d: Device, s: Sem, port: half, index: byte, mask: byte, shift: byte, cond: byte,
                            count: byte, flag: Option<IoFlag>)
    requires s.execute == 1
    ensures Effect(rom, d, IoRestrictPll(port, index, mask, shift, count, flag), s) ==
            s.(trace := s.trace + Indexed(d, s.trace, port, index).1 +
                   (if Picked(Indexed(d, s.trace, port, index).0, mask, shift) < count && flag.Some?
                    then Indexed(d, s.trace + Indexed(d, s.trace, port, index).1, flag.value.port,
                                 flag.value.index).1 else []))
  {
    IndexedIs(d, s, port, index);
    var s1 := VgaRd(d, s, port, index).1;
    if flag.Some? {
      IndexedIs(d, s1, flag.value.port, flag.value.index);
    }
    hide And, Shr, VgaRd, Indexed;
  }

  lemma IoRestrictPllStep(rom: Rom, d: Device, v: Vm, fuel: nat, port: half, index: byte, mask: byte, shift: byte,
                          cond: byte, count: byte, flag: Option<IoFlag>)
    requires IoRestrictPllAt(rom, v.offset, port, index, mask, shift, cond, count, flag) && On(v)
    ensures Leaves(rom, d, v, fuel, 12 + 2 * count,
                   Indexed(d, v.sem.trace, port, index).1 +
                   (if Picked(Indexed(d, v.sem.trace, port, index).0, mask, shift) < count && flag.Some?
                    then Indexed(d, v.sem.trace + Indexed(d, v.sem.trace, port, index).1, flag.value.port,
                                 flag.value.index).1 else []))
  {
    hide Effect, Decode, IoRestrictPllAt, Indexed, Picked;
    IoRestrictPllDecodes(rom, v.offset, port, index, mask, shift, cond, count, flag);
    LeafTurns(rom, d, v, fuel, IoRestrictPll(port, index, mask, shift, count, flag), 12 + 2 * count);
    IoRestrictPllLeaves(rom, d, v.sem, port, index, mask, shift, cond, count, flag);
  }

  predicate IoRestrictPll2At(rom: Rom, p: nat, port: half, index: byte, mask: byte, shift: byte, count: byte) {
    Byte(rom, p, 0x4a) && Half(rom, p + 1, port) && Byte(rom, p + 3, index) && Byte(rom, p + 4, mask) &&
    Byte(rom, p + 5, shift) && Byte(rom, p + 6, count)
  }

  lemma IoRestrictPll2Decodes(rom: Rom, p: nat, port: half, index: byte, mask: byte, shift: byte, count: byte)
    requires IoRestrictPll2At(rom, p, port, index, mask, shift, count)
    ensures Decode(rom, p) == Leaf(IoRestrictPll(port, index, mask, shift, count, None), 11 + 4 * count)
  {
    ByteRead(rom, p, 0x4a);
    HalfRead(rom, p + 1, port);
    ByteRead(rom, p + 3, index);
    ByteRead(rom, p + 4, mask);
    ByteRead(rom, p + 5, shift);
    ByteRead(rom, p + 6, count);
    hide Dword, Half, Byte, ByteIn, DwordIn, ByteOf, Rows, Pairs, Triples, Elements, ConditionAt, IoConditionAt,
         IoFlagAt, MacroAt, SubTarget, RamcfgCount;
  }

  /** IO_RESTRICT_PLL2 reads the indexed register and no more. */
  lemma IoRestrictPll2Leaves(rom: Rom, d: Device, s: Sem, port: half, index: byte, mask: byte, shift: byte,
                             count: byte)
    requires s.execute == 1
    ensures Effect(rom, d, IoRestrictPll(port, index, mask, shift, count, None), s) ==
            s.(trace := s.trace + Indexed(d, s.trace, port, index).1)
  {
    IndexedIs(d, s, port, index);
    assert s.trace + [] == s.trace;
    hide And, Shr, VgaRd, Indexed;
  }

  lemma IoRestrictPll2Step(rom: Rom, d: Device, v: Vm, fuel: nat, port: half, index: byte, mask: byte, shift: byte,
                           count: byte)
    requires IoRestrictPll2At(rom, v.offset, port, index, mask, shift, count) && On(v)
    ensures Leaves(rom, d, v, fuel, 11 + 4 * count,
                   Indexed(d, v.sem.trace, port, index).1)
  {
    hide Effect, Decode, IoRestrictPll2At, Indexed;
    IoRestrictPll2Decodes(rom, v.offset, port, index, mask, shift, count);
    LeafTurns(rom, d, v, fuel, IoRestrictPll(port, index, mask, shift, count, None), 11 + 4 * count);
    IoRestrictPll2Leaves(rom, d, v.sem, port, index, mask, shift, count);
  }
}
