/** The register instructions of a script, each from its bytes in the image to the
    events it leaves on an enabled device and the offset behind it. */
module NvinitRegisterOps {
  import opened Bits
  import opened Words
  import opened Nvinit
  import opened NvinitTraces
  import opened NvinitEvents
  import opened NvinitRun
  import opened NvinitLayout

  /** Read a register, keep some bits, or in a value, write it back. */
  function Rewrite(d: Device, trace: seq<Event>, reg: nat, keep: word, val: word): (r: seq<Event>)
    ensures |r| == 2
  {
    RewriteFits(d.read32(trace, reg), keep, val);
    [Rd32(reg), Wr32(reg, Or(And(d.read32(trace, reg), keep), val))]
  }

  lemma RewriteFits(x: word, keep: word, val: word)
    ensures Or(And(x, keep), val) < U32
  {
    assert Pow2(32) == U32 by { Powers(); }
    hide And, Or, Pow2;
    AndBound(x, keep);
    OrBound(And(x, keep), val, 32);
  }

  lemma MaskRewrites(d: Device, s: Sem, reg: nat, mask: word, keep: word, val: word)
    requires s.execute == 1 && keep == 0xffffffff - mask
    ensures RegMask(d, s, reg, mask, val).1 == s.(trace := s.trace + Rewrite(d, s.trace, NvReg(reg), keep, val))
  {
    hide And, Or, NvReg;
    RewriteFits(d.read32(s.trace, NvReg(reg)), keep, val);
  }

  lemma OneFits(x: word)
    ensures Or(x, 1) < U32
  {
    Powers();
    hide Or, Pow2;
    OrBound(x, 1, 32);
  }

  /** The dword an operand points at; past the image there is only 0. */
  predicate DataAt(rom: Rom, at: nat, data: word) {
    if at + 4 > |rom.image| then data == 0 else Dword(rom, at, data)
  }

  lemma DataRead(rom: Rom, at: nat, data: word)
    requires DataAt(rom, at, data)
    ensures rom.Rd32(at) == data
  {
    hide Dword;
    if at + 4 <= |rom.image| {
      DwordRead(rom, at, data);
    }
  }

  /** Entry of the macro table: a register and what goes there. */
  predicate MacroEntry(rom: Rom, index: byte, addr: word, data: word) {
    var t := rom.tables.macro;
    t != 0 && Dword(rom, t + 8 * index, addr) && Dword(rom, t + 8 * index + 4, data)
  }

  lemma MacroRead(rom: Rom, index: byte, addr: word, data: word)
    requires MacroEntry(rom, index, addr, data)
    ensures MacroAt(rom, index) == Write(addr, data)
  {
    var t := rom.tables.macro;
    DwordRead(rom, t + 8 * index, addr);
    DwordRead(rom, t + 8 * index + 4, data);
    hide DwordIn;
  }

  lemma OrNothing(x: nat)
    ensures Or(x, 0) == x
  {
  }

  lemma {:induction false} KeepAll(x: nat, k: nat)
    requires x < Pow2(k)
    ensures And(x, Pow2(k) - 1) == x
  {
    AndIsMod(x, k);
    hide And, Pow2;
    RemainderIs(x, Pow2(k), 0, x);
  }

  lemma KeepWord(x: word)
    ensures And(x, 0xffffffff) == x
  {
    assert Pow2(32) == U32 by { Powers(); }
    hide And, Pow2;
    KeepAll(x, 32);
  }

  predicate NvRegAt(rom: Rom, p: nat, addr: word, mask: word, data: word) {
    Byte(rom, p, 0x6e) && Dword(rom, p + 1, addr) && Dword(rom, p + 5, mask) && Dword(rom, p + 9, data)
  }

  lemma NvRegDecodes(rom: Rom, p: nat, addr: word, mask: word, data: word)
    requires NvRegAt(rom, p, addr, mask, data)
    ensures Decode(rom, p) == Leaf(Mask(addr, 0xffffffff - mask, data), 13)
  {
    ByteRead(rom, p, 0x6e);
    DwordRead(rom, p + 1, addr);
    DwordRead(rom, p + 5, mask);
    DwordRead(rom, p + 9, data);
    hide Dword, Half, Byte, ByteIn, DwordIn, ByteOf, Rows, Pairs, Triples, Elements, ConditionAt, IoConditionAt,
         IoFlagAt, MacroAt, SubTarget, RamcfgCount;
  }

  /** NV_REG keeps the bits of its mask and ors in its data. */
  lemma NvRegLeaves(rom: Rom, d: Device, s: Sem, addr: word, mask: word, data: word)
    requires s.execute == 1
    ensures Effect(rom, d, Mask(addr, 0xffffffff - mask, data), s) ==
            s.(trace := s.trace + Rewrite(d, s.trace, NvReg(addr), mask, data))
  {
    MaskRewrites(d, s, addr, 0xffffffff - mask, mask, data);
    hide And, Or, NvReg, Rewrite, RegMask;
  }

  lemma NvRegStep(rom: Rom, d: Device, v: Vm, fuel: nat, addr: word, mask: word, data: word)
    requires NvRegAt(rom, v.offset, addr, mask, data) && On(v)
    ensures Leaves(rom, d, v, fuel, 13,
                   Rewrite(d, v.sem.trace, NvReg(addr), mask, data))
  {
    hide Effect, Decode, NvRegAt;
    NvRegDecodes(rom, v.offset, addr, mask, data);
    LeafTurns(rom, d, v, fuel, Mask(addr, 0xffffffff - mask, data), 13);
    NvRegLeaves(rom, d, v.sem, addr, mask, data);
  }

  predicate AndnRegAt(rom: Rom, p: nat, addr: word, mask: word) {
    Byte(rom, p, 0x47) && Dword(rom, p + 1, addr) && Dword(rom, p + 5, mask)
  }

  lemma AndnRegDecodes(rom: Rom, p: nat, addr: word, mask: word)
    requires AndnRegAt(rom, p, addr, mask)
    ensures Decode(rom, p) == Leaf(Mask(addr, mask, 0), 9)
  {
    ByteRead(rom, p, 0x47);
    DwordRead(rom, p + 1, addr);
    DwordRead(rom, p + 5, mask);
    hide Dword, Half, Byte, ByteIn, DwordIn, ByteOf, Rows, Pairs, Triples, Elements, ConditionAt, IoConditionAt,
         IoFlagAt, MacroAt, SubTarget, RamcfgCount;
  }

  /** ANDN_REG clears the bits of its mask. */
  lemma AndnRegLeaves(rom: Rom, d: Device, s: Sem, addr: word, mask: word)
    requires s.execute == 1
    ensures And(d.read32(s.trace, NvReg(addr)), 0xffffffff - mask) < U32
    ensures Effect(rom, d, Mask(addr, mask, 0), s) ==
            s.(trace := s.trace + [Rd32(NvReg(addr)),
                                   Wr32(NvReg(addr), And(d.read32(s.trace, NvReg(addr)), 0xffffffff - mask))])
  {
    MaskRewrites(d, s, addr, mask, 0xffffffff - mask, 0);
    RewriteFits(d.read32(s.trace, NvReg(addr)), 0xffffffff - mask, 0);
    OrNothing(And(d.read32(s.trace, NvReg(addr)), 0xffffffff - mask));
    hide And, Or, NvReg, RegMask;
  }

  lemma AndnRegStep(rom: Rom, d: Device, v: Vm, fuel: nat, addr: word, mask: word)
    requires AndnRegAt(rom, v.offset, addr, mask) && On(v)
    ensures And(d.read32(v.sem.trace, NvReg(addr)), 0xffffffff - mask) < U32
    ensures Leaves(rom, d, v, fuel, 9,
                   [Rd32(NvReg(addr)), Wr32(NvReg(addr), And(d.read32(v.sem.trace, NvReg(addr)), 0xffffffff - mask))])
  {
    hide Effect, Decode, AndnRegAt;
    AndnRegDecodes(rom, v.offset, addr, mask);
    LeafTurns(rom, d, v, fuel, Mask(addr, mask, 0), 9);
    AndnRegLeaves(rom, d, v.sem, addr, mask);
  }

  predicate OrRegAt(rom: Rom, p: nat, addr: word, mask: word) {
    Byte(rom, p, 0x48) && Dword(rom, p + 1, addr) && Dword(rom, p + 5, mask)
  }

  lemma OrRegDecodes(rom: Rom, p: nat, addr: word, mask: word)
    requires OrRegAt(rom, p, addr, mask)
    ensures Decode(rom, p) == Leaf(Mask(addr, 0, mask), 9)
  {
    ByteRead(rom, p, 0x48);
    DwordRead(rom, p + 1, addr);
    DwordRead(rom, p + 5, mask);
    hide Dword, Half, Byte, ByteIn, DwordIn, ByteOf, Rows, Pairs, Triples, Elements, ConditionAt, IoConditionAt,
         IoFlagAt, MacroAt, SubTarget, RamcfgCount;
  }

  /** OR_REG ors in its mask. */
  lemma OrRegLeaves(rom: Rom, d: Device, s: Sem, addr: word, mask: word)
    requires s.execute == 1
    ensures Or(d.read32(s.trace, NvReg(addr)), mask) < U32
    ensures Effect(rom, d, Mask(addr, 0, mask), s) ==
            s.(trace := s.trace + [Rd32(NvReg(addr)), Wr32(NvReg(addr), Or(d.read32(s.trace, NvReg(addr)), mask))])
  {
    MaskRewrites(d, s, addr, 0, 0xffffffff, mask);
    RewriteFits(d.read32(s.trace, NvReg(addr)), 0xffffffff, mask);
    KeepWord(d.read32(s.trace, NvReg(addr)));
    hide And, Or, NvReg, RegMask;
  }

  lemma OrRegStep(rom: Rom, d: Device, v: Vm, fuel: nat, addr: word, mask: word)
    requires OrRegAt(rom, v.offset, addr, mask) && On(v)
    ensures Or(d.read32(v.sem.trace, NvReg(addr)), mask) < U32
    ensures Leaves(rom, d, v, fuel, 9,
                   [Rd32(NvReg(addr)), Wr32(NvReg(addr), Or(d.read32(v.sem.trace, NvReg(addr)), mask))])
  {
    hide Effect, Decode, OrRegAt;
    OrRegDecodes(rom, v.offset, addr, mask);
    LeafTurns(rom, d, v, fuel, Mask(addr, 0, mask), 9);
    OrRegLeaves(rom, d, v.sem, addr, mask);
  }

  predicate ZmRegAt(rom: Rom, p: nat, addr: word, data: word) {
    Byte(rom, p, 0x7a) && Dword(rom, p + 1, addr) && Dword(rom, p + 5, data)
  }

  lemma ZmRegDecodes(rom: Rom, p: nat, addr: word, data: word)
    requires ZmRegAt(rom, p, addr, data)
    ensures Decode(rom, p) == Leaf(ZmReg(addr, data), 9)
  {
    ByteRead(rom, p, 0x7a);
    DwordRead(rom, p + 1, addr);
    DwordRead(rom, p + 5, data);
    hide Dword, Half, Byte, ByteIn, DwordIn, ByteOf, Rows, Pairs, Triples, Elements, ConditionAt, IoConditionAt,
         IoFlagAt, MacroAt, SubTarget, RamcfgCount;
  }

  /** ZM_REG writes its data, with bit 0 up when it goes to the master enable register. */
  lemma ZmRegLeaves(rom: Rom, d: Device, s: Sem, addr: word, data: word)
    requires s.execute == 1
    ensures Or(data, 1) < U32
    ensures Effect(rom, d, ZmReg(addr, data), s) ==
            s.(trace := s.trace + [Wr32(NvReg(addr), if addr == 0x200 then Or(data, 1) else data)])
  {
    OneFits(data);
    hide And, Or, NvReg;
  }

  lemma ZmRegStep(rom: Rom, d: Device, v: Vm, fuel: nat, addr: word, data: word)
    requires ZmRegAt(rom, v.offset, addr, data) && On(v)
    ensures Or(data, 1) < U32
    ensures Leaves(rom, d, v, fuel, 9,
                   [Wr32(NvReg(addr), if addr == 0x200 then Or(data, 1) else data)])
  {
    hide Effect, Decode, ZmRegAt;
    ZmRegDecodes(rom, v.offset, addr, data);
    LeafTurns(rom, d, v, fuel, ZmReg(addr, data), 9);
    ZmRegLeaves(rom, d, v.sem, addr, data);
  }

  /** A plain write. */
  lemma WriteLeaves(rom: Rom, d: Device, s: Sem, addr: word, data: word)
    requires s.execute == 1
    ensures Effect(rom, d, Write(addr, data), s) == s.(trace := s.trace + [Wr32(NvReg(addr), data)])
  {
    hide And, Or, NvReg;
  }

  predicate ZmReg16At(rom: Rom, p: nat, addr: word, data: half) {
    Byte(rom, p, 0x77) && Dword(rom, p + 1, addr) && Half(rom, p + 5, data)
  }

  lemma ZmReg16Decodes(rom: Rom, p: nat, addr: word, data: half)
    requires ZmReg16At(rom, p, addr, data)
    ensures Decode(rom, p) == Leaf(Write(addr, data), 7)
  {
    ByteRead(rom, p, 0x77);
    DwordRead(rom, p + 1, addr);
    HalfRead(rom, p + 5, data);
    hide Dword, Half, Byte, ByteIn, DwordIn, ByteOf, Rows, Pairs, Triples, Elements, ConditionAt, IoConditionAt,
         IoFlagAt, MacroAt, SubTarget, RamcfgCount;
  }

  /** ZM_REG16 writes its sixteen bits. */
  lemma ZmReg16Step(rom: Rom, d: Device, v: Vm, fuel: nat, addr: word, data: half)
    requires ZmReg16At(rom, v.offset, addr, data) && On(v)
    ensures Leaves(rom, d, v, fuel, 7,
                   [Wr32(NvReg(addr), data)])
  {
    hide Effect, Decode, ZmReg16At;
    ZmReg16Decodes(rom, v.offset, addr, data);
    LeafTurns(rom, d, v, fuel, Write(addr, data), 7);
    WriteLeaves(rom, d, v.sem, addr, data);
  }

  predicate ZmRegIndirectAt(rom: Rom, p: nat, addr: word, at: half) {
    Byte(rom, p, 0x5a) && Dword(rom, p + 1, addr) && Half(rom, p + 5, at)
  }

  lemma ZmRegIndirectDecodes(rom: Rom, p: nat, addr: word, at: half)
    requires ZmRegIndirectAt(rom, p, addr, at)
    ensures Decode(rom, p) == Leaf(Write(addr, rom.Rd32(at)), 7)
  {
    ByteRead(rom, p, 0x5a);
    DwordRead(rom, p + 1, addr);
    HalfRead(rom, p + 5, at);
    hide Dword, Half, Byte, ByteIn, DwordIn, ByteOf, Rows, Pairs, Triples, Elements, ConditionAt, IoConditionAt,
         IoFlagAt, MacroAt, SubTarget, RamcfgCount;
  }

  /** ZM_REG_INDIRECT writes the dword that stands where it says, or 0 past the image. */
  lemma ZmRegIndirectLeaves(rom: Rom, d: Device, s: Sem, addr: word, at: half, data: word)
    requires s.execute == 1 && DataAt(rom, at, data)
    ensures Effect(rom, d, Write(addr, rom.Rd32(at)), s) ==
            s.(trace := s.trace + [Wr32(NvReg(addr), data)])
  {
    hide Effect, DataAt;
    DataRead(rom, at, data);
    WriteLeaves(rom, d, s, addr, data);
  }

  lemma ZmRegIndirectStep(rom: Rom, d: Device, v: Vm, fuel: nat, addr: word, at: half, data: word)
    requires ZmRegIndirectAt(rom, v.offset, addr, at) && On(v) && DataAt(rom, at, data)
    ensures Leaves(rom, d, v, fuel, 7,
                   [Wr32(NvReg(addr), data)])
  {
    hide Effect, Decode, ZmRegIndirectAt;
    ZmRegIndirectDecodes(rom, v.offset, addr, at);
    LeafTurns(rom, d, v, fuel, Write(addr, rom.Rd32(at)), 7);
    ZmRegIndirectLeaves(rom, d, v.sem, addr, at, data);
  }

  predicate ZmRegGroupAt(rom: Rom, p: nat, addr: word, words: seq<word>) {
    Byte(rom, p, 0x91) && Dword(rom, p + 1, addr) && Byte(rom, p + 5, |words|) && Dwords(rom, p + 6, words)
  }

  lemma ZmRegGroupDecodes(rom: Rom, p: nat, addr: word, words: seq<word>)
    requires ZmRegGroupAt(rom, p, addr, words)
    ensures Decode(rom, p) == Leaf(WriteGroup(addr, words), 6 + 4 * |words|)
  {
    ByteRead(rom, p, 0x91);
    DwordRead(rom, p + 1, addr);
    ByteRead(rom, p + 5, |words|);
    DwordsRead(rom, p + 6, words);
    hide Dword, Half, Byte, ByteIn, DwordIn, ByteOf, Rows, Pairs, Triples, Elements, ConditionAt, IoConditionAt,
         IoFlagAt, MacroAt, SubTarget, RamcfgCount, Dwords;
  }

  /** ZM_REG_GROUP writes its words, one after the other, to one register. */
  lemma ZmRegGroupLeaves(rom: Rom, d: Device, s: Sem, addr: word, words: seq<word>)
    requires s.execute == 1
    ensures Effect(rom, d, WriteGroup(addr, words), s) ==
            s.(trace := s.trace + GroupEvents(addr, 0, words))
  {
    GroupTrace(s, addr, 0, words);
    hide WriteAll, GroupEvents, NvReg;
  }

  lemma ZmRegGroupStep(rom: Rom, d: Device, v: Vm, fuel: nat, addr: word, words: seq<word>)
    requires ZmRegGroupAt(rom, v.offset, addr, words) && On(v)
    ensures Leaves(rom, d, v, fuel, 6 + 4 * |words|,
                   GroupEvents(addr, 0, words))
  {
    hide Effect, Decode, ZmRegGroupAt;
    ZmRegGroupDecodes(rom, v.offset, addr, words);
    LeafTurns(rom, d, v, fuel, WriteGroup(addr, words), 6 + 4 * |words|);
    ZmRegGroupLeaves(rom, d, v.sem, addr, words);
  }

  predicate ZmRegSequenceAt(rom: Rom, p: nat, addr: word, words: seq<word>) {
    Byte(rom, p, 0x58) && Dword(rom, p + 1, addr) && Byte(rom, p + 5, |words|) && Dwords(rom, p + 6, words)
  }

  lemma ZmRegSequenceDecodes(rom: Rom, p: nat, addr: word, words: seq<word>)
    requires ZmRegSequenceAt(rom, p, addr, words)
    ensures Decode(rom, p) == Leaf(WriteSequence(addr, words), 6 + 4 * |words|)
  {
    ByteRead(rom, p, 0x58);
    DwordRead(rom, p + 1, addr);
    ByteRead(rom, p + 5, |words|);
    DwordsRead(rom, p + 6, words);
    hide Dword, Half, Byte, ByteIn, DwordIn, ByteOf, Rows, Pairs, Triples, Elements, ConditionAt, IoConditionAt,
         IoFlagAt, MacroAt, SubTarget, RamcfgCount, Dwords;
  }

  /** ZM_REG_SEQUENCE writes them to registers four bytes apart. */
  lemma ZmRegSequenceLeaves(rom: Rom, d: Device, s: Sem, addr: word, words: seq<word>)
    requires s.execute == 1
    ensures Effect(rom, d, WriteSequence(addr, words), s) ==
            s.(trace := s.trace + GroupEvents(addr, 4, words))
  {
    GroupTrace(s, addr, 4, words);
    hide WriteAll, GroupEvents, NvReg;
  }

  lemma ZmRegSequenceStep(rom: Rom, d: Device, v: Vm, fuel: nat, addr: word, words: seq<word>)
    requires ZmRegSequenceAt(rom, v.offset, addr, words) && On(v)
    ensures Leaves(rom, d, v, fuel, 6 + 4 * |words|,
                   GroupEvents(addr, 4, words))
  {
    hide Effect, Decode, ZmRegSequenceAt;
    ZmRegSequenceDecodes(rom, v.offset, addr, words);
    LeafTurns(rom, d, v, fuel, WriteSequence(addr, words), 6 + 4 * |words|);
    ZmRegSequenceLeaves(rom, d, v.sem, addr, words);
  }

  predicate ZmMaskAddAt(rom: Rom, p: nat, addr: word, mask: word, add: word) {
    Byte(rom, p, 0x97) && Dword(rom, p + 1, addr) && Dword(rom, p + 5, mask) && Dword(rom, p + 9, add)
  }

  lemma ZmMaskAddDecodes(rom: Rom, p: nat, addr: word, mask: word, add: word)
    requires ZmMaskAddAt(rom, p, addr, mask, add)
    ensures Decode(rom, p) == Leaf(MaskAdd(addr, mask, add), 13)
  {
    ByteRead(rom, p, 0x97);
    DwordRead(rom, p + 1, addr);
    DwordRead(rom, p + 5, mask);
    DwordRead(rom, p + 9, add);
    hide Dword, Half, Byte, ByteIn, DwordIn, ByteOf, Rows, Pairs, Triples, Elements, ConditionAt, IoConditionAt,
         IoFlagAt, MacroAt, SubTarget, RamcfgCount;
  }

  /** ZM_MASK_ADD keeps the bits of its mask and takes the others from the sum. */
  lemma ZmMaskAddLeaves(rom: Rom, d: Device, s: Sem, addr: word, mask: word, add: word)
    requires s.execute == 1
    ensures Effect(rom, d, MaskAdd(addr, mask, add), s) ==
            s.(trace := s.trace + [Rd32(NvReg(addr)),
                    Wr32(NvReg(addr), Or(And(d.read32(s.trace, NvReg(addr)), mask),
                                         And((d.read32(s.trace, NvReg(addr)) + add) % U32, 0xffffffff - mask)) % U32)])
  {
    hide And, Or, NvReg;
  }

  lemma ZmMaskAddStep(rom: Rom, d: Device, v: Vm, fuel: nat, addr: word, mask: word, add: word)
    requires ZmMaskAddAt(rom, v.offset, addr, mask, add) && On(v)
    ensures Leaves(rom, d, v, fuel, 13,
                   [Rd32(NvReg(addr)),
                    Wr32(NvReg(addr), Or(And(d.read32(v.sem.trace, NvReg(addr)), mask),
                                         And((d.read32(v.sem.trace, NvReg(addr)) + add) % U32,
                                             0xffffffff - mask)) % U32)])
  {
    hide Effect, Decode, ZmMaskAddAt;
    ZmMaskAddDecodes(rom, v.offset, addr, mask, add);
    LeafTurns(rom, d, v, fuel, MaskAdd(addr, mask, add), 13);
    ZmMaskAddLeaves(rom, d, v.sem, addr, mask, add);
  }

  predicate CopyZmRegAt(rom: Rom, p: nat, src: word, dst: word) {
    Byte(rom, p, 0x90) && Dword(rom, p + 1, src) && Dword(rom, p + 5, dst)
  }

  lemma CopyZmRegDecodes(rom: Rom, p: nat, src: word, dst: word)
    requires CopyZmRegAt(rom, p, src, dst)
    ensures Decode(rom, p) == Leaf(CopyReg(src, dst), 9)
  {
    ByteRead(rom, p, 0x90);
    DwordRead(rom, p + 1, src);
    DwordRead(rom, p + 5, dst);
    hide Dword, Half, Byte, ByteIn, DwordIn, ByteOf, Rows, Pairs, Triples, Elements, ConditionAt, IoConditionAt,
         IoFlagAt, MacroAt, SubTarget, RamcfgCount;
  }

  /** COPY_ZM_REG reads one register and writes it to another. */
  lemma CopyZmRegLeaves(rom: Rom, d: Device, s: Sem, src: word, dst: word)
    requires s.execute == 1
    ensures Effect(rom, d, CopyReg(src, dst), s) ==
            s.(trace := s.trace + [Rd32(NvReg(src)), Wr32(NvReg(dst), d.read32(s.trace, NvReg(src)))])
  {
    hide And, Or, NvReg;
  }

  lemma CopyZmRegStep(rom: Rom, d: Device, v: Vm, fuel: nat, src: word, dst: word)
    requires CopyZmRegAt(rom, v.offset, src, dst) && On(v)
    ensures Leaves(rom, d, v, fuel, 9,
                   [Rd32(NvReg(src)), Wr32(NvReg(dst), d.read32(v.sem.trace, NvReg(src)))])
  {
    hide Effect, Decode, CopyZmRegAt;
    CopyZmRegDecodes(rom, v.offset, src, dst);
    LeafTurns(rom, d, v, fuel, CopyReg(src, dst), 9);
    CopyZmRegLeaves(rom, d, v.sem, src, dst);
  }

  predicate CopyNvRegAt(rom: Rom, p: nat, src: word, shift: byte, srcMask: word, srcXor: word, dst: word,
                        dstMask: word) {
    Byte(rom, p, 0x5f) && Dword(rom, p + 1, src) && Byte(rom, p + 5, shift) && Dword(rom, p + 6, srcMask) &&
    Dword(rom, p + 10, srcXor) && Dword(rom, p + 14, dst) && Dword(rom, p + 18, dstMask)
  }

  lemma CopyNvRegDecodes(rom: Rom, p: nat, src: word, shift: byte, srcMask: word, srcXor: word, dst: word,
                         dstMask: word)
    requires CopyNvRegAt(rom, p, src, shift, srcMask, srcXor, dst, dstMask)
    ensures Decode(rom, p) == Leaf(CopyNvReg(src, shift, srcMask, srcXor, dst, dstMask), 22)
  {
    ByteRead(rom, p, 0x5f);
    DwordRead(rom, p + 1, src);
    ByteRead(rom, p + 5, shift);
    DwordRead(rom, p + 6, srcMask);
    DwordRead(rom, p + 10, srcXor);
    DwordRead(rom, p + 14, dst);
    DwordRead(rom, p + 18, dstMask);
    hide Dword, Half, Byte, ByteIn, DwordIn, ByteOf, Rows, Pairs, Triples, Elements, ConditionAt, IoConditionAt,
         IoFlagAt, MacroAt, SubTarget, RamcfgCount;
  }

  /** COPY_NV_REG moves shifted, masked and inverted bits into another register. */
  lemma CopyNvRegStep(rom: Rom, d: Device, v: Vm, fuel: nat, src: word, shift: byte, srcMask: word, srcXor: word,
                      dst: word, dstMask: word)
    requires CopyNvRegAt(rom, v.offset, src, shift, srcMask, srcXor, dst, dstMask) && On(v)
    ensures Leaves(rom, d, v, fuel, 22,
                   CopyEvents(d, v.sem.trace, src, dst, dstMask,
                              Xor(And(Shifted(d.read32(v.sem.trace, NvReg(src)), shift), srcMask), srcXor)))
  {
    hide Effect, Decode, CopyNvRegAt, And, Xor, NvReg, Shifted, CopyEvents;
    CopyNvRegDecodes(rom, v.offset, src, shift, srcMask, srcXor, dst, dstMask);
    LeafTurns(rom, d, v, fuel, CopyNvReg(src, shift, srcMask, srcXor, dst, dstMask), 22);
    CopyNvRegLeaves(rom, d, v.sem, src, shift, srcMask, srcXor, dst, dstMask);
  }

  predicate MacroOpAt(rom: Rom, p: nat, index: byte) {
    Byte(rom, p, 0x6f) && Byte(rom, p + 1, index)
  }

  lemma MacroOpDecodes(rom: Rom, p: nat, index: byte)
    requires MacroOpAt(rom, p, index)
    ensures Decode(rom, p) == Leaf(MacroAt(rom, index), 2)
  {
    ByteRead(rom, p, 0x6f);
    ByteRead(rom, p + 1, index);
    hide Dword, Half, Byte, ByteIn, DwordIn, ByteOf, Rows, Pairs, Triples, Elements, ConditionAt, IoConditionAt,
         IoFlagAt, MacroAt, SubTarget, RamcfgCount;
  }

  /** MACRO writes the register and value of its table entry. */
  lemma MacroOpLeaves(rom: Rom, d: Device, s: Sem, index: byte, addr: word, data: word)
    requires s.execute == 1 && MacroEntry(rom, index, addr, data)
    ensures Effect(rom, d, MacroAt(rom, index), s) ==
            s.(trace := s.trace + [Wr32(NvReg(addr), data)])
  {
    hide Effect, MacroEntry, MacroAt;
    MacroRead(rom, index, addr, data);
    WriteLeaves(rom, d, s, addr, data);
  }

  lemma MacroOpStep(rom: Rom, d: Device, v: Vm, fuel: nat, index: byte, addr: word, data: word)
    requires MacroOpAt(rom, v.offset, index) && On(v) && MacroEntry(rom, index, addr, data)
    ensures Leaves(rom, d, v, fuel, 2,
                   [Wr32(NvReg(addr), data)])
  {
    hide Effect, Decode, MacroOpAt;
    MacroOpDecodes(rom, v.offset, index);
    LeafTurns(rom, d, v, fuel, MacroAt(rom, index), 2);
    MacroOpLeaves(rom, d, v.sem, index, addr, data);
  }

  /** A macro that is not in the table is passed over. */
  lemma NoMacroStep(rom: Rom, d: Device, v: Vm, fuel: nat, index: byte)
    requires MacroOpAt(rom, v.offset, index)
    requires rom.tables.macro == 0 || rom.tables.macro + 8 * index + 8 > |rom.image|
    ensures Leaves(rom, d, v, fuel, 2, [])
  {
    hide Decode;
    MacroOpDecodes(rom, v.offset, index);
    LeafTurns(rom, d, v, fuel, Skip, 2);
  }

  predicate ResetAt(rom: Rom, p: nat, reg: word, data1: word, data2: word) {
    Byte(rom, p, 0x65) && Dword(rom, p + 1, reg) && Dword(rom, p + 5, data1) && Dword(rom, p + 9, data2)
  }

  lemma ResetDecodes(rom: Rom, p: nat, reg: word, data1: word, data2: word)
    requires ResetAt(rom, p, reg, data1, data2)
    ensures Decode(rom, p) == Leaf(Op.Reset(reg, data1, data2), 13)
  {
    ByteRead(rom, p, 0x65);
    DwordRead(rom, p + 1, reg);
    DwordRead(rom, p + 5, data1);
    DwordRead(rom, p + 9, data2);
    hide Dword, Half, Byte, ByteIn, DwordIn, ByteOf, Rows, Pairs, Triples, Elements, ConditionAt, IoConditionAt,
         IoFlagAt, MacroAt, SubTarget, RamcfgCount;
  }

  /** RESET leaves its five steps whatever the flag says. */
  lemma ResetStep(rom: Rom, d: Device, v: Vm, fuel: nat, reg: word, data1: word, data2: word)
    requires ResetAt(rom, v.offset, reg, data1, data2) && (v.sem.execute == 1 || v.sem.execute == 3)
    ensures Turns(rom, d, v, fuel, 13,
                  v.sem.(trace := Play(d, v.sem.trace,
                    [Masked(0x00184c, 0x00000f00, 0), Plain(NvReg(reg), data1), Plain(NvReg(reg), data2),
                     Plain(0x00184c, d.read32(v.sem.trace, 0x00184c)), Masked(0x001850, 0x00000001, 0)])))
  {
    hide Effect, Decode, ResetAt, ResetEngine, Play, NvReg;
    ResetDecodes(rom, v.offset, reg, data1, data2);
    LeafTurns(rom, d, v, fuel, Op.Reset(reg, data1, data2), 13);
    ResetLeaves(d, v.sem, reg, data1, data2);
    ResetIs(rom, d, v.sem, reg, data1, data2);
  }

  lemma ResetIs(rom: Rom, d: Device, s: Sem, reg: nat, data1: word, data2: word)
    ensures Effect(rom, d, Op.Reset(reg, data1, data2), s) == ResetEngine(d, s, reg, data1, data2)
  {
    hide ResetEngine;
  }

  /** What the translation table makes of a key: the byte its pointer leads to, or the
      key itself without table, pointer or byte. */
  predicate Translated(rom: Rom, table: byte, key: nat, value: nat) {
    var t := rom.tables.xlat + 2 * table;
    if rom.tables.xlat == 0 || t + 2 > |rom.image| then value == key
    else
      var at := rom.image[t] as int + 0x100 * rom.image[t + 1] as int;
      if at != 0 && at + key < |rom.image| then Byte(rom, at + key, value) else value == key
  }

  lemma TranslatedRead(rom: Rom, table: byte, key: nat, value: nat)
    requires Translated(rom, table, key, value)
    ensures XlatValue(rom, table, key) == value
  {
  }

  predicate XlatAt(rom: Rom, p: nat, src: word, shift: byte, srcMask: byte, table: byte, dst: word, dstMask: word,
                   dstShift: byte) {
    Byte(rom, p, 0x96) && Dword(rom, p + 1, src) && Byte(rom, p + 5, shift) && Byte(rom, p + 6, srcMask) &&
    Byte(rom, p + 7, table) && Dword(rom, p + 8, dst) && Dword(rom, p + 12, dstMask) && Byte(rom, p + 16, dstShift)
  }

  lemma XlatDecodes(rom: Rom, p: nat, src: word, shift: byte, srcMask: byte, table: byte, dst: word, dstMask: word,
                    dstShift: byte)
    requires XlatAt(rom, p, src, shift, srcMask, table, dst, dstMask, dstShift)
    ensures Decode(rom, p) == Leaf(Op.Xlat(src, shift, srcMask, table, dst, dstMask, dstShift), 17)
  {
    ByteRead(rom, p, 0x96);
    DwordRead(rom, p + 1, src);
    ByteRead(rom, p + 5, shift);
    ByteRead(rom, p + 6, srcMask);
    ByteRead(rom, p + 7, table);
    DwordRead(rom, p + 8, dst);
    DwordRead(rom, p + 12, dstMask);
    ByteRead(rom, p + 16, dstShift);
    hide Dword, Half, Byte, ByteIn, DwordIn, ByteOf, Rows, Pairs, Triples, Elements, ConditionAt, IoConditionAt,
         IoFlagAt, MacroAt, SubTarget, RamcfgCount;
  }

  /** XLAT moves a translated value into another register, shifted. */
  lemma XlatStep(rom: Rom, d: Device, v: Vm, fuel: nat, src: word, shift: byte, srcMask: byte, table: byte, dst: word,
                 dstMask: word, dstShift: byte, value: nat)
    requires XlatAt(rom, v.offset, src, shift, srcMask, table, dst, dstMask, dstShift) && On(v) &&
             Translated(rom, table, And(Shifted(d.read32(v.sem.trace, NvReg(src)), shift), srcMask), value)
    ensures Leaves(rom, d, v, fuel, 17, CopyEvents(d, v.sem.trace, src, dst, dstMask, Shl(value, dstShift)))
  {
    hide Effect, Decode, XlatAt, And, NvReg, Shifted, CopyEvents, XlatValue, Translated, Shl, Pow2, Turns, Byte, Dword;
    XlatDecodes(rom, v.offset, src, shift, srcMask, table, dst, dstMask, dstShift);
    LeafTurns(rom, d, v, fuel, Op.Xlat(src, shift, srcMask, table, dst, dstMask, dstShift), 17);
    XlatMoves(rom, d, v.sem, src, shift, srcMask, table, dst, dstMask, dstShift,
              And(Shifted(d.read32(v.sem.trace, NvReg(src)), shift), srcMask), value);
  }

  lemma XlatMoves(rom: Rom, d: Device, s: Sem, src: word, shift: byte, srcMask: byte, table: byte, dst: word,
                  dstMask: word, dstShift: byte, key: nat, value: nat)
    requires s.execute == 1 && key == And(Shifted(d.read32(s.trace, NvReg(src)), shift), srcMask)
    requires Translated(rom, table, key, value)
    ensures Effect(rom, d, Op.Xlat(src, shift, srcMask, table, dst, dstMask, dstShift), s) ==
            s.(trace := s.trace + CopyEvents(d, s.trace, src, dst, dstMask, Shl(value, dstShift)))
  {
    hide Effect, And, NvReg, Shifted, CopyEvents, XlatValue, Translated, Shl, Pow2;
    TranslatedRead(rom, table, key, value);
    ShiftsAreMulDiv(value, dstShift);
    XlatLeaves(rom, d, s, src, shift, srcMask, table, dst, dstMask, dstShift);
  }

  predicate GpioAt(rom: Rom, p: nat) {
    Byte(rom, p, 0x8e)
  }

  lemma GpioDecodes(rom: Rom, p: nat)
    requires GpioAt(rom, p)
    ensures Decode(rom, p) == Leaf(GpioReset({}), 1)
  {
    ByteRead(rom, p, 0x8e);
    hide Dword, Half, Byte, ByteIn, DwordIn, ByteOf, Rows, Pairs, Triples, Elements, ConditionAt, IoConditionAt,
         IoFlagAt, MacroAt, SubTarget, RamcfgCount;
  }

  predicate GpioNeAt(rom: Rom, p: nat, excluded: seq<byte>) {
    Byte(rom, p, 0xa9) && Byte(rom, p + 1, |excluded|) && Octets(rom, p + 2, excluded)
  }

  lemma GpioNeDecodes(rom: Rom, p: nat, excluded: seq<byte>)
    requires GpioNeAt(rom, p, excluded)
    ensures Decode(rom, p) == Leaf(GpioReset(Elements(excluded)), 2 + |excluded|)
  {
    ByteRead(rom, p, 0xa9);
    ByteRead(rom, p + 1, |excluded|);
    OctetsRead(rom, p + 2, excluded);
    hide Dword, Half, Byte, ByteIn, DwordIn, ByteOf, Rows, Pairs, Triples, Elements, ConditionAt, IoConditionAt,
         IoFlagAt, MacroAt, SubTarget, RamcfgCount, Octets;
  }

  lemma GpioIs(rom: Rom, d: Device, s: Sem, excluded: set<byte>)
    requires s.execute == 1
    ensures Effect(rom, d, GpioReset(excluded), s) ==
            s.(trace := Play(d, s.trace, AllLines(rom.gpios, excluded)))
  {
    LinesPlay(d, s, rom.gpios, excluded);
    hide ResetGpios, Play, AllLines;
  }

  /** GPIO resets every line that has a function. */
  lemma GpioStep(rom: Rom, d: Device, v: Vm, fuel: nat)
    requires GpioAt(rom, v.offset) && On(v)
    ensures Turns(rom, d, v, fuel, 1, v.sem.(trace := Play(d, v.sem.trace, AllLines(rom.gpios, {}))))
  {
    hide Effect, Decode, GpioAt, Play, AllLines;
    GpioDecodes(rom, v.offset);
    LeafTurns(rom, d, v, fuel, GpioReset({}), 1);
    GpioIs(rom, d, v.sem, {});
  }

  /** GPIO_NE does so but for the functions it lists. */
  lemma GpioNeStep(rom: Rom, d: Device, v: Vm, fuel: nat, excluded: seq<byte>)
    requires GpioNeAt(rom, v.offset, excluded) && On(v)
    ensures Turns(rom, d, v, fuel, 2 + |excluded|,
                  v.sem.(trace := Play(d, v.sem.trace, AllLines(rom.gpios, set b | b in excluded))))
  {
    hide Effect, Decode, GpioNeAt, Play, AllLines;
    GpioNeDecodes(rom, v.offset, excluded);
    LeafTurns(rom, d, v, fuel, GpioReset(Elements(excluded)), 2 + |excluded|);
    assert Elements(excluded) == set b | b in excluded;
    GpioIs(rom, d, v.sem, Elements(excluded));
  }
}
