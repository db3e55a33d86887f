/** Scripts on which the interpreter does not do what one would expect, as bytes of
    an image. */
module NvinitInputs {
  import opened Words
  import opened Wrappers
  import opened Nvinit
  import opened NvinitTraces
  import opened NvinitRun
  import opened NvinitStructured
  import opened NvinitStrap

  const NO_TABLES := Tables(0, 0, 0, 0, 0, 0, 0, 0, 0, 0)

  // ---- the cached strap ----------------------------------------------------------

  /** From 1: NOT, RAM_RESTRICT_PLL with three frequencies of 0, RESUME, a strap
      table of one row (10, 11, 12) for the register 0x1000, DONE; at 37 the M table
      with its count of 3. */
  function StrapByte(p: nat): byte {
    if p == 1 then 0x38
    else if p == 2 then 0x87
    else if p == 16 then 0x72
    else if p == 17 then 0x8f
    else if p == 19 then 0x10
    else if p == 23 then 1
    else if p == 24 then 10
    else if p == 28 then 11
    else if p == 32 then 12
    else if p == 36 then 0x71
    else if p == 37 then 3
    else 0
  }

  const STRAP_IMAGE: seq<byte> := seq<byte>(40, i requires 0 <= i < 40 => StrapByte(i))

  const STRAP_ROM := Rom(STRAP_IMAGE, NO_TABLES.(m := 37, mVersion := 2), [], None)

  const STRAP_ROWS: seq<seq<word>> := [[10, 11, 12]]

  const STRAP_SCRIPT :=
    Cons(Prim(Not), Cons(Prim(RamRestrictPll), Cons(Prim(Resume),
         Cons(Prim(RamRestrictGroup(0x1000, 0, STRAP_ROWS)), Nil))))

  lemma FourBytes(image: seq<byte>, at: nat, b0: byte, b1: byte, b2: byte, b3: byte)
    requires at + 4 <= |image| && image[at] == b0 && image[at + 1] == b1 && image[at + 2] == b2 && image[at + 3] == b3
    ensures DwordIn(image, at) == b0 + 0x100 * b1 + 0x10000 * b2 + 0x1000000 * b3
  {
  }

  lemma StrapCount()
    ensures RamcfgCount(STRAP_ROM) == 3
  {
  }

  lemma StrapRow()
    ensures STRAP_ROM.Rd32(18) == 0x1000 && Rows(STRAP_ROM, 24, 1, 3) == STRAP_ROWS
  {
    FourBytes(STRAP_IMAGE, 18, 0, 0x10, 0, 0);
    FourBytes(STRAP_IMAGE, 24, 10, 0, 0, 0);
    FourBytes(STRAP_IMAGE, 28, 11, 0, 0, 0);
    FourBytes(STRAP_IMAGE, 32, 12, 0, 0, 0);
    hide DwordIn;
    var row := STRAP_ROM.Words(24, 3);
    assert row[0] == STRAP_ROM.Rd32(24) && row[1] == STRAP_ROM.Rd32(28) && row[2] == STRAP_ROM.Rd32(32);
    assert row == [10, 11, 12];
    assert Rows(STRAP_ROM, 24, 1, 3)[0] == row;
  }

  lemma StrapFirst()
    ensures Decode(STRAP_ROM, 1) == Leaf(Not, 1) && Decode(STRAP_ROM, 2) == Leaf(RamRestrictPll, 14)
  {
    StrapCount();
    hide Rows, RamcfgCount, DwordIn;
    assert STRAP_ROM.Rd08(1) == 0x38 && STRAP_ROM.Rd08(2) == 0x87;
  }

  lemma StrapSecond()
    ensures Decode(STRAP_ROM, 16) == Leaf(Resume, 1) && Decode(STRAP_ROM, 36) == Done
  {
    hide Rows, RamcfgCount, DwordIn;
    assert STRAP_ROM.Rd08(16) == 0x72 && STRAP_ROM.Rd08(36) == 0x71;
  }

  lemma StrapTable()
    ensures Decode(STRAP_ROM, 17) == Leaf(RamRestrictGroup(0x1000, 0, STRAP_ROWS), 19)
  {
    StrapCount();
    StrapRow();
    hide Rows, RamcfgCount, DwordIn;
    assert STRAP_ROM.Rd08(17) == 0x8f && STRAP_ROM.Rd08(22) == 0 && STRAP_ROM.Rd08(23) == 1;
  }

  /** The script is laid out at 1. */
  lemma StrapIsScript(d: Device)
    ensures IsScript(Nv(STRAP_ROM, d), STRAP_SCRIPT, 1) && Need(STRAP_SCRIPT) == 5
  {
    StrapFirst();
    StrapSecond();
    StrapTable();
    hide Decode, Effect;
    var c := Nv(STRAP_ROM, d);
    var group := Cons(Prim(RamRestrictGroup(0x1000, 0, STRAP_ROWS)), Nil);
    assert Extent(c, group, 17) == Some(36);
    assert Extent(c, Cons(Prim(Resume), group), 16) == Some(36);
    assert Extent(c, Cons(Prim(RamRestrictPll), Cons(Prim(Resume), group)), 2) == Some(36);
  }

  lemma StrapColumns()
    ensures Chosen(STRAP_ROWS, 3, 0) == [10] && Chosen(STRAP_ROWS, 3, 1) == [11]
  {
  }

  lemma OneEvent(val: word)
    ensures GroupEvents(0x1000, 0, [val]) == [Wr32(0x1000, val)]
  {
    assert NvReg(0x1000) == 0x1000;
  }

  lemma StrapMeans(d: Device)
    ensures Meaning(Nv(STRAP_ROM, d), STRAP_SCRIPT, Sem(1, None, [])) == Sem(1, Some(0), [Wr32(0x1000, 10)])
  {
    var c, group := Nv(STRAP_ROM, d), RamRestrictGroup(0x1000, 0, STRAP_ROWS);
    assert StrapIndex(STRAP_ROM, 0) == 0;
    hide StrapIndex;
    assert Effect(STRAP_ROM, d, Not, Sem(1, None, [])) == Sem(3, None, []);
    DisabledReaderCachesZero(STRAP_ROM, d, Sem(3, None, []));
    assert Effect(STRAP_ROM, d, RamRestrictPll, Sem(3, None, [])) == Sem(3, Some(0), []);
    assert Effect(STRAP_ROM, d, Resume, Sem(3, Some(0), [])) == Sem(1, Some(0), []);
    TableWrites(STRAP_ROM, d, group, Sem(1, Some(0), []), 3, 0);
    StrapColumns();
    OneEvent(10);
    hide Effect, Chosen, GroupEvents;
    var rest := Cons(Prim(group), Nil);
    assert Meaning(c, rest, Sem(1, Some(0), [])) == Does(c, Prim(group), Sem(1, Some(0), []));
    assert Meaning(c, Cons(Prim(Resume), rest), Sem(3, Some(0), [])) == Meaning(c, rest, Sem(1, Some(0), []));
  }

  /** With strap 1 the row's second word is due; the script writes the first. */
  lemma StrapMissed(d: Device)
    requires d.read32([], STRAP_REG) == 4
    ensures OwnIndex(STRAP_ROM, d, []) == 1
    ensures GroupEvents(0x1000, 0, Chosen(STRAP_ROWS, 3, 1)) == [Wr32(0x1000, 11)]
    ensures RunScript(Nv(STRAP_ROM, d), Vm(0, 0, 0, 0, Sem(1, None, [])), 1, 5) ==
            Finished(Vm(0, 0, 0, 0, Sem(1, Some(0), [Wr32(0x1000, 10)])))
  {
    hide RunScript, Decode, IsScript, Meaning, Effect, Chosen, GroupEvents;
    StrapColumns();
    OneEvent(11);
    StrapIsScript(d);
    StrapMeans(d);
    StructuredScriptRuns(Nv(STRAP_ROM, d), STRAP_SCRIPT, Vm(0, 0, 0, 0, Sem(1, None, [])), 1, 5);
  }

  // ---- a jump out of a repeat body ---------------------------------------------------

  /** From 1: REPEAT 1, JUMP to 10, END_REPEAT; the rest is DONE. */
  function JumpByte(p: nat): byte {
    if p == 1 then 0x33
    else if p == 2 then 1
    else if p == 3 then 0x5c
    else if p == 4 then 10
    else if p == 5 then 0
    else if p == 6 then 0x36
    else 0x71
  }

  const JUMP_ROM := Rom(seq<byte>(11, i requires 0 <= i < 11 => JumpByte(i)), NO_TABLES, [], None)

  predicate Escapes(c: Cpu) {
    c.fetch(1) == Repeat(1) && c.fetch(3) == Jump(10) && c.fetch(6) == EndRepeat && c.fetch(10) == Done
  }

  lemma JumpEscapes(d: Device)
    ensures Escapes(Nv(JUMP_ROM, d))
  {
    assert JUMP_ROM.Rd08(1) == 0x33 && JUMP_ROM.Rd08(2) == 1 && JUMP_ROM.Rd08(3) == 0x5c && JUMP_ROM.Rd16(4) == 10;
    assert JUMP_ROM.Rd08(6) == 0x36 && JUMP_ROM.Rd08(10) == 0x71;
    hide Rows, RamcfgCount, DwordIn, ByteIn, Effect;
  }

  const FEW := 3

  lemma JumpLeaves(c: Cpu, vm: Vm)
    requires Escapes(c) && vm.nested == 1 && vm.repeat == 3 && vm.sem.execute == 1
    ensures RunScript(c, vm, 3, FEW) == Finished(vm.(offset := 0))
  {
    var in3 := vm.(offset := 3, nested := 2);
    LoopStep(c, in3, in3.(offset := 10), 2);
    LoopStep(c, in3.(offset := 10), in3.(offset := 0), 1);
  }

  lemma JumpSkipped(c: Cpu, vm: Vm)
    requires Escapes(c) && vm.nested == 1 && vm.repeat == 3 && vm.sem.execute == 3
    ensures RunScript(c, vm, 3, FEW) == Finished(vm.(offset := 0, repend := 7))
  {
    var in3 := vm.(offset := 3, nested := 2);
    assert !Enabled(vm.sem);
    LoopStep(c, in3, in3.(offset := 6), 2);
    LoopStep(c, in3.(offset := 6), in3.(offset := 0, repend := 7), 1);
  }

  /** Where the next instruction is depends on the flag: enabled, the jump ends the
      pass before END_REPEAT and the body is next again; disabled, what is behind. */
  lemma JumpInBodyDependsOnFlag(d: Device, s: Sem)
    ensures var c := Nv(JUMP_ROM, d);
            var on, off := Vm(1, 1, 0, 0, s.(execute := 1)), Vm(1, 1, 0, 0, s.(execute := 3));
            Step(c, on, FEW).Finished? && Step(c, on, FEW).vm.offset == 3 &&
            Step(c, off, FEW).Finished? && Step(c, off, FEW).vm.offset == 7
  {
    hide Decode, Nv;
    var c := Nv(JUMP_ROM, d);
    JumpEscapes(d);
    JumpLeaves(c, Vm(3, 1, 3, 3, s.(execute := 1)));
    JumpSkipped(c, Vm(3, 1, 3, 3, s.(execute := 3)));
    assert Step(c, Vm(1, 1, 0, 0, s.(execute := 1)), FEW) == RepeatScript(c, Vm(1, 1, 0, 0, s.(execute := 1)), 1, FEW);
    assert Step(c, Vm(1, 1, 0, 0, s.(execute := 3)), FEW) == RepeatScript(c, Vm(1, 1, 0, 0, s.(execute := 3)), 1, FEW);
  }
}
