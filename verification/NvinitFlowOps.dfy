/** The instructions of a script that steer it, from their bytes, those that only take
    up room, and the bytes that are no instruction. */
module NvinitFlowOps {
  import opened Words
  import opened Nvinit
  import opened NvinitRun
  import opened NvinitLayout

  /** A nested run: from `start`, with the loop one deeper. */
  function Nested(rom: Rom, d: Device, v: Vm, start: nat, fuel: nat): Outcome {
    RunScript(Nv(rom, d), v, start, fuel)
  }

  /** What a call is once its run has ended: the state of that, `length` further on. */
  ghost predicate Returns(rom: Rom, d: Device, v: Vm, fuel: nat, start: nat, length: nat) {
    var r := Nested(rom, d, v, start, fuel);
    Step(Nv(rom, d), v, fuel) == if r.Finished? then Finished(r.vm.(offset := v.offset + length)) else r
  }

  lemma CallTurns(c: Cpu, v: Vm, fuel: nat, direct: bool, target: nat, length: nat)
    requires c.fetch(v.offset) == Call(direct, target, length)
    ensures Step(c, v, fuel) == CallScript(c, v, direct, target, length, fuel)
  {
    hide CallScript;
  }

  lemma CallIs(c: Cpu, v: Vm, fuel: nat, direct: bool, target: nat, length: nat)
    ensures var r := RunScript(c, v, target, fuel);
            CallScript(c, v, direct, target, length, fuel) ==
            if !Enabled(v.sem) || (!direct && target == 0) then Finished(v.(offset := v.offset + length))
            else if r.Finished? then Finished(r.vm.(offset := v.offset + length)) else r
  {
    hide RunScript;
  }

  lemma RepeatTurns(c: Cpu, v: Vm, fuel: nat, count: byte)
    requires c.fetch(v.offset) == Repeat(count)
    ensures Step(c, v, fuel) == RepeatScript(c, v, count, fuel)
  {
    hide RepeatScript;
  }

  lemma RepeatIs(c: Cpu, v: Vm, fuel: nat, count: nat)
    ensures var body := v.offset + 2;
            var r := Iterate(c, v.(offset := body, repeat := body, repend := body), count, fuel);
            RepeatScript(c, v, count, fuel) ==
            if r.Finished? then Finished(r.vm.(offset := r.vm.repend, repeat := v.repeat, repend := v.repend)) else r
  {
    hide Iterate;
  }

  /** One turn with every field given. */
  ghost predicate Goes(rom: Rom, d: Device, v: Vm, fuel: nat, v': Vm) {
    Step(Nv(rom, d), v, fuel) == Finished(v')
  }

  predicate DoneAt(rom: Rom, p: nat) {
    Byte(rom, p, 0x71)
  }

  lemma DoneDecodes(rom: Rom, p: nat)
    requires DoneAt(rom, p)
    ensures Decode(rom, p) == Done
  {
    ByteRead(rom, p, 0x71);
    hide Dword, Half, Byte, ByteIn, DwordIn, ByteOf, Rows, Pairs, Triples, Elements, ConditionAt, IoConditionAt,
         IoFlagAt, MacroAt, SubTarget, RamcfgCount;
  }

  /** DONE ends the run. */
  lemma DoneStep(rom: Rom, d: Device, v: Vm, fuel: nat)
    requires DoneAt(rom, v.offset)
    ensures Goes(rom, d, v, fuel, v.(offset := 0))
  {
    hide Effect, Decode, DoneAt;
    DoneDecodes(rom, v.offset);
  }

  predicate EndRepeatAt(rom: Rom, p: nat) {
    Byte(rom, p, 0x36)
  }

  lemma EndRepeatDecodes(rom: Rom, p: nat)
    requires EndRepeatAt(rom, p)
    ensures Decode(rom, p) == EndRepeat
  {
    ByteRead(rom, p, 0x36);
    hide Dword, Half, Byte, ByteIn, DwordIn, ByteOf, Rows, Pairs, Triples, Elements, ConditionAt, IoConditionAt,
         IoFlagAt, MacroAt, SubTarget, RamcfgCount;
  }

  /** END_REPEAT ends a pass and notes what stands behind it; outside a repeat it is nothing. */
  lemma EndRepeatStep(rom: Rom, d: Device, v: Vm, fuel: nat)
    requires EndRepeatAt(rom, v.offset)
    ensures Goes(rom, d, v, fuel, if v.repeat != 0 then v.(offset := 0, repend := v.offset + 1)
                                  else v.(offset := v.offset + 1))
  {
    hide Effect, Decode, EndRepeatAt;
    EndRepeatDecodes(rom, v.offset);
  }

  predicate JumpAt(rom: Rom, p: nat, target: half) {
    Byte(rom, p, 0x5c) && Half(rom, p + 1, target)
  }

  lemma JumpDecodes(rom: Rom, p: nat, target: half)
    requires JumpAt(rom, p, target)
    ensures Decode(rom, p) == Jump(target)
  {
    ByteRead(rom, p, 0x5c);
    HalfRead(rom, p + 1, target);
    hide Dword, Half, Byte, ByteIn, DwordIn, ByteOf, Rows, Pairs, Triples, Elements, ConditionAt, IoConditionAt,
         IoFlagAt, MacroAt, SubTarget, RamcfgCount;
  }

  /** JUMP goes to its target if enabled, else on behind its three bytes. */
  lemma JumpStep(rom: Rom, d: Device, v: Vm, fuel: nat, target: half)
    requires JumpAt(rom, v.offset, target) && (v.sem.execute == 1 || v.sem.execute == 3)
    ensures Goes(rom, d, v, fuel, v.(offset := if v.sem.execute == 1 then target else v.offset + 3))
  {
    hide Effect, Decode, JumpAt;
    JumpDecodes(rom, v.offset, target);
    assert Enabled(v.sem) <==> v.sem.execute == 1 by { OnlyOne(v.sem); }
  }

  lemma OnlyOne(s: Sem)
    requires s.execute == 1 || s.execute == 3
    ensures Enabled(s) <==> s.execute == 1
  {
  }

  predicate SubDirectAt(rom: Rom, p: nat, target: half) {
    Byte(rom, p, 0x5b) && Half(rom, p + 1, target)
  }

  lemma SubDirectDecodes(rom: Rom, p: nat, target: half)
    requires SubDirectAt(rom, p, target)
    ensures Decode(rom, p) == Call(true, target, 3)
  {
    ByteRead(rom, p, 0x5b);
    HalfRead(rom, p + 1, target);
    hide Dword, Half, Byte, ByteIn, DwordIn, ByteOf, Rows, Pairs, Triples, Elements, ConditionAt, IoConditionAt,
         IoFlagAt, MacroAt, SubTarget, RamcfgCount;
  }

  /** SUB_DIRECT runs the script at its target and goes on behind its three bytes. */
  lemma SubDirectStep(rom: Rom, d: Device, v: Vm, fuel: nat, target: half)
    requires SubDirectAt(rom, v.offset, target) && (v.sem.execute == 1 || v.sem.execute == 3)
    ensures v.sem.execute == 1 ==> Returns(rom, d, v, fuel, target, 3)
    ensures v.sem.execute == 3 ==> Goes(rom, d, v, fuel, v.(offset := v.offset + 3))
  {
    hide Effect, Decode, SubDirectAt;
    SubDirectDecodes(rom, v.offset, target);
    OnlyOne(v.sem);
    CallTurns(Nv(rom, d), v, fuel, true, target, 3);
    CallIs(Nv(rom, d), v, fuel, true, target, 3);
    hide RunScript, CallScript, Step;
  }

  /** Entry of the script table; no entry, no script. */
  predicate ScriptEntry(rom: Rom, index: byte, target: half) {
    var t := rom.tables.script + 2 * index;
    if rom.tables.script == 0 || t + 2 > |rom.image| then target == 0 else Half(rom, t, target)
  }

  lemma ScriptRead(rom: Rom, index: byte, target: half)
    requires ScriptEntry(rom, index, target)
    ensures SubTarget(rom, index) == target
  {
    hide Half;
    if !(rom.tables.script == 0 || rom.tables.script + 2 * index + 2 > |rom.image|) {
      HalfRead(rom, rom.tables.script + 2 * index, target);
    }
  }

  predicate SubAt(rom: Rom, p: nat, index: byte, target: half) {
    Byte(rom, p, 0x6b) && Byte(rom, p + 1, index) && ScriptEntry(rom, index, target)
  }

  lemma SubDecodes(rom: Rom, p: nat, index: byte, target: half)
    requires SubAt(rom, p, index, target)
    ensures Decode(rom, p) == Call(false, target, 2)
  {
    ByteRead(rom, p, 0x6b);
    ByteRead(rom, p + 1, index);
    ScriptRead(rom, index, target);
    hide Dword, Half, Byte, ByteIn, DwordIn, ByteOf, Rows, Pairs, Triples, Elements, ConditionAt, IoConditionAt,
         IoFlagAt, MacroAt, SubTarget, RamcfgCount, ScriptEntry;
  }

  /** SUB does so with the script of its table entry, if there is one. */
  lemma SubStep(rom: Rom, d: Device, v: Vm, fuel: nat, index: byte, target: half)
    requires SubAt(rom, v.offset, index, target) && (v.sem.execute == 1 || v.sem.execute == 3)
    ensures v.sem.execute == 1 && target != 0 ==> Returns(rom, d, v, fuel, target, 2)
    ensures v.sem.execute == 3 || target == 0 ==> Goes(rom, d, v, fuel, v.(offset := v.offset + 2))
  {
    hide Effect, Decode, SubAt;
    SubDecodes(rom, v.offset, index, target);
    OnlyOne(v.sem);
    CallTurns(Nv(rom, d), v, fuel, false, target, 2);
    CallIs(Nv(rom, d), v, fuel, false, target, 2);
    hide RunScript, CallScript, Step;
  }

  predicate RepeatAt(rom: Rom, p: nat, count: byte) {
    Byte(rom, p, 0x33) && Byte(rom, p + 1, count)
  }

  lemma RepeatDecodes(rom: Rom, p: nat, count: byte)
    requires RepeatAt(rom, p, count)
    ensures Decode(rom, p) == Repeat(count)
  {
    ByteRead(rom, p, 0x33);
    ByteRead(rom, p + 1, count);
    hide Dword, Half, Byte, ByteIn, DwordIn, ByteOf, Rows, Pairs, Triples, Elements, ConditionAt, IoConditionAt,
         IoFlagAt, MacroAt, SubTarget, RamcfgCount;
  }

  /** REPEAT runs what stands behind its two bytes as often as it says, whatever the flag. */
  lemma RepeatStep(rom: Rom, d: Device, v: Vm, fuel: nat, count: byte)
    requires RepeatAt(rom, v.offset, count)
    ensures var body := v.offset + 2;
            var r := Iterate(Nv(rom, d), v.(offset := body, repeat := body, repend := body), count, fuel);
            if r.Finished? then
              Goes(rom, d, v, fuel, r.vm.(offset := r.vm.repend, repeat := v.repeat, repend := v.repend))
            else Step(Nv(rom, d), v, fuel) == r
  {
    hide Effect, Decode, RepeatAt;
    RepeatDecodes(rom, v.offset, count);
    RepeatTurns(Nv(rom, d), v, fuel, count);
    RepeatIs(Nv(rom, d), v, fuel, count);
    hide Iterate, RepeatScript, Step;
  }

  // ---- instructions without effect --------------------------------------------------

  /** What an instruction without effect takes up, and 0 for any other byte. */
  function SkipLength(rom: Rom, p: nat, op: byte): nat {
    if op in {0x63, 0x66, 0x67, 0x68, 0x8c, 0x8d, 0x92} then 1
    else if op in {0x3b, 0x3c} then 2
    else if op in {0x57, 0x74} then 3
    else if op == 0xaa then 4
    else if op in {0x4f, 0x62} then 5
    else if op == 0x78 then 6
    else if op in {0x59, 0x79} then 7
    else if op == 0x4b then 9
    else if op == 0x49 then 19 + 2 * rom.Rd08(p + 17)
    else if op == 0x50 then 3 + 2 * rom.Rd08(p + 2)
    else if op == 0x98 then 6 + 2 * rom.Rd08(p + 5)
    else if op == 0x99 then 6 + rom.Rd08(p + 5)
    else 0
  }

  lemma SkipDecodes(rom: Rom, p: nat, op: byte)
    requires Byte(rom, p, op) && SkipLength(rom, p, op) > 0
    ensures Decode(rom, p) == Leaf(Skip, SkipLength(rom, p, op))
  {
    ByteRead(rom, p, op);
    hide Dword, Half, Byte, ByteIn, DwordIn, ByteOf, Rows, Pairs, Triples, Elements, ConditionAt, IoConditionAt,
         IoFlagAt, MacroAt, SubTarget, RamcfgCount;
  }

  /** They are stepped over. */
  lemma SkipStep(rom: Rom, d: Device, v: Vm, fuel: nat, op: byte)
    requires Byte(rom, v.offset, op) && SkipLength(rom, v.offset, op) > 0
    ensures Leaves(rom, d, v, fuel, SkipLength(rom, v.offset, op), [])
  {
    hide Effect, Decode, SkipLength;
    SkipDecodes(rom, v.offset, op);
    LeafTurns(rom, d, v, fuel, Skip, SkipLength(rom, v.offset, op));
    SkipIs(rom, d, v.sem);
    assert v.sem.trace + [] == v.sem.trace;
  }

  lemma SkipIs(rom: Rom, d: Device, s: Sem)
    ensures Effect(rom, d, Skip, s) == s
  {
  }

  /** The bytes that are an instruction. */
  predicate IsOpcode(op: byte) {
    op in {0x32, 0x33, 0x34, 0x36, 0x37, 0x38, 0x39, 0x3a, 0x3b, 0x3c, 0x47, 0x48, 0x49, 0x4a, 0x4b, 0x4c, 0x4d, 0x4e,
           0x4f, 0x50, 0x51, 0x52, 0x53, 0x54, 0x56, 0x57, 0x58, 0x59, 0x5a, 0x5b, 0x5c, 0x5e, 0x5f, 0x62, 0x63, 0x65,
           0x66, 0x67, 0x68, 0x69, 0x6b, 0x6d, 0x6e, 0x6f, 0x71, 0x72, 0x73, 0x74, 0x75, 0x76, 0x77, 0x78, 0x79, 0x7a,
           0x87, 0x8c, 0x8d, 0x8e, 0x8f, 0x90, 0x91, 0x92, 0x96, 0x97, 0x98, 0x99, 0x9a, 0xa9, 0xaa}
  }

  /** Any other byte stops the interpreter with an error. */
  lemma OtherBytesFail(rom: Rom, d: Device, v: Vm, fuel: nat, op: byte)
    requires Byte(rom, v.offset, op) && !IsOpcode(op)
    ensures Step(Nv(rom, d), v, fuel) == BadOpcode(op)
  {
    hide Effect, Decode;
    NotDecoded(rom, v.offset, op);
  }

  lemma NotDecoded(rom: Rom, p: nat, op: byte)
    requires Byte(rom, p, op) && !IsOpcode(op)
    ensures Decode(rom, p) == Unknown(op)
  {
    ByteRead(rom, p, op);
    hide Dword, Half, Byte, ByteIn, DwordIn, ByteOf, Rows, Pairs, Triples, Elements, ConditionAt, IoConditionAt,
         IoFlagAt, MacroAt, SubTarget, RamcfgCount;
  }
}
