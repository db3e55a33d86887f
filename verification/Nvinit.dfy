/** The NVINIT byte-code of a video BIOS: decoding of one instruction and its
    effect on the device, as the `_op_*` handlers of `NvbiosInit` in
    examples_en210/add.py have it. Control flow is in `NvinitRun`. */
module Nvinit {
  import opened Bits
  import opened Words
  import opened Wrappers

  /** Little-endian pair. */
  function Le(low: nat, high: nat): nat {
    low + 0x100 * high
  }

  // ---- ROM image -------------------------------------------------------------

  /** Offsets of the BIT tables; 0 stands for a missing table. */
  datatype Tables = Tables(script: nat, macro: nat, condition: nat, ioCondition: nat, ioFlag: nat, xlat: nat,
                           m: nat, mVersion: nat, m0203: nat, mXlat: nat)

  datatype Gpio = Gpio(func: byte, reg: nat, level: nat, unk0: byte, unk1: byte, line: byte)

  /** The image, its tables, and the strap the user may have forced. */
  datatype Rom = Rom(image: seq<byte>, tables: Tables, gpios: seq<Gpio>, forcedStrap: Option<nat>) {
    function Rd08(addr: nat): byte {
      ByteIn(image, addr)
    }

    function Rd16(addr: nat): (r: nat)
      ensures r < 0x10000
    {
      if addr + 2 <= |image| then Le(image[addr], image[addr + 1]) else 0
    }

    function Rd32(addr: nat): word {
      DwordIn(image, addr)
    }

    /** n bytes, words or rows of words from addr on. */
    function Bytes(addr: nat, n: nat): (r: seq<byte>)
      ensures |r| == n
    {
      seq<byte>(n, i requires 0 <= i < n => Rd08(addr + i))
    }

    function Words(addr: nat, n: nat): (r: seq<word>)
      ensures |r| == n
    {
      seq(n, i requires 0 <= i < n => Rd32(addr + 4 * i))
    }
  }

  // ---- device ----------------------------------------------------------------

  datatype Message = Send(bytes: seq<byte>) | Receive(count: nat)

  datatype Event =
    | Rd32(reg: nat)
    | Wr32(reg: nat, val: word)
    | Rd8(reg: nat)
    | Wr8(reg: nat, octet: byte)
    | I2c(index: byte, addr: byte, messages: seq<Message>)

  /** A transfer ends with the byte it read (0 if it read none) or an errno
      squeezed into a byte. */
  datatype I2cReply = Got(value: byte) | Failed(u8: byte)

  /** What the hardware answers may depend on everything done to it so far. */
  datatype Device = Device(read32: (seq<Event>, nat) -> word, read8: (seq<Event>, nat) -> byte,
                           i2c: (seq<Event>, Event) -> I2cReply)

  /** The part of the interpreter that instructions other than control flow touch. */
  datatype Sem = Sem(execute: bv8, strap: Option<nat>, trace: seq<Event>)

  // ---- execute flag ----------------------------------------------------------

  predicate Enabled(s: Sem) {
    s.execute == 1 || s.execute & 5 == 5
  }

  function SetEnabled(s: Sem, on: bool): Sem {
    s.(execute := if on then s.execute & 0xfd else s.execute | 2)
  }

  function Invert(s: Sem): Sem {
    s.(execute := s.execute ^ 2)
  }

  function Force(s: Sem, on: bool): Sem {
    s.(execute := if on then s.execute | 4 else s.execute & 0xfb)
  }

  // ---- register and port accessors -------------------------------------------

  /** Register number without its low bits and head/output-resource selectors;
      no script selects a head, so the selectors add nothing. */
  function NvReg(reg: nat): nat {
    var reg := reg - reg % 4;
    var reg := if reg / 0x80000000 % 2 == 1 then reg - 0x80000000 else reg;
    if reg / 0x40000000 % 2 == 0 then reg
    else
      var reg := reg - 0x40000000;
      if reg / 0x20000000 % 2 == 1 then reg - 0x20000000 else reg
  }

  function RegRd(d: Device, s: Sem, reg: nat): (word, Sem) {
    if !Enabled(s) then (0, s)
    else (d.read32(s.trace, NvReg(reg)), s.(trace := s.trace + [Rd32(NvReg(reg))]))
  }

  function RegWr(s: Sem, reg: nat, val: nat): Sem {
    if !Enabled(s) then s
    else s.(trace := s.trace + [Wr32(NvReg(reg), val % U32)])
  }

  /** (prior & ~mask) | val, the value deliberately not clipped to the mask. */
  function Merge(prior: word, mask: word, val: word): nat {
    Or(And(prior, 0xffffffff - mask), val)
  }

  function RegMask(d: Device, s: Sem, reg: nat, mask: word, val: word): (word, Sem) {
    if !Enabled(s) then (0, s)
    else
      var prior := d.read32(s.trace, NvReg(reg));
      var s := s.(trace := s.trace + [Rd32(NvReg(reg))]);
      (prior, s.(trace := s.trace + [Wr32(NvReg(reg), Merge(prior, mask, val) % U32)]))
  }

  const VGA_WINDOW := 0x601000

  function PortRd(d: Device, s: Sem, port: nat): (byte, Sem) {
    if !Enabled(s) then (0, s)
    else
      var reg := VGA_WINDOW + port % 0x10000;
      (d.read8(s.trace, reg), s.(trace := s.trace + [Rd8(reg)]))
  }

  function PortWr(s: Sem, port: nat, val: nat): Sem {
    if !Enabled(s) then s
    else s.(trace := s.trace + [Wr8(VGA_WINDOW + port % 0x10000, val % 0x100)])
  }

  predicate IsVgaIndex(port: nat) {
    port == 0x03c4 || port == 0x03ce || port == 0x03d4
  }

  function VgaRd(d: Device, s: Sem, port: nat, index: nat): (byte, Sem) {
    if !IsVgaIndex(port) || !Enabled(s) then (0, s) else PortRd(d, PortWr(s, port, index), port + 1)
  }

  function VgaWr(s: Sem, port: nat, index: nat, val: nat): Sem {
    if !IsVgaIndex(port) || !Enabled(s) then s else PortWr(PortWr(s, port, index), port + 1, val)
  }

  function Transfer(d: Device, s: Sem, index: byte, addr: byte, messages: seq<Message>): (I2cReply, Sem) {
    var e := I2c(index, addr, messages);
    (d.i2c(s.trace, e), s.(trace := s.trace + [e]))
  }

  /** Right shift below 0x80, left shift by the complement from there on. */
  function ShiftBy(data: nat, shift: byte): nat {
    if shift < 0x80 then Shr(data, shift) else Shl(data, 0x100 - shift)
  }

  // ---- memory configuration strap --------------------------------------------

  function RamcfgCount(rom: Rom): nat {
    var m := rom.tables.m;
    if m == 0 || m + 3 > |rom.image| then 0
    else if rom.tables.mVersion == 1 && rom.Rd08(m + 5) >= 5 then rom.Rd08(m + 2)
    else if rom.tables.mVersion == 2 && rom.Rd08(m) >= 3 then rom.Rd08(m)
    else 0
  }

  /** First entry of the M0203 table from i on whose strap matches. */
  function M0203Group(rom: Rom, strap: nat, i: nat): Option<nat>
    decreases rom.Rd08(rom.tables.m0203 + 3) - i
  {
    var t := rom.tables.m0203;
    ProductNatural(i, rom.Rd08(t + 2));
    var e := t + rom.Rd08(t + 1) + i * rom.Rd08(t + 2);
    if i >= rom.Rd08(t + 3) || e + 2 > |rom.image| then None
    else if rom.Rd08(e) / 0x10 == strap then Some(rom.Rd08(e + 1) % 0x10)
    else M0203Group(rom, strap, i + 1)
  }

  function StrapIndex(rom: Rom, strap: nat): nat {
    var t := rom.tables;
    if t.m == 0 then strap
    else
      var group := if t.m0203 != 0 && t.m0203 + 6 <= |rom.image| && t.mVersion == 2 && rom.Rd08(t.m) >= 7 &&
                      rom.Rd08(t.m0203) == 0x10
                   then M0203Group(rom, strap, 0) else None;
      match group
      case Some(g) => g
      case None => if t.mXlat != 0 && t.mXlat + strap < |rom.image| then rom.Rd08(t.mXlat + strap) else strap
  }

  const STRAP_REG := 0x101000

  /** The strap in use: the forced one, or the four bits of the register. */
  function Strap(rom: Rom, d: Device, s: Sem): (nat, Sem) {
    match rom.forcedStrap
    case Some(strap) => (strap % 0x10, s)
    case None => var (v, s) := RegRd(d, s, STRAP_REG); (v / 4 % 0x10, s)
  }

  /** The index is worked out once and cached, even when a disabled read returned 0. */
  function RamcfgIndex(rom: Rom, d: Device, s: Sem): (nat, Sem) {
    match s.strap
    case Some(index) => (index, s)
    case None =>
      var (strap, s) := Strap(rom, d, s);
      var index := StrapIndex(rom, strap);
      (index, s.(strap := Some(index)))
  }

  // ---- decoded instructions --------------------------------------------------

  datatype Test = Test(reg: nat, mask: word, val: word)
  datatype IoTest = IoTest(port: nat, index: byte, mask: word, val: word)
  datatype IoFlag = IoFlag(port: nat, index: byte, mask: word, shift: byte, data: nat, dataMask: word, val: word)

  datatype Op =
    | Skip
    | Resume
    | Not
    | ZmReg(addr: nat, data: word)
    | Write(addr: nat, data: word)
    | Mask(addr: nat, mask: word, val: word)
    | WriteGroup(addr: nat, words: seq<word>)
    | WriteSequence(addr: nat, words: seq<word>)
    | MaskAdd(addr: nat, mask: word, add: word)
    | CopyReg(src: nat, dst: nat)
    | CopyNvReg(src: nat, shift: byte, srcMask: word, srcXor: word, dst: nat, dstMask: word)
    | RamRestrictGroup(addr: nat, incr: byte, rows: seq<seq<word>>)
    | RamRestrictPll
    | SendI2c(bus: byte, dev: byte, bytes: seq<byte>)
    | SendI2cBytes(bus: byte, dev: byte, pairs: seq<(byte, byte)>)
    | MaskI2cBytes(bus: byte, dev: byte, triples: seq<(byte, byte, byte)>)
    | I2cIf(bus: byte, dev: byte, sub: byte, mask: word, data: word)
    | I2cLongIf(bus: byte, dev: byte, sub: byte, subHigh: byte, mask: word, data: word)
    | Cr(index: byte, mask: word, data: word)
    | ZmCrs(pairs: seq<(byte, byte)>)
    | CrLatch(addr0: byte, addr1: byte, base: byte, bytes: seq<byte>)
    | Io(port: nat, mask: word, data: word)
    | Condition(test: Option<Test>)
    | IoCondition(io: Option<IoTest>)
    | IoFlagCondition(flag: Option<IoFlag>)
    | GenericCondition
    | ConditionTime(test: Option<Test>, retry: byte)
    | Reset(reg: nat, data1: word, data2: word)
    | IoRestrictProg(port: nat, index: byte, mask: word, shift: byte, reg: nat, words: seq<word>)
    | IoRestrictPll(port: nat, index: byte, mask: word, shift: byte, count: nat, flag: Option<IoFlag>)
    | CopyVga(reg: nat, shift: byte, srcMask: word, port: nat, index: byte, mask: word)
    | Xlat(src: nat, shift: byte, srcMask: word, table: byte, dst: nat, dstMask: word, dstShift: byte)
    | GpioReset(excluded: set<byte>)

  /** Length and operation, or one of the instructions that steer the loop. */
  datatype Instr =
    | Leaf(op: Op, length: nat)
    | Call(direct: bool, target: nat, length: nat)
    | Repeat(count: byte)
    | EndRepeat
    | Done
    | Jump(target: nat)
    | Unknown(opcode: byte)

  function ConditionAt(rom: Rom, cond: byte): Option<Test> {
    var t := rom.tables.condition;
    if t != 0 && t + cond * 12 + 12 <= |rom.image|
    then Some(Test(rom.Rd32(t + cond * 12), rom.Rd32(t + cond * 12 + 4), rom.Rd32(t + cond * 12 + 8)))
    else None
  }

  function IoConditionAt(rom: Rom, cond: byte): Option<IoTest> {
    var t := rom.tables.ioCondition;
    if t != 0 && t + cond * 5 + 5 <= |rom.image|
    then Some(IoTest(rom.Rd16(t + cond * 5), rom.Rd08(t + cond * 5 + 2), rom.Rd08(t + cond * 5 + 3),
                     rom.Rd08(t + cond * 5 + 4)))
    else None
  }

  function IoFlagAt(rom: Rom, cond: byte): Option<IoFlag> {
    var t := rom.tables.ioFlag + cond * 9;
    if rom.tables.ioFlag != 0 && t + 9 <= |rom.image|
    then Some(IoFlag(rom.Rd16(t), rom.Rd08(t + 2), rom.Rd08(t + 3), rom.Rd08(t + 4), rom.Rd16(t + 5),
                     rom.Rd08(t + 7), rom.Rd08(t + 8)))
    else None
  }

  function MacroAt(rom: Rom, macro: byte): Op {
    var t := rom.tables.macro;
    if t != 0 && t + macro * 8 + 8 <= |rom.image|
    then Write(rom.Rd32(t + macro * 8), rom.Rd32(t + macro * 8 + 4))
    else Skip
  }

  function SubTarget(rom: Rom, index: byte): nat {
    var t := rom.tables.script;
    if t != 0 && t + index * 2 + 2 <= |rom.image| then rom.Rd16(t + index * 2) else 0
  }

  function Elements(bytes: seq<byte>): set<byte> {
    set b | b in bytes
  }

  function Pairs(rom: Rom, at: nat, n: nat): (r: seq<(byte, byte)>)
    ensures |r| == n
  {
    seq(n, i requires 0 <= i < n => (rom.Rd08(at + 2 * i), rom.Rd08(at + 2 * i + 1)))
  }

  function Triples(rom: Rom, at: nat, n: nat): (r: seq<(byte, byte, byte)>)
    ensures |r| == n
  {
    seq(n, i requires 0 <= i < n => (rom.Rd08(at + 3 * i), rom.Rd08(at + 3 * i + 1), rom.Rd08(at + 3 * i + 2)))
  }

  function Rows(rom: Rom, at: nat, n: nat, width: nat): (r: seq<seq<word>>)
    ensures |r| == n
  {
    seq(n, i requires 0 <= i < n => rom.Words(at + 4 * width * i, width))
  }

  /** The instruction at offset p, as its handler reads it. */
  function Decode(rom: Rom, p: nat): Instr {
    var op := rom.Rd08(p);
    match op
    case 0x32 => Leaf(IoRestrictProg(rom.Rd16(p + 1), rom.Rd08(p + 3), rom.Rd08(p + 4), rom.Rd08(p + 5),
                                     rom.Rd32(p + 7), rom.Words(p + 11, rom.Rd08(p + 6))), 11 + 4 * rom.Rd08(p + 6))
    case 0x33 => Repeat(rom.Rd08(p + 1))
    case 0x34 => Leaf(IoRestrictPll(rom.Rd16(p + 1), rom.Rd08(p + 3), rom.Rd08(p + 4), rom.Rd08(p + 5), rom.Rd08(p + 7),
                                    if rom.Rd08(p + 6) > 0 then IoFlagAt(rom, rom.Rd08(p + 6)) else None),
                      12 + 2 * rom.Rd08(p + 7))
    case 0x36 => EndRepeat
    case 0x37 => Leaf(CopyVga(rom.Rd32(p + 1), rom.Rd08(p + 5), rom.Rd08(p + 6), rom.Rd16(p + 7), rom.Rd08(p + 9),
                              rom.Rd08(p + 10)), 11)
    case 0x38 => Leaf(Not, 1)
    case 0x39 => Leaf(IoFlagCondition(IoFlagAt(rom, rom.Rd08(p + 1))), 2)
    case 0x3a => Leaf(GenericCondition, 3 + rom.Rd08(p + 2))
    case 0x3b => Leaf(Skip, 2)
    case 0x3c => Leaf(Skip, 2)
    case 0x47 => Leaf(Mask(rom.Rd32(p + 1), rom.Rd32(p + 5), 0), 9)
    case 0x48 => Leaf(Mask(rom.Rd32(p + 1), 0, rom.Rd32(p + 5)), 9)
    case 0x49 => Leaf(Skip, 19 + 2 * rom.Rd08(p + 17))
    case 0x4a => Leaf(IoRestrictPll(rom.Rd16(p + 1), rom.Rd08(p + 3), rom.Rd08(p + 4), rom.Rd08(p + 5), rom.Rd08(p + 6),
                                    None), 11 + 4 * rom.Rd08(p + 6))
    case 0x4b => Leaf(Skip, 9)
    case 0x4c => Leaf(MaskI2cBytes(rom.Rd08(p + 1), rom.Rd08(p + 2) / 2, Triples(rom, p + 4, rom.Rd08(p + 3))),
                      4 + 3 * rom.Rd08(p + 3))
    case 0x4d => Leaf(SendI2cBytes(rom.Rd08(p + 1), rom.Rd08(p + 2) / 2, Pairs(rom, p + 4, rom.Rd08(p + 3))),
                      4 + 2 * rom.Rd08(p + 3))
    case 0x4e => Leaf(SendI2c(rom.Rd08(p + 1), rom.Rd08(p + 2) / 2, rom.Bytes(p + 4, rom.Rd08(p + 3))),
                      4 + rom.Rd08(p + 3))
    case 0x4f => Leaf(Skip, 5)
    case 0x50 => Leaf(Skip, 3 + 2 * rom.Rd08(p + 2))
    case 0x51 => Leaf(CrLatch(rom.Rd08(p + 1), rom.Rd08(p + 2), rom.Rd08(p + 3), rom.Bytes(p + 5, rom.Rd08(p + 4))),
                      5 + rom.Rd08(p + 4))
    case 0x52 => Leaf(Cr(rom.Rd08(p + 1), rom.Rd08(p + 2), rom.Rd08(p + 3)), 4)
    case 0x53 => Leaf(ZmCrs([(rom.Rd08(p + 1), rom.Rd08(p + 2))]), 3)
    case 0x54 => Leaf(ZmCrs(Pairs(rom, p + 2, rom.Rd08(p + 1))), 2 + 2 * rom.Rd08(p + 1))
    case 0x56 => Leaf(ConditionTime(ConditionAt(rom, rom.Rd08(p + 1)), rom.Rd08(p + 2)), 3)
    case 0x57 => Leaf(Skip, 3)
    case 0x58 => Leaf(WriteSequence(rom.Rd32(p + 1), rom.Words(p + 6, rom.Rd08(p + 5))), 6 + 4 * rom.Rd08(p + 5))
    case 0x59 => Leaf(Skip, 7)
    case 0x5a => Leaf(Write(rom.Rd32(p + 1), rom.Rd32(rom.Rd16(p + 5))), 7)
    case 0x5b => Call(true, rom.Rd16(p + 1), 3)
    case 0x5c => Jump(rom.Rd16(p + 1))
    case 0x5e => Leaf(I2cIf(rom.Rd08(p + 1), rom.Rd08(p + 2), rom.Rd08(p + 3), rom.Rd08(p + 4), rom.Rd08(p + 5)), 6)
    case 0x5f => Leaf(CopyNvReg(rom.Rd32(p + 1), rom.Rd08(p + 5), rom.Rd32(p + 6), rom.Rd32(p + 10), rom.Rd32(p + 14),
                                rom.Rd32(p + 18)), 22)
    case 0x62 => Leaf(Skip, 5)
    case 0x63 => Leaf(Skip, 1)
    case 0x65 => Leaf(Reset(rom.Rd32(p + 1), rom.Rd32(p + 5), rom.Rd32(p + 9)), 13)
    case 0x66 => Leaf(Skip, 1)
    case 0x67 => Leaf(Skip, 1)
    case 0x68 => Leaf(Skip, 1)
    case 0x69 => Leaf(Io(rom.Rd16(p + 1), rom.Rd08(p + 3), rom.Rd08(p + 4)), 5)
    case 0x6b => Call(false, SubTarget(rom, rom.Rd08(p + 1)), 2)
    case 0x6d => Leaf(Condition(Some(Test(0x100000, rom.Rd08(p + 1), rom.Rd08(p + 2)))), 3)
    case 0x6e => Leaf(Mask(rom.Rd32(p + 1), 0xffffffff - rom.Rd32(p + 5), rom.Rd32(p + 9)), 13)
    case 0x6f => Leaf(MacroAt(rom, rom.Rd08(p + 1)), 2)
    case 0x71 => Done
    case 0x72 => Leaf(Resume, 1)
    case 0x73 => Leaf(Condition(Some(Test(0x101000, rom.Rd32(p + 1), rom.Rd32(p + 5)))), 9)
    case 0x74 => Leaf(Skip, 3)
    case 0x75 => Leaf(Condition(ConditionAt(rom, rom.Rd08(p + 1))), 2)
    case 0x76 => Leaf(IoCondition(IoConditionAt(rom, rom.Rd08(p + 1))), 2)
    case 0x77 => Leaf(Write(rom.Rd32(p + 1), rom.Rd16(p + 5)), 7)
    case 0x78 => Leaf(Skip, 6)
    case 0x79 => Leaf(Skip, 7)
    case 0x7a => Leaf(ZmReg(rom.Rd32(p + 1), rom.Rd32(p + 5)), 9)
    case 0x87 => Leaf(RamRestrictPll, 2 + 4 * RamcfgCount(rom))
    case 0x8c => Leaf(Skip, 1)
    case 0x8d => Leaf(Skip, 1)
    case 0x8e => Leaf(GpioReset({}), 1)
    case 0x8f => Leaf(RamRestrictGroup(rom.Rd32(p + 1), rom.Rd08(p + 5),
                                       Rows(rom, p + 7, rom.Rd08(p + 6), RamcfgCount(rom))),
                      7 + 4 * RamcfgCount(rom) * rom.Rd08(p + 6))
    case 0x90 => Leaf(CopyReg(rom.Rd32(p + 1), rom.Rd32(p + 5)), 9)
    case 0x91 => Leaf(WriteGroup(rom.Rd32(p + 1), rom.Words(p + 6, rom.Rd08(p + 5))), 6 + 4 * rom.Rd08(p + 5))
    case 0x92 => Leaf(Skip, 1)
    case 0x96 => Leaf(Xlat(rom.Rd32(p + 1), rom.Rd08(p + 5), rom.Rd08(p + 6), rom.Rd08(p + 7), rom.Rd32(p + 8),
                           rom.Rd32(p + 12), rom.Rd08(p + 16)), 17)
    case 0x97 => Leaf(MaskAdd(rom.Rd32(p + 1), rom.Rd32(p + 5), rom.Rd32(p + 9)), 13)
    case 0x98 => Leaf(Skip, 6 + 2 * rom.Rd08(p + 5))
    case 0x99 => Leaf(Skip, 6 + rom.Rd08(p + 5))
    case 0x9a => Leaf(I2cLongIf(rom.Rd08(p + 1), rom.Rd08(p + 2) / 2, rom.Rd08(p + 3), rom.Rd08(p + 4), rom.Rd08(p + 5),
                                rom.Rd08(p + 6)), 7)
    case 0xa9 => Leaf(GpioReset(Elements(rom.Bytes(p + 2, rom.Rd08(p + 1)))), 2 + rom.Rd08(p + 1))
    case 0xaa => Leaf(Skip, 4)
    case _ => Unknown(op)
  }

  // ---- effects ---------------------------------------------------------------

  function WriteAll(s: Sem, addr: nat, step: nat, words: seq<word>): Sem
    decreases |words|
  {
    if words == [] then s else WriteAll(RegWr(s, addr, words[0]), addr + step, step, words[1..])
  }

  /** Of each row of configuration values only the strap's column is written. */
  function WriteColumn(s: Sem, addr: nat, incr: nat, rows: seq<seq<word>>, index: nat): Sem
    decreases |rows|
  {
    if rows == [] then s
    else
      var s := if index < |rows[0]| then RegWr(s, addr, rows[0][index]) else s;
      WriteColumn(s, addr + incr, incr, rows[1..], index)
  }

  function SendPairs(d: Device, s: Sem, bus: byte, dev: byte, pairs: seq<(byte, byte)>): Sem
    decreases |pairs|
  {
    if pairs == [] then s
    else
      var s := if Enabled(s) then Transfer(d, s, bus, dev, [Send([pairs[0].0, pairs[0].1])]).1 else s;
      SendPairs(d, s, bus, dev, pairs[1..])
  }

  /** Read, mask, write back; a failed read skips the write. */
  function MaskI2c(d: Device, s: Sem, bus: byte, dev: byte, triple: (byte, byte, byte)): Sem {
    var (reply, s) := Transfer(d, s, bus, dev, [Send([triple.0]), Receive(1)]);
    match reply
    case Failed(_) => s
    case Got(value) => Transfer(d, s, bus, dev, [Send([triple.0, Or(And(value, triple.1), triple.2) % 0x100])]).1
  }

  function MaskTriples(d: Device, s: Sem, bus: byte, dev: byte, triples: seq<(byte, byte, byte)>): Sem
    decreases |triples|
  {
    if triples == [] then s
    else MaskTriples(d, if Enabled(s) then MaskI2c(d, s, bus, dev, triples[0]) else s, bus, dev, triples[1..])
  }

  function WriteCrs(s: Sem, pairs: seq<(byte, byte)>): Sem
    decreases |pairs|
  {
    if pairs == [] then s else WriteCrs(VgaWr(s, 0x03d4, pairs[0].0, pairs[0].1), pairs[1..])
  }

  function LatchAll(s: Sem, addr0: byte, addr1: byte, base: byte, bytes: seq<byte>): Sem
    decreases |bytes|
  {
    if bytes == [] then s
    else
      var s := VgaWr(VgaWr(s, 0x03d4, addr0, base), 0x03d4, addr1, bytes[0]);
      LatchAll(s, addr0, addr1, (base + 1) % 0x100, bytes[1..])
  }

  function Met(d: Device, s: Sem, test: Option<Test>): (bool, Sem) {
    match test
    case None => (false, s)
    case Some(t) => var (value, s) := RegRd(d, s, t.reg); (And(value, t.mask) == t.val, s)
  }

  function IoMet(d: Device, s: Sem, io: Option<IoTest>): (bool, Sem) {
    match io
    case None => (false, s)
    case Some(t) => var (value, s) := VgaRd(d, s, t.port, t.index); (And(value, t.mask) == t.val, s)
  }

  function FlagMet(rom: Rom, d: Device, s: Sem, flag: Option<IoFlag>): (bool, Sem) {
    match flag
    case None => (false, s)
    case Some(t) =>
      var (value, s) := VgaRd(d, s, t.port, t.index);
      (And(rom.Rd08(t.data + Shr(And(value, t.mask), t.shift)), t.dataMask) == t.val, s)
  }

  /** What follows a condition: a false one disables. */
  function DisableUnless(r: (bool, Sem)): Sem {
    if r.0 then r.1 else SetEnabled(r.1, false)
  }

  function Poll(d: Device, s: Sem, test: Option<Test>, wait: nat): (bool, Sem)
    decreases wait
  {
    if wait == 0 then (false, s)
    else
      var (met, s) := Met(d, s, test);
      if met then (true, s) else Poll(d, s, test, wait - 1)
  }

  /** The VGA enable port of an NV50 and later has a reset sequence of its own. */
  function EnableVga(d: Device, s: Sem): Sem {
    var s := RegMask(d, s, 0x614100, 0xf0800000, 0x00800000).1;
    var s := RegMask(d, s, 0x00e18c, 0x00020000, 0x00020000).1;
    var s := RegMask(d, s, 0x614900, 0xf0800000, 0x00800000).1;
    var s := RegMask(d, s, 0x000200, 0x40000000, 0x00000000).1;
    var s := RegMask(d, s, 0x00e18c, 0x00020000, 0x00000000).1;
    var s := RegMask(d, s, 0x000200, 0x40000000, 0x40000000).1;
    var s := RegWr(RegWr(s, 0x614100, 0x00800018), 0x614900, 0x00800018);
    RegWr(RegWr(s, 0x614100, 0x10000018), 0x614900, 0x10000018)
  }

  function ResetGpio(d: Device, s: Sem, g: Gpio): Sem {
    var s := RegMask(d, s, g.reg, 0x00003000, Xor(g.level, 2) * 0x1000 % U32).1;
    var s := RegMask(d, s, 0x00d604, 0x00000001, 0x00000001).1;
    var s := RegMask(d, s, g.reg, 0x000000ff, g.unk0).1;
    if g.unk1 == 0 then s else RegMask(d, s, 0x00d740 + (g.unk1 - 1) * 4, 0x000000ff, g.line).1
  }

  function ResetGpios(d: Device, s: Sem, gpios: seq<Gpio>, excluded: set<byte>): Sem
    decreases |gpios|
  {
    if gpios == [] then s
    else
      var skip := gpios[0].func == 0xff || gpios[0].func in excluded;
      ResetGpios(d, if skip then s else ResetGpio(d, s, gpios[0]), gpios[1..], excluded)
  }

  /** How many lines a reset goes over. */
  function LinesReset(gpios: seq<Gpio>, excluded: set<byte>): nat
    decreases |gpios|
  {
    if gpios == [] then 0
    else (if gpios[0].func == 0xff || gpios[0].func in excluded then 0 else 1) + LinesReset(gpios[1..], excluded)
  }

  /** Functions of the lines whose register did not hold the level it gets. */
  function LinesChanged(d: Device, s: Sem, gpios: seq<Gpio>, excluded: set<byte>): seq<byte>
    decreases |gpios|
  {
    if gpios == [] then []
    else if gpios[0].func == 0xff || gpios[0].func in excluded then LinesChanged(d, s, gpios[1..], excluded)
    else
      var g := gpios[0];
      (if And(RegRd(d, s, g.reg).0, 0x3000) != Xor(g.level, 2) * 0x1000 then [g.func] else []) +
      LinesChanged(d, ResetGpio(d, s, g), gpios[1..], excluded)
  }

  /** RESET runs with the force bit up, so it writes whatever the flag says. */
  function ResetEngine(d: Device, s: Sem, reg: nat, data1: word, data2: word): Sem {
    var (save, s) := RegMask(d, Force(s, true), 0x00184c, 0x00000f00, 0);
    var s := RegWr(RegWr(RegWr(s, reg, data1), reg, data2), 0x00184c, save);
    Force(RegMask(d, s, 0x001850, 0x00000001, 0).1, false)
  }

  function XlatValue(rom: Rom, table: byte, data: nat): nat {
    var t := rom.tables.xlat;
    if t == 0 || t + table * 2 + 2 > |rom.image| then data
    else
      var p := rom.Rd16(t + table * 2);
      if p != 0 && p + data < |rom.image| then rom.Rd08(p + data) else data
  }

  /** The effect of one instruction that does not steer the loop. */
  function Effect(rom: Rom, d: Device, op: Op, s: Sem): Sem {
    match op
    case Skip => s
    case Resume => SetEnabled(s, true)
    case Not => Invert(s)
    case ZmReg(addr, data) => RegWr(s, addr, if addr == 0x000200 then Or(data, 1) else data)
    case Write(addr, data) => RegWr(s, addr, data)
    case Mask(addr, mask, val) => RegMask(d, s, addr, mask, val).1
    case WriteGroup(addr, words) => WriteAll(s, addr, 0, words)
    case WriteSequence(addr, words) => WriteAll(s, addr, 4, words)
    case MaskAdd(addr, mask, add) =>
      var (data, s) := RegRd(d, s, addr);
      RegWr(s, addr, Or(And(data, mask), And((data + add) % U32, 0xffffffff - mask)))
    case CopyReg(src, dst) => var (data, s) := RegRd(d, s, src); RegWr(s, dst, data)
    case CopyNvReg(src, shift, srcMask, srcXor, dst, dstMask) =>
      var (data, s) := RegRd(d, s, src);
      RegMask(d, s, dst, 0xffffffff - dstMask, Xor(And(ShiftBy(data, shift), srcMask), srcXor) % U32).1
    case RamRestrictGroup(addr, incr, rows) =>
      var (index, s) := RamcfgIndex(rom, d, s); WriteColumn(s, addr, incr, rows, index)
    case RamRestrictPll => RamcfgIndex(rom, d, s).1
    case SendI2c(bus, dev, bytes) => if Enabled(s) then Transfer(d, s, bus, dev, [Send(bytes)]).1 else s
    case SendI2cBytes(bus, dev, pairs) => SendPairs(d, s, bus, dev, pairs)
    case MaskI2cBytes(bus, dev, triples) => MaskTriples(d, s, bus, dev, triples)
    case I2cIf(bus, dev, sub, mask, data) =>
      var (reply, s) := Transfer(d, Force(s, true), bus, dev, [Send([sub]), Receive(1)]);
      var value := match reply case Got(value) => value case Failed(u8) => u8;
      Force(DisableUnless((And(value, mask) == data, s)), false)
    case I2cLongIf(bus, dev, sub, subHigh, mask, data) =>
      var (reply, s) := Transfer(d, s, bus, dev, [Send([subHigh, sub]), Receive(1)]);
      DisableUnless((reply.Got? && And(reply.value, mask) == data, s))
    case Cr(index, mask, data) =>
      var (value, s) := VgaRd(d, s, 0x03d4, index); VgaWr(s, 0x03d4, index, Or(And(value, mask), data))
    case ZmCrs(pairs) => WriteCrs(s, pairs)
    case CrLatch(addr0, addr1, base, bytes) =>
      var (save, s) := VgaRd(d, s, 0x03d4, addr0);
      VgaWr(LatchAll(s, addr0, addr1, base, bytes), 0x03d4, addr0, save)
    case Io(port, mask, data) =>
      var s := if port == 0x03c3 && data == 0x01 then EnableVga(d, s) else s;
      var (value, s) := PortRd(d, s, port);
      PortWr(s, port, Or(data, And(value, mask)))
    case Condition(test) => if Enabled(s) then DisableUnless(Met(d, s, test)) else s
    case IoCondition(io) => if Enabled(s) then DisableUnless(IoMet(d, s, io)) else s
    case IoFlagCondition(flag) => if Enabled(s) then DisableUnless(FlagMet(rom, d, s, flag)) else s
    case GenericCondition => if Enabled(s) then SetEnabled(s, false) else s
    case ConditionTime(test, retry) =>
      if Enabled(s) then DisableUnless(Poll(d, s, test, if retry * 50 < 100 then retry * 50 else 100)) else s
    case Reset(reg, data1, data2) => ResetEngine(d, s, reg, data1, data2)
    case IoRestrictProg(port, index, mask, shift, reg, words) =>
      var (value, s) := VgaRd(d, s, port, index);
      var conf := Shr(And(value, mask), shift);
      if conf < |words| then RegWr(s, reg, words[conf]) else s
    case IoRestrictPll(port, index, mask, shift, count, flag) =>
      var (value, s) := VgaRd(d, s, port, index);
      if Shr(And(value, mask), shift) < count then FlagMet(rom, d, s, flag).1 else s
    case CopyVga(reg, shift, srcMask, port, index, mask) =>
      var (value, s) := VgaRd(d, s, port, index);
      var (data, s) := RegRd(d, s, reg);
      VgaWr(s, port, index, Or(And(value, mask), And(ShiftBy(data, shift), srcMask)))
    case Xlat(src, shift, srcMask, table, dst, dstMask, dstShift) =>
      var (data, s) := RegRd(d, s, src);
      var data := XlatValue(rom, table, And(ShiftBy(data, shift), srcMask));
      RegMask(d, s, dst, 0xffffffff - dstMask, Shl(data, dstShift) % U32).1
    case GpioReset(excluded) => if Enabled(s) then ResetGpios(d, s, rom.gpios, excluded) else s
  }
}
