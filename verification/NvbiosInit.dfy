/** The interpreter itself: `NvbiosInit` of examples_en210/add.py with its
    fields updated in place, proved against `Effect` and `NvinitRun`. */
module NvbiosInit {
  import opened Bits
  import opened Words
  import opened Wrappers
  import opened Nvinit
  import opened NvinitRun
  import opened NvinitStructured

  /** The device behind the transport: what it answers, and what was done to it. */
  class Hardware {
    const answers: Device
    var trace: seq<Event>

    constructor (answers: Device)
      ensures this.answers == answers && trace == []
    {
      this.answers := answers;
      trace := [];
    }

    method Read32(reg: nat) returns (v: word)
      modifies this
      ensures v == answers.read32(old(trace), reg) && trace == old(trace) + [Rd32(reg)]
    {
      v := answers.read32(trace, reg);
      trace := trace + [Rd32(reg)];
    }

    method Write32(reg: nat, val: nat)
      modifies this
      ensures trace == old(trace) + [Wr32(reg, val % U32)]
    {
      trace := trace + [Wr32(reg, val % U32)];
    }

    method Read8(reg: nat) returns (v: byte)
      modifies this
      ensures v == answers.read8(old(trace), reg) && trace == old(trace) + [Rd8(reg)]
    {
      v := answers.read8(trace, reg);
      trace := trace + [Rd8(reg)];
    }

    method Write8(reg: nat, val: byte)
      modifies this
      ensures trace == old(trace) + [Wr8(reg, val)]
    {
      trace := trace + [Wr8(reg, val)];
    }

    method Xfer(e: Event) returns (r: I2cReply)
      modifies this
      ensures r == answers.i2c(old(trace), e) && trace == old(trace) + [e]
    {
      r := answers.i2c(trace, e);
      trace := trace + [e];
    }
  }

  /** How a run of the loop ends: at offset 0, on an unknown opcode, or because
      the instructions it was allowed are used up. */
  datatype Stop = Returned | NoHandler(opcode: byte) | Exhausted

  class Init {
    const rom: Rom
    const dev: Hardware
    var offset: nat
    var execute: bv8
    var nested: int
    var repeat: nat
    var repend: nat
    var strap: Option<nat>

    constructor (rom: Rom, dev: Hardware)
      ensures this.rom == rom && this.dev == dev
      ensures V() == Vm(0, 0, 0, 0, Sem(1, None, dev.trace))
    {
      this.rom := rom;
      this.dev := dev;
      offset, execute, nested, repeat, repend, strap := 0, 1, 0, 0, 0, None;
    }

    /** What instructions other than control flow see. */
    ghost function S(): Sem
      reads this, dev
    {
      Sem(execute, strap, dev.trace)
    }

    ghost function V(): Vm
      reads this, dev
    {
      Vm(offset, nested, repeat, repend, S())
    }

    // ---- execute flag --------------------------------------------------------

    predicate InitExec()
      reads this`execute
    {
      execute == 1 || execute & 5 == 5
    }

    method InitExecSet(on: bool)
      modifies this`execute
      ensures S() == SetEnabled(old(S()), on)
      ensures execute & 2 == (if on then 0 else 2) && execute & 0xfd == old(execute) & 0xfd
    {
      if on { execute := execute & 0xfd; } else { execute := execute | 2; }
    }

    method InitExecInv()
      modifies this`execute
      ensures S() == Invert(old(S()))
      ensures execute & 2 != old(execute) & 2 && execute & 0xfd == old(execute) & 0xfd
    {
      execute := execute ^ 2;
    }

    method InitExecForce(on: bool)
      modifies this`execute
      ensures S() == Force(old(S()), on)
      ensures execute & 4 == (if on then 4 else 0) && execute & 0xfb == old(execute) & 0xfb
    {
      if on { execute := execute | 4; } else { execute := execute & 0xfb; }
    }

    // ---- accessors -----------------------------------------------------------

    method ReadReg(reg: nat) returns (v: word)
      modifies dev
      ensures (v, S()) == RegRd(dev.answers, old(S()), reg)
    {
      if !InitExec() { return 0; }
      v := dev.Read32(NvReg(reg));
    }

    method WriteReg(reg: nat, val: nat)
      modifies dev
      ensures S() == RegWr(old(S()), reg, val)
    {
      if InitExec() { dev.Write32(NvReg(reg), val); }
    }

    method MaskReg(reg: nat, mask: word, val: word) returns (v: word)
      modifies dev
      ensures (v, S()) == RegMask(dev.answers, old(S()), reg, mask, val)
    {
      if !InitExec() { return 0; }
      v := dev.Read32(NvReg(reg));
      dev.Write32(NvReg(reg), Or(And(v, 0xffffffff - mask), val));
    }

    method ReadPort(port: nat) returns (v: byte)
      modifies dev
      ensures (v, S()) == PortRd(dev.answers, old(S()), port)
    {
      if !InitExec() { return 0; }
      v := dev.Read8(VGA_WINDOW + port % 0x10000);
    }

    method WritePort(port: nat, val: nat)
      modifies dev
      ensures S() == PortWr(old(S()), port, val)
    {
      if InitExec() { dev.Write8(VGA_WINDOW + port % 0x10000, val % 0x100); }
    }

    method ReadVga(port: nat, index: nat) returns (v: byte)
      modifies dev
      ensures (v, S()) == VgaRd(dev.answers, old(S()), port, index)
    {
      if !IsVgaIndex(port) || !InitExec() { return 0; }
      WritePort(port, index);
      v := ReadPort(port + 1);
    }

    method WriteVga(port: nat, index: nat, val: nat)
      modifies dev
      ensures S() == VgaWr(old(S()), port, index, val)
    {
      if !IsVgaIndex(port) || !InitExec() { return; }
      WritePort(port, index);
      WritePort(port + 1, val);
    }

    method TransferI2c(index: byte, addr: byte, messages: seq<Message>) returns (r: I2cReply)
      modifies dev
      ensures (r, S()) == Transfer(dev.answers, old(S()), index, addr, messages)
    {
      r := dev.Xfer(I2c(index, addr, messages));
    }

    method ReadStrap() returns (index: nat)
      modifies this`strap, dev
      ensures (index, S()) == RamcfgIndex(rom, dev.answers, old(S()))
    {
      match strap
      case Some(i) => index := i;
      case None =>
        var bits: nat;
        if rom.forcedStrap.Some? {
          bits := rom.forcedStrap.value % 0x10;
        } else {
          var v := ReadReg(STRAP_REG);
          bits := v / 4 % 0x10;
        }
        index := StrapIndex(rom, bits);
        strap := Some(index);
    }

    // ---- handlers with loops -------------------------------------------------

    method WriteWords(addr: nat, step: nat, words: seq<word>)
      modifies dev
      ensures S() == WriteAll(old(S()), addr, step, words)
    {
      var i := 0;
      while i < |words|
        invariant 0 <= i <= |words|
        invariant unchanged(this)
        invariant WriteAll(S(), addr + i * step, step, words[i..]) == WriteAll(old(S()), addr, step, words)
      {
        WriteReg(addr + i * step, words[i]);
        assert addr + i * step + step == addr + (i + 1) * step;
        assert words[i..][1..] == words[i + 1..];
        i := i + 1;
      }
    }

    method WriteRows(addr: nat, incr: nat, rows: seq<seq<word>>, index: nat)
      modifies dev
      ensures S() == WriteColumn(old(S()), addr, incr, rows, index)
    {
      var i: nat, a: nat := 0, addr;
      while i < |rows|
        invariant 0 <= i <= |rows|
        invariant unchanged(this)
        invariant WriteColumn(S(), a, incr, rows[i..], index) == WriteColumn(old(S()), addr, incr, rows, index)
      {
        if index < |rows[i]| { WriteReg(a, rows[i][index]); }
        assert rows[i..][1..] == rows[i + 1..];
        i, a := i + 1, a + incr;
      }
    }

    method SendI2cPairs(bus: byte, device: byte, pairs: seq<(byte, byte)>)
      modifies dev
      ensures S() == SendPairs(dev.answers, old(S()), bus, device, pairs)
    {
      var i := 0;
      while i < |pairs|
        invariant 0 <= i <= |pairs|
        invariant unchanged(this)
        invariant SendPairs(dev.answers, S(), bus, device, pairs[i..]) ==
                  SendPairs(dev.answers, old(S()), bus, device, pairs)
      {
        if InitExec() {
          var _ := TransferI2c(bus, device, [Send([pairs[i].0, pairs[i].1])]);
        }
        assert pairs[i..][1..] == pairs[i + 1..];
        i := i + 1;
      }
    }

    method MaskI2cRegs(bus: byte, device: byte, triples: seq<(byte, byte, byte)>)
      modifies dev
      ensures S() == MaskTriples(dev.answers, old(S()), bus, device, triples)
    {
      var i := 0;
      while i < |triples|
        invariant 0 <= i <= |triples|
        invariant unchanged(this)
        invariant MaskTriples(dev.answers, S(), bus, device, triples[i..]) ==
                  MaskTriples(dev.answers, old(S()), bus, device, triples)
      {
        var (sub, mask, data) := triples[i];
        assert triples[i..][1..] == triples[i + 1..];
        i := i + 1;
        if InitExec() {
          var r := TransferI2c(bus, device, [Send([sub]), Receive(1)]);
          if r.Failed? { continue; }
          var _ := TransferI2c(bus, device, [Send([sub, Or(And(r.value, mask), data) % 0x100])]);
        }
      }
    }

    method WriteVgaCrs(pairs: seq<(byte, byte)>)
      modifies dev
      ensures S() == WriteCrs(old(S()), pairs)
    {
      var i := 0;
      while i < |pairs|
        invariant 0 <= i <= |pairs|
        invariant unchanged(this)
        invariant WriteCrs(S(), pairs[i..]) == WriteCrs(old(S()), pairs)
      {
        WriteVga(0x03d4, pairs[i].0, pairs[i].1);
        assert pairs[i..][1..] == pairs[i + 1..];
        i := i + 1;
      }
    }

    method LatchCrs(addr0: byte, addr1: byte, base: byte, bytes: seq<byte>)
      modifies dev
      ensures S() == LatchAll(old(S()), addr0, addr1, base, bytes)
    {
      var i: nat, b: byte := 0, base;
      while i < |bytes|
        invariant 0 <= i <= |bytes|
        invariant unchanged(this)
        invariant LatchAll(S(), addr0, addr1, b, bytes[i..]) == LatchAll(old(S()), addr0, addr1, base, bytes)
      {
        WriteVga(0x03d4, addr0, b);
        WriteVga(0x03d4, addr1, bytes[i]);
        assert bytes[i..][1..] == bytes[i + 1..];
        i, b := i + 1, (b as int + 1) % 0x100;
      }
    }

    method IsMet(test: Option<Test>) returns (met: bool)
      modifies dev
      ensures (met, S()) == Met(dev.answers, old(S()), test)
    {
      match test
      case None => met := false;
      case Some(t) =>
        var v := ReadReg(t.reg);
        met := And(v, t.mask) == t.val;
    }

    method IsFlagMet(flag: Option<IoFlag>) returns (met: bool)
      modifies dev
      ensures (met, S()) == FlagMet(rom, dev.answers, old(S()), flag)
    {
      match flag
      case None => met := false;
      case Some(t) =>
        var v := ReadVga(t.port, t.index);
        met := And(rom.Rd08(t.data + Shr(And(v, t.mask), t.shift)), t.dataMask) == t.val;
    }

    method WaitFor(test: Option<Test>, limit: nat) returns (met: bool)
      modifies dev
      ensures (met, S()) == Poll(dev.answers, old(S()), test, limit)
    {
      var wait: nat := limit;
      met := false;
      while wait > 0
        invariant wait <= limit && !met
        invariant unchanged(this)
        invariant Poll(dev.answers, S(), test, wait) == Poll(dev.answers, old(S()), test, limit)
      {
        met := IsMet(test);
        if met { return; }
        wait := wait - 1;
      }
    }

    method ResetGpioLine(g: Gpio) returns (was: word)
      modifies dev
      ensures S() == ResetGpio(dev.answers, old(S()), g) && was == RegRd(dev.answers, old(S()), g.reg).0
    {
      hide Merge, Xor, NvReg;
      was := MaskReg(g.reg, 0x00003000, Xor(g.level, 2) * 0x1000 % U32);
      var v := MaskReg(0x00d604, 0x00000001, 0x00000001);
      v := MaskReg(g.reg, 0x000000ff, g.unk0);
      if g.unk1 != 0 {
        v := MaskReg(0x00d740 + (g.unk1 - 1) * 4, 0x000000ff, g.line);
      }
    }

    method ResetGpioLines(excluded: set<byte>) returns (count: nat, changed: seq<byte>)
      modifies dev
      ensures S() == ResetGpios(dev.answers, old(S()), rom.gpios, excluded)
      ensures count == LinesReset(rom.gpios, excluded)
      ensures changed == LinesChanged(dev.answers, old(S()), rom.gpios, excluded)
    {
      hide And, Xor, ResetGpio;
      var i := 0;
      count, changed := 0, [];
      while i < |rom.gpios|
        invariant 0 <= i <= |rom.gpios|
        invariant unchanged(this)
        invariant ResetGpios(dev.answers, S(), rom.gpios[i..], excluded) ==
                  ResetGpios(dev.answers, old(S()), rom.gpios, excluded)
        invariant count + LinesReset(rom.gpios[i..], excluded) == LinesReset(rom.gpios, excluded)
        invariant changed + LinesChanged(dev.answers, S(), rom.gpios[i..], excluded) ==
                  LinesChanged(dev.answers, old(S()), rom.gpios, excluded)
      {
        assert rom.gpios[i..][1..] == rom.gpios[i + 1..];
        var g := rom.gpios[i];
        i := i + 1;
        if g.func == 0xff || g.func in excluded { continue; }
        var was := ResetGpioLine(g);
        if And(was, 0x00003000) != Xor(g.level, 2) * 0x1000 {
          changed := changed + [g.func];
        }
        count := count + 1;
      }
    }

    method EnableVgaPort()
      modifies dev
      ensures S() == EnableVga(dev.answers, old(S()))
    {
      var v := MaskReg(0x614100, 0xf0800000, 0x00800000);
      v := MaskReg(0x00e18c, 0x00020000, 0x00020000);
      v := MaskReg(0x614900, 0xf0800000, 0x00800000);
      v := MaskReg(0x000200, 0x40000000, 0x00000000);
      v := MaskReg(0x00e18c, 0x00020000, 0x00000000);
      v := MaskReg(0x000200, 0x40000000, 0x40000000);
      WriteReg(0x614100, 0x00800018);
      WriteReg(0x614900, 0x00800018);
      WriteReg(0x614100, 0x10000018);
      WriteReg(0x614900, 0x10000018);
    }

    method ResetUnit(reg: nat, data1: word, data2: word)
      modifies this`execute, dev
      ensures S() == ResetEngine(dev.answers, old(S()), reg, data1, data2)
    {
      InitExecForce(true);
      var save := MaskReg(0x00184c, 0x00000f00, 0);
      WriteReg(reg, data1);
      WriteReg(reg, data2);
      WriteReg(0x00184c, save);
      var _ := MaskReg(0x001850, 0x00000001, 0);
      InitExecForce(false);
    }

    // ---- one instruction -----------------------------------------------------

    method HandleWrite(op: Op)
      requires op.ZmReg? || op.Write? || op.Mask? || op.WriteGroup? || op.WriteSequence? || op.MaskAdd? || op.CopyReg?
      modifies this`execute, this`strap, dev
      ensures S() == Effect(rom, dev.answers, op, old(S()))
    {
      match op
      case ZmReg(addr, data) => WriteReg(addr, if addr == 0x000200 then Or(data, 1) else data);
      case Write(addr, data) => WriteReg(addr, data);
      case Mask(addr, mask, val) => var _ := MaskReg(addr, mask, val);
      case WriteGroup(addr, words) => WriteWords(addr, 0, words);
      case WriteSequence(addr, words) => WriteWords(addr, 4, words);
      case MaskAdd(addr, mask, add) =>
        var v := ReadReg(addr);
        WriteReg(addr, Or(And(v, mask), And((v as int + add) % U32, 0xffffffff - mask)));
      case CopyReg(src, dst) =>
        var v := ReadReg(src);
        WriteReg(dst, v);
    }

    method HandleCopy(op: Op)
      requires op.CopyNvReg? || op.Xlat?
      modifies this`execute, this`strap, dev
      ensures S() == Effect(rom, dev.answers, op, old(S()))
    {
      match op
      case CopyNvReg(src, shift, srcMask, srcXor, dst, dstMask) =>
        var v := ReadReg(src);
        var _ := MaskReg(dst, 0xffffffff - dstMask, Xor(And(ShiftBy(v, shift), srcMask), srcXor) % U32);
      case Xlat(src, shift, srcMask, table, dst, dstMask, dstShift) =>
        var v := ReadReg(src);
        var data := XlatValue(rom, table, And(ShiftBy(v, shift), srcMask));
        var _ := MaskReg(dst, 0xffffffff - dstMask, Shl(data, dstShift) % U32);
    }

    method HandleTable(op: Op)
      requires op.RamRestrictGroup? || op.RamRestrictPll? || op.Reset? || op.GpioReset?
      modifies this`execute, this`strap, dev
      ensures S() == Effect(rom, dev.answers, op, old(S()))
    {
      match op
      case RamRestrictGroup(addr, incr, rows) =>
        var index := ReadStrap();
        WriteRows(addr, incr, rows, index);
      case RamRestrictPll => var _ := ReadStrap();
      case Reset(reg, data1, data2) => ResetUnit(reg, data1, data2);
      case GpioReset(excluded) => if InitExec() { var _, _ := ResetGpioLines(excluded); }
    }

    method HandleI2c(op: Op)
      requires op.SendI2c? || op.SendI2cBytes? || op.MaskI2cBytes? || op.I2cIf? || op.I2cLongIf?
      modifies this`execute, this`strap, dev
      ensures S() == Effect(rom, dev.answers, op, old(S()))
    {
      match op
      case SendI2c(bus, device, bytes) =>
        if InitExec() { var _ := TransferI2c(bus, device, [Send(bytes)]); }
      case SendI2cBytes(bus, device, pairs) => SendI2cPairs(bus, device, pairs);
      case MaskI2cBytes(bus, device, triples) => MaskI2cRegs(bus, device, triples);
      case I2cIf(bus, device, sub, mask, data) =>
        InitExecForce(true);
        var r := TransferI2c(bus, device, [Send([sub]), Receive(1)]);
        var value := match r case Got(value) => value case Failed(u8) => u8;
        if And(value, mask) != data { InitExecSet(false); }
        InitExecForce(false);
      case I2cLongIf(bus, device, sub, subHigh, mask, data) =>
        var r := TransferI2c(bus, device, [Send([subHigh, sub]), Receive(1)]);
        var matched := r.Got? && And(r.value, mask) == data;
        if !matched { InitExecSet(false); }
    }

    method HandleVga(op: Op)
      requires op.Cr? || op.ZmCrs? || op.CrLatch? || op.CopyVga?
      modifies this`execute, this`strap, dev
      ensures S() == Effect(rom, dev.answers, op, old(S()))
    {
      hide And, Or, NvReg, ShiftBy, WriteCrs, LatchAll;
      match op
      case Cr(index, mask, data) =>
        var v := ReadVga(0x03d4, index);
        WriteVga(0x03d4, index, Or(And(v, mask), data));
      case ZmCrs(pairs) => WriteVgaCrs(pairs);
      case CrLatch(addr0, addr1, base, bytes) =>
        var save := ReadVga(0x03d4, addr0);
        LatchCrs(addr0, addr1, base, bytes);
        WriteVga(0x03d4, addr0, save);
      case CopyVga(reg, shift, srcMask, port, index, mask) =>
        var v := ReadVga(port, index);
        var data := ReadReg(reg);
        WriteVga(port, index, Or(And(v, mask), And(ShiftBy(data, shift), srcMask)));
    }

    method HandleIo(op: Op)
      requires op.Io? || op.IoRestrictProg? || op.IoRestrictPll?
      modifies this`execute, this`strap, dev
      ensures S() == Effect(rom, dev.answers, op, old(S()))
    {
      hide And, Or, Shr, NvReg;
      match op
      case Io(port, mask, data) =>
        if port == 0x03c3 && data == 0x01 { EnableVgaPort(); }
        var v := ReadPort(port);
        WritePort(port, Or(data, And(v, mask)));
      case IoRestrictProg(port, index, mask, shift, reg, words) =>
        var v := ReadVga(port, index);
        var conf := Shr(And(v, mask), shift);
        if conf < |words| { WriteReg(reg, words[conf]); }
      case IoRestrictPll(port, index, mask, shift, count, flag) =>
        var v := ReadVga(port, index);
        if Shr(And(v, mask), shift) < count { var _ := IsFlagMet(flag); }
    }

    method HandleFlag(op: Op)
      requires op.Skip? || op.Resume? || op.Not? || op.Condition? || op.IoCondition? || op.IoFlagCondition? ||
               op.GenericCondition? || op.ConditionTime?
      modifies this`execute, this`strap, dev
      ensures S() == Effect(rom, dev.answers, op, old(S()))
    {
      hide And, Shr, SetEnabled, Invert, NvReg, Poll, FlagMet;
      match op
      case Skip =>
      case Resume => InitExecSet(true);
      case Not => InitExecInv();
      case Condition(test) =>
        if InitExec() {
          var met := IsMet(test);
          if !met { InitExecSet(false); }
        }
      case IoCondition(io) =>
        if InitExec() {
          var met := false;
          if io.Some? {
            var v := ReadVga(io.value.port, io.value.index);
            met := And(v, io.value.mask) == io.value.val;
          }
          if !met { InitExecSet(false); }
        }
      case IoFlagCondition(flag) =>
        if InitExec() {
          var met := IsFlagMet(flag);
          if !met { InitExecSet(false); }
        }
      case GenericCondition => if InitExec() { InitExecSet(false); }
      case ConditionTime(test, retry) =>
        if InitExec() {
          var limit := if retry * 50 < 100 then retry * 50 else 100;
          var met := WaitFor(test, limit);
          if !met { InitExecSet(false); }
        }
    }

    method Handle(op: Op)
      modifies this`execute, this`strap, dev
      ensures S() == Effect(rom, dev.answers, op, old(S()))
    {
      if op.Skip? || op.Resume? || op.Not? || op.Condition? || op.IoCondition? || op.IoFlagCondition? ||
         op.GenericCondition? || op.ConditionTime? {
        HandleFlag(op);
      } else if op.SendI2c? || op.SendI2cBytes? || op.MaskI2cBytes? || op.I2cIf? || op.I2cLongIf? {
        HandleI2c(op);
      } else if op.Cr? || op.ZmCrs? || op.CrLatch? || op.CopyVga? {
        HandleVga(op);
      } else if op.Io? || op.IoRestrictProg? || op.IoRestrictPll? {
        HandleIo(op);
      } else if op.CopyNvReg? || op.Xlat? {
        HandleCopy(op);
      } else if op.RamRestrictGroup? || op.RamRestrictPll? || op.Reset? || op.GpioReset? {
        HandleTable(op);
      } else {
        HandleWrite(op);
      }
    }

    // ---- control flow --------------------------------------------------------

    /** What a method that ended with r in this state has computed. */
    ghost function Result(r: Stop): Outcome
      reads this, dev
    {
      match r
      case Returned => Finished(V())
      case NoHandler(op) => BadOpcode(op)
      case Exhausted => OutOfFuel
    }

    method Run(start: nat, stop: Option<nat>, fuel: nat) returns (r: Stop)
      modifies this, dev
      ensures Result(r) == RunUntil(Nv(rom, dev.answers), old(V()), start, stop, fuel)
      ensures stop == None ==> Result(r) == RunScript(Nv(rom, dev.answers), old(V()), start, fuel)
      decreases fuel, 1
    {
      hide Loop, RunScript, LoopUntil, Nv;
      if stop == None {
        NoStopIsRun(Nv(rom, dev.answers), V(), start, stop, fuel);
      }
      if nested == 0 {
        execute, repeat, repend, strap := 1, 0, 0, None;
      }
      offset := start;
      nested := nested + 1;
      r := MainLoop(stop, fuel);
      nested := nested - 1;
    }

    /** run_script on a script laid out in the ROM: it returns, nesting and repeat
        state are as before, and the device has seen what the script means. */
    method RunStructured(ghost b: Block, start: nat, fuel: nat) returns (r: Stop)
      requires nested >= 0 && IsScript(Nv(rom, dev.answers), b, start) && fuel >= Need(b)
      modifies this, dev
      ensures r == Returned
      ensures V() == Fresh(old(V())).(offset := 0, sem := Meaning(Nv(rom, dev.answers), b, Fresh(old(V())).sem))
    {
      hide RunScript, Meaning, IsScript, Need, Fresh;
      StructuredScriptRuns(Nv(rom, dev.answers), b, V(), start, fuel);
      r := Run(start, None, fuel);
    }

    method MainLoop(stop: Option<nat>, fuel: nat) returns (r: Stop)
      modifies this, dev
      ensures Result(r) == LoopUntil(Nv(rom, dev.answers), old(V()), stop, fuel)
      decreases fuel, 0
    {
      hide LoopUntil, Step, Decode, Effect;
      ghost var nv := Nv(rom, dev.answers);
      var left: nat := fuel;
      while offset != 0
        invariant left <= fuel
        invariant LoopUntil(Nv(rom, dev.answers), V(), stop, left) ==
                  LoopUntil(Nv(rom, dev.answers), old(V()), stop, fuel)
        decreases left
      {
        LoopTurn(nv, V(), stop, left);
        if stop.Some? && nested == 1 && offset >= stop.value { break; }
        if left == 0 { return Exhausted; }
        left := left - 1;
        var s := Execute(left);
        if s != Returned { return s; }
      }
      LoopTurn(nv, V(), stop, left);
      return Returned;
    }

    method Execute(fuel: nat) returns (r: Stop)
      modifies this, dev
      ensures Result(r) == Step(Nv(rom, dev.answers), old(V()), fuel)
      decreases fuel, 4
    {
      r := Returned;
      match Decode(rom, offset)
      case Leaf(op, length) =>
        Handle(op);
        offset := offset + length;
      case Call(direct, target, length) => r := OpSub(direct, target, length, fuel);
      case Repeat(count) => r := OpRepeat(count, fuel);
      case EndRepeat =>
        offset := offset + 1;
        if repeat != 0 {
          repend := offset;
          offset := 0;
        }
      case Done => offset := 0;
      case Jump(target) => offset := if InitExec() then target else offset + 3;
      case Unknown(op) => r := NoHandler(op);
    }

    method OpSub(direct: bool, target: nat, length: nat, fuel: nat) returns (r: Stop)
      modifies this, dev
      ensures Result(r) == CallScript(Nv(rom, dev.answers), old(V()), direct, target, length, fuel)
      decreases fuel, 2
    {
      r := Returned;
      var save := offset + length;
      if InitExec() && (direct || target != 0) {
        r := Run(target, None, fuel);
      }
      offset := save;
    }

    method OpRepeat(n: byte, fuel: nat) returns (r: Stop)
      modifies this, dev
      ensures Result(r) == RepeatScript(Nv(rom, dev.answers), old(V()), n, fuel)
      decreases fuel, 3
    {
      var count: nat := n;
      offset := offset + 2;
      var oldRepeat, oldRepend := repeat, repend;
      repeat := offset;
      repend := offset;
      ghost var start := V();
      while count > 0
        invariant count <= n
        invariant Iterate(Nv(rom, dev.answers), V(), count, fuel) == Iterate(Nv(rom, dev.answers), start, n, fuel)
      {
        var s := Run(repeat, None, fuel);
        if s != Returned { return s; }
        count := count - 1;
      }
      offset := repend;
      repeat, repend := oldRepeat, oldRepend;
      return Returned;
    }
  }
}
