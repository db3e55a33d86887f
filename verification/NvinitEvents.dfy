/** What RESET, the VGA-enable port, GPIO resets, register copies and IO leave on
    the device, event by event, and that a disabled one leaves nothing. */
module NvinitEvents {
  import opened Bits
  import opened Words
  import opened Wrappers
  import opened Nvinit

  /** A masked write reads the register and writes it back; a plain one writes. */
  datatype Step = Masked(reg: nat, mask: word, val: word) | Plain(reg: nat, val: word)

  function Events(d: Device, trace: seq<Event>, step: Step): seq<Event> {
    match step
    case Masked(reg, mask, val) => [Rd32(reg), Wr32(reg, Merge(d.read32(trace, reg), mask, val) % U32)]
    case Plain(reg, val) => [Wr32(reg, val)]
  }

  /** The trace after these steps, each answered by the device in turn. */
  function Play(d: Device, trace: seq<Event>, steps: seq<Step>): seq<Event>
    decreases |steps|
  {
    if steps == [] then trace else Play(d, trace + Events(d, trace, steps[0]), steps[1..])
  }

  /** From s, the steps and nothing else lead to s'; none if s is disabled. */
  predicate Plays(d: Device, s: Sem, s': Sem, steps: seq<Step>) {
    s' == if Enabled(s) then s.(trace := Play(d, s.trace, steps)) else s
  }

  lemma {:induction false} PlayAppend(d: Device, trace: seq<Event>, a: seq<Step>, b: seq<Step>)
    ensures Play(d, trace, a + b) == Play(d, Play(d, trace, a), b)
    decreases |a|
  {
    hide Events;
    if a == [] {
      assert a + b == b;
    } else {
      assert (a + b)[1..] == a[1..] + b;
      PlayAppend(d, trace + Events(d, trace, a[0]), a[1..], b);
    }
  }

  lemma Then(d: Device, s: Sem, s1: Sem, s2: Sem, a: seq<Step>, b: seq<Step>)
    requires Plays(d, s, s1, a) && Plays(d, s1, s2, b)
    ensures Plays(d, s, s2, a + b)
  {
    hide Play;
    PlayAppend(d, s.trace, a, b);
  }

  lemma MaskPlays(d: Device, s: Sem, reg: nat, mask: word, val: word)
    ensures Plays(d, s, RegMask(d, s, reg, mask, val).1, [Masked(NvReg(reg), mask, val)])
  {
    hide NvReg, Merge;
    var step := Masked(NvReg(reg), mask, val);
    assert Play(d, s.trace, [step]) == s.trace + Events(d, s.trace, step);
  }

  lemma WritePlays(d: Device, s: Sem, reg: nat, val: word)
    ensures Plays(d, s, RegWr(s, reg, val), [Plain(NvReg(reg), val)])
  {
    hide NvReg;
    var step := Plain(NvReg(reg), val);
    assert Play(d, s.trace, [step]) == s.trace + Events(d, s.trace, step);
  }

  /** Registers below the selector bits are used as they are. */
  lemma PlainNumber(reg: nat)
    requires reg < 0x40000000 && reg % 4 == 0
    ensures NvReg(reg) == reg
  {
  }

  // ---- the VGA enable port -----------------------------------------------------

  function VgaMasks(): seq<Step> {
    [ Masked(0x614100, 0xf0800000, 0x00800000), Masked(0x00e18c, 0x00020000, 0x00020000),
      Masked(0x614900, 0xf0800000, 0x00800000), Masked(0x000200, 0x40000000, 0x00000000),
      Masked(0x00e18c, 0x00020000, 0x00000000), Masked(0x000200, 0x40000000, 0x40000000) ]
  }

  function VgaWrites(): seq<Step> {
    [ Plain(0x614100, 0x00800018), Plain(0x614900, 0x00800018), Plain(0x614100, 0x10000018),
      Plain(0x614900, 0x10000018) ]
  }

  lemma MaskAt(d: Device, s: Sem, s1: Sem, done: seq<Step>, reg: nat, mask: word, val: word)
    requires reg < 0x40000000 && reg % 4 == 0 && Plays(d, s, s1, done)
    ensures Plays(d, s, RegMask(d, s1, reg, mask, val).1, done + [Masked(reg, mask, val)])
  {
    hide Plays, RegMask;
    PlainNumber(reg);
    MaskPlays(d, s1, reg, mask, val);
    Then(d, s, s1, RegMask(d, s1, reg, mask, val).1, done, [Masked(reg, mask, val)]);
  }

  lemma WriteAt(d: Device, s: Sem, s1: Sem, done: seq<Step>, reg: nat, val: word)
    requires reg < 0x40000000 && reg % 4 == 0 && Plays(d, s, s1, done)
    ensures Plays(d, s, RegWr(s1, reg, val), done + [Plain(reg, val)])
  {
    hide Plays, RegWr;
    PlainNumber(reg);
    WritePlays(d, s1, reg, val);
    Then(d, s, s1, RegWr(s1, reg, val), done, [Plain(reg, val)]);
  }

  lemma NothingPlays(d: Device, s: Sem)
    ensures Plays(d, s, s, [])
  {
  }

  /** Enabled, the port value is six masked writes and four writes, in this order;
      disabled it is nothing. */
  lemma EnableVgaPlays(d: Device, s: Sem)
    ensures Plays(d, s, EnableVga(d, s), VgaMasks() + VgaWrites())
  {
    hide Plays, RegMask, RegWr;
    NothingPlays(d, s);
    var s1 := RegMask(d, s, 0x614100, 0xf0800000, 0x00800000).1;
    MaskAt(d, s, s, [], 0x614100, 0xf0800000, 0x00800000);
    var s2 := RegMask(d, s1, 0x00e18c, 0x00020000, 0x00020000).1;
    assert [] + [VgaMasks()[0]] == VgaMasks()[..1];
    MaskAt(d, s, s1, VgaMasks()[..1], 0x00e18c, 0x00020000, 0x00020000);
    var s3 := RegMask(d, s2, 0x614900, 0xf0800000, 0x00800000).1;
    assert VgaMasks()[..1] + [VgaMasks()[1]] == VgaMasks()[..2];
    MaskAt(d, s, s2, VgaMasks()[..2], 0x614900, 0xf0800000, 0x00800000);
    var s4 := RegMask(d, s3, 0x000200, 0x40000000, 0x00000000).1;
    assert VgaMasks()[..2] + [VgaMasks()[2]] == VgaMasks()[..3];
    MaskAt(d, s, s3, VgaMasks()[..3], 0x000200, 0x40000000, 0x00000000);
    var s5 := RegMask(d, s4, 0x00e18c, 0x00020000, 0x00000000).1;
    assert VgaMasks()[..3] + [VgaMasks()[3]] == VgaMasks()[..4];
    MaskAt(d, s, s4, VgaMasks()[..4], 0x00e18c, 0x00020000, 0x00000000);
    var s6 := RegMask(d, s5, 0x000200, 0x40000000, 0x40000000).1;
    assert VgaMasks()[..4] + [VgaMasks()[4]] == VgaMasks()[..5];
    MaskAt(d, s, s5, VgaMasks()[..5], 0x000200, 0x40000000, 0x40000000);
    assert VgaMasks()[..5] + [VgaMasks()[5]] == VgaMasks();
    VgaTail(d, s, s6);
  }

  lemma VgaTail(d: Device, s: Sem, s6: Sem)
    requires Plays(d, s, s6, VgaMasks())
    ensures Plays(d, s, RegWr(RegWr(RegWr(RegWr(s6, 0x614100, 0x00800018), 0x614900, 0x00800018), 0x614100, 0x10000018),
                              0x614900, 0x10000018), VgaMasks() + VgaWrites())
  {
    hide Plays, RegWr, VgaMasks;
    var m := VgaMasks();
    var s7 := RegWr(s6, 0x614100, 0x00800018);
    var s8 := RegWr(s7, 0x614900, 0x00800018);
    var s9 := RegWr(s8, 0x614100, 0x10000018);
    WriteAt(d, s, s6, m, 0x614100, 0x00800018);
    WriteAt(d, s, s7, m + [VgaWrites()[0]], 0x614900, 0x00800018);
    WriteAt(d, s, s8, m + [VgaWrites()[0]] + [VgaWrites()[1]], 0x614100, 0x10000018);
    WriteAt(d, s, s9, m + [VgaWrites()[0]] + [VgaWrites()[1]] + [VgaWrites()[2]], 0x614900, 0x10000018);
    assert m + [VgaWrites()[0]] + [VgaWrites()[1]] + [VgaWrites()[2]] + [VgaWrites()[3]] == m + VgaWrites();
  }

  // ---- GPIO lines ----------------------------------------------------------------

  /** Level and direction, latch, function; a further routing register if named. */
  function LineSteps(g: Gpio): seq<Step> {
    [ Masked(NvReg(g.reg), 0x00003000, Xor(g.level, 2) * 0x1000 % U32), Masked(0x00d604, 0x00000001, 0x00000001),
      Masked(NvReg(g.reg), 0x000000ff, g.unk0) ] +
    if g.unk1 == 0 then [] else [Masked(NvReg(0x00d740 + (g.unk1 - 1) * 4), 0x000000ff, g.line)]
  }

  lemma LinePlays(d: Device, s: Sem, g: Gpio)
    ensures Plays(d, s, ResetGpio(d, s, g), LineSteps(g))
  {
    hide Plays, RegMask, NvReg, Xor;
    PlainNumber(0x00d604);
    var x := Xor(g.level, 2) * 0x1000 % U32;
    var s1 := RegMask(d, s, g.reg, 0x00003000, x).1;
    MaskPlays(d, s, g.reg, 0x00003000, x);
    var s2 := RegMask(d, s1, 0x00d604, 0x00000001, 0x00000001).1;
    var a := [Masked(NvReg(g.reg), 0x00003000, x)];
    MaskAt(d, s, s1, a, 0x00d604, 0x00000001, 0x00000001);
    var s3 := RegMask(d, s2, g.reg, 0x000000ff, g.unk0).1;
    var b := [Masked(NvReg(g.reg), 0x000000ff, g.unk0)];
    MaskPlays(d, s2, g.reg, 0x000000ff, g.unk0);
    Then(d, s, s2, s3, a + [Masked(0x00d604, 0x00000001, 0x00000001)], b);
    if g.unk1 != 0 {
      MaskPlays(d, s3, 0x00d740 + (g.unk1 - 1) * 4, 0x000000ff, g.line);
      Then(d, s, s3, ResetGpio(d, s, g), a + [Masked(0x00d604, 0x00000001, 0x00000001)] + b,
           [Masked(NvReg(0x00d740 + (g.unk1 - 1) * 4), 0x000000ff, g.line)]);
    }
    assert LineSteps(g)[..3] == a + [Masked(0x00d604, 0x00000001, 0x00000001)] + b;
    assert g.unk1 == 0 ==> LineSteps(g)[..3] == LineSteps(g);
  }

  function AllLines(gpios: seq<Gpio>, excluded: set<byte>): seq<Step>
    decreases |gpios|
  {
    if gpios == [] then []
    else (if gpios[0].func == 0xff || gpios[0].func in excluded then [] else LineSteps(gpios[0])) +
         AllLines(gpios[1..], excluded)
  }

  /** Every line with a function that is not excluded is reset, in table order. */
  lemma {:induction false} LinesPlay(d: Device, s: Sem, gpios: seq<Gpio>, excluded: set<byte>)
    ensures Plays(d, s, ResetGpios(d, s, gpios, excluded), AllLines(gpios, excluded))
    decreases |gpios|
  {
    hide Plays, ResetGpio, LineSteps;
    NothingPlays(d, s);
    if gpios != [] {
      var g := gpios[0];
      var skip := g.func == 0xff || g.func in excluded;
      var s1 := if skip then s else ResetGpio(d, s, g);
      LinePlays(d, s, g);
      LinesPlay(d, s1, gpios[1..], excluded);
      Then(d, s, s1, ResetGpios(d, s, gpios, excluded), if skip then [] else LineSteps(g),
           AllLines(gpios[1..], excluded));
    }
  }

  // ---- RESET -----------------------------------------------------------------------

  /** RESET leaves the same events whatever the flag says, the saved control word
      put back, and leaves the flag as it found it. */
  lemma ResetLeaves(d: Device, s: Sem, reg: nat, data1: word, data2: word)
    requires s.execute == 1 || s.execute == 3
    ensures ResetEngine(d, s, reg, data1, data2) ==
            s.(trace := Play(d, s.trace,
                 [Masked(0x00184c, 0x00000f00, 0), Plain(NvReg(reg), data1), Plain(NvReg(reg), data2),
                  Plain(0x00184c, d.read32(s.trace, 0x00184c)), Masked(0x001850, 0x00000001, 0)]))
  {
    hide NvReg, Merge;
    PlainNumber(0x00184c);
    PlainNumber(0x001850);
    var f := Force(s, true);
    var saved := d.read32(s.trace, 0x00184c);
    var s1 := RegMask(d, f, 0x00184c, 0x00000f00, 0).1;
    var s2 := RegWr(s1, reg, data1);
    var s3 := RegWr(s2, reg, data2);
    var s4 := RegWr(s3, 0x00184c, saved);
    var s5 := RegMask(d, s4, 0x001850, 0x00000001, 0).1;
    MaskPlays(d, f, 0x00184c, 0x00000f00, 0);
    WritePlays(d, s1, reg, data1);
    WritePlays(d, s2, reg, data2);
    WritePlays(d, s3, 0x00184c, saved);
    MaskPlays(d, s4, 0x001850, 0x00000001, 0);
    ForceRoundTrip(s);
    assert RegMask(d, f, 0x00184c, 0x00000f00, 0).0 == saved;
    hide Plays, RegMask, RegWr, Play, Force;
    var a, b, c, e, g := [Masked(0x00184c, 0x00000f00, 0)], [Plain(NvReg(reg), data1)], [Plain(NvReg(reg), data2)],
                         [Plain(0x00184c, saved)], [Masked(0x001850, 0x00000001, 0)];
    Then(d, f, s1, s2, a, b);
    Then(d, f, s2, s3, a + b, c);
    Then(d, f, s3, s4, a + b + c, e);
    Then(d, f, s4, s5, a + b + c + e, g);
    ForcedPlays(d, s, s5, a + b + c + e + g);
    assert a + b + c + e + g == [a[0], b[0], c[0], e[0], g[0]];
  }

  lemma ForceRoundTrip(s: Sem)
    requires s.execute == 1 || s.execute == 3
    ensures Enabled(Force(s, true)) && Force(s, true).trace == s.trace
  {
  }

  /** Dropping the force bit gives the flag back. */
  lemma ForcedPlays(d: Device, s: Sem, s': Sem, steps: seq<Step>)
    requires (s.execute == 1 || s.execute == 3) && Plays(d, Force(s, true), s', steps)
    ensures Force(s', false) == s.(trace := Play(d, s.trace, steps))
  {
    hide Play;
    assert (s.execute | 4) & 0xfb == s.execute;
  }

  // ---- copies ------------------------------------------------------------------------

  /** data shifted by a signed amount, as a product or quotient. */
  function Shifted(data: nat, shift: byte): nat {
    if shift < 0x80 then Shr(data, shift) else data * Pow2(0x100 - shift)
  }

  lemma ShiftByIs(data: nat, shift: byte)
    ensures ShiftBy(data, shift) == Shifted(data, shift)
    ensures shift < 0x80 ==> ShiftBy(data, shift) == data / Pow2(shift)
  {
    if shift < 0x80 {
      ShiftsAreMulDiv(data, shift);
    } else {
      ShiftsAreMulDiv(data, 0x100 - shift);
    }
  }

  /** Read the source, read the target, write the target with the kept bits of
      `keep` and the value v ored in. */
  function CopyEvents(d: Device, trace: seq<Event>, src: nat, dst: nat, keep: word, v: nat): seq<Event> {
    var first := [Rd32(NvReg(src))];
    first + [Rd32(NvReg(dst)), Wr32(NvReg(dst), Or(And(d.read32(trace + first, NvReg(dst)), keep), v % U32) % U32)]
  }

  lemma CopyLeaves(d: Device, s: Sem, src: nat, dst: nat, keep: word, v: nat)
    ensures RegMask(d, RegRd(d, s, src).1, dst, 0xffffffff - keep, v % U32).1 ==
            if Enabled(s) then s.(trace := s.trace + CopyEvents(d, s.trace, src, dst, keep, v)) else s
  {
    hide NvReg, And, Or;
  }

  /** COPY_NV_REG moves the shifted, masked and inverted source bits into the
      target, keeping the target's bits of the mask; disabled, it does nothing. */
  lemma CopyNvRegLeaves(rom: Rom, d: Device, s: Sem, src: nat, shift: byte, srcMask: word, srcXor: word, dst: nat,
                        dstMask: word)
    ensures var v := Xor(And(Shifted(d.read32(s.trace, NvReg(src)), shift), srcMask), srcXor);
            Effect(rom, d, CopyNvReg(src, shift, srcMask, srcXor, dst, dstMask), s) ==
            if Enabled(s) then s.(trace := s.trace + CopyEvents(d, s.trace, src, dst, dstMask, v)) else s
  {
    hide And, Or, Xor, NvReg, ShiftBy, Shifted, CopyEvents, RegMask;
    var data := RegRd(d, s, src).0;
    ShiftByIs(data, shift);
    CopyLeaves(d, s, src, dst, dstMask, Xor(And(Shifted(data, shift), srcMask), srcXor));
    if !Enabled(s) {
      DisabledMask(d, s, dst, 0xffffffff - dstMask, Xor(And(Shifted(data, shift), srcMask), srcXor) % U32);
    }
  }

  lemma DisabledMask(d: Device, s: Sem, reg: nat, mask: word, val: word)
    requires !Enabled(s)
    ensures RegMask(d, s, reg, mask, val).1 == s
  {
  }

  /** XLAT does the same with the table's entry for those bits, shifted left. */
  lemma XlatLeaves(rom: Rom, d: Device, s: Sem, src: nat, shift: byte, srcMask: word, table: byte, dst: nat,
                   dstMask: word, dstShift: byte)
    ensures var key := And(Shifted(d.read32(s.trace, NvReg(src)), shift), srcMask);
            var v := XlatValue(rom, table, key) * Pow2(dstShift);
            Effect(rom, d, Xlat(src, shift, srcMask, table, dst, dstMask, dstShift), s) ==
            if Enabled(s) then s.(trace := s.trace + CopyEvents(d, s.trace, src, dst, dstMask, v)) else s
  {
    hide And, Or, Xor, NvReg, ShiftBy, Shifted, CopyEvents, RegMask, XlatValue, Pow2, Shl;
    var data := RegRd(d, s, src).0;
    ShiftByIs(data, shift);
    var x := XlatValue(rom, table, And(Shifted(data, shift), srcMask));
    ShiftsAreMulDiv(x, dstShift);
    CopyLeaves(d, s, src, dst, dstMask, Shl(x, dstShift));
    if !Enabled(s) {
      DisabledMask(d, s, dst, 0xffffffff - dstMask, Shl(x, dstShift) % U32);
    }
  }

  // ---- IO ----------------------------------------------------------------------------

  /** IO reads the port and writes it back masked with the data ored in, after the
      enable sequence if it is the enable value; disabled, it does nothing. */
  lemma IoLeaves(rom: Rom, d: Device, s: Sem, port: nat, mask: word, data: word)
    ensures var before :=
              if port == 0x03c3 && data == 0x01 then Play(d, s.trace, VgaMasks() + VgaWrites()) else s.trace;
            var reg := VGA_WINDOW + port % 0x10000;
            Effect(rom, d, Io(port, mask, data), s) ==
            if Enabled(s)
            then s.(trace := before + [Rd8(reg), Wr8(reg, Or(data, And(d.read8(before, reg), mask)) % 0x100)]) else s
  {
    EnableVgaPlays(d, s);
    hide And, Or, EnableVga, Play, VgaMasks, VgaWrites;
  }

  /** Number that an indexed VGA register selects. */
  function Selected(d: Device, trace: seq<Event>, port: nat, index: byte, mask: word, shift: byte): nat {
    if !IsVgaIndex(port) then 0
    else
      var asked := trace + [Wr8(VGA_WINDOW + port % 0x10000, index)];
      Shr(And(d.read8(asked, VGA_WINDOW + (port + 1) % 0x10000), mask), shift)
  }

  /** Reading an indexed register; other ports are not read, and count as 0. */
  function IndexEvents(port: nat, index: byte): seq<Event> {
    if !IsVgaIndex(port) then []
    else [Wr8(VGA_WINDOW + port % 0x10000, index), Rd8(VGA_WINDOW + (port + 1) % 0x10000)]
  }

  lemma NothingSelected(mask: word, shift: byte)
    ensures Shr(And(0, mask), shift) == 0
  {
    ShiftsAreMulDiv(0, shift);
  }

  lemma IndexedRead(d: Device, s: Sem, port: nat, index: byte, mask: word, shift: byte)
    ensures VgaRd(d, s, port, index).1 == if Enabled(s) then s.(trace := s.trace + IndexEvents(port, index)) else s
    ensures Enabled(s) ==>
              Shr(And(VgaRd(d, s, port, index).0, mask), shift) == Selected(d, s.trace, port, index, mask, shift)
  {
    NothingSelected(mask, shift);
    hide And, Shr;
  }

  /** IO_RESTRICT_PROG reads the indexed register and writes the one word it
      selects; a number past the list writes nothing. */
  lemma IoRestrictProgLeaves(rom: Rom, d: Device, s: Sem, port: nat, index: byte, mask: word, shift: byte, reg: nat,
                             words: seq<word>)
    ensures var n := Selected(d, s.trace, port, index, mask, shift);
            Effect(rom, d, IoRestrictProg(port, index, mask, shift, reg, words), s) ==
            if Enabled(s)
            then s.(trace := s.trace + IndexEvents(port, index) +
                             if n < |words| then [Wr32(NvReg(reg), words[n])] else [])
            else s
  {
    hide And, Or, NvReg, Shr, VgaRd, Selected, IndexEvents;
    IndexedRead(d, s, port, index, mask, shift);
  }

  /** IO_RESTRICT_PLL reads the same way and writes nothing at all but the indices. */
  lemma IoRestrictPllLeaves(rom: Rom, d: Device, s: Sem, port: nat, index: byte, mask: word, shift: byte, count: nat,
                            flag: Option<IoFlag>)
    ensures var n := Selected(d, s.trace, port, index, mask, shift);
            Effect(rom, d, IoRestrictPll(port, index, mask, shift, count, flag), s) ==
            if Enabled(s)
            then s.(trace := s.trace + IndexEvents(port, index) +
                             if n < count && flag.Some?
                             then IndexEvents(flag.value.port, flag.value.index) else [])
            else s
  {
    hide And, Or, NvReg, Shr, VgaRd, Selected, IndexEvents;
    IndexedRead(d, s, port, index, mask, shift);
    var s' := VgaRd(d, s, port, index).1;
    if flag.Some? {
      IndexedRead(d, s', flag.value.port, flag.value.index, mask, shift);
    }
  }
}
