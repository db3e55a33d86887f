/** Tesla instruction words: the encoders `_lw0`, `_lw1` and `_sw` of
    examples_en210/add.py and the decoder that their length rule allows. */
module Sass {
  import opened Bits
  import opened Words

  /** First and second word of a long instruction, and the one of a short. */
  datatype Long0 = Long0(op: nat, dst: nat, src1: nat, src2: nat := 0, s2t: nat := 0, s3t: nat := 0, areg: nat := 0,
                         ctrl: bool := false)
  datatype Long1 = Long1(secop: nat := 0, aregHi: nat := 0, dstT: nat := 0, cdst: nat := 0, cwrite: nat := 0,
                         pred: nat := PRED_ALWAYS, csrc: nat := 0, src3: nat := 0, s1t: nat := 0, cidx: nat := 0,
                         m1: nat := 0, m2: nat := 0, exit: bool := false)
  datatype Short = Short(op: nat, dst: nat, src1: nat, src2: nat, m1: nat := 0, m2: nat := 0, m3: nat := 0,
                         s2t: nat := 0, s1t: nat := 0, areg: nat := 0)

  const PRED_ALWAYS := 0x0F
  const PRED_NEU := 0x0D

  datatype Instr = LongI(w0: Long0, w1: Long1) | ShortI(w: Short)

  predicate InRange0(i: Long0) {
    i.op < 16 && i.dst < 128 && i.src1 < 128 && i.src2 < 128 && i.s2t < 2 && i.s3t < 2 && i.areg < 4
  }

  predicate InRange1(i: Long1) {
    i.secop < 8 && i.aregHi < 2 && i.dstT < 2 && i.cdst < 4 && i.cwrite < 2 && i.pred < 32 && i.csrc < 4 &&
    i.src3 < 128 && i.s1t < 2 && i.cidx < 16 && i.m1 < 2 && i.m2 < 2
  }

  predicate InRangeS(i: Short) {
    i.op < 16 && i.dst < 64 && i.src1 < 64 && i.src2 < 64 && i.m1 < 2 && i.m2 < 2 && i.m3 < 2 && i.s2t < 2 &&
    i.s1t < 2 && i.areg < 4
  }

  predicate InRange(i: Instr) {
    match i
    case LongI(w0, w1) => InRange0(w0) && InRange1(w1)
    case ShortI(w) => InRangeS(w)
  }

  predicate AllInRange(code: seq<Instr>) {
    forall k :: 0 <= k < |code| ==> InRange(code[k])
  }

  // ---- encoders --------------------------------------------------------------

  function Lw0(i: Long0): nat {
    Or(Or(Or(Or(Or(Or(Or(if i.ctrl then 3 else 1, i.dst * 0x4), i.src1 * 0x200), i.src2 * 0x10000), i.s2t * 0x800000),
              i.s3t * 0x1000000), i.areg * 0x4000000), i.op * 0x10000000)
  }

  function Lw1(i: Long1): nat {
    Or(Or(Or(Or(Or(Or(Or(Or(Or(Or(Or(Or(if i.exit then 1 else 0, i.aregHi * 0x4), i.dstT * 0x8), i.cdst * 0x10),
      i.cwrite * 0x40), i.pred * 0x80), i.csrc * 0x1000), i.src3 * 0x4000), i.s1t * 0x200000), i.cidx * 0x400000),
      i.m1 * 0x4000000), i.m2 * 0x8000000), i.secop * 0x20000000)
  }

  function Sw(i: Short): nat {
    Or(Or(Or(Or(Or(Or(Or(Or(Or(i.dst * 0x4, i.m1 * 0x100), i.src1 * 0x200), i.m2 * 0x8000), i.src2 * 0x10000),
      i.m3 * 0x400000), i.s2t * 0x800000), i.s1t * 0x1000000), i.areg * 0x4000000), i.op * 0x10000000)
  }

  lemma Lw0IsSum(i: Long0)
    requires InRange0(i)
    ensures Lw0(i) == (if i.ctrl then 3 else 1) + i.dst * 0x4 + i.src1 * 0x200 + i.src2 * 0x10000 + i.s2t * 0x800000 +
                      i.s3t * 0x1000000 + i.areg * 0x4000000 + i.op * 0x10000000
    ensures Lw0(i) < 0x1_0000_0000
  {
    hide Or, Pow2;
    Powers();
    var a := if i.ctrl then 3 else 1;
    OrPut(i.dst * 0x4, i.dst, a, 2, 0x4);
    var b := a + i.dst * 0x4;
    OrPut(i.src1 * 0x200, i.src1, b, 9, 0x200);
    var c := b + i.src1 * 0x200;
    OrPut(i.src2 * 0x10000, i.src2, c, 16, 0x10000);
    var d := c + i.src2 * 0x10000;
    OrPut(i.s2t * 0x800000, i.s2t, d, 23, 0x800000);
    var e := d + i.s2t * 0x800000;
    OrPut(i.s3t * 0x1000000, i.s3t, e, 24, 0x1000000);
    var f := e + i.s3t * 0x1000000;
    OrPut(i.areg * 0x4000000, i.areg, f, 26, 0x4000000);
    OrPut(i.op * 0x10000000, i.op, f + i.areg * 0x4000000, 28, 0x10000000);
  }

  function Low1(i: Long1): nat {
    (if i.exit then 1 else 0) + i.aregHi * 0x4 + i.dstT * 0x8 + i.cdst * 0x10 + i.cwrite * 0x40 + i.pred * 0x80 +
    i.csrc * 0x1000
  }

  function High1(i: Long1): nat {
    i.src3 * 0x4000 + i.s1t * 0x200000 + i.cidx * 0x400000 + i.m1 * 0x4000000 + i.m2 * 0x8000000 + i.secop * 0x20000000
  }

  lemma Low1IsSum(i: Long1)
    requires InRange1(i)
    ensures Or(Or(Or(Or(Or(Or(if i.exit then 1 else 0, i.aregHi * 0x4), i.dstT * 0x8), i.cdst * 0x10),
              i.cwrite * 0x40), i.pred * 0x80), i.csrc * 0x1000) == Low1(i) < 0x4000
  {
    hide Or, Pow2;
    Powers();
    var a := if i.exit then 1 else 0;
    OrPut(i.aregHi * 0x4, i.aregHi, a, 2, 0x4);
    var b := a + i.aregHi * 0x4;
    OrPut(i.dstT * 0x8, i.dstT, b, 3, 0x8);
    var c := b + i.dstT * 0x8;
    OrPut(i.cdst * 0x10, i.cdst, c, 4, 0x10);
    var d := c + i.cdst * 0x10;
    OrPut(i.cwrite * 0x40, i.cwrite, d, 6, 0x40);
    var e := d + i.cwrite * 0x40;
    OrPut(i.pred * 0x80, i.pred, e, 7, 0x80);
    OrPut(i.csrc * 0x1000, i.csrc, e + i.pred * 0x80, 12, 0x1000);
  }

  lemma Middle1IsSum(i: Long1, g: nat)
    requires InRange1(i) && g < 0x4000
    ensures Or(Or(Or(g, i.src3 * 0x4000), i.s1t * 0x200000), i.cidx * 0x400000) ==
            g + i.src3 * 0x4000 + i.s1t * 0x200000 + i.cidx * 0x400000 < 0x4000000
  {
    hide Or, Pow2;
    Powers();
    OrPut(i.src3 * 0x4000, i.src3, g, 14, 0x4000);
    var h := g + i.src3 * 0x4000;
    OrPut(i.s1t * 0x200000, i.s1t, h, 21, 0x200000);
    OrPut(i.cidx * 0x400000, i.cidx, h + i.s1t * 0x200000, 22, 0x400000);
  }

  lemma Top1IsSum(i: Long1, k: nat)
    requires InRange1(i) && k < 0x4000000
    ensures Or(Or(Or(k, i.m1 * 0x4000000), i.m2 * 0x8000000), i.secop * 0x20000000) ==
            k + i.m1 * 0x4000000 + i.m2 * 0x8000000 + i.secop * 0x20000000 < 0x1_0000_0000
  {
    hide Or, Pow2;
    Powers();
    OrPut(i.m1 * 0x4000000, i.m1, k, 26, 0x4000000);
    var l := k + i.m1 * 0x4000000;
    OrPut(i.m2 * 0x8000000, i.m2, l, 27, 0x8000000);
    OrPut(i.secop * 0x20000000, i.secop, l + i.m2 * 0x8000000, 29, 0x20000000);
  }

  lemma Lw1IsSum(i: Long1)
    requires InRange1(i)
    ensures Lw1(i) == Low1(i) + High1(i) < 0x1_0000_0000
  {
    hide Or, Low1;
    Low1IsSum(i);
    var g := Low1(i);
    Middle1IsSum(i, g);
    Top1IsSum(i, g + i.src3 * 0x4000 + i.s1t * 0x200000 + i.cidx * 0x400000);
  }

  lemma SwIsSum(i: Short)
    requires InRangeS(i)
    ensures Sw(i) == i.dst * 0x4 + i.m1 * 0x100 + i.src1 * 0x200 + i.m2 * 0x8000 + i.src2 * 0x10000 + i.m3 * 0x400000 +
                     i.s2t * 0x800000 + i.s1t * 0x1000000 + i.areg * 0x4000000 + i.op * 0x10000000
    ensures Sw(i) < 0x1_0000_0000
  {
    hide Or, Pow2;
    Powers();
    var a := i.dst * 0x4;
    OrPut(i.m1 * 0x100, i.m1, a, 8, 0x100);
    var b := a + i.m1 * 0x100;
    OrPut(i.src1 * 0x200, i.src1, b, 9, 0x200);
    var c := b + i.src1 * 0x200;
    OrPut(i.m2 * 0x8000, i.m2, c, 15, 0x8000);
    var d := c + i.m2 * 0x8000;
    OrPut(i.src2 * 0x10000, i.src2, d, 16, 0x10000);
    var e := d + i.src2 * 0x10000;
    OrPut(i.m3 * 0x400000, i.m3, e, 22, 0x400000);
    var f := e + i.m3 * 0x400000;
    OrPut(i.s2t * 0x800000, i.s2t, f, 23, 0x800000);
    var g := f + i.s2t * 0x800000;
    OrPut(i.s1t * 0x1000000, i.s1t, g, 24, 0x1000000);
    var h := g + i.s1t * 0x1000000;
    OrPut(i.areg * 0x4000000, i.areg, h, 26, 0x4000000);
    OrPut(i.op * 0x10000000, i.op, h + i.areg * 0x4000000, 28, 0x10000000);
  }

  // ---- decoders: fields peeled off from the low end ---------------------------

  function Read0(w: nat): Long0 {
    var a := w / 4;
    var b := a / 128;
    var c := b / 128;
    var d := c / 128;
    var e := d / 2;
    var f := e / 4;
    Long0(f / 4, a % 128, b % 128, c % 128, d % 2, e % 2, f % 4, w % 4 == 3)
  }

  function Read1(w: nat): Long1 {
    var a := w / 4;
    var b := a / 2;
    var c := b / 2;
    var d := c / 4;
    var e := d / 2;
    var f := e / 32;
    var g := f / 4;
    var h := g / 128;
    var j := h / 2;
    var k := j / 16;
    var l := k / 2;
    Long1(l / 4, a % 2, b % 2, c % 4, d % 2, e % 32, f % 4, g % 128, h % 2, j % 16, k % 2, l % 2, w % 4 == 1)
  }

  function ReadS(w: nat): Short {
    var a := w / 4;
    var b := a / 64;
    var c := b / 2;
    var d := c / 64;
    var e := d / 2;
    var f := e / 64;
    var g := f / 2;
    var h := g / 2;
    var j := h / 4;
    Short(j / 4, a % 64, c % 64, e % 64, b % 2, d % 2, f % 2, g % 2, h % 2, j % 4)
  }

  lemma Peel(x: nat, d: nat, q: nat, r: nat)
    requires r < d && x == d * q + r
    ensures x / d == q && x % d == r
  {
    RemainderIs(x, d, q, r);
  }

  lemma Read0Back(i: Long0)
    requires InRange0(i)
    ensures Read0(Lw0(i)) == i && Lw0(i) % 4 == (if i.ctrl then 3 else 1)
  {
    hide Lw0;
    Lw0IsSum(i);
    var f := i.areg + 4 * i.op;
    var e := i.s3t + 4 * f;
    var d := i.s2t + 2 * e;
    var c := i.src2 + 128 * d;
    var b := i.src1 + 128 * c;
    var a := i.dst + 128 * b;
    Peel(Lw0(i), 4, a, if i.ctrl then 3 else 1);
    Peel(a, 128, b, i.dst);
    Peel(b, 128, c, i.src1);
    Peel(c, 128, d, i.src2);
    Peel(d, 2, e, i.s2t);
    Peel(e, 4, f, i.s3t);
    Peel(e, 2, 2 * f, i.s3t);
    Peel(f, 4, i.op, i.areg);
  }

  lemma Read1Back(i: Long1)
    requires InRange1(i)
    ensures Read1(Lw1(i)) == i
  {
    hide Lw1;
    Lw1IsSum(i);
    var l := i.m2 + 4 * i.secop;
    var k := i.m1 + 2 * l;
    var j := i.cidx + 16 * k;
    var h := i.s1t + 2 * j;
    var g := i.src3 + 128 * h;
    var f := i.csrc + 4 * g;
    var e := i.pred + 32 * f;
    var d := i.cwrite + 2 * e;
    var c := i.cdst + 4 * d;
    var b := i.dstT + 2 * c;
    var a := i.aregHi + 2 * b;
    Peel(Lw1(i), 4, a, if i.exit then 1 else 0);
    Peel(a, 2, b, i.aregHi);
    Peel(b, 2, c, i.dstT);
    Peel(c, 4, d, i.cdst);
    Peel(d, 2, e, i.cwrite);
    Peel(e, 32, f, i.pred);
    Peel(f, 4, g, i.csrc);
    Peel(g, 128, h, i.src3);
    Peel(h, 2, j, i.s1t);
    Peel(j, 16, k, i.cidx);
    Peel(k, 2, l, i.m1);
    Peel(l, 4, i.secop, i.m2);
    Peel(l, 2, 2 * i.secop, i.m2);
  }

  lemma ReadSBack(i: Short)
    requires InRangeS(i)
    ensures ReadS(Sw(i)) == i && Sw(i) % 4 == 0
  {
    hide Sw;
    SwIsSum(i);
    var j := i.areg + 4 * i.op;
    var h := i.s1t + 4 * j;
    var g := i.s2t + 2 * h;
    var f := i.m3 + 2 * g;
    var e := i.src2 + 64 * f;
    var d := i.m2 + 2 * e;
    var c := i.src1 + 64 * d;
    var b := i.m1 + 2 * c;
    var a := i.dst + 64 * b;
    Peel(Sw(i), 4, a, 0);
    Peel(a, 64, b, i.dst);
    Peel(b, 2, c, i.m1);
    Peel(c, 64, d, i.src1);
    Peel(d, 2, e, i.m2);
    Peel(e, 64, f, i.src2);
    Peel(f, 2, g, i.m3);
    Peel(g, 2, h, i.s2t);
    Peel(h, 4, j, i.s1t);
    Peel(h, 2, 2 * j, i.s1t);
    Peel(j, 4, i.op, i.areg);
  }

  // ---- streams ---------------------------------------------------------------

  function Encode(i: Instr): (r: seq<word>)
    requires InRange(i)
  {
    match i
    case LongI(w0, w1) =>
      Lw0IsSum(w0);
      Lw1IsSum(w1);
      [Lw0(w0), Lw1(w1)]
    case ShortI(w) =>
      SwIsSum(w);
      [Sw(w)]
  }

  function Assemble(code: seq<Instr>): seq<word>
    requires AllInRange(code)
    decreases |code|
  {
    if code == [] then [] else Encode(code[0]) + Assemble(code[1..])
  }

  datatype Parsed = Bad | Good(code: seq<Instr>)

  /** Bits 0 and 1 of the next word tell a short instruction (0) from a long. */
  function Parse(ws: seq<word>): Parsed
    decreases |ws|
  {
    if ws == [] then Good([])
    else if ws[0] % 4 == 0 then
      match Parse(ws[1..])
      case Good(code) => Good([ShortI(ReadS(ws[0]))] + code)
      case Bad => Bad
    else if |ws| < 2 then Bad
    else
      match Parse(ws[2..])
      case Good(code) => Good([LongI(Read0(ws[0]), Read1(ws[1]))] + code)
      case Bad => Bad
  }

  lemma ParseFirst(i: Instr, rest: seq<word>, tail: seq<Instr>)
    requires InRange(i) && Parse(rest) == Good(tail)
    ensures Parse(Encode(i) + rest) == Good([i] + tail)
  {
    hide Read0, Read1, ReadS, Lw0, Lw1, Sw, InRange0, InRange1, InRangeS;
    var ws := Encode(i) + rest;
    match i
    case LongI(w0, w1) =>
      Read0Back(w0);
      Read1Back(w1);
      assert ws[2..] == rest;
    case ShortI(w) =>
      ReadSBack(w);
      assert ws[1..] == rest;
  }

  /** Every field of every instruction comes back from the words alone. */
  lemma {:induction false} ParseAssemble(code: seq<Instr>)
    requires AllInRange(code)
    ensures Parse(Assemble(code)) == Good(code)
    decreases |code|
  {
    hide InRange, Encode, Parse;
    if code == [] {
      EmptyParses();
    } else {
      ParseAssemble(code[1..]);
      ParseFirst(code[0], Assemble(code[1..]), code[1..]);
    }
  }

  lemma EmptyParses()
    ensures Parse([]) == Good([])
  {
  }

  // ---- bytes -----------------------------------------------------------------

  /** The byte stream of any instruction sequence parses back to it. */
  lemma StreamRoundTrip(code: seq<Instr>)
    requires AllInRange(code)
    ensures Parse(FromBytes(ToBytes(Assemble(code)))) == Good(code)
  {
    BytesRoundTrip(Assemble(code));
    ParseAssemble(code);
  }
}
