/** The hand-assembled vector kernel of examples_en210/add.py: its fourteen
    instructions, the bytes they assemble to, and what one thread does with
    them. The instruction set is not part of the repository; its semantics are
    taken from the listing that stands beside the encoders. */
module Kernel {
  import opened Words
  import opened Sass

  // ---- operand encodings -----------------------------------------------------

  function Half(reg: nat, high: bool): nat { 2 * reg + if high then 1 else 0 }

  /** Shared-memory operands of short (16 and 32 bit) and long instructions. */
  function Ssh16(off: nat): nat { 0x10 + off % 16 }
  function Ssh32(off: nat): nat { 0x30 + off % 16 }
  function Lsh32(off: nat): nat { 0x60 + off % 32 }

  // ---- the instruction list --------------------------------------------------

  function KernelCode(mul: bool): (r: seq<Instr>)
    ensures |r| == 14
  {
    [ LongI(Long0(1, Half(0, true), 6), Long1(secop := 2, src3 := 1)),
      LongI(Long0(0xA, 1, Half(0, false)), Long1(m1 := 1)),
      ShortI(Short(4, 0, Ssh16(1), Half(0, true), s1t := 1)),
      ShortI(Short(2, 0, 0, 1, m2 := 1)),
      LongI(Long0(3, 127, Lsh32(7)), Long1(secop := 3, dstT := 1, cwrite := 1, src3 := 3, s1t := 1, m1 := 1)),
      LongI(Long0(3, 0, 0, ctrl := true), Long1(pred := PRED_NEU)),
      LongI(Long0(3, 2, 0, src2 := 2), Long1(secop := 6, src3 := 64, m1 := 1)),
      ShortI(Short(2, 0, Ssh32(4), 2, m2 := 1, s1t := 1)),
      ShortI(Short(2, 3, Ssh32(5), 2, m2 := 1, s1t := 1)),
      LongI(Long0(0xD, 1, 0, 14), Long1(secop := 4, cidx := 3)),
      LongI(Long0(0xD, 0, 3, 14), Long1(secop := 4, cidx := 3)),
      ShortI(Short(if mul then 0xC else 0xB, 0, 1, 0)),
      ShortI(Short(2, 1, Ssh32(6), 2, m2 := 1, s1t := 1)),
      LongI(Long0(0xD, 0, 1, 14), Long1(secop := 5, cidx := 3, exit := true)) ]
  }

  lemma KernelInRange(mul: bool)
    ensures AllInRange(KernelCode(mul))
  {
  }

  function KernelImage(mul: bool): seq<byte> {
    KernelInRange(mul);
    ToBytes(Assemble(KernelCode(mul)))
  }

  datatype Built = Unsupported | Image(bytes: seq<byte>)

  function BuildKernelSass(op: string): (r: Built) {
    if op != "add" && op != "mul" then Unsupported else Image(KernelImage(op == "mul"))
  }

  /** Number of words the listing takes from instruction k on. */
  function Size(code: seq<Instr>, k: nat): nat
    requires k <= |code|
    decreases |code| - k
  {
    if k == |code| then 0 else (if code[k].LongI? then 2 else 1) + Size(code, k + 1)
  }

  lemma {:induction false} AssembleSize(code: seq<Instr>, k: nat)
    requires AllInRange(code) && k <= |code|
    ensures |Assemble(code[k..])| == Size(code, k)
    decreases |code| - k
  {
    hide InRange;
    if k < |code| {
      assert code[k..][1..] == code[k + 1..];
      AssembleSize(code, k + 1);
    }
  }

  lemma KernelSize(mul: bool)
    ensures Size(KernelCode(mul), 0) == 22
  {
    var code := KernelCode(mul);
    assert Size(code, 14) == 0;
    assert Size(code, 12) == 3;
    assert Size(code, 10) == 6;
    assert Size(code, 8) == 9;
    assert Size(code, 6) == 12;
    assert Size(code, 4) == 16;
    assert Size(code, 2) == 18;
  }

  /** The image is 88 bytes and parses back to the listing, for both operations. */
  lemma ImageIsListing(mul: bool)
    ensures |KernelImage(mul)| == 88
    ensures Parse(FromBytes(KernelImage(mul))) == Good(KernelCode(mul))
  {
    hide AllInRange, ToBytes, Assemble, Parse, FromBytes, Size, KernelCode;
    var code := KernelCode(mul);
    KernelInRange(mul);
    AssembleSize(code, 0);
    assert code[0..] == code;
    KernelSize(mul);
    StreamRoundTrip(code);
  }

  /** Exactly the two operations are built, as the bytes of their listing. */
  lemma BuildIsListing(op: string)
    ensures BuildKernelSass(op) == Unsupported <==> op !in {"add", "mul"}
    ensures BuildKernelSass(op).Image? ==>
      |BuildKernelSass(op).bytes| == 88 &&
      Parse(FromBytes(BuildKernelSass(op).bytes)) == Good(KernelCode(op == "mul"))
  {
    hide ToBytes, Assemble, Parse, FromBytes, KernelCode, KernelImage;
    ImageIsListing(op == "mul");
  }

  // ---- the image in numbers ------------------------------------------------------

  /** The words of the fourteen instructions. */
  function ImageWords(mul: bool): (r: seq<seq<word>>)
    ensures |r| == 14
  {
    [ [0x10000c05, 0x40004780], [0xa0000005, 0x04000780], [0x41012200], [0x20018000], [0x3000cffd, 0x6420c7c8],
      [0x30000003, 0x00000680], [0x30020009, 0xc4100780], [0x2102e800], [0x2102ea0c], [0xd00e0005, 0x80c00780],
      [0xd00e0601, 0x80c00780], [if mul then 0xc0000200 else 0xb0000200], [0x2102ec04],
      [0xd00e0201, 0xa0c00781] ]
  }

  function Joined(ws: seq<seq<word>>): seq<word>
    decreases |ws|
  {
    if ws == [] then [] else ws[0] + Joined(ws[1..])
  }

  lemma {:induction false} AssembledWords(code: seq<Instr>, ws: seq<seq<word>>)
    requires AllInRange(code) && |ws| == |code|
    requires forall k :: 0 <= k < |code| ==> Encode(code[k]) == ws[k]
    ensures Assemble(code) == Joined(ws)
    decreases |code|
  {
    hide InRange, Encode;
    if code != [] {
      AssembledWords(code[1..], ws[1..]);
    }
  }

  /** An instruction's words as sums of their fields. */
  function Sums(i: Instr): seq<nat> {
    match i
    case LongI(w0, w1) =>
      [ (if w0.ctrl then 3 else 1) + w0.dst * 0x4 + w0.src1 * 0x200 + w0.src2 * 0x10000 + w0.s2t * 0x800000 +
        w0.s3t * 0x1000000 + w0.areg * 0x4000000 + w0.op * 0x10000000,
        (if w1.exit then 1 else 0) + w1.aregHi * 0x4 + w1.dstT * 0x8 + w1.cdst * 0x10 + w1.cwrite * 0x40 +
        w1.pred * 0x80 + w1.csrc * 0x1000 + w1.src3 * 0x4000 + w1.s1t * 0x200000 + w1.cidx * 0x400000 +
        w1.m1 * 0x4000000 + w1.m2 * 0x8000000 + w1.secop * 0x20000000 ]
    case ShortI(w) =>
      [ w.dst * 0x4 + w.m1 * 0x100 + w.src1 * 0x200 + w.m2 * 0x8000 + w.src2 * 0x10000 + w.m3 * 0x400000 +
        w.s2t * 0x800000 + w.s1t * 0x1000000 + w.areg * 0x4000000 + w.op * 0x10000000 ]
  }

  lemma EncodeIsSums(i: Instr)
    requires InRange(i)
    ensures Encode(i) == Sums(i)
  {
    hide Lw0, Lw1, Sw;
    match i
    case LongI(w0, w1) =>
      Lw0IsSum(w0);
      Lw1IsSum(w1);
    case ShortI(w) =>
      SwIsSum(w);
  }

  lemma FirstSums(mul: bool, k: nat)
    requires k < 7
    ensures Sums(KernelCode(mul)[k]) == ImageWords(mul)[k]
  {
  }

  lemma SecondSums(mul: bool, k: nat)
    requires 7 <= k < 14
    ensures Sums(KernelCode(mul)[k]) == ImageWords(mul)[k]
  {
  }

  lemma EncodedAt(mul: bool, k: nat)
    requires k < 14
    ensures InRange(KernelCode(mul)[k]) && Encode(KernelCode(mul)[k]) == ImageWords(mul)[k]
  {
    KernelInRange(mul);
    hide KernelCode, ImageWords, Sums, Encode, InRange;
    EncodeIsSums(KernelCode(mul)[k]);
    if k < 7 {
      FirstSums(mul, k);
    } else {
      SecondSums(mul, k);
    }
  }

  /** The kernel image, byte by byte. */
  lemma ImageIsWords(mul: bool)
    ensures KernelImage(mul) == ToBytes(Joined(ImageWords(mul)))
  {
    KernelInRange(mul);
    forall k | 0 <= k < 14 ensures Encode(KernelCode(mul)[k]) == ImageWords(mul)[k] {
      EncodedAt(mul, k);
    }
    hide KernelCode, ImageWords, Encode, Assemble, Joined, ToBytes, InRange;
    AssembledWords(KernelCode(mul), ImageWords(mul));
  }

  // ---- what an instruction does ----------------------------------------------

  datatype Operand = Reg(r: nat) | Shared(slot: nat)

  datatype Op =
    | LoadHalf(half: nat, slot: nat)
    | WidenHalf(dst: nat, half: nat)
    | MulHalves(dst: nat, slot: nat, half: nat)
    | Add(dst: nat, first: Operand, right: nat)
    | SetLessEqual(slot: nat, reg: nat)
    | ReturnIfSet
    | ShiftLeft(dst: nat, src: nat, amount: nat)
    | Load(dst: nat, addr: nat)
    | FAdd(dst: nat, left: nat, right: nat)
    | FMul(dst: nat, left: nat, right: nat)
    | Store(addr: nat, src: nat)
    | Undefined

  /** Recognises an instruction by every field it leaves at its default. */
  function Disassemble(i: Instr): Op {
    match i
    case LongI(w0, w1) =>
      if w0 == Long0(1, w0.dst, w0.src1) && w1 == Long1(secop := 2, src3 := 1) then LoadHalf(w0.dst, w0.src1)
      else if w0 == Long0(0xA, w0.dst, w0.src1) && w1 == Long1(m1 := 1) then WidenHalf(w0.dst, w0.src1)
      else if w0 == Long0(3, 127, w0.src1, w0.src2) && w0.src1 / 32 == 3 &&
              w1 == Long1(secop := 3, dstT := 1, cwrite := 1, src3 := 3, s1t := 1, m1 := 1) then
        SetLessEqual(w0.src1 % 32, w0.src2)
      else if w0 == Long0(3, 0, 0, ctrl := true) && w1 == Long1(pred := PRED_NEU) then ReturnIfSet
      else if w0 == Long0(3, w0.dst, w0.src1, w0.src2) && w1 == Long1(secop := 6, src3 := 64, m1 := 1) then
        ShiftLeft(w0.dst, w0.src1, w0.src2)
      else if w0 == Long0(0xD, w0.dst, w0.src1, 14) && w1 == Long1(secop := 4, cidx := 3) then Load(w0.dst, w0.src1)
      else if w0 == Long0(0xD, w0.dst, w0.src1, 14) && w1 == Long1(secop := 5, cidx := 3, exit := true) then
        Store(w0.src1, w0.dst)
      else Undefined
    case ShortI(w) =>
      if w == Short(4, w.dst, w.src1, w.src2, s1t := 1) && w.src1 / 16 == 1 then MulHalves(w.dst, w.src1 % 16, w.src2)
      else if w == Short(2, w.dst, w.src1, w.src2, m2 := 1) then Add(w.dst, Reg(w.src1), w.src2)
      else if w == Short(2, w.dst, w.src1, w.src2, m2 := 1, s1t := 1) && w.src1 / 16 == 3 then
        Add(w.dst, Shared(w.src1 % 16), w.src2)
      else if w == Short(0xB, w.dst, w.src1, w.src2) then FAdd(w.dst, w.src1, w.src2)
      else if w == Short(0xC, w.dst, w.src1, w.src2) then FMul(w.dst, w.src1, w.src2)
      else Undefined
  }

  /** Instruction at position pc of an image, found by decoding its bytes. */
  function Fetch(image: seq<byte>, pc: nat): Op {
    match Parse(FromBytes(image))
    case Bad => Undefined
    case Good(code) => if pc < |code| then Disassemble(code[pc]) else Undefined
  }

  /** The listing beside the encoders. */
  function Listing(mul: bool, pc: nat): Op {
    if pc == 0 then LoadHalf(1, 6)
    else if pc == 1 then WidenHalf(1, 0)
    else if pc == 2 then MulHalves(0, 1, 1)
    else if pc == 3 then Add(0, Reg(0), 1)
    else if pc == 4 then SetLessEqual(7, 0)
    else if pc == 5 then ReturnIfSet
    else if pc == 6 then ShiftLeft(2, 0, 2)
    else if pc == 7 then Add(0, Shared(4), 2)
    else if pc == 8 then Add(3, Shared(5), 2)
    else if pc == 9 then Load(1, 0)
    else if pc == 10 then Load(0, 3)
    else if pc == 11 then if mul then FMul(0, 1, 0) else FAdd(0, 1, 0)
    else if pc == 12 then Add(1, Shared(6), 2)
    else if pc == 13 then Store(1, 0)
    else Undefined
  }

  lemma FirstHalfDecodes(mul: bool, pc: nat)
    requires pc < 7
    ensures Disassemble(KernelCode(mul)[pc]) == Listing(mul, pc)
  {
  }

  lemma SecondHalfDecodes(mul: bool, pc: nat)
    requires 7 <= pc < 14
    ensures Disassemble(KernelCode(mul)[pc]) == Listing(mul, pc)
  {
  }

  /** What the machine finds in the image is the listing. */
  lemma FetchIsListing(mul: bool, pc: nat)
    ensures Fetch(KernelImage(mul), pc) == Listing(mul, pc)
  {
    ImageIsListing(mul);
    hide Parse, FromBytes, KernelImage, KernelCode, Disassemble;
    if pc < 7 {
      FirstHalfDecodes(mul, pc);
    } else if pc < 14 {
      SecondHalfDecodes(mul, pc);
    }
  }
}
