/** Sizing and programming one base address register as
    `USB3Iface._setup_bars` of examples_en210/add.py does, over the registers of
    PCI Local Bus Specification 3.0, section 6.2.5.1. */
module Bars {
  import opened Bits
  import opened Words

  const FOUR_GIB := 0x1_0000_0000
  const TOP := 0x1_0000_0000_0000_0000
  const TWO_MIB := 0x20_0000
  const MEM_BASE := 0x1000_0000
  const PREF_BASE := 0x8_0000_0000

  // ---- the device -----------------------------------------------------------------

  /** What one of the six registers is: unimplemented, an I/O or memory bar of
      2^k bytes, or the upper half of the wide memory bar before it. */
  datatype Slot = Absent | Io(k: nat) | Memory(k: nat, pref: bool, wide: bool) | High

  predicate Held(s: Slot) { s.Io? || s.Memory? }

  predicate Wide(s: Slot) { s.Memory? && s.wide }

  predicate SlotOk(slots: seq<Slot>, i: nat)
    requires i < |slots|
  {
    match slots[i]
    case Absent => true
    case Io(k) => 2 <= k <= 31
    case Memory(k, pref, wide) =>
      4 <= k <= (if wide then 63 else 31) && (wide ==> i + 1 < |slots| && slots[i + 1] == High)
    case High => i > 0 && Wide(slots[i - 1])
  }

  predicate WellFormed(slots: seq<Slot>) {
    |slots| == 6 && forall i :: 0 <= i < 6 ==> SlotOk(slots, i)
  }

  function Down(x: nat, unit: nat): nat
    requires unit > 0
  {
    x / unit * unit
  }

  function Flags(s: Slot): nat
    requires s.Memory?
  {
    (if s.wide then 4 else 0) + if s.pref then 8 else 0
  }

  /** A bar keeps only the address bits above its size. */
  function Kept(s: Slot, address: nat): nat
    requires Held(s)
  {
    Down(if Wide(s) then address % TOP else address % FOUR_GIB, Pow2(s.k))
  }

  function ReadOf(slots: seq<Slot>, addr: seq<nat>, i: nat): nat
    requires i < |slots| == |addr| && SlotOk(slots, i)
  {
    match slots[i]
    case Absent => 0
    case Io(k) => addr[i] + 1
    case Memory(k, pref, wide) => addr[i] % FOUR_GIB + Flags(slots[i])
    case High => addr[i - 1] / FOUR_GIB
  }

  function WriteOf(slots: seq<Slot>, addr: seq<nat>, i: nat, v: word): seq<nat>
    requires i < |slots| == |addr| && SlotOk(slots, i)
  {
    match slots[i]
    case Io(k) => addr[i := Kept(slots[i], v)]
    case Memory(k, pref, wide) => addr[i := Kept(slots[i], addr[i] / FOUR_GIB * FOUR_GIB + v)]
    case High => addr[i - 1 := Kept(slots[i - 1], FOUR_GIB * v + addr[i - 1] % FOUR_GIB)]
    case _ => addr
  }

  // ---- rounding -------------------------------------------------------------------

  lemma DownIs(x: nat, u: nat, q: nat, r: nat)
    requires 0 <= r < u && x == u * q + r
    ensures Down(x, u) == u * q
  {
    RemainderIs(x, u, q, r);
  }

  /** Rounding down is the multiple of u that is less than u below. */
  lemma DownFacts(x: nat, u: nat)
    requires u > 0
    ensures Down(x, u) == u * (x / u) && 0 <= Down(x, u) <= x < Down(x, u) + u
  {
  }

  /** For sizes up to 4 GiB the low word rounds on its own. */
  lemma DownLow(h: nat, v: nat, u: nat, c: nat)
    requires u > 0 && u * c == FOUR_GIB && v < FOUR_GIB
    ensures Down(FOUR_GIB * h + v, u) == FOUR_GIB * h + Down(v, u) && Down(v, u) < FOUR_GIB
  {
    DownFacts(v, u);
    Regroup(u, c, h, v / u);
    DownIs(FOUR_GIB * h + v, u, c * h + v / u, v - Down(v, u));
  }

  lemma Regroup(u: nat, c: nat, h: nat, q: nat)
    ensures u * (c * h + q) == (u * c) * h + u * q
  {
  }

  /** For larger sizes the low word does not matter. */
  lemma DownHigh(h: nat, v: nat, u: nat, c: nat)
    requires c > 0 && u == FOUR_GIB * c && v < FOUR_GIB
    ensures Down(FOUR_GIB * h + v, u) == FOUR_GIB * Down(h, c)
  {
    DownFacts(h, c);
    var q, r := h / c, h - Down(h, c);
    Scale(c, q);
    DownIs(FOUR_GIB * h + v, u, q, FOUR_GIB * r + v);
  }

  lemma Scale(c: nat, q: nat)
    ensures FOUR_GIB * (c * q) == (FOUR_GIB * c) * q
  {
  }

  // ---- the two halves of an address --------------------------------------------------

  function HighKept(k: nat, hi: nat): nat {
    if k <= 32 then hi else Down(hi, Pow2(k - 32))
  }

  function LowKept(k: nat, lo: nat): nat {
    if k <= 32 then Down(lo, Pow2(k)) else 0
  }

  lemma HalvesSmall(k: nat, hi: nat, lo: nat)
    requires k <= 32 && hi < FOUR_GIB && lo < FOUR_GIB
    ensures Down(FOUR_GIB * hi + lo, Pow2(k)) == FOUR_GIB * hi + Down(lo, Pow2(k))
    ensures Down(lo, Pow2(k)) <= lo
  {
    Powers();
    PowSplit(k, 32 - k);
    hide Pow2, Down;
    DownLow(hi, lo, Pow2(k), Pow2(32 - k));
    DownFacts(lo, Pow2(k));
  }

  lemma HalvesLarge(k: nat, hi: nat, lo: nat)
    requires k > 32 && hi < FOUR_GIB && lo < FOUR_GIB
    ensures Down(FOUR_GIB * hi + lo, Pow2(k)) == FOUR_GIB * Down(hi, Pow2(k - 32))
    ensures Down(hi, Pow2(k - 32)) <= hi
  {
    Powers();
    PowSplit(32, k - 32);
    hide Pow2, Down;
    DownHigh(hi, lo, Pow2(k), Pow2(k - 32));
    DownFacts(hi, Pow2(k - 32));
  }

  lemma Halves(k: nat, hi: nat, lo: nat)
    requires hi < FOUR_GIB && lo < FOUR_GIB
    ensures Down(FOUR_GIB * hi + lo, Pow2(k)) == FOUR_GIB * HighKept(k, hi) + LowKept(k, lo)
    ensures HighKept(k, hi) <= hi && LowKept(k, lo) <= lo
  {
    hide Pow2, Down;
    if k <= 32 {
      HalvesSmall(k, hi, lo);
    } else {
      HalvesLarge(k, hi, lo);
    }
  }

  lemma WordsOf(hi: nat, lo: nat)
    requires lo < FOUR_GIB
    ensures (FOUR_GIB * hi + lo) / FOUR_GIB == hi && (FOUR_GIB * hi + lo) % FOUR_GIB == lo
    ensures hi < FOUR_GIB ==> (FOUR_GIB * hi + lo) % TOP == FOUR_GIB * hi + lo
  {
    RemainderIs(FOUR_GIB * hi + lo, FOUR_GIB, hi, lo);
  }

  lemma WideKept(s: Slot, hi: nat, lo: nat)
    requires Wide(s) && hi < FOUR_GIB && lo < FOUR_GIB
    ensures Kept(s, FOUR_GIB * hi + lo) == FOUR_GIB * HighKept(s.k, hi) + LowKept(s.k, lo)
    ensures Kept(s, FOUR_GIB * hi + lo) / FOUR_GIB == HighKept(s.k, hi) <= hi
    ensures Kept(s, FOUR_GIB * hi + lo) % FOUR_GIB == LowKept(s.k, lo) <= lo
  {
    WordsOf(hi, lo);
    Halves(s.k, hi, lo);
    hide Down, Pow2, HighKept, LowKept;
    WordsOf(HighKept(s.k, hi), LowKept(s.k, lo));
  }

  lemma NarrowKept(s: Slot, hi: nat, lo: nat)
    requires Held(s) && !Wide(s) && s.k <= 31 && lo < FOUR_GIB
    ensures Kept(s, FOUR_GIB * hi + lo) == LowKept(s.k, lo) <= lo
  {
    WordsOf(hi, lo);
    hide Pow2;
    DownFacts(lo, Pow2(s.k));
  }

  /** What a register of all ones reads back as. */
  lemma OnesKept(k: nat)
    requires k <= 63
    ensures k <= 32 ==> LowKept(k, FOUR_GIB - 1) == FOUR_GIB - Pow2(k) && 0 < Pow2(k) <= FOUR_GIB
    ensures k <= 31 ==> Pow2(k) < FOUR_GIB
    ensures FOUR_GIB * HighKept(k, FOUR_GIB - 1) + LowKept(k, FOUR_GIB - 1) == TOP - Pow2(k) && 0 < Pow2(k) < TOP
  {
    Powers();
    if k <= 32 {
      PowSplit(k, 32 - k);
      hide Pow2;
      TopMultiple(Pow2(k), Pow2(32 - k));
      if k < 32 {
        AtLeastTwo(32 - k);
        SmallerFactor(Pow2(k), Pow2(32 - k));
      }
    } else {
      PowSplit(32, k - 32);
      PowSplit(k - 32, 64 - k);
      hide Pow2;
      assert Pow2(k - 32 + (64 - k)) == FOUR_GIB;
      TopMultiple(Pow2(k - 32), Pow2(64 - k));
      AtLeastTwo(64 - k);
      SmallerFactor(Pow2(k - 32), Pow2(64 - k));
    }
  }

  lemma TopMultiple(u: nat, c: nat)
    requires u * c == FOUR_GIB && u > 0
    ensures Down(FOUR_GIB - 1, u) == FOUR_GIB - u && u <= FOUR_GIB
  {
    assert c >= 1;
    assert u * (c - 1) == FOUR_GIB - u;
    assert u * (c - 1) >= 0;
    DownIs(FOUR_GIB - 1, u, c - 1, u - 1);
  }

  lemma AtLeastTwo(j: nat)
    requires j > 0
    ensures Pow2(j) >= 2
  {
  }

  lemma SmallerFactor(u: nat, c: nat)
    requires u * c == FOUR_GIB && c >= 2
    ensures u < FOUR_GIB
  {
    assert u * (c - 2) >= 0;
  }

  lemma LowMultiple(k: nat, lo: nat)
    requires k >= 4
    ensures LowKept(k, lo) % 16 == 0
  {
    SixteenPow(k);
    hide Pow2, Down;
    if k <= 32 {
      DownMultiple(lo, Pow2(k), Pow2(k - 4));
    }
  }

  lemma SixteenPow(k: nat)
    requires k >= 4
    ensures Pow2(k) == 16 * Pow2(k - 4)
  {
    assert Pow2(k) == 2 * Pow2(k - 1) && Pow2(k - 1) == 2 * Pow2(k - 2);
    assert Pow2(k - 2) == 2 * Pow2(k - 3) && Pow2(k - 3) == 2 * Pow2(k - 4);
  }

  lemma DownMultiple(x: nat, u: nat, p: nat)
    requires u == 16 * p && p > 0
    ensures Down(x, u) % 16 == 0
  {
    DownFacts(x, u);
    hide Down;
    SixteenTimes(Down(x, u), x / u, u, p);
  }

  lemma SixteenTimes(y: nat, c: int, u: nat, p: nat)
    requires u == 16 * p && y == u * c
    ensures y % 16 == 0
  {
    var t := p * c;
    assert y == 16 * t;
    RemainderIs(y, 16, t, 0);
  }

  /** Bars are at least 16 bytes, so the flag bits are apart from the address. */
  lemma FlagsApart(s: Slot, x: nat)
    requires s.Memory? && x % 16 == 0
    ensures (x + Flags(s)) % 16 == Flags(s) && (x + Flags(s)) % 2 == 0
    ensures (x + Flags(s)) / 4 % 2 == 1 <==> s.wide
    ensures (x + Flags(s)) / 8 % 2 == 1 <==> s.pref
  {
    var q, w, p := x / 16, if s.wide then 1 else 0, if s.pref then 1 else 0;
    var y := x + Flags(s);
    assert y == 16 * q + 8 * p + 4 * w;
    RemainderIs(y, 16, q, 8 * p + 4 * w);
    RemainderIs(y, 2, 8 * q + 4 * p + 2 * w, 0);
    RemainderIs(y, 4, 4 * q + 2 * p + w, 0);
    RemainderIs(4 * q + 2 * p + w, 2, 2 * q + p, w);
    RemainderIs(y, 8, 2 * q + p, 4 * w);
    RemainderIs(2 * q + p, 2, q, p);
  }

  // ---- the registers -----------------------------------------------------------------

  /** An address is its own rounding, a word when the bar is narrow. */
  predicate Holdable(s: Slot, address: nat)
    requires Held(s)
  {
    var hi, lo := address / FOUR_GIB, address % FOUR_GIB;
    if Wide(s) then hi == HighKept(s.k, hi) < FOUR_GIB && lo == LowKept(s.k, lo) else hi == 0 && lo == LowKept(s.k, lo)
  }

  /** Registers hold only address bits that they keep. */
  predicate AddressesOk(slots: seq<Slot>, addr: seq<nat>) {
    |addr| == |slots| && forall i :: 0 <= i < |slots| && Held(slots[i]) ==> Holdable(slots[i], addr[i])
  }

  lemma DownTwice(x: nat, u: nat)
    requires u > 0
    ensures Down(Down(x, u), u) == Down(x, u)
  {
    DownFacts(x, u);
    DownIs(Down(x, u), u, x / u, 0);
  }

  lemma KeptTwice(k: nat, hi: nat, lo: nat)
    ensures HighKept(k, HighKept(k, hi)) == HighKept(k, hi) && LowKept(k, LowKept(k, lo)) == LowKept(k, lo)
  {
    if k <= 32 {
      DownTwice(lo, Pow2(k));
    } else {
      DownTwice(hi, Pow2(k - 32));
    }
  }

  lemma KeptHoldable(s: Slot, hi: nat, lo: nat)
    requires Held(s) && s.k <= (if Wide(s) then 63 else 31) && hi < FOUR_GIB && lo < FOUR_GIB
    ensures Holdable(s, Kept(s, FOUR_GIB * hi + lo))
  {
    hide Kept;
    KeptTwice(s.k, hi, lo);
    hide HighKept, LowKept;
    if Wide(s) {
      WideKept(s, hi, lo);
    } else {
      NarrowKept(s, hi, lo);
    }
  }

  lemma WriteKeepsOk(slots: seq<Slot>, addr: seq<nat>, i: nat, v: word)
    requires WellFormed(slots) && AddressesOk(slots, addr) && i < 6
    ensures AddressesOk(slots, WriteOf(slots, addr, i, v))
  {
    hide Kept, HighKept, LowKept;
    assert SlotOk(slots, i);
    match slots[i]
    case Io(k) =>
      KeptHoldable(slots[i], 0, v);
    case Memory(k, pref, wide) =>
      assert Holdable(slots[i], addr[i]);
      KeptHoldable(slots[i], addr[i] / FOUR_GIB, v);
    case High =>
      assert SlotOk(slots, i - 1);
      KeptHoldable(slots[i - 1], v, addr[i - 1] % FOUR_GIB);
    case _ =>
  }

  /** The function's configuration header, as far as these registers go. The
      dword behind the sixth is the CardBus CIS pointer, which is read-only. */
  class Config {
    const slots: seq<Slot>
    const cis: word
    var addr: seq<nat>

    constructor (slots: seq<Slot>, addr: seq<nat>, cis: word)
      requires WellFormed(slots) && AddressesOk(slots, addr)
      ensures Valid() && this.slots == slots && this.addr == addr && this.cis == cis
    {
      this.slots, this.addr, this.cis := slots, addr, cis;
    }

    ghost predicate Valid()
      reads this
    {
      WellFormed(slots) && AddressesOk(slots, addr)
    }

    method ReadBar(i: nat) returns (v: nat)
      requires Valid() && i <= 6
      ensures v == if i == 6 then cis else ReadOf(slots, addr, i)
    {
      v := if i == 6 then cis else ReadOf(slots, addr, i);
    }

    method WriteBar(i: nat, v: word)
      requires Valid() && i <= 6
      modifies this
      ensures Valid() && addr == if i == 6 then old(addr) else WriteOf(slots, old(addr), i, v)
    {
      if i < 6 {
        WriteKeepsOk(slots, addr, i, v);
        addr := WriteOf(slots, addr, i, v);
      }
    }
  }

  // ---- allocation ----------------------------------------------------------------------

  datatype Range = Range(bar: nat, base: nat, size: nat, pref: bool)

  /** (x + 0x1fffff) & ~0x1fffff. */
  function Up(x: nat): nat {
    Down(x + TWO_MIB - 1, TWO_MIB)
  }

  /** Bars in order, each from the pool of its kind. */
  function Plan(slots: seq<Slot>, i: nat, mem: nat, pref: nat): seq<Range>
    decreases |slots| - i
  {
    if i >= |slots| then []
    else if !slots[i].Memory? then Plan(slots, i + 1, mem, pref)
    else
      var s := slots[i];
      var r := Range(i, if s.pref then pref else mem, Pow2(s.k), s.pref);
      var next := Up(r.base + r.size);
      [r] + Plan(slots, if s.wide then i + 2 else i + 1, if s.pref then mem else next, if s.pref then next else pref)
  }

  /** Every address given to a wide bar fits its 64 bits. */
  predicate Room(slots: seq<Slot>, plan: seq<Range>) {
    forall j :: 0 <= j < |plan| && plan[j].bar < |slots| && Wide(slots[plan[j].bar]) ==> plan[j].base < TOP
  }

  function SizeOf(s: Slot): nat {
    if s.Memory? then Pow2(s.k) else 0
  }

  lemma FlagsRead(slots: seq<Slot>, addr: seq<nat>, i: nat)
    requires WellFormed(slots) && AddressesOk(slots, addr) && i < 6 && slots[i].Memory?
    ensures var cfg := ReadOf(slots, addr, i);
            cfg % 2 == 0 && (cfg / 4 % 2 == 1 <==> slots[i].wide) && (cfg / 8 % 2 == 1 <==> slots[i].pref) &&
            cfg - cfg % 16 == addr[i] % FOUR_GIB
  {
    hide LowKept, HighKept, Flags;
    assert SlotOk(slots, i) && Holdable(slots[i], addr[i]);
    LowMultiple(slots[i].k, addr[i] % FOUR_GIB);
    FlagsApart(slots[i], addr[i] % FOUR_GIB);
  }

  lemma HighWord(s: Slot, address: nat)
    requires s.Memory? && Holdable(s, address)
    ensures address / FOUR_GIB < FOUR_GIB && (!s.wide ==> address / FOUR_GIB == 0)
  {
  }

  const ONES: word := 0xFFFF_FFFF

  lemma ProbeLow(s: Slot, high: nat)
    requires s.Memory? && s.k <= (if s.wide then 63 else 31) && high < FOUR_GIB
    ensures Kept(s, FOUR_GIB * high + ONES) % FOUR_GIB == LowKept(s.k, ONES) < FOUR_GIB
  {
    hide Kept, LowKept, HighKept;
    if s.wide {
      WideKept(s, high, ONES);
    } else {
      NarrowKept(s, high, ONES);
    }
  }

  lemma ProbeHigh(s: Slot)
    requires s.Memory? && s.wide && s.k <= 63
    ensures LowKept(s.k, ONES) < FOUR_GIB
    ensures Kept(s, FOUR_GIB * ONES + LowKept(s.k, ONES)) / FOUR_GIB == HighKept(s.k, ONES)
  {
    hide Kept, LowKept, HighKept;
    WideKept(s, 0, ONES);
    WideKept(s, ONES, LowKept(s.k, ONES));
  }

  function Decoded(is64: bool, hi: nat, lo: nat): int {
    var mask := FOUR_GIB * hi + lo;
    if is64 then (TOP - mask) % TOP else (FOUR_GIB - mask) % FOUR_GIB
  }

  lemma DecodedIsSize(s: Slot)
    requires s.Memory? && s.k <= (if s.wide then 63 else 31)
    ensures Decoded(s.wide, if s.wide then HighKept(s.k, ONES) else 0, LowKept(s.k, ONES)) == Pow2(s.k)
  {
    hide LowKept, HighKept, Pow2;
    OnesKept(s.k);
  }

  /** Register i, taken for 64 bits wide or not, is what it is taken for. */
  predicate Taken(slots: seq<Slot>, i: nat, is64: bool)
    requires i < |slots|
  {
    if is64 then Wide(slots[i]) else slots[i].Absent? || (slots[i].Memory? && !slots[i].wide)
  }

  /** Accesses from register i on leave the bars before it alone, except that a
      register which is an upper half belongs to the bar before it. */
  predicate Before(slots: seq<Slot>, i: nat, j: nat)
    requires i < |slots|
  {
    j < i && !(slots[i].High? && j == i - 1)
  }

  /** Writing ones and reading back gives the size, whatever was there before. */
  method Probe(c: Config, i: nat, is64: bool) returns (size: nat)
    requires c.Valid() && i < 6
    modifies c
    ensures c.Valid() && |c.addr| == 6
    ensures forall j :: 0 <= j < 6 && Before(c.slots, i, j) ==> c.addr[j] == old(c.addr[j])
    ensures Taken(c.slots, i, is64) ==>
              size == SizeOf(c.slots[i]) && (c.slots[i].Absent? ==> c.addr == old(c.addr)) &&
              forall j :: 0 <= j < 6 && j != i ==> c.addr[j] == old(c.addr[j])
  {
    hide LowKept, HighKept, Pow2, Kept, Flags, Holdable;
    ghost var s, high, taken := c.slots[i], c.addr[i] / FOUR_GIB, Taken(c.slots, i, is64);
    assert SlotOk(c.slots, i);
    if s.Memory? {
      assert Holdable(s, c.addr[i]);
      HighWord(s, c.addr[i]);
      ProbeLow(s, high);
    }
    c.WriteBar(i, ONES);
    var v := c.ReadBar(i);
    var lo := v - v % 16;
    if s.Memory? {
      assert c.addr[i] == Kept(s, FOUR_GIB * high + ONES);
      FlagsRead(c.slots, c.addr, i);
      DecodedIsSize(s);
    }
    var hi := 0;
    if is64 {
      if taken {
        ProbeHigh(s);
      }
      c.WriteBar(i + 1, ONES);
      assert taken ==> c.addr[i] == Kept(s, FOUR_GIB * ONES + LowKept(s.k, ONES));
      hi := c.ReadBar(i + 1);
    }
    size := Decoded(is64, hi, lo);
  }

  lemma ProgramKept(s: Slot, h0: nat, hi: nat, lo: nat)
    requires Wide(s) && h0 < FOUR_GIB && hi < FOUR_GIB && lo < FOUR_GIB
    ensures Kept(s, FOUR_GIB * hi + Kept(s, FOUR_GIB * h0 + lo) % FOUR_GIB) == Kept(s, FOUR_GIB * hi + lo)
  {
    hide Kept;
    WideKept(s, h0, lo);
    KeptTwice(s.k, hi, lo);
    hide HighKept, LowKept;
    WideKept(s, hi, lo);
    WideKept(s, hi, LowKept(s.k, lo));
  }

  /** Both halves of the address, low first; a high half over 32 bits is refused
      where it would be sent. */
  method Program(c: Config, i: nat, is64: bool, base: nat) returns (ok: bool)
    requires c.Valid() && i < 6
    modifies c
    ensures c.Valid() && |c.addr| == 6 && (ok <==> !is64 || base < TOP)
    ensures forall j :: 0 <= j < 6 && Before(c.slots, i, j) ==> c.addr[j] == old(c.addr[j])
    ensures Taken(c.slots, i, is64) && c.slots[i].Memory? ==>
              forall j :: 0 <= j < 6 && j != i ==> c.addr[j] == old(c.addr[j])
    ensures Taken(c.slots, i, is64) && c.slots[i].Memory? && ok ==>
              c.addr == old(c.addr)[i := Kept(c.slots[i], base)]
  {
    hide LowKept, HighKept, Pow2, Flags, Holdable;
    ghost var s, before, h0 := c.slots[i], c.addr, c.addr[i] / FOUR_GIB;
    ghost var taken := Taken(c.slots, i, is64) && s.Memory?;
    assert SlotOk(c.slots, i);
    var hi, lo := base / FOUR_GIB, base % FOUR_GIB;
    assert base == FOUR_GIB * hi + lo;
    if taken {
      assert Holdable(s, c.addr[i]);
      HighWord(s, c.addr[i]);
      NarrowBase(s, hi, lo);
    }
    hide Kept;
    c.WriteBar(i, lo);
    assert taken ==> c.addr == before[i := Kept(s, FOUR_GIB * h0 + lo)];
    if is64 {
      if hi >= FOUR_GIB { return false; }
      if taken {
        ProgramKept(s, h0, hi, lo);
      }
      c.WriteBar(i + 1, hi);
      assert taken ==> c.addr == before[i := Kept(s, FOUR_GIB * hi + Kept(s, FOUR_GIB * h0 + lo) % FOUR_GIB)];
    }
    return true;
  }

  lemma NarrowBase(s: Slot, hi: nat, lo: nat)
    requires s.Memory? && lo < FOUR_GIB
    ensures !s.wide ==> Kept(s, FOUR_GIB * hi + lo) == Kept(s, FOUR_GIB * 0 + lo)
  {
    WordsOf(hi, lo);
    WordsOf(0, lo);
  }
}
