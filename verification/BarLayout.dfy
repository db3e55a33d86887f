/** What the bar allocation guarantees: ranges apart, aligned, and, under the
    condition stated here exactly, where the hardware decodes them. */
module BarLayout {
  import opened Bits
  import opened Bars

  predicate Apart(r: Range, s: Range) {
    r.base + r.size <= s.base || s.base + s.size <= r.base
  }

  lemma UpFacts(x: nat)
    ensures x <= Up(x) < x + TWO_MIB && Up(x) % TWO_MIB == 0
    ensures x % TWO_MIB == 0 ==> Up(x) == x
  {
    var q := (x + TWO_MIB - 1) / TWO_MIB;
    RemainderIs(TWO_MIB * q, TWO_MIB, q, 0);
  }

  /** A range of a plan: one of its bars, sized 2^k, from its pool. */
  predicate RangeOk(slots: seq<Slot>, i: nat, mem: nat, pref: nat, r: Range) {
    i <= r.bar < |slots| && slots[r.bar].Memory? && r.size == Pow2(slots[r.bar].k) && r.pref == slots[r.bar].pref &&
    r.base >= (if r.pref then pref else mem) && r.base % 0x20_0000 == 0
  }

  /** Pools only grow: within one kind, later bars lie above earlier ones. */
  predicate Laid(slots: seq<Slot>, i: nat, mem: nat, pref: nat, p: seq<Range>) {
    (forall a :: 0 <= a < |p| ==> RangeOk(slots, i, mem, pref, p[a])) &&
    (forall a, b :: 0 <= a < b < |p| ==>
      p[a].bar < p[b].bar && (p[a].pref == p[b].pref ==> p[a].base + p[a].size <= p[b].base))
  }

  lemma LaidMore(slots: seq<Slot>, i: nat, mem: nat, pref: nat, r: Range, next: nat, j: nat, rest: seq<Range>)
    requires RangeOk(slots, i, mem, pref, r) && r.bar == i < j && next >= r.base + r.size
    requires Laid(slots, j, if r.pref then mem else next, if r.pref then next else pref, rest)
    ensures Laid(slots, i, mem, pref, [r] + rest)
  {
    hide Pow2;
    var p := [r] + rest;
    forall a | 0 <= a < |p| ensures RangeOk(slots, i, mem, pref, p[a]) {
      if a > 0 {
        assert RangeOk(slots, j, if r.pref then mem else next, if r.pref then next else pref, rest[a - 1]);
      }
    }
    forall b | 0 < b < |p| ensures r.bar < p[b].bar && (r.pref == p[b].pref ==> r.base + r.size <= p[b].base) {
      assert RangeOk(slots, j, if r.pref then mem else next, if r.pref then next else pref, rest[b - 1]);
    }
  }

  lemma {:induction false} PlanLaid(slots: seq<Slot>, i: nat, mem: nat, pref: nat)
    requires mem % TWO_MIB == 0 && pref % TWO_MIB == 0
    ensures Laid(slots, i, mem, pref, Plan(slots, i, mem, pref))
    decreases |slots| - i
  {
    hide Up, Pow2;
    if i < |slots| {
      var s := slots[i];
      if s.Memory? {
        var base := if s.pref then pref else mem;
        UpFacts(base + Pow2(s.k));
        var next := Up(base + Pow2(s.k));
        var j := if s.wide then i + 2 else i + 1;
        var mem', pref' := if s.pref then mem else next, if s.pref then next else pref;
        PlanLaid(slots, j, mem', pref');
        hide Laid;
        LaidMore(slots, i, mem, pref, Range(i, base, Pow2(s.k), s.pref), next, j, Plan(slots, j, mem', pref'));
      } else {
        PlanLaid(slots, i + 1, mem, pref);
        LaidEarlier(slots, i, mem, pref, Plan(slots, i + 1, mem, pref));
      }
    }
  }

  lemma LaidEarlier(slots: seq<Slot>, i: nat, mem: nat, pref: nat, p: seq<Range>)
    requires Laid(slots, i + 1, mem, pref, p)
    ensures Laid(slots, i, mem, pref, p)
  {
    hide Pow2;
    forall a | 0 <= a < |p| ensures RangeOk(slots, i, mem, pref, p[a]) {
      assert RangeOk(slots, i + 1, mem, pref, p[a]);
    }
  }

  /** The allocation of the source. */
  function Allocation(slots: seq<Slot>): seq<Range> {
    Plan(slots, 0, MEM_BASE, PREF_BASE)
  }

  /** The plain memory pool ends below the prefetchable one. */
  predicate PoolsApart(p: seq<Range>) {
    forall j :: 0 <= j < |p| && !p[j].pref ==> p[j].base + p[j].size <= PREF_BASE
  }

  /** Every range has its bar's size and starts on a 2 MiB boundary. */
  lemma RangesSized(slots: seq<Slot>, p: seq<Range>, a: nat)
    requires p == Allocation(slots) && a < |p|
    ensures p[a].bar < |slots| && slots[p[a].bar].Memory? && p[a].size == Pow2(slots[p[a].bar].k)
    ensures p[a].base % 0x20_0000 == 0 && p[a].base >= if p[a].pref then 0x8_0000_0000 else 0x1000_0000
    ensures p[a].pref == slots[p[a].bar].pref
  {
    hide Plan, Pow2;
    PlanLaid(slots, 0, MEM_BASE, PREF_BASE);
    assert RangeOk(slots, 0, MEM_BASE, PREF_BASE, p[a]);
  }

  /** No two ranges overlap, and no bar has two. */
  lemma RangesApart(slots: seq<Slot>, p: seq<Range>, a: nat, b: nat)
    requires p == Allocation(slots) && PoolsApart(p) && a < b < |p|
    ensures Apart(p[a], p[b]) && p[a].bar != p[b].bar
  {
    hide Plan, Pow2, RangeOk;
    PlanLaid(slots, 0, MEM_BASE, PREF_BASE);
    RangesSized(slots, p, a);
    RangesSized(slots, p, b);
  }

  lemma DownIffMultiple(x: nat, u: nat)
    requires u > 0
    ensures Down(x, u) == x <==> x % u == 0
  {
    DownFacts(x, u);
    assert x == u * (x / u) + x % u;
  }

  /** The hardware decodes what was recorded exactly when the base is naturally
      aligned and, for a narrow bar, below 4 GiB. */
  lemma DecodesIff(s: Slot, base: nat)
    requires s.Memory? && base < TOP
    ensures Kept(s, base) == base <==> base % Pow2(s.k) == 0 && (s.wide || base < FOUR_GIB)
  {
    hide Pow2;
    var x := if s.wide then base % TOP else base % FOUR_GIB;
    DownFacts(x, Pow2(s.k));
    DownIffMultiple(x, Pow2(s.k));
  }

  /** A 32-bit prefetchable bar is recorded above 4 GiB, where it cannot decode. */
  lemma NarrowPrefetchableLost(slots: seq<Slot>, p: seq<Range>, a: nat)
    requires p == Allocation(slots) && a < |p| && p[a].pref && p[a].base < TOP
    ensures p[a].bar < |slots| && slots[p[a].bar].Memory?
    ensures !slots[p[a].bar].wide ==> Kept(slots[p[a].bar], p[a].base) != p[a].base
  {
    hide Plan, Pow2, Kept;
    RangesSized(slots, p, a);
    DecodesIff(slots[p[a].bar], p[a].base);
  }

  // ---- natural alignment -------------------------------------------------------------

  /** Sizes of each kind do not grow, starting from at most 2^m and 2^q. */
  predicate Descending(slots: seq<Slot>, i: nat, m: nat, q: nat)
    decreases |slots| - i
  {
    i >= |slots| ||
    if !slots[i].Memory? then Descending(slots, i + 1, m, q)
    else
      var s := slots[i];
      s.k <= (if s.pref then q else m) &&
      Descending(slots, if s.wide then i + 2 else i + 1, if s.pref then m else s.k, if s.pref then s.k else q)
  }

  lemma MultipleOfSmaller(x: nat, j: nat, k: nat)
    requires j <= k && x % Pow2(k) == 0
    ensures x % Pow2(j) == 0
  {
    PowSplit(k - j, j);
    hide Pow2;
    FactorMultiple(x, Pow2(k), Pow2(k - j), Pow2(j));
  }

  lemma FactorMultiple(x: nat, u: nat, d: nat, p: nat)
    requires p > 0 && u > 0 && u == d * p && x % u == 0
    ensures x % p == 0
  {
    var c := x / u;
    assert x == u * c;
    assert (d * p) * c == p * (d * c);
    RemainderIs(x, p, d * c, 0);
  }

  lemma SumMultiple(x: nat, p: nat)
    requires p > 0 && x % p == 0
    ensures (x + p) % p == 0
  {
    RemainderIs(x + p, p, x / p + 1, 0);
  }

  /** The next pool address is again a multiple of the size just given out. */
  lemma NextAligned(base: nat, k: nat)
    requires base % Pow2(k) == 0 && base % TWO_MIB == 0
    ensures Up(base + Pow2(k)) % Pow2(k) == 0 && Up(base + Pow2(k)) % TWO_MIB == 0
  {
    assert Pow2(21) == TWO_MIB by { Powers(); }
    var next := base + Pow2(k);
    UpFacts(next);
    hide Up;
    if k <= 21 {
      MultipleOfSmaller(Up(next), k, 21);
    } else {
      SumMultiple(base, Pow2(k));
      MultipleOfSmaller(next, 21, k);
    }
  }

  predicate Natural(p: seq<Range>) {
    forall a :: 0 <= a < |p| ==> p[a].size > 0 && p[a].base % p[a].size == 0
  }

  /** When sizes do not grow within a kind and each pool starts aligned to its
      first, every range is naturally aligned. */
  lemma {:induction false} DescendingIsNatural(slots: seq<Slot>, i: nat, mem: nat, pref: nat, m: nat, q: nat)
    requires Descending(slots, i, m, q)
    requires mem % Pow2(m) == 0 && mem % TWO_MIB == 0 && pref % Pow2(q) == 0 && pref % TWO_MIB == 0
    ensures Natural(Plan(slots, i, mem, pref))
    decreases |slots| - i
  {
    hide Up, Pow2;
    if i < |slots| {
      var s := slots[i];
      if s.Memory? {
        var base, most := if s.pref then pref else mem, if s.pref then q else m;
        MultipleOfSmaller(base, s.k, most);
        NextAligned(base, s.k);
        var next := Up(base + Pow2(s.k));
        DescendingIsNatural(slots, if s.wide then i + 2 else i + 1, if s.pref then mem else next,
                            if s.pref then next else pref, if s.pref then m else s.k, if s.pref then s.k else q);
      } else {
        DescendingIsNatural(slots, i + 1, mem, pref, m, q);
      }
    }
  }

  /** From the pools of the source: non-growing sizes, at most 256 MiB plain and
      32 GiB prefetchable, and wide prefetchable bars decode as recorded. */
  lemma AllocationDecodes(slots: seq<Slot>, p: seq<Range>, a: nat)
    requires p == Allocation(slots) && a < |p| && Descending(slots, 0, 28, 35) && p[a].base < TOP
    ensures p[a].bar < |slots| && slots[p[a].bar].Memory?
    ensures slots[p[a].bar].wide || p[a].base < FOUR_GIB ==> Kept(slots[p[a].bar], p[a].base) == p[a].base
  {
    assert MEM_BASE % Pow2(28) == 0 && PREF_BASE % Pow2(35) == 0 by {
      Powers();
      PowSplit(3, 32);
    }
    hide Plan, Pow2, Kept;
    DescendingIsNatural(slots, 0, MEM_BASE, PREF_BASE, 28, 35);
    RangesSized(slots, p, a);
    DecodesIff(slots[p[a].bar], p[a].base);
  }
}
