/** Bit operations on unbounded non-negative integers, as Python's ints and C's
    unsigned words use them, and the few laws the encoders rely on: joining
    fields that do not overlap is addition, masking a field is division and
    remainder. */
module Bits {

  function Pow2(k: nat): (p: nat)
    ensures p > 0
  {
    if k == 0 then 1 else 2 * Pow2(k - 1)
  }

  function And(a: nat, b: nat): nat {
    if a == 0 || b == 0 then 0
    else 2 * And(a / 2, b / 2) + (if a % 2 == 1 && b % 2 == 1 then 1 else 0)
  }

  function Or(a: nat, b: nat): nat
    decreases a + b
  {
    if a == 0 then b
    else if b == 0 then a
    else 2 * Or(a / 2, b / 2) + (if a % 2 == 1 || b % 2 == 1 then 1 else 0)
  }

  function Xor(a: nat, b: nat): nat
    decreases a + b
  {
    if a == 0 then b
    else if b == 0 then a
    else 2 * Xor(a / 2, b / 2) + (if a % 2 != b % 2 then 1 else 0)
  }

  lemma OrSymmetric(a: nat, b: nat)
    ensures Or(a, b) == Or(b, a)
    decreases a + b
  {
  }

  lemma OrHalves(h: nat, l: nat, h': nat, l': nat)
    requires l < 2 && l' < 2
    ensures Or(2 * h + l, 2 * h' + l') == 2 * Or(h, h') + (if l + l' > 0 then 1 else 0)
  {
    assert (2 * h + l) / 2 == h && (2 * h' + l') / 2 == h';
  }

  /** A value shifted left by k joined with a value of at most k bits is their sum. */
  lemma {:induction false} OrIsSum(h: nat, low: nat, k: nat)
    requires low < Pow2(k)
    ensures Or(h * Pow2(k), low) == Or(low, h * Pow2(k)) == h * Pow2(k) + low
    decreases k
  {
    OrSymmetric(h * Pow2(k), low);
    if k > 0 {
      DoubleProduct(h, Pow2(k - 1));
      OrIsSum(h, low / 2, k - 1);
      OrHalves(h * Pow2(k - 1), 0, low / 2, low % 2);
    } else {
      assert h * Pow2(k) == h;
    }
  }

  lemma DoubleProduct(m: int, p: int)
    ensures m * (2 * p) == 2 * (m * p)
  {
  }

  lemma {:induction false} PowSplit(j: nat, k: nat)
    ensures Pow2(j + k) == Pow2(j) * Pow2(k)
    decreases j
  {
    if j > 0 {
      PowSplit(j - 1, k);
      DoubleProduct(Pow2(k), Pow2(j - 1));
    }
  }

  lemma MulIsZero(d: int, x: int)
    requires d > 0 && -d < d * x < d
    ensures x == 0
  {
    assert x >= 1 ==> d * x >= d;
    assert x <= -1 ==> d * x <= -d;
  }

  lemma ProductNatural(x: nat, y: nat)
    ensures x * y >= 0
  {
  }

  /** A quotient whose multiple lies below c times the divisor is below c. */
  lemma QuotientBelow(d: nat, q: nat, r: nat, c: nat)
    requires d * q + r < d * c
    ensures q < c
  {
    if q >= c {
      ProductNatural(d, q - c);
    }
  }

  /** Quotient and remainder are the only pair that recomposes the number. */
  lemma RemainderIs(a: int, d: int, q: int, r: int)
    requires 0 <= r < d && a == d * q + r
    ensures a / d == q && a % d == r
  {
    var q', r' := a / d, a % d;
    assert a == d * q' + r';
    assert d * (q - q') == r' - r;
    MulIsZero(d, q - q');
  }

  lemma HalveDivMod(a: nat, p: nat)
    requires p > 0
    ensures a / (2 * p) == a / 2 / p
    ensures a % (2 * p) == 2 * (a / 2 % p) + a % 2
  {
    var h := a / 2;
    var q, r := h / p, h % p;
    assert h == p * q + r;
    assert a == 2 * h + a % 2;
    assert 2 * (p * q) == (2 * p) * q;
    RemainderIs(a, 2 * p, q, 2 * r + a % 2);
  }

  lemma DivTwice(v: nat, p: nat)
    requires p > 0
    ensures v / (2 * p) == v / p / 2
  {
    var q := v / p;
    assert v == p * q + v % p && q == 2 * (q / 2) + q % 2;
    var r := p * (q % 2) + v % p;
    assert r == v % p || r == p + v % p;
    assert p * q == p * (2 * (q / 2)) + p * (q % 2);
    RemainderIs(v, 2 * p, q / 2, r);
  }

  /** Masking with k ones keeps the remainder by 2^k. */
  lemma {:induction false} AndIsMod(a: nat, k: nat)
    ensures And(a, Pow2(k) - 1) == a % Pow2(k)
    decreases k
  {
    if k > 0 {
      var p := Pow2(k - 1);
      AndIsMod(a / 2, k - 1);
      AndOdd(a, p - 1);
      AndIsModStep(a, p, Pow2(k));
    }
  }

  lemma AndIsModStep(a: nat, p: nat, p2: nat)
    requires p > 0 && p2 == 2 * p
    requires And(a / 2, p - 1) == a / 2 % p
    requires And(a, 2 * (p - 1) + 1) == 2 * And(a / 2, p - 1) + a % 2
    ensures And(a, p2 - 1) == a % p2
  {
    HalveDivMod(a, p);
    assert p2 - 1 == 2 * (p - 1) + 1;
  }

  lemma AndOdd(a: nat, m: nat)
    ensures And(a, 2 * m + 1) == 2 * And(a / 2, m) + a % 2
  {
    assert (2 * m + 1) / 2 == m;
  }

  lemma AndEven(a: nat, m: nat)
    ensures And(a, 2 * m) == 2 * And(a / 2, m)
  {
    assert (2 * m) / 2 == m;
  }

  /** m shifted left by k. */
  function Shl(m: nat, k: nat): (r: nat)
  {
    if k == 0 then m else 2 * Shl(m, k - 1)
  }

  /** m shifted right by k. */
  function Shr(m: nat, k: nat): (r: nat)
  {
    if k == 0 then m else Shr(m / 2, k - 1)
  }

  /** Masking with a mask shifted left by k masks the value shifted right by k. */
  lemma {:induction false} AndShifted(a: nat, m: nat, k: nat)
    ensures And(a, Shl(m, k)) == Shl(And(Shr(a, k), m), k)
    decreases k
  {
    if k > 0 {
      AndShifted(a / 2, m, k - 1);
      AndEven(a, Shl(m, k - 1));
    }
  }

  lemma {:induction false} ShiftsAreMulDiv(m: nat, k: nat)
    ensures Shl(m, k) == m * Pow2(k)
    ensures Shr(m, k) == m / Pow2(k)
    decreases k
  {
    if k > 0 {
      ShiftsAreMulDiv(m, k - 1);
      ShiftsAreMulDiv(m / 2, k - 1);
      HalveDivMod(m, Pow2(k - 1));
      DoubleProduct(m, Pow2(k - 1));
    }
  }

  lemma {:induction false} XorBound(a: nat, b: nat, k: nat)
    requires a < Pow2(k) && b < Pow2(k)
    ensures Xor(a, b) < Pow2(k)
    decreases k
  {
    if a > 0 && b > 0 {
      XorBound(a / 2, b / 2, k - 1);
    }
  }

  lemma {:induction false} AndBound(a: nat, b: nat)
    ensures And(a, b) <= a && And(a, b) <= b
    decreases a
  {
    if a > 0 && b > 0 {
      AndBound(a / 2, b / 2);
    }
  }

  lemma {:induction false} OrBound(a: nat, b: nat, k: nat)
    requires a < Pow2(k) && b < Pow2(k)
    ensures Or(a, b) < Pow2(k)
    decreases k
  {
    if a > 0 && b > 0 {
      OrBound(a / 2, b / 2, k - 1);
    }
  }

  /** And works on the high and low parts separately. */
  lemma {:induction false} AndSplit(a: nat, b: nat, k: nat)
    ensures And(a, b) == Shl(And(Shr(a, k), Shr(b, k)), k) + And(a % Pow2(k), b % Pow2(k))
    decreases k
  {
    if k > 0 {
      var p := Pow2(k - 1);
      assert Pow2(k) == 2 * p;
      HalveDivMod(a, p);
      HalveDivMod(b, p);
      AndSplit(a / 2, b / 2, k - 1);
      hide And, Pow2;
      AndHalves(a / 2 % p, a % 2, b / 2 % p, b % 2);
      AndHalves(a / 2, a % 2, b / 2, b % 2);
    } else {
      assert a % Pow2(k) == 0 && b % Pow2(k) == 0;
    }
  }

  lemma AndHalves(h: nat, l: nat, h': nat, l': nat)
    requires l < 2 && l' < 2
    ensures And(2 * h + l, 2 * h' + l') == 2 * And(h, h') + l * l'
  {
    assert (2 * h + l) / 2 == h && (2 * h' + l') / 2 == h';
  }

  /** Or works on the high and low parts separately. */
  lemma {:induction false} OrSplit(a: nat, b: nat, k: nat)
    ensures Or(a, b) == Shl(Or(Shr(a, k), Shr(b, k)), k) + Or(a % Pow2(k), b % Pow2(k))
    decreases k
  {
    if k > 0 {
      var p := Pow2(k - 1);
      assert Pow2(k) == 2 * p;
      HalveDivMod(a, p);
      HalveDivMod(b, p);
      OrSplit(a / 2, b / 2, k - 1);
      hide Or, Pow2;
      OrHalves(a / 2 % p, a % 2, b / 2 % p, b % 2);
      OrHalves(a / 2, a % 2, b / 2, b % 2);
    } else {
      assert a % Pow2(k) == 0 && b % Pow2(k) == 0;
    }
  }

  lemma AndField(a: nat, j: nat, k: nat)
    ensures (Pow2(j) - 1) * Pow2(k) >= 0
    ensures And(a, (Pow2(j) - 1) * Pow2(k)) == a / Pow2(k) % Pow2(j) * Pow2(k)
  {
    var m := Pow2(j) - 1;
    AndShifted(a, m, k);
    ShiftsAreMulDiv(a, k);
    ShiftsAreMulDiv(m, k);
    AndIsMod(Shr(a, k), j);
    ShiftsAreMulDiv(And(Shr(a, k), m), k);
  }

  /** The powers of two the models name as literals. */
  lemma Powers()
    ensures Pow2(0) == 1 && Pow2(1) == 2 && Pow2(2) == 4 && Pow2(3) == 8
    ensures Pow2(4) == 0x10 && Pow2(5) == 0x20 && Pow2(6) == 0x40 && Pow2(7) == 0x80
    ensures Pow2(8) == 0x100 && Pow2(9) == 0x200 && Pow2(10) == 0x400 && Pow2(11) == 0x800
    ensures Pow2(12) == 0x1000 && Pow2(13) == 0x2000 && Pow2(14) == 0x4000 && Pow2(15) == 0x8000
    ensures Pow2(16) == 0x10000 && Pow2(18) == 0x40000 && Pow2(20) == 0x100000 && Pow2(21) == 0x200000
    ensures Pow2(22) == 0x400000 && Pow2(23) == 0x800000
    ensures Pow2(24) == 0x100_0000 && Pow2(26) == 0x400_0000 && Pow2(27) == 0x800_0000 && Pow2(28) == 0x1000_0000
    ensures Pow2(29) == 0x2000_0000
    ensures Pow2(32) == 0x1_0000_0000
  {
    assert Pow2(16) == 0x10000;
    assert Pow2(20) == 0x100000;
    assert Pow2(24) == 0x100_0000;
    assert Pow2(28) == 0x1000_0000;
  }

  /** A mask with two fields of j ones, at bits 0 and k. */
  lemma AndTwoFields(a: nat, j: nat, k: nat, m: nat)
    requires Pow2(j) <= Pow2(k)
    requires m == (Pow2(j) - 1) * Pow2(k) + (Pow2(j) - 1)
    ensures And(a, m) == a / Pow2(k) % Pow2(j) * Pow2(k) + a % Pow2(k) % Pow2(j)
  {
    var p, o := Pow2(k), Pow2(j) - 1;
    AndSplit(a, m, k);
    ShiftsAreMulDiv(a, k);
    ShiftsAreMulDiv(m, k);
    RemainderIs(m, p, o, o);
    AndIsMod(Shr(a, k), j);
    AndIsMod(a % p, j);
    ShiftsAreMulDiv(And(Shr(a, k), o), k);
  }

  lemma OrStep(a: nat, b: nat)
    ensures Or(a, b) / 2 == Or(a / 2, b / 2)
    ensures Or(a, b) % 2 == if a % 2 + b % 2 > 0 then 1 else 0
  {
    OrHalves(a / 2, a % 2, b / 2, b % 2);
  }

  lemma {:induction false} OrAssociative(a: nat, b: nat, c: nat)
    ensures Or(Or(a, b), c) == Or(a, Or(b, c))
    decreases a + b + c
  {
    if a + b + c > 0 {
      OrAssociative(a / 2, b / 2, c / 2);
      OrStep(a, b);
      OrStep(b, c);
      OrStep(Or(a, b), c);
      OrStep(a, Or(b, c));
      SameHalves(Or(Or(a, b), c), Or(a, Or(b, c)));
    }
  }

  lemma SameHalves(x: nat, y: nat)
    requires x / 2 == y / 2 && x % 2 == y % 2
    ensures x == y
  {
  }

  /** OrIsSum with the power of two written out and the sum named. */
  lemma OrPut(x: nat, h: nat, low: nat, k: nat, p: nat)
    requires Pow2(k) == p && x == h * p && low < p
    ensures Or(x, low) == Or(low, x) == x + low
  {
    OrIsSum(h, low, k);
  }

  /** Rounding down to a multiple of four stays inside aligned bounds. */
  lemma AlignDown(x: int, low: int, high: int)
    requires low % 4 == 0 && high % 4 == 0 && low <= x < high
    ensures (x - x % 4) % 4 == 0 && low <= x - x % 4 && x - x % 4 + 4 <= high
  {
    var q := x / 4;
    RemainderIs(4 * q, 4, q, 0);
    assert low == 4 * (low / 4) && high == 4 * (high / 4);
  }

  lemma SumAligned(x: int, y: int)
    requires x % 4 == 0 && y % 4 == 0
    ensures (x + y) % 4 == 0 && (x - y) % 4 == 0
  {
    RemainderIs(x + y, 4, x / 4 + y / 4, 0);
    RemainderIs(x - y, 4, x / 4 - y / 4, 0);
  }
}
