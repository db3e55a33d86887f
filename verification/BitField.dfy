/** Bit-field accessors over a structure's bytes, from `ceildiv` and
    `Field._resolve` of autogen/c.py, on a little-endian host. */
module BitField {
  import opened Bits
  import opened BitStream
  import opened Words

  /** Python's floor division. */
  function FloorDiv(a: int, b: int): int
    requires b != 0
  {
    if b > 0 then a / b else -a / -b
  }

  function CeilDiv(value: int, amount: int): int
    requires amount != 0
  {
    -FloorDiv(value, -amount)
  }

  /** The least integer not below the quotient, for any signs. */
  lemma CeilDivIsLeast(value: int, amount: int)
    requires amount != 0
    ensures amount > 0 ==> amount * (CeilDiv(value, amount) - 1) < value <= amount * CeilDiv(value, amount)
    ensures amount < 0 ==> amount * CeilDiv(value, amount) <= value < amount * (CeilDiv(value, amount) - 1)
  {
    var v, d := if amount > 0 then -value else value, if amount > 0 then amount else -amount;
    assert v == d * (v / d) + v % d;
  }

  /** A field: byte offset, width and bit offset in the declaration's terms. */
  datatype Member = Member(off: nat, width: nat, bit: nat)

  /** Bytes the accessor reads and writes back. */
  function Size(f: Member): nat {
    CeilDivIsLeast(f.width + f.bit, 8);
    CeilDiv(f.width + f.bit, 8)
  }

  predicate Inside(f: Member, n: nat) {
    f.width > 0 && f.off + Size(f) <= n
  }

  /** First bit of the field in the whole buffer. */
  function First(f: Member): nat {
    8 * f.off + f.bit
  }

  lemma SizeCovers(f: Member)
    ensures 8 * Size(f) >= f.width + f.bit
  {
    CeilDivIsLeast(f.width + f.bit, 8);
  }

  // ---- bytes as an integer ------------------------------------------------------------

  /** int.from_bytes and to_bytes, little-endian. */
  function LeValue(b: seq<byte>): nat
    decreases |b|
  {
    if b == [] then 0 else b[0] as int + 0x100 * LeValue(b[1..])
  }

  function LeBytes(x: nat, size: nat): (r: seq<byte>)
    ensures |r| == size
    decreases size
  {
    if size == 0 then [] else [x % 0x100] + LeBytes(x / 0x100, size - 1)
  }

  lemma {:induction false} LeRoundTrip(x: nat, size: nat)
    requires x < Pow2(8 * size)
    ensures LeValue(LeBytes(x, size)) == x
    decreases size
  {
    if size > 0 {
      EightMore(size - 1);
      BelowByte(x, Pow2(8 * (size - 1)));
      LeRoundTrip(x / 0x100, size - 1);
      assert LeBytes(x, size)[1..] == LeBytes(x / 0x100, size - 1);
    }
  }

  lemma EightMore(n: nat)
    ensures Pow2(8 * (n + 1)) == 0x100 * Pow2(8 * n)
  {
    var k := 8 * n;
    assert 8 * (n + 1) == k + 8;
    assert Pow2(k + 8) == 2 * Pow2(k + 7) == 4 * Pow2(k + 6);
    assert Pow2(k + 6) == 2 * Pow2(k + 5) == 4 * Pow2(k + 4);
    assert Pow2(k + 4) == 2 * Pow2(k + 3) == 4 * Pow2(k + 2);
    assert Pow2(k + 2) == 2 * Pow2(k + 1) == 4 * Pow2(k);
  }

  lemma BelowByte(x: nat, p: nat)
    requires x < 0x100 * p
    ensures x / 0x100 < p
  {
  }

  lemma LeValueUnfold(buf: seq<byte>, off: nat, size: nat)
    requires size > 0 && off + size <= |buf|
    ensures LeValue(buf[off..off + size]) == ByteIn(buf, off) as int + 0x100 * LeValue(buf[off + 1..off + size])
  {
    assert buf[off..off + size][1..] == buf[off + 1..off + size];
  }

  /** The integer of a slice is the field of all its bits. */
  lemma {:induction false} LeValueIsField(buf: seq<byte>, off: nat, size: nat)
    requires off + size <= |buf|
    ensures LeValue(buf[off..off + size]) == Field(buf, 8 * off, 8 * size)
    decreases size
  {
    if size == 0 {
      FieldEmpty(buf, 8 * off);
    } else {
      hide LeValue, Field, ByteIn;
      LeValueIsField(buf, off + 1, size - 1);
      LeValueUnfold(buf, off, size);
      var n := 8 * (size - 1);
      assert 8 + n == 8 * size;
      JoinBytes(buf, off, n);
    }
  }

  // ---- the accessors ------------------------------------------------------------------

  function Slice(buf: seq<byte>, f: Member): nat
    requires Inside(f, |buf|)
  {
    LeValue(buf[f.off..f.off + Size(f)])
  }

  function Got(buf: seq<byte>, f: Member): nat
    requires Inside(f, |buf|)
  {
    And(Shr(Slice(buf, f), f.bit), Pow2(f.width) - 1)
  }

  /** x & ~mask. */
  function Cleared(x: nat, mask: nat): nat {
    AndBound(x, mask);
    x - And(x, mask)
  }

  function Merged(x: nat, f: Member, value: nat): nat {
    Or(Cleared(x, Shl(Pow2(f.width) - 1, f.bit)), Shl(value, f.bit))
  }

  /** The buffer after an assignment; to_bytes refuses what does not fit. */
  datatype Assigned = Overflow | Stored(buf: seq<byte>)

  function Assign(buf: seq<byte>, f: Member, value: int): Assigned
    requires Inside(f, |buf|)
  {
    if value < 0 || Merged(Slice(buf, f), f, value) >= Pow2(8 * Size(f)) then Overflow
    else Stored(buf[..f.off] + LeBytes(Merged(Slice(buf, f), f, value), Size(f)) + buf[f.off + Size(f)..])
  }

  /** A structure in memory. */
  class Record {
    const mem: array<byte>

    constructor (mem: array<byte>)
      ensures this.mem == mem
    {
      this.mem := mem;
    }

    method Get(f: Member) returns (v: nat)
      requires Inside(f, mem.Length)
      ensures v == Got(mem[..], f)
    {
      assert mem[..][f.off..f.off + Size(f)] == mem[f.off..f.off + Size(f)];
      v := And(Shr(LeValue(mem[f.off..f.off + Size(f)]), f.bit), Pow2(f.width) - 1);
    }

    method SetBits(f: Member, value: int) returns (ok: bool)
      requires Inside(f, mem.Length)
      modifies mem
      ensures ok <==> Assign(old(mem[..]), f, value).Stored?
      ensures mem[..] == if ok then Assign(old(mem[..]), f, value).buf else old(mem[..])
    {
      hide Merged, LeValue, LeBytes, Pow2;
      assert mem[..][f.off..f.off + Size(f)] == mem[f.off..f.off + Size(f)];
      if value < 0 {
        return false;
      }
      var result := Merged(LeValue(mem[f.off..f.off + Size(f)]), f, value);
      if result >= Pow2(8 * Size(f)) {
        return false;
      }
      var bytes := LeBytes(result, Size(f));
      forall i | 0 <= i < |bytes| {
        mem[f.off + i] := bytes[i];
      }
      return true;
    }
  }

  // ---- what they do to the bits ---------------------------------------------------------

  /** Reading returns the bits of the field. */
  lemma GotIsField(buf: seq<byte>, f: Member)
    requires Inside(f, |buf|)
    ensures Got(buf, f) == Field(buf, First(f), f.width)
  {
    hide Field, LeValue, Pow2, Shr, And;
    var n := 8 * Size(f);
    SizeCovers(f);
    LeValueIsField(buf, f.off, Size(f));
    ShiftsAreMulDiv(Slice(buf, f), f.bit);
    AndIsMod(Shr(Slice(buf, f), f.bit), f.width);
    FieldDiv(buf, 8 * f.off, n, f.bit);
    FieldMod(buf, First(f), n - f.bit, f.width);
  }

  /** A number split at bit k and again w bits higher. */
  lemma ThreeParts(x: nat, k: nat, w: nat)
    ensures x == x / Pow2(k + w) * Pow2(k + w) + x / Pow2(k) % Pow2(w) * Pow2(k) + x % Pow2(k)
    ensures x / Pow2(k) % Pow2(w) * Pow2(k) + x % Pow2(k) < Pow2(k + w)
  {
    PowSplit(k, w);
    var p, q := Pow2(k), Pow2(w);
    hide Pow2;
    Parts(x, p, q);
  }

  lemma Parts(x: nat, p: nat, q: nat)
    requires p > 0 && q > 0
    ensures p * q > 0 && x == x / (p * q) * (p * q) + x / p % q * p + x % p && x / p % q * p + x % p < p * q
  {
    var y := x / p;
    Divided(x, p);
    Divided(y, q);
    PartsFrom(x, p, q, y, y / q, y % q, x % p);
  }

  lemma Divided(x: nat, p: nat)
    requires p > 0
    ensures x == p * (x / p) + x % p && 0 <= x % p < p
  {
  }

  lemma PartsFrom(x: nat, p: nat, q: nat, y: nat, h: nat, m: nat, l: nat)
    requires x == p * y + l && y == q * h + m && m < q && l < p
    ensures p * q > 0 && x == x / (p * q) * (p * q) + m * p + l && m * p + l < p * q
  {
    Spread(p, q, h, m);
    Under(p, q, m, l);
    PartsOf(x, p * q, p, h, m, l);
  }

  lemma PartsOf(x: nat, u: nat, p: nat, h: nat, m: nat, l: nat)
    requires x == u * h + (p * m + l) && p * m + l < u
    ensures x == x / u * u + m * p + l && m * p + l < u
  {
    RemainderIs(x, u, h, p * m + l);
  }

  lemma Spread(p: nat, q: nat, h: nat, m: nat)
    ensures p * (q * h + m) == (p * q) * h + p * m
  {
  }

  lemma Under(p: nat, q: nat, m: nat, l: nat)
    requires m < q && l < p
    ensures p * m + l < p * q && p * q > 0
  {
    assert p * (q - 1 - m) >= 0;
    assert p * (q - 1 - m) == p * q - p - p * m;
  }

  lemma ClearedIs(x: nat, k: nat, w: nat)
    ensures Cleared(x, Shl(Pow2(w) - 1, k)) == x / Pow2(k + w) * Pow2(k + w) + x % Pow2(k)
  {
    hide Pow2, Shl, Shr, And;
    var m := Pow2(w) - 1;
    AndShifted(x, m, k);
    ShiftsAreMulDiv(x, k);
    AndIsMod(Shr(x, k), w);
    ShiftsAreMulDiv(And(Shr(x, k), m), k);
    ThreeParts(x, k, w);
  }

  /** Setting keeps the bits below, replaces the field by the value's low bits,
      and ors what is left of the value into the bits above. */
  lemma MergedIs(x: nat, f: Member, value: nat)
    ensures var k, w := f.bit, f.width;
            Merged(x, f, value) ==
            Shl(Or(Shr(x, k + w), Shr(value, w)), k + w) + Shl(value % Pow2(w), k) + x % Pow2(k)
  {
    hide Pow2, Shl, Shr, Or, And;
    var k, w := f.bit, f.width;
    var p, low, vl := Pow2(k + w), x % Pow2(k), value % Pow2(w);
    ClearedIs(x, k, w);
    LowPart(x, k, w);
    ShiftsAreMulDiv(value, k);
    ShiftsAreMulDiv(value, w);
    ShiftsAreMulDiv(x, k + w);
    ShiftsAreMulDiv(vl, k);
    PowSplit(k, w);
    var a, b := Cleared(x, Shl(Pow2(w) - 1, k)), Shl(value, k);
    RemainderIs(a, p, Shr(x, k + w), low);
    ValueParts(value, Pow2(k), Pow2(w));
    RemainderIs(b, p, Shr(value, w), Shl(vl, k));
    OrSplit(a, b, k + w);
    ShiftsAreMulDiv(a, k + w);
    ShiftsAreMulDiv(b, k + w);
    OrIsSum(vl, low, k);
  }

  lemma LowPart(x: nat, k: nat, w: nat)
    ensures x % Pow2(k) < Pow2(k + w)
  {
    PowSplit(k, w);
    hide Pow2;
    assert Pow2(k) * Pow2(w) >= Pow2(k) by { AtLeast(Pow2(k), Pow2(w)); }
  }

  lemma AtLeast(p: nat, q: nat)
    requires q > 0
    ensures p * q >= p
  {
  }

  lemma ValueParts(v: nat, p: nat, q: nat)
    requires p > 0 && q > 0
    ensures v * p == (p * q) * (v / q) + v % q * p && 0 <= v % q * p < p * q
  {
    var h, l := v / q, v % q;
    assert v == q * h + l;
    Spread(p, q, h, l);
    Under(p, q, l, 0);
  }

  /** Three parts put together come apart again. */
  lemma PartsApart(y: nat, p: nat, q: nat, high: nat, mid: nat, low: nat)
    requires low < p && mid < q && y == high * (p * q) + mid * p + low
    ensures y % p == low && y / p % q == mid && p * q > 0 && y / (p * q) == high
  {
    Spread(p, q, high, mid);
    Under(p, q, mid, low);
    RemainderIs(y, p, q * high + mid, low);
    RemainderIs(q * high + mid, q, high, mid);
    RemainderIs(y, p * q, high, p * mid + low);
  }

  lemma MergedParts(x: nat, f: Member, value: nat)
    ensures var y := Merged(x, f, value);
            y % Pow2(f.bit) == x % Pow2(f.bit) &&
            y / Pow2(f.bit) % Pow2(f.width) == value % Pow2(f.width) &&
            y / Pow2(f.bit + f.width) == Or(Shr(x, f.bit + f.width), Shr(value, f.width))
  {
    hide Pow2, Shl, Shr, Or, And, Merged;
    var k, w := f.bit, f.width;
    var high, mid := Or(Shr(x, k + w), Shr(value, w)), value % Pow2(w);
    MergedIs(x, f, value);
    ShiftsAreMulDiv(high, k + w);
    ShiftsAreMulDiv(mid, k);
    PowSplit(k, w);
    PartsApart(Merged(x, f, value), Pow2(k), Pow2(w), high, mid, x % Pow2(k));
  }

  /** The buffer an assignment leaves: its slice reads as the merged integer and
      no byte outside the slice has changed. */
  lemma AssignedSlice(buf: seq<byte>, f: Member, value: nat, b: seq<byte>)
    requires Inside(f, |buf|) && Assign(buf, f, value) == Stored(b)
    ensures |b| == |buf| && Slice(b, f) == Merged(Slice(buf, f), f, value)
    ensures forall a :: 0 <= a < |buf| && !(f.off <= a < f.off + Size(f)) ==> b[a] == buf[a]
  {
    hide Merged, LeValue, LeBytes, Pow2;
    LeRoundTrip(Merged(Slice(buf, f), f, value), Size(f));
    assert b[f.off..f.off + Size(f)] == LeBytes(Merged(Slice(buf, f), f, value), Size(f));
  }

  /** A read after a write returns the value modulo 2^width, so the value itself
      exactly when it fits the field. */
  lemma ReadBackIff(buf: seq<byte>, f: Member, value: nat, b: seq<byte>)
    requires Inside(f, |buf|) && Assign(buf, f, value) == Stored(b)
    ensures |b| == |buf| && Got(b, f) == value % Pow2(f.width)
    ensures Got(b, f) == value <==> value < Pow2(f.width)
  {
    hide Merged, Assign, Slice, Pow2, And, Shr, Or, CeilDiv;
    AssignedSlice(buf, f, value, b);
    MergedParts(Slice(buf, f), f, value);
    ShiftsAreMulDiv(Slice(b, f), f.bit);
    AndIsMod(Shr(Slice(b, f), f.bit), f.width);
    SmallRemainder(value, Pow2(f.width));
  }

  lemma SmallRemainder(v: nat, p: nat)
    requires p > 0
    ensures v % p == v <==> v < p
  {
    if v < p {
      RemainderIs(v, p, 0, v);
    }
  }

  /** A value that fits is never refused. */
  lemma FittingIsStored(buf: seq<byte>, f: Member, value: nat)
    requires Inside(f, |buf|) && value < Pow2(f.width)
    ensures Assign(buf, f, value).Stored?
  {
    hide Merged, Pow2, And, Or, Field, LeValue, Shr;
    var x, n, k, w := Slice(buf, f), 8 * Size(f), f.bit, f.width;
    SizeCovers(f);
    LeValueIsField(buf, f.off, Size(f));
    FieldBound(buf, 8 * f.off, n);
    NothingSpills(x, f, value);
    MergedParts(x, f, value);
    ThreeParts(Merged(x, f, value), k, w);
    PowSplit(k + w, n - k - w);
    HighFits(x, Pow2(k + w), Pow2(n - k - w), Merged(x, f, value));
  }

  lemma NothingSpills(x: nat, f: Member, value: nat)
    requires value < Pow2(f.width)
    ensures Or(Shr(x, f.bit + f.width), Shr(value, f.width)) == x / Pow2(f.bit + f.width)
  {
    hide Pow2, Shr;
    ShiftsAreMulDiv(value, f.width);
    RemainderIs(value, Pow2(f.width), 0, value);
    ShiftsAreMulDiv(x, f.bit + f.width);
  }

  lemma HighFits(x: nat, h: nat, c: nat, y: nat)
    requires h > 0 && x < h * c && y / h == x / h
    ensures y < h * c
  {
    var q, r, r' := x / h, x % h, y % h;
    assert x == h * q + r && y == h * q + r';
    QuotientBelow(h, q, r, c);
    ProductNatural(h, c - 1 - q);
  }

  // ---- what stays the same --------------------------------------------------------------

  predicate SameBits(a: seq<byte>, b: seq<byte>, from: nat, to: nat) {
    forall t :: from <= t < to ==> Bit(a, t) == Bit(b, t)
  }

  lemma {:induction false} SameFieldSameBits(a: seq<byte>, b: seq<byte>, p: nat, w: nat)
    requires Field(a, p, w) == Field(b, p, w)
    ensures SameBits(a, b, p, p + w)
    decreases w
  {
    if w > 0 {
      hide Field, Bit;
      FieldStep(a, p, w);
      FieldStep(b, p, w);
      SameFieldSameBits(a, b, p + 1, w - 1);
    }
  }

  lemma {:induction false} SameBitsSameField(a: seq<byte>, b: seq<byte>, p: nat, w: nat)
    requires SameBits(a, b, p, p + w)
    ensures Field(a, p, w) == Field(b, p, w)
    decreases w
  {
    if w == 0 {
      FieldEmpty(a, p);
      FieldEmpty(b, p);
    } else {
      hide Field, Bit;
      FieldUnfold(a, p, w);
      FieldUnfold(b, p, w);
      SameBitsSameField(a, b, p + 1, w - 1);
    }
  }

  /** Outside the slice no byte changes, so no bit. */
  lemma OutsideSlice(buf: seq<byte>, f: Member, value: nat, b: seq<byte>, t: nat)
    requires Inside(f, |buf|) && Assign(buf, f, value) == Stored(b)
    requires t < 8 * f.off || t >= 8 * (f.off + Size(f))
    ensures Bit(b, t) == Bit(buf, t)
  {
    hide Assign, Slice, Pow2, CeilDiv;
    AssignedSlice(buf, f, value, b);
  }

  /** The slice before and after, as fields. */
  lemma SliceFields(buf: seq<byte>, f: Member, value: nat, b: seq<byte>)
    requires Inside(f, |buf|) && Assign(buf, f, value) == Stored(b)
    ensures |b| == |buf| && Field(buf, 8 * f.off, 8 * Size(f)) == Slice(buf, f)
    ensures Field(b, 8 * f.off, 8 * Size(f)) == Merged(Slice(buf, f), f, value)
  {
    hide Assign, LeValue, Merged, Pow2, Field, CeilDiv;
    AssignedSlice(buf, f, value, b);
    LeValueIsField(buf, f.off, Size(f));
    LeValueIsField(b, f.off, Size(f));
  }

  /** Below the field, inside the slice, the bits are kept by any assignment. */
  lemma BelowField(buf: seq<byte>, f: Member, value: nat, b: seq<byte>)
    requires Inside(f, |buf|) && Assign(buf, f, value) == Stored(b)
    ensures SameBits(buf, b, 8 * f.off, First(f))
  {
    hide Assign, Slice, Merged, Pow2, Field, SameBits, And, Or, Shr;
    SliceFields(buf, f, value, b);
    SizeCovers(f);
    MergedParts(Slice(buf, f), f, value);
    FieldMod(buf, 8 * f.off, 8 * Size(f), f.bit);
    FieldMod(b, 8 * f.off, 8 * Size(f), f.bit);
    SameFieldSameBits(buf, b, 8 * f.off, f.bit);
  }

  /** How many bits of the slice lie above the field. */
  function Above(f: Member): nat {
    SizeCovers(f);
    8 * Size(f) - f.bit - f.width
  }

  /** Above the field, inside the slice, an assignment ors in what of the value
      does not fit the field. */
  lemma AboveIsOred(buf: seq<byte>, f: Member, value: nat, b: seq<byte>)
    requires Inside(f, |buf|) && Assign(buf, f, value) == Stored(b)
    ensures Field(b, First(f) + f.width, Above(f)) ==
            Or(Field(buf, First(f) + f.width, Above(f)), Shr(value, f.width))
  {
    hide Assign, Slice, Merged, Pow2, Field, And, Or, Shr;
    var k := f.bit + f.width;
    SliceFields(buf, f, value, b);
    SizeCovers(f);
    MergedParts(Slice(buf, f), f, value);
    ShiftsAreMulDiv(Slice(buf, f), k);
    FieldDiv(buf, 8 * f.off, 8 * Size(f), k);
    FieldDiv(b, 8 * f.off, 8 * Size(f), k);
    assert 8 * f.off + k == First(f) + f.width && 8 * Size(f) - k == Above(f);
  }

  /** So they are kept when the value fits. */
  lemma AboveField(buf: seq<byte>, f: Member, value: nat, b: seq<byte>)
    requires Inside(f, |buf|) && Assign(buf, f, value) == Stored(b) && value < Pow2(f.width)
    ensures SameBits(buf, b, First(f) + f.width, 8 * (f.off + Size(f)))
  {
    hide Assign, Pow2, Field, SameBits, Shr;
    AboveIsOred(buf, f, value, b);
    ShiftsAreMulDiv(value, f.width);
    RemainderIs(value, Pow2(f.width), 0, value);
    assert First(f) + f.width + Above(f) == 8 * (f.off + Size(f));
    SameFieldSameBits(buf, b, First(f) + f.width, Above(f));
  }

  predicate Disjoint(f: Member, g: Member) {
    First(f) + f.width <= First(g) || First(g) + g.width <= First(f)
  }

  /** Writing a value that fits changes no bit outside the field. */
  lemma OnlyTheField(buf: seq<byte>, f: Member, value: nat, b: seq<byte>, t: nat)
    requires Inside(f, |buf|) && Assign(buf, f, value) == Stored(b) && value < Pow2(f.width)
    requires t < First(f) || t >= First(f) + f.width
    ensures Bit(b, t) == Bit(buf, t)
  {
    hide Assign, Pow2, Bit;
    BelowField(buf, f, value, b);
    AboveField(buf, f, value, b);
    SizeCovers(f);
    if t < 8 * f.off || t >= 8 * (f.off + Size(f)) {
      OutsideSlice(buf, f, value, b, t);
    }
  }

  /** Two fields with no bit in common, even in the same bytes: writing one with
      a value that fits leaves what the other reads as it was. */
  lemma OtherFieldKept(buf: seq<byte>, f: Member, g: Member, value: nat, b: seq<byte>)
    requires Inside(f, |buf|) && Inside(g, |buf|) && Disjoint(f, g)
    requires Assign(buf, f, value) == Stored(b) && value < Pow2(f.width)
    ensures |b| == |buf| && Got(b, g) == Got(buf, g)
  {
    hide Assign, Got, Bit, Field, Slice, Merged, CeilDiv;
    AssignedSlice(buf, f, value, b);
    forall t | First(g) <= t < First(g) + g.width ensures Bit(buf, t) == Bit(b, t) {
      OnlyTheField(buf, f, value, b, t);
    }
    SameBitsSameField(buf, b, First(g), g.width);
    GotIsField(buf, g);
    GotIsField(b, g);
  }
}
