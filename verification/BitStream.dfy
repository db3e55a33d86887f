/** A byte string as a little-endian stream of bits, and the fields in it. */
module BitStream {
  import opened Bits
  import opened Words

  /** Bit t of the image, counting from the low bit of byte 0. */
  function Bit(image: seq<byte>, t: nat): nat {
    ByteIn(image, t / 8) as int / Pow2(t % 8) % 2
  }

  /** The w bits from bit p on, low bit first. */
  function Field(image: seq<byte>, p: nat, w: nat): nat
    decreases w
  {
    if w == 0 then 0 else Bit(image, p) + 2 * Field(image, p + 1, w - 1)
  }

  lemma FieldStep(image: seq<byte>, p: nat, w: nat)
    requires w > 0
    ensures Field(image, p, w) / 2 == Field(image, p + 1, w - 1) && Field(image, p, w) % 2 == Bit(image, p)
  {
  }

  lemma PowStep(s: nat)
    requires s > 0
    ensures Pow2(s) == 2 * Pow2(s - 1)
  {
  }

  lemma ThroughHalf(x: nat, half: nat, p: nat, p2: nat)
    requires p > 0 && p2 == 2 * p && x / 2 == half
    ensures x / p2 == half / p && x % p2 == 2 * (half % p) + x % 2
  {
    HalveDivMod(x, p);
  }

  lemma {:induction false} FieldDiv(image: seq<byte>, p: nat, w: nat, s: nat)
    requires s <= w
    ensures Field(image, p, w) / Pow2(s) == Field(image, p + s, w - s)
    decreases s
  {
    if s > 0 {
      hide Field, Pow2, Bit;
      FieldDiv(image, p + 1, w - 1, s - 1);
      FieldStep(image, p, w);
      PowStep(s);
      ThroughHalf(Field(image, p, w), Field(image, p + 1, w - 1), Pow2(s - 1), Pow2(s));
    }
  }

  lemma {:induction false} FieldMod(image: seq<byte>, p: nat, w: nat, b: nat)
    requires b <= w
    ensures Field(image, p, w) % Pow2(b) == Field(image, p, b)
    decreases b
  {
    if b > 0 {
      hide Field, Pow2, Bit;
      FieldMod(image, p + 1, w - 1, b - 1);
      FieldStep(image, p, w);
      FieldStep(image, p, b);
      PowStep(b);
      ThroughHalf(Field(image, p, w), Field(image, p + 1, w - 1), Pow2(b - 1), Pow2(b));
    }
  }

  lemma FieldUnfold(image: seq<byte>, p: nat, w: nat)
    requires w > 0
    ensures Field(image, p, w) == Bit(image, p) + 2 * Field(image, p + 1, w - 1)
  {
  }

  lemma FieldEmpty(image: seq<byte>, p: nat)
    ensures Field(image, p, 0) == 0
  {
  }

  lemma {:induction false} FieldJoin(image: seq<byte>, p: nat, v: nat, w: nat)
    ensures Field(image, p, v + w) == Field(image, p, v) + Field(image, p + v, w) * Pow2(v)
    decreases v
  {
    if v == 0 {
      FieldEmpty(image, p);
      assert Pow2(0) == 1;
    } else {
      hide Field, Pow2, Bit;
      FieldJoin(image, p + 1, v - 1, w);
      FieldUnfold(image, p, v);
      FieldUnfold(image, p, v + w);
      PowStep(v);
      DoubleProduct(Field(image, p + v, w), Pow2(v - 1));
    }
  }

  /** Eight bits from a byte boundary are the byte. */
  lemma {:induction false} FieldOfByte(image: seq<byte>, a: nat, k: nat)
    requires k <= 8
    ensures Field(image, 8 * a + (8 - k), k) == ByteIn(image, a) as int / Pow2(8 - k)
    decreases k
  {
    var b := ByteIn(image, a) as int;
    if k == 0 {
      assert Pow2(8) == 0x100 by { Powers(); }
    } else {
      FieldOfByte(image, a, k - 1);
      hide ByteIn;
      RemainderIs(8 * a + (8 - k), 8, a, 8 - k);
      NextBit(b, 8 - k);
    }
  }

  lemma NextBit(b: nat, j: nat)
    ensures b / Pow2(j) == b / Pow2(j) % 2 + 2 * (b / Pow2(j + 1))
  {
    var p := Pow2(j);
    DivTwice(b, p);
  }

  lemma ByteField(image: seq<byte>, a: nat)
    ensures Field(image, 8 * a, 8) == ByteIn(image, a)
  {
    FieldOfByte(image, a, 8);
    assert Pow2(0) == 1;
  }

  lemma TimesByte(f: nat)
    ensures f * Pow2(8) == 0x100 * f
  {
    Powers();
  }

  lemma JoinBytes(image: seq<byte>, a: nat, w: nat)
    ensures Field(image, 8 * a, 8 + w) == ByteIn(image, a) as int + 0x100 * Field(image, 8 * (a + 1), w)
  {
    hide Field, ByteIn, Pow2;
    FieldJoin(image, 8 * a, 8, w);
    ByteField(image, a);
    TimesByte(Field(image, 8 * a + 8, w));
    assert 8 * a + 8 == 8 * (a + 1);
  }

  lemma {:induction false} FieldBound(image: seq<byte>, p: nat, w: nat)
    ensures Field(image, p, w) < Pow2(w)
    decreases w
  {
    if w > 0 {
      FieldBound(image, p + 1, w - 1);
    }
  }

  lemma {:induction false} PowGrows(j: nat, k: nat)
    requires j <= k
    ensures Pow2(j) <= Pow2(k)
    decreases k
  {
    if j < k {
      PowGrows(j, k - 1);
    }
  }
}
