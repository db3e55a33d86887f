/** The packed memory-training tables of `_m0209_values` in
    examples_en210/add.py: a bit stream of fixed-width samples, optionally
    looked up in another table of the same kind. */
module Training {
  import opened Bits
  import opened BitStream
  import opened Words

  const SAMPLES := 0x100

  /** A table entry: sample width, repeat length, mode, table to look up, data. */
  datatype Entry = NoEntry | Entry(bits: nat, modulo: nat, mode: nat, remap: nat, data: nat)

  function EntryAt(first: nat, index: nat, stride: nat): nat {
    ProductNatural(index, stride);
    first + index * stride
  }

  function EntryOf(image: seq<byte>, m: nat, index: nat): (e: Entry)
    ensures e.Entry? ==> 0 < e.bits < 64 && 0 < e.modulo < 0x100 && e.remap < 0x100
  {
    if m == 0 || m + 13 > |image| then NoEntry
    else
      var base := DwordIn(image, m + 9) as int;
      if base == 0 || base + 5 > |image| || ByteIn(image, base) != 0x10 then NoEntry
      else
        var hdr, length := ByteIn(image, base + 1) as int, ByteIn(image, base + 2) as int;
        var sampleSize, count := ByteIn(image, base + 3) as int, ByteIn(image, base + 4) as int;
        var entry := EntryAt(base + hdr, index, length + sampleSize);
        if index >= count || entry + length + sampleSize > |image| then NoEntry
        else
          var bits, modulo := ByteIn(image, entry) as int % 0x40, ByteIn(image, entry + 1) as int;
          if bits == 0 || modulo == 0 then NoEntry
          else Entry(bits, modulo, ByteIn(image, entry + 2) as int % 8, ByteIn(image, entry + 3) as int, entry + length)
  }

  /** Bit of the data at which sample i starts. */
  function Start(e: Entry, i: nat): (bit: nat)
    requires e.Entry? && e.modulo > 0
  {
    ProductNatural(i % e.modulo, e.bits);
    i % e.modulo * e.bits
  }

  /** (w >> s) & ((1 << bits) - 1). */
  function Extract(w: nat, s: nat, bits: nat): nat {
    And(Shr(w, s), Pow2(bits) - 1)
  }

  /** Sample i as the code extracts it: a dword read, a shift and a mask. */
  function Sample(image: seq<byte>, e: Entry, i: nat): nat
    requires e.Entry? && e.modulo > 0
  {
    var bit := Start(e, i);
    Extract(DwordIn(image, e.data + bit / 8), bit % 8, e.bits)
  }

  lemma FourBytes(image: seq<byte>, a: nat)
    requires a + 4 <= |image|
    ensures DwordIn(image, a) as int == ByteIn(image, a) as int + 0x100 * ByteIn(image, a + 1) as int +
                                     0x10000 * ByteIn(image, a + 2) as int + 0x1000000 * ByteIn(image, a + 3) as int
  {
    var b := image[a..a + 4];
    assert b[0] == image[a] && b[1] == image[a + 1] && b[2] == image[a + 2] && b[3] == image[a + 3];
  }

  /** Thirty-two bits from a byte boundary are the dword the code reads. */
  lemma WordField(image: seq<byte>, a: nat)
    requires a + 4 <= |image|
    ensures Field(image, 8 * a, 32) == DwordIn(image, a)
  {
    hide Field, ByteIn, DwordIn, Pow2;
    JoinBytes(image, a, 24);
    JoinBytes(image, a + 1, 16);
    JoinBytes(image, a + 2, 8);
    ByteField(image, a + 3);
    FourBytes(image, a);
  }

  lemma ExtractIsField(image: seq<byte>, a: nat, s: nat, bits: nat)
    requires a + 4 <= |image| && s < 8
    ensures Extract(DwordIn(image, a), s, bits) == Field(image, 8 * a + s, if bits + s <= 32 then bits else 32 - s)
  {
    hide Field, DwordIn, Pow2, And, Shr;
    WordField(image, a);
    FieldDiv(image, 8 * a, 32, s);
    ShiftsAreMulDiv(DwordIn(image, a), s);
    var x := Shr(DwordIn(image, a), s);
    AndIsMod(x, bits);
    if bits + s <= 32 {
      FieldMod(image, 8 * a + s, 32 - s, bits);
    } else {
      FieldBound(image, 8 * a + s, 32 - s);
      PowGrows(32 - s, bits);
      RemainderIs(x, Pow2(bits), 0, x);
    }
  }

  /** Every sample is the bits the stream holds for it, up to the end of the
      dword read, which is all of them for widths up to 25; a dword that runs
      past the image gives 0. */
  lemma SampleIsField(image: seq<byte>, e: Entry, i: nat)
    requires e.Entry? && 0 < e.bits && 0 < e.modulo
    ensures var s := Start(e, i) % 8;
            Sample(image, e, i) ==
            if e.data + Start(e, i) / 8 + 4 > |image| then 0
            else Field(image, 8 * e.data + Start(e, i), if e.bits + s <= 32 then e.bits else 32 - s)
    ensures e.data + Start(e, i) / 8 + 4 <= |image| && e.bits <= 25 ==>
              Sample(image, e, i) == Field(image, 8 * e.data + Start(e, i), e.bits)
  {
    hide Field, Start, Extract, DwordIn;
    var bit := Start(e, i);
    if e.data + bit / 8 + 4 > |image| {
      PastEnd(image, e.data + bit / 8);
      NothingExtracted(bit % 8, e.bits);
    } else {
      assert 8 * (e.data + bit / 8) + bit % 8 == 8 * e.data + bit;
      ExtractIsField(image, e.data + bit / 8, bit % 8, e.bits);
    }
  }

  lemma PastEnd(image: seq<byte>, a: nat)
    requires a + 4 > |image|
    ensures DwordIn(image, a) == 0
  {
  }

  lemma {:induction false} NothingShifted(shift: nat)
    ensures Shr(0, shift) == 0
  {
    if shift > 0 {
      NothingShifted(shift - 1);
    }
  }

  lemma NothingExtracted(shift: nat, bits: nat)
    ensures Extract(0, shift, bits) == 0
  {
    NothingShifted(shift);
    hide Shr, Pow2;
    AndBound(0, Pow2(bits) - 1);
  }

  // ---- the table decoder ----------------------------------------------------------------

  /** No table, samples, a lookup past the 256 samples, or a remap chain deeper
      than the interpreter's stack. */
  datatype Outcome = Absent | Samples(v: seq<nat>) | IndexFault | TooDeep

  function Raw(image: seq<byte>, e: Entry): (r: seq<nat>)
    requires e.Entry? && e.modulo > 0
    ensures |r| == 0x100 && forall i :: 0 <= i < 0x100 ==> r[i] == Sample(image, e, i)
  {
    seq(SAMPLES, i requires 0 <= i => Sample(image, e, i))
  }

  function LookUp(raw: seq<nat>, table: Outcome): Outcome {
    match table
    case Samples(v) =>
      if exists i :: 0 <= i < |raw| && raw[i] >= |v| then IndexFault
      else Samples(seq(|raw|, i requires 0 <= i < |raw| && raw[i] < |v| => v[raw[i]]))
    case _ => table
  }

  function Decode(image: seq<byte>, m: nat, index: nat, depth: nat): Outcome
    decreases depth
  {
    if depth == 0 then TooDeep
    else
      match EntryOf(image, m, index)
      case NoEntry => Absent
      case Entry(bits, modulo, mode, remap, data) =>
        var raw := Raw(image, Entry(bits, modulo, mode, remap, data));
        if mode == 2 then LookUp(raw, Decode(image, m, remap, depth - 1))
        else if mode == 1 then Samples(raw)
        else Absent
  }

  /** The decoder itself: 256 samples in a loop, then the lookup by recursion.
      `depth` is how many more calls the interpreter's stack allows. */
  method M0209Values(image: seq<byte>, m: nat, index: nat, depth: nat) returns (r: Outcome)
    ensures r == Decode(image, m, index, depth)
    decreases depth
  {
    if depth == 0 {
      return TooDeep;
    }
    var e := EntryOf(image, m, index);
    if e == NoEntry {
      return Absent;
    }
    hide Sample, EntryOf;
    var values: seq<nat> := [];
    for i := 0 to SAMPLES
      invariant values == Raw(image, e)[..i]
    {
      values := values + [Sample(image, e, i)];
    }
    assert values == Raw(image, e);
    if e.mode == 2 {
      var remap := M0209Values(image, m, e.remap, depth - 1);
      r := LookUp(values, remap);
    } else if e.mode == 1 {
      r := Samples(values);
    } else {
      r := Absent;
    }
  }

  // ---- an entry in bytes ---------------------------------------------------------------

  /** The byte at a place; past the image there is only 0. */
  predicate ByteIs(image: seq<byte>, at: nat, x: nat) {
    if at < |image| then image[at] == x else x == 0
  }

  /** Header of the table: where the pointer of the M table leads, version 0x10, and the
      lengths of header, entry and samples and the number of entries. */
  predicate TableAt(image: seq<byte>, m: nat, base: word, header: nat, length: nat, samples: nat, count: nat) {
    m != 0 && m + 13 <= |image| && image[m + 9..m + 13] == Pack(base) && base != 0 && base + 5 <= |image| &&
    image[base] == 0x10 && image[base + 1] == header && image[base + 2] == length && image[base + 3] == samples &&
    image[base + 4] == count
  }

  lemma TableRead(image: seq<byte>, m: nat, base: word, header: nat, length: nat, samples: nat, count: nat)
    requires TableAt(image, m, base, header, length, samples, count)
    ensures DwordIn(image, m + 9) == base
  {
    UnpackPack(base);
    hide Pack, Unpack;
  }

  /** Bits 0 to 5 of an entry's first byte are the width, the second byte is the modulo,
      bits 0 to 2 of the third the mode, the fourth the table to look up, and the
      samples stand behind the entry. No width or no modulo is no entry. */
  lemma EntryBytes(image: seq<byte>, m: nat, index: nat, base: word, header: nat, length: nat, samples: nat, count: nat,
                   at: nat, b0: byte, b1: byte, b2: byte, b3: byte)
    requires TableAt(image, m, base, header, length, samples, count) && index < count
    requires at == base + header + index * (length + samples) && at + length + samples <= |image|
    requires ByteIs(image, at, b0) && ByteIs(image, at + 1, b1)
    requires ByteIs(image, at + 2, b2) && ByteIs(image, at + 3, b3)
    ensures EntryOf(image, m, index) ==
            if b0 % 0x40 == 0 || b1 == 0 then NoEntry else Entry(b0 % 0x40, b1, b2 % 8, b3, at + length)
  {
    TableRead(image, m, base, header, length, samples, count);
    hide DwordIn;
  }

  /** Mode 1 is the samples themselves, mode 2 the samples looked up, and any other
      mode nothing. */
  lemma ModeDecides(image: seq<byte>, m: nat, index: nat, depth: nat)
    requires depth > 0 && EntryOf(image, m, index).Entry?
    ensures var e := EntryOf(image, m, index);
            (e.mode == 1 ==> Decode(image, m, index, depth) == Samples(Raw(image, e))) &&
            (e.mode == 2 ==>
              Decode(image, m, index, depth) == LookUp(Raw(image, e), Decode(image, m, e.remap, depth - 1))) &&
            (e.mode != 1 && e.mode != 2 ==> Decode(image, m, index, depth) == Absent)
  {
    hide EntryOf, LookUp, Sample;
  }

  // ---- remap chains ---------------------------------------------------------------------

  /** The entry looks up another one. */
  predicate Remaps(image: seq<byte>, m: nat, index: nat) {
    EntryOf(image, m, index).Entry? && EntryOf(image, m, index).mode == 2
  }

  /** Index reached after n lookups. */
  function Hop(image: seq<byte>, m: nat, index: nat, n: nat): nat
    decreases n
  {
    if n == 0 || !Remaps(image, m, index) then index else Hop(image, m, EntryOf(image, m, index).remap, n - 1)
  }

  /** The decoder runs out of stack exactly when the chain is still going. */
  lemma {:induction false} TooDeepIff(image: seq<byte>, m: nat, index: nat, depth: nat)
    ensures Decode(image, m, index, depth).TooDeep? <==>
            depth == 0 || Remaps(image, m, Hop(image, m, index, depth - 1))
    decreases depth
  {
    hide EntryOf, Raw;
    if depth > 0 && Remaps(image, m, index) {
      TooDeepIff(image, m, EntryOf(image, m, index).remap, depth - 1);
    }
  }

  /** Extra stack changes nothing once it is enough. */
  lemma {:induction false} EnoughStack(image: seq<byte>, m: nat, index: nat, depth: nat, more: nat)
    requires depth <= more && !Decode(image, m, index, depth).TooDeep?
    ensures Decode(image, m, index, more) == Decode(image, m, index, depth)
    decreases depth
  {
    hide EntryOf, Raw;
    if Remaps(image, m, index) {
      EnoughStack(image, m, EntryOf(image, m, index).remap, depth - 1, more - 1);
    }
  }

  lemma {:induction false} HopAdd(image: seq<byte>, m: nat, index: nat, i: nat, t: nat)
    ensures Hop(image, m, index, i + t) == Hop(image, m, Hop(image, m, index, i), t)
    decreases i
  {
    hide EntryOf;
    if i > 0 {
      if Remaps(image, m, index) {
        HopAdd(image, m, EntryOf(image, m, index).remap, i - 1, t);
      } else {
        Stays(image, m, index, i);
        Stays(image, m, index, i + t);
        Stays(image, m, index, t);
      }
    }
  }

  lemma Stays(image: seq<byte>, m: nat, index: nat, n: nat)
    requires !Remaps(image, m, index)
    ensures Hop(image, m, index, n) == index
  {
  }

  /** The chain comes back to an entry that looks up another. */
  predicate Loops(image: seq<byte>, m: nat, index: nat, i: nat, j: nat) {
    i < j && Hop(image, m, index, i) == Hop(image, m, index, j) && Remaps(image, m, Hop(image, m, index, i))
  }

  /** Once the chain has looped, every entry on it looks up another. */
  lemma {:induction false} LoopGoesOn(image: seq<byte>, m: nat, index: nat, i: nat, j: nat, n: nat)
    requires Loops(image, m, index, i, j)
    ensures Remaps(image, m, Hop(image, m, index, n))
    decreases n
  {
    hide Remaps, EntryOf, Hop;
    if n <= i {
      HopAdd(image, m, index, n, i - n);
      EndIsLast(image, m, Hop(image, m, index, n), i - n);
    } else if n < j {
      HopAdd(image, m, index, n, j - n);
      EndIsLast(image, m, Hop(image, m, index, n), j - n);
    } else {
      HopAdd(image, m, index, j, n - j);
      HopAdd(image, m, index, i, n - j);
      LoopGoesOn(image, m, index, i, j, i + (n - j));
    }
  }

  lemma EndIsLast(image: seq<byte>, m: nat, index: nat, n: nat)
    ensures !Remaps(image, m, index) ==> Hop(image, m, index, n) == index
  {
  }

  lemma {:induction false} Pigeonhole(s: seq<nat>, n: nat) returns (i: nat, j: nat)
    requires |s| > n && forall k :: 0 <= k < |s| ==> s[k] < n
    ensures i < j < |s| && s[i] == s[j]
    decreases n
  {
    var last := |s| - 1;
    if k :| 0 <= k < last && s[k] == s[last] {
      return k, last;
    }
    assert s[0] < n;
    // Move the largest value into the place the last element leaves free.
    var t := seq(last, k requires 0 <= k < last => if s[k] == n - 1 then s[last] else s[k]);
    forall k | 0 <= k < last ensures t[k] < n - 1 {
      assert s[k] != s[last];
    }
    i, j := Pigeonhole(t, n - 1);
  }

  const DEEPEST := 258

  lemma HopByte(image: seq<byte>, m: nat, index: nat, n: nat)
    requires Remaps(image, m, index) && n > 0
    ensures Hop(image, m, index, n) < 0x100
    decreases n
  {
    hide EntryOf;
    var next := EntryOf(image, m, index).remap;
    if Remaps(image, m, next) && n > 1 {
      HopByte(image, m, next, n - 1);
    } else {
      EndIsLast(image, m, next, n - 1);
    }
  }

  /** The decoder ends if and only if the chain does not loop: a stack of 258
      calls is enough for every chain that ends, and none is for the others. */
  lemma EndsIffNoLoop(image: seq<byte>, m: nat, index: nat, depth: nat)
    requires depth >= DEEPEST
    ensures Decode(image, m, index, depth).TooDeep? <==> exists i, j :: Loops(image, m, index, i, j)
  {
    hide Decode, EntryOf, Hop;
    TooDeepIff(image, m, index, depth);
    if i, j :| Loops(image, m, index, i, j) {
      LoopGoesOn(image, m, index, i, j, depth - 1);
    }
    if Remaps(image, m, Hop(image, m, index, depth - 1)) {
      var chain := seq(DEEPEST - 1, k requires k >= 0 => Hop(image, m, index, k + 1));
      forall k | 0 <= k < DEEPEST - 1 ensures chain[k] < 0x100 && Remaps(image, m, Hop(image, m, index, k + 1)) {
        HopAdd(image, m, index, 0, depth - 1);
        HopAdd(image, m, index, k + 1, depth - 1 - (k + 1));
        EndIsLast(image, m, Hop(image, m, index, k + 1), depth - 1 - (k + 1));
        EndIsLast(image, m, index, depth - 1);
        HopByte(image, m, index, k + 1);
      }
      var i, j := Pigeonhole(chain, 0x100);
      assert Loops(image, m, index, i + 1, j + 1);
    }
  }

  // ---- composition ----------------------------------------------------------------------

  lemma {:induction false} AlwaysAllSamples(image: seq<byte>, m: nat, index: nat, depth: nat)
    ensures Decode(image, m, index, depth).Samples? ==> |Decode(image, m, index, depth).v| == SAMPLES
    decreases depth
  {
    hide EntryOf, Sample;
    if depth > 0 && Remaps(image, m, index) {
      AlwaysAllSamples(image, m, EntryOf(image, m, index).remap, depth - 1);
    }
  }

  lemma SampleBound(image: seq<byte>, e: Entry, i: nat)
    requires e.Entry? && e.modulo > 0
    ensures Sample(image, e, i) < Pow2(e.bits)
  {
    hide Pow2, Shr, And, DwordIn, Start;
    var bit := Start(e, i);
    AndIsMod(Shr(DwordIn(image, e.data + bit / 8), bit % 8), e.bits);
  }

  /** A remapped table is its samples looked up in the other table; the lookup
      fails exactly when some sample is past the 256 entries, never when they
      are at most eight bits wide. */
  lemma RemapComposes(image: seq<byte>, m: nat, index: nat, depth: nat, v: seq<nat>)
    requires depth > 0 && Remaps(image, m, index)
    requires Decode(image, m, EntryOf(image, m, index).remap, depth - 1) == Samples(v)
    ensures var e := EntryOf(image, m, index);
            var r := Decode(image, m, index, depth);
            (r == IndexFault <==> exists i :: 0 <= i < SAMPLES && Sample(image, e, i) >= SAMPLES) &&
            (r != IndexFault ==>
              r.Samples? && |r.v| == SAMPLES &&
              forall i :: 0 <= i < SAMPLES ==> Sample(image, e, i) < |v| && r.v[i] == v[Sample(image, e, i)]) &&
            (e.bits <= 8 ==> r != IndexFault)
  {
    hide EntryOf, Sample, Pow2;
    var e := EntryOf(image, m, index);
    AlwaysAllSamples(image, m, e.remap, depth - 1);
    var raw := Raw(image, e);
    assert Decode(image, m, index, depth) == LookUp(raw, Samples(v));
    hide Decode;
    if e.bits <= 8 {
      PowGrows(e.bits, 8);
      assert Pow2(8) == 0x100 by { Powers(); }
      forall i | 0 <= i < SAMPLES ensures Sample(image, e, i) < SAMPLES {
        SampleBound(image, e, i);
      }
    }
  }
}
