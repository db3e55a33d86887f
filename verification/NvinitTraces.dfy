/** What the group opcodes of NVINIT do to an enabled device, event by event:
    closed forms of the loops in `Nvinit`. */
module NvinitTraces {
  import opened Bits
  import opened Words
  import opened Wrappers
  import opened Nvinit

  /** A register number from its parts: bits 31, 30 and 29, the dword below, and
      the two low bits. */
  function Parts(b31: nat, b30: nat, b29: nat, dword: nat, low: nat): nat {
    0x80000000 * b31 + 0x40000000 * b30 + 0x20000000 * b29 + 4 * dword + low
  }

  /** Register translation drops the two low bits and the selector bits 31 and
      30, and bit 29 when bit 30 was set. */
  lemma NvRegIs(b31: nat, b30: nat, b29: nat, dword: nat, low: nat)
    requires b31 < 2 && b30 < 2 && b29 < 2 && dword < 0x8000000 && low < 4
    ensures NvReg(Parts(b31, b30, b29, dword, low)) == 4 * dword + if b30 == 0 then 0x20000000 * b29 else 0
  {
    var reg := Parts(b31, b30, b29, dword, low);
    RemainderIs(reg, 4, 0x20000000 * b31 + 0x10000000 * b30 + 0x8000000 * b29 + dword, low);
    var x := reg - low;
    var z := 0x20000000 * b29 + 4 * dword;
    RemainderIs(x, 0x80000000, b31, 0x40000000 * b30 + z);
    RemainderIs(b31, 2, 0, b31);
    RemainderIs(0x40000000 * b30 + z, 0x40000000, b30, z);
    RemainderIs(b30, 2, 0, b30);
    RemainderIs(z, 0x20000000, b29, 4 * dword);
    RemainderIs(b29, 2, 0, b29);
  }

  /** Every 32-bit register number has such parts. */
  lemma HasParts(reg: nat) returns (b31: nat, b30: nat, b29: nat, dword: nat, low: nat)
    requires reg < U32
    ensures b31 < 2 && b30 < 2 && b29 < 2 && dword < 0x8000000 && low < 4 && reg == Parts(b31, b30, b29, dword, low)
  {
    b31 := reg / 0x80000000;
    var r31 := reg % 0x80000000;
    b30 := r31 / 0x40000000;
    var r30 := r31 % 0x40000000;
    b29 := r30 / 0x20000000;
    var r29 := r30 % 0x20000000;
    dword, low := r29 / 4, r29 % 4;
  }

  /** So translating twice is translating once. */
  lemma NvRegOnce(reg: nat)
    requires reg < U32
    ensures NvReg(reg) % 4 == 0 && NvReg(NvReg(reg)) == NvReg(reg) <= reg
  {
    hide NvReg;
    var b31, b30, b29, dword, low := HasParts(reg);
    NvRegIs(b31, b30, b29, dword, low);
    var kept := if b30 == 0 then b29 else 0;
    NvRegIs(0, 0, kept, dword, 0);
    RemainderIs(4 * dword + 0x20000000 * kept, 4, dword + 0x8000000 * kept, 0);
  }

  /** One bit of a masked write. */
  lemma MaskedBit(prior: nat, mask: nat, val: nat)
    requires prior < 2 && mask < 2 && val < 2 && val * mask == val
    ensures var r := (if prior * (1 - mask) + val > 0 then 1 else 0);
            r * mask == val && r * (1 - mask) == prior * (1 - mask)
  {
  }

  lemma BitProduct(l: nat, l': nat)
    requires l < 2 && l' < 2
    ensures 0 <= l * l' < 2
  {
  }

  lemma AndStep(a: nat, b: nat)
    ensures And(a, b) / 2 == And(a / 2, b / 2) && And(a, b) % 2 == (a % 2) * (b % 2)
  {
    hide And;
    var l, l' := a % 2, b % 2;
    AndHalves(a / 2, l, b / 2, l');
    BitProduct(l, l');
    var x := l * l';
    assert a == 2 * (a / 2) + l && b == 2 * (b / 2) + l';
    assert And(a, b) == 2 * And(a / 2, b / 2) + x;
  }

  lemma ComplementStep(m: nat, k: nat)
    requires k > 0 && m < Pow2(k)
    ensures m / 2 < Pow2(k - 1)
    ensures (Pow2(k) - 1 - m) / 2 == Pow2(k - 1) - 1 - m / 2 && (Pow2(k) - 1 - m) % 2 == 1 - m % 2
  {
    var p := Pow2(k - 1);
    assert Pow2(k) == 2 * p;
  }

  /** A masked write of a value inside the mask sets exactly the masked bits to
      the value's and keeps all others. */
  lemma {:induction false} MaskedWrite(prior: nat, mask: nat, val: nat, k: nat)
    requires prior < Pow2(k) && mask < Pow2(k) && val < Pow2(k) && And(val, mask) == val
    ensures var r := Or(And(prior, Pow2(k) - 1 - mask), val);
            And(r, mask) == val && And(r, Pow2(k) - 1 - mask) == And(prior, Pow2(k) - 1 - mask)
    decreases k
  {
    if k > 0 {
      var keep := Pow2(k) - 1 - mask;
      var r := Or(And(prior, keep), val);
      ComplementStep(mask, k);
      ComplementStep(prior, k);
      ComplementStep(val, k);
      hide And, Or, Pow2;
      AndStep(val, mask);
      MaskedWrite(prior / 2, mask / 2, val / 2, k - 1);
      AndStep(prior, keep);
      OrStep(And(prior, keep), val);
      AndStep(r, mask);
      AndStep(r, keep);
      MaskedBit(prior % 2, mask % 2, val % 2);
      SameHalves(And(r, mask), val);
      SameHalves(And(r, keep), And(prior, keep));
    }
  }

  lemma MergeWith(prior: nat, mask: nat, keep: nat, val: nat, k: nat)
    requires prior < Pow2(k) && mask < Pow2(k) && val < Pow2(k) && And(val, mask) == val
    requires keep == Pow2(k) - 1 - mask
    ensures And(Or(And(prior, keep), val), mask) == val
    ensures And(Or(And(prior, keep), val), keep) == And(prior, keep)
    ensures Or(And(prior, keep), val) < Pow2(k)
  {
    hide And, Or, Pow2;
    MaskedWrite(prior, mask, val, k);
    AndBound(prior, keep);
    OrBound(And(prior, keep), val, k);
  }

  /** So does the register after a mask opcode, whatever it held. */
  lemma MergeIsMaskedWrite(prior: word, mask: word, val: word)
    requires And(val, mask) == val
    ensures And(Merge(prior, mask, val), mask) == val
    ensures And(Merge(prior, mask, val), 0xffffffff - mask) == And(prior, 0xffffffff - mask)
    ensures Merge(prior, mask, val) < U32
  {
    assert Pow2(32) == U32 by { Powers(); }
    hide And, Or, Pow2;
    MergeWith(prior, mask, 0xffffffff - mask, val, 32);
  }

  function GroupEvents(addr: nat, step: nat, words: seq<word>): seq<Event> {
    seq(|words|, i requires 0 <= i < |words| => Wr32(NvReg(addr + Times(i, step)), words[i]))
  }

  function Times(i: nat, step: nat): nat {
    if i == 0 then 0 else step + Times(i - 1, step)
  }

  lemma GroupCons(addr: nat, step: nat, words: seq<word>)
    requires words != []
    ensures GroupEvents(addr, step, words) == [Wr32(NvReg(addr), words[0])] + GroupEvents(addr + step, step, words[1..])
  {
    hide NvReg, Times;
    NoTimes(step);
    var rest := GroupEvents(addr + step, step, words[1..]);
    forall i | 0 < i < |words| ensures GroupEvents(addr, step, words)[i] == rest[i - 1] {
      OneMore(i, step);
      assert words[1..][i - 1] == words[i];
      assert addr + step + Times(i - 1, step) == addr + Times(i, step);
    }
  }

  lemma NoTimes(step: nat)
    ensures Times(0, step) == 0
  {
  }

  lemma OneMore(i: nat, step: nat)
    requires i > 0
    ensures Times(i, step) == step + Times(i - 1, step)
  {
  }

  /** Word i of a group goes to the i-th register of the stride, once, in order. */
  lemma {:induction false} GroupTrace(s: Sem, addr: nat, step: nat, words: seq<word>)
    requires s.execute == 1
    ensures WriteAll(s, addr, step, words) == s.(trace := s.trace + GroupEvents(addr, step, words))
    decreases |words|
  {
    hide NvReg;
    if words == [] {
      assert s.trace + GroupEvents(addr, step, words) == s.trace;
    } else {
      GroupCons(addr, step, words);
      hide GroupEvents;
      GroupTrace(RegWr(s, addr, words[0]), addr + step, step, words[1..]);
    }
  }

  /** The strap's column of a table, as a group of its own. */
  function Column(rows: seq<seq<word>>, index: nat): seq<word>
    requires forall i :: 0 <= i < |rows| ==> index < |rows[i]|
  {
    seq(|rows|, i requires 0 <= i < |rows| => rows[i][index])
  }

  /** A strap table is the group of its column. */
  lemma {:induction false} ColumnIsGroup(s: Sem, addr: nat, incr: nat, rows: seq<seq<word>>, index: nat)
    requires forall i :: 0 <= i < |rows| ==> index < |rows[i]|
    ensures WriteColumn(s, addr, incr, rows, index) == WriteAll(s, addr, incr, Column(rows, index))
    decreases |rows|
  {
    hide RegWr;
    if rows != [] {
      ColumnIsGroup(RegWr(s, addr, rows[0][index]), addr + incr, incr, rows[1..], index);
      assert Column(rows, index)[1..] == Column(rows[1..], index);
    }
  }

  /** An index past the columns writes nothing. */
  lemma {:induction false} NoSuchColumn(s: Sem, addr: nat, incr: nat, rows: seq<seq<word>>, index: nat)
    requires forall i :: 0 <= i < |rows| ==> index >= |rows[i]|
    ensures WriteColumn(s, addr, incr, rows, index) == s
    decreases |rows|
  {
    if rows != [] {
      NoSuchColumn(s, addr + incr, incr, rows[1..], index);
    }
  }

  /** Index and data byte of each CRTC pair. */
  function CrEvents(pairs: seq<(byte, byte)>): seq<Event>
    decreases |pairs|
  {
    if pairs == [] then []
    else [Wr8(VGA_WINDOW + 0x03d4, pairs[0].0), Wr8(VGA_WINDOW + 0x03d5, pairs[0].1)] + CrEvents(pairs[1..])
  }

  lemma {:induction false} CrTrace(s: Sem, pairs: seq<(byte, byte)>)
    requires s.execute == 1
    ensures WriteCrs(s, pairs) == s.(trace := s.trace + CrEvents(pairs))
    decreases |pairs|
  {
    if pairs == [] {
      assert s.trace + CrEvents(pairs) == s.trace;
    } else {
      CrTrace(VgaWr(s, 0x03d4, pairs[0].0, pairs[0].1), pairs[1..]);
    }
  }

  /** A latched block is the CRTC pairs (addr0, base + i) and (addr1, byte i). */
  function LatchPairs(addr0: byte, addr1: byte, base: nat, bytes: seq<byte>): seq<(byte, byte)>
    decreases |bytes|
  {
    if bytes == [] then []
    else [(addr0, (base % 0x100) as byte), (addr1, bytes[0])] + LatchPairs(addr0, addr1, base + 1, bytes[1..])
  }

  lemma {:induction false} LatchIsPairs(s: Sem, addr0: byte, addr1: byte, base: byte, count: nat, bytes: seq<byte>)
    requires base == count % 0x100
    ensures LatchAll(s, addr0, addr1, base, bytes) == WriteCrs(s, LatchPairs(addr0, addr1, count, bytes))
    decreases |bytes|
  {
    if bytes != [] {
      hide VgaWr;
      var s1 := VgaWr(s, 0x03d4, addr0, base);
      var s2 := VgaWr(s1, 0x03d4, addr1, bytes[0]);
      var pairs := LatchPairs(addr0, addr1, count, bytes);
      NextByte(base, count);
      LatchIsPairs(s2, addr0, addr1, (base + 1) % 0x100, count + 1, bytes[1..]);
      assert pairs[1..] == [(addr1, bytes[0])] + LatchPairs(addr0, addr1, count + 1, bytes[1..]);
      assert pairs[1..][1..] == LatchPairs(addr0, addr1, count + 1, bytes[1..]);
      assert WriteCrs(s, pairs) == WriteCrs(s1, pairs[1..]) == WriteCrs(s2, pairs[1..][1..]);
    }
  }

  lemma NextByte(base: byte, count: nat)
    requires base == count % 0x100
    ensures (base + 1) % 0x100 == (count + 1) % 0x100
  {
  }

  /** n reads of one register in a row. */
  function Reads(reg: nat, n: nat): seq<Event> {
    seq(n, i => Rd32(reg))
  }

  /** Read n of a poll, after n earlier ones, shows the condition. */
  predicate Hit(d: Device, s: Sem, t: Test, n: nat) {
    And(d.read32(s.trace + Reads(NvReg(t.reg), n), NvReg(t.reg)), t.mask) == t.val
  }

  lemma ReadsJoin(reg: nat, m: nat, n: nat)
    ensures Reads(reg, m) + Reads(reg, n) == Reads(reg, m + n)
  {
  }

  lemma HitLater(d: Device, s: Sem, s1: Sem, t: Test, k: nat)
    requires s1.trace == s.trace + Reads(NvReg(t.reg), 1)
    ensures Hit(d, s1, t, k) == Hit(d, s, t, k + 1)
  {
    hide NvReg, And;
    ReadsJoin(NvReg(t.reg), 1, k);
    assert s1.trace + Reads(NvReg(t.reg), k) == s.trace + (Reads(NvReg(t.reg), 1) + Reads(NvReg(t.reg), k));
  }

  /** A poll makes n reads: it stops at the first that shows the condition, or
      has used up its tries without seeing it. */
  lemma {:induction false} PollStopsAtHit(d: Device, s: Sem, t: Test, wait: nat) returns (n: nat)
    requires s.execute == 1
    ensures n <= wait && Poll(d, s, Some(t), wait).1 == s.(trace := s.trace + Reads(NvReg(t.reg), n))
    ensures Poll(d, s, Some(t), wait).0 ==>
              n > 0 && Hit(d, s, t, n - 1) && forall k :: 0 <= k < n - 1 ==> !Hit(d, s, t, k)
    ensures !Poll(d, s, Some(t), wait).0 ==> n == wait && forall k :: 0 <= k < n ==> !Hit(d, s, t, k)
    decreases wait
  {
    hide NvReg, And;
    var reg := NvReg(t.reg);
    assert s.trace + Reads(reg, 0) == s.trace;
    if wait == 0 {
      return 0;
    }
    var s1 := s.(trace := s.trace + [Rd32(reg)]);
    assert [Rd32(reg)] == Reads(reg, 1);
    if Hit(d, s, t, 0) {
      return 1;
    }
    var m := PollStopsAtHit(d, s1, t, wait - 1);
    ReadsJoin(reg, 1, m);
    assert s1.trace + Reads(reg, m) == s.trace + (Reads(reg, 1) + Reads(reg, m));
    hide Hit;
    forall k | 0 <= k < m ensures Hit(d, s1, t, k) == Hit(d, s, t, k + 1) {
      HitLater(d, s, s1, t, k);
    }
    forall k | 0 < k <= m ensures Hit(d, s, t, k) == Hit(d, s1, t, k - 1) {
    }
    return m + 1;
  }
}
