/** The per-channel object hash table: `ramht_hash` and `ramht_insert` of
    examples_en210/add.py, and the lookup the GPU does. */
module Ramht {
  import opened Bits
  import opened Words
  import opened Dwords
  import opened Pramin
  import opened DwordView

  const RAMHT_BITS := 12
  const SLOTS := 0x1000

  /** The handle folded down to twelve bits, from a running value. */
  function Fold(h: nat, handle: nat): nat
    decreases handle
  {
    if handle == 0 then h else Fold(Xor(h, handle % SLOTS), handle / SLOTS)
  }

  function Hash(handle: nat): nat {
    Fold(0, handle)
  }

  lemma {:induction false} FoldBound(h: nat, handle: nat)
    requires h < SLOTS
    ensures Fold(h, handle) < SLOTS
    decreases handle
  {
    if handle != 0 {
      Powers();
      XorBound(h, handle % SLOTS, RAMHT_BITS);
      FoldBound(Xor(h, handle % SLOTS), handle / SLOTS);
    }
  }

  lemma FoldDone(h: nat, handle: nat)
    requires handle == 0
    ensures Fold(h, handle) == h
  {
  }

  lemma FoldNext(h: nat, handle: nat)
    ensures Fold(h, handle) == Fold(Xor(h, handle % SLOTS), handle / SLOTS)
  {
    if handle == 0 {
      XorNothing(h);
    }
  }

  lemma XorNothing(a: nat)
    ensures Xor(a, 0) == a && Xor(0, a) == a
  {
  }

  /** The hash of a 32-bit handle is the exclusive or of its three twelve-bit digits. */
  lemma HashIsDigits(handle: word)
    ensures Hash(handle) == Xor(Xor(handle % 0x1000, handle / 0x1000 % 0x1000), handle / 0x1000000)
  {
    var d0, d1, d2 := handle % 0x1000, handle / 0x1000 % 0x1000, handle / 0x1000000;
    RemainderIs(handle / 0x1000, 0x1000, d2, d1);
    assert handle / 0x1000 / 0x1000 == d2 && d2 % 0x1000 == d2 && d2 / 0x1000 == 0;
    FoldNext(0, handle);
    XorNothing(d0);
    FoldNext(d0, handle / 0x1000);
    FoldNext(Xor(d0, d1), d2);
    hide Xor;
    FoldDone(Xor(Xor(d0, d1), d2), 0);
  }

  lemma XorStep(a: nat, b: nat)
    requires a > 0 && b > 0
    ensures Xor(a, b) == 2 * Xor(a / 2, b / 2) + if a % 2 != b % 2 then 1 else 0
  {
  }

  lemma FirstXor()
    ensures Xor(0x5c0, 8) == 0x5c8
  {
    hide Xor;
    XorStep(0x5c0, 0x8);
    XorStep(0x2e0, 0x4);
    XorStep(0x170, 0x2);
    XorStep(0xb8, 0x1);
    XorNothing(0x5c);
  }

  lemma SecondXor()
    ensures Xor(0x201, 0xef0) == 0xcf1
  {
    hide Xor;
    XorStep(0x201, 0xef0);
    XorStep(0x100, 0x778);
    XorStep(0x80, 0x3bc);
    XorStep(0x40, 0x1de);
    XorStep(0x20, 0xef);
    XorStep(0x10, 0x77);
    XorStep(0x8, 0x3b);
    XorStep(0x4, 0x1d);
    XorStep(0x2, 0xe);
    XorStep(0x1, 0x7);
    XorNothing(0x3);
  }

  lemma ThirdXor()
    ensures Xor(0xcf1, 0xbe) == 0xc4f
  {
    hide Xor;
    XorStep(0xcf1, 0xbe);
    XorStep(0x678, 0x5f);
    XorStep(0x33c, 0x2f);
    XorStep(0x19e, 0x17);
    XorStep(0xcf, 0xb);
    XorStep(0x67, 0x5);
    XorStep(0x33, 0x2);
    XorStep(0x19, 0x1);
    XorNothing(0xc);
  }

  /** Those of the launch. */
  lemma HashValues()
    ensures Hash(0x85c0) == 0x5c8 && Hash(0xbeef0201) == 0xc4f
  {
    hide Hash, Xor;
    HashIsDigits(0x85c0);
    HashIsDigits(0xbeef0201);
    FirstXor();
    XorNothing(0x5c8);
    SecondXor();
    ThirdXor();
  }

  function DigitSum(handle: nat): nat
    decreases handle
  {
    if handle == 0 then 0 else handle % SLOTS + DigitSum(handle / SLOTS)
  }

  lemma XorParity(a: nat, b: nat)
    ensures Xor(a, b) % 2 == (a + b) % 2
  {
  }

  lemma SumParity(x: nat, y: nat, z: nat)
    requires x % 2 == y % 2
    ensures (x + z) % 2 == (y + z) % 2
  {
  }

  /** Exclusive or keeps parity, so a slot's parity is that of the digit sum. */
  lemma {:induction false} FoldParity(h: nat, handle: nat)
    ensures Fold(h, handle) % 2 == (h + DigitSum(handle)) % 2
    decreases handle
  {
    if handle != 0 {
      hide Xor;
      XorParity(h, handle % SLOTS);
      FoldParity(Xor(h, handle % SLOTS), handle / SLOTS);
      SumParity(Xor(h, handle % SLOTS), h + handle % SLOTS, DigitSum(handle / SLOTS));
    }
  }

  method RamhtHash(handle: nat) returns (h: nat)
    ensures h == Hash(handle) < SLOTS
  {
    h := 0;
    var rest: nat := handle;
    while rest != 0
      invariant Fold(h, rest) == Hash(handle)
      decreases rest
    {
      Powers();
      AndIsMod(rest, RAMHT_BITS);
      h, rest := Xor(h, And(rest, SLOTS - 1)), rest / SLOTS;
    }
    FoldBound(0, handle);
  }

  function SlotAt(table: nat, handle: nat): nat {
    table + 8 * Hash(handle)
  }

  function Insert(m: Mem, table: nat, handle: word, context: word): Mem {
    m[SlotAt(table, handle) := handle][SlotAt(table, handle) + 4 := context]
  }

  datatype Found = Missing | Context(context: word)

  function Lookup(m: Mem, table: nat, handle: word): Found {
    if Get(m, SlotAt(table, handle)) == handle then Context(Get(m, SlotAt(table, handle) + 4)) else Missing
  }

  method RamhtInsert(v: Vram, table: nat, handle: word, context: word)
    requires v.Valid() && v.Reachable(table, 8 * SLOTS)
    modifies v, v.iface.board
    ensures v.Valid() && Log(v) == old(Log(v)) && View(v) == Insert(old(View(v)), table, handle, context)
  {
    hide ViewOf, Fold;
    var h := RamhtHash(handle);
    WordAligned(table, 2 * h);
    WordAligned(table, 2 * h + 1);
    Store(v, table + 8 * h, handle);
    Store(v, table + 8 * h + 4, context);
  }

  /** There is no collision handling: an insert is found, evicts whatever hashes
      to the same slot, and leaves every other lookup alone. */
  lemma InsertThenLookup(m: Mem, table: nat, handle: word, context: word, other: word)
    ensures Lookup(Insert(m, table, handle, context), table, other) ==
            if other == handle then Context(context)
            else if Hash(other) == Hash(handle) then Missing
            else Lookup(m, table, other)
  {
  }

  /** An input: handles 1 and 0x1000 share a slot, and the second one put in evicts
      the first. */
  lemma SecondEvictsFirst(m: Mem, table: nat, c1: word, c2: word)
    ensures Hash(1) == Hash(0x1000)
    ensures Lookup(Insert(Insert(m, table, 1, c1), table, 0x1000, c2), table, 1) == Missing
  {
    XorZero(1);
    assert Fold(0, 1) == Fold(1, 0);
    assert Fold(0, 0x1000) == Fold(Xor(0, 0), 1);
    InsertThenLookup(Insert(m, table, 1, c1), table, 0x1000, c2, 1);
  }

  lemma XorZero(a: nat)
    ensures Xor(0, a) == a
  {
  }

  /** So two objects are both reachable exactly when their slots differ. */
  lemma BothFoundIffSlotsDiffer(m: Mem, table: nat, h1: word, c1: word, h2: word, c2: word)
    requires h1 != h2
    ensures var m' := Insert(Insert(m, table, h1, c1), table, h2, c2);
            (Lookup(m', table, h1) == Context(c1) && Lookup(m', table, h2) == Context(c2)) <==> Hash(h1) != Hash(h2)
  {
    var m1 := Insert(m, table, h1, c1);
    InsertThenLookup(m, table, h1, c1, h1);
    InsertThenLookup(m1, table, h2, c2, h1);
    InsertThenLookup(m1, table, h2, c2, h2);
  }
}
