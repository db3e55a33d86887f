/** The capability walk `_pcie_find_cap` of examples_en210/add.py (PCI Local Bus
    Specification 3.0, section 6.7). */
module CapWalk {
  import opened Bits
  import opened Words

  const STATUS := 0x06
  const STATUS_CAP_LIST := 0x10
  const CAPABILITY_LIST := 0x34

  /** A configuration space as its bytes; reading past the end gives 0xff. */
  function ByteAt(config: seq<byte>, at: nat): byte {
    if at < |config| then config[at] else 0xFF
  }

  /** A capability pointer with its two reserved bits dropped. */
  function Pointer(config: seq<byte>, at: nat): nat {
    ByteAt(config, at) as int / 4 * 4
  }

  /** Bit 4 of the status register. */
  predicate HasList(config: seq<byte>) {
    ByteAt(config, 0x06) as int / 0x10 % 2 == 1
  }

  function HalfAt(config: seq<byte>, at: nat): nat {
    ByteAt(config, at) + 0x100 * ByteAt(config, at + 1)
  }

  lemma StatusBit(config: seq<byte>)
    ensures And(HalfAt(config, 0x06), 0x10) != 0 <==> HasList(config)
  {
    var low, high := ByteAt(config, 0x06) as int, ByteAt(config, 0x07) as int;
    Powers();
    AndField(low + 0x100 * high, 1, 4);
    hide And, Pow2, ByteAt;
    RemainderIs(low + 0x100 * high, 0x10, low / 0x10 + 0x10 * high, low % 0x10);
    RemainderIs(low / 0x10 + 0x10 * high, 2, low / 0x10 / 2 + 8 * high, low / 0x10 % 2);
  }

  lemma PointerIs(config: seq<byte>, at: nat)
    ensures And(ByteAt(config, at), 0xfc) == Pointer(config, at)
  {
    var x := ByteAt(config, at);
    Powers();
    AndField(x, 6, 2);
    hide And, Pow2, ByteAt;
    RemainderIs(x / 4, 0x40, 0, x / 4);
  }

  predicate InRange(ptr: nat) {
    0x40 <= ptr <= 0xFC
  }

  /** The n-th pointer of the chain. */
  function Chain(config: seq<byte>, n: nat): nat {
    if n == 0 then Pointer(config, 0x34) else Pointer(config, Chain(config, n - 1) + 1)
  }

  /** Pointers 0..n-1 lie in range and are all different. */
  predicate Sound(config: seq<byte>, n: nat) {
    (forall i :: 0 <= i < n ==> InRange(Chain(config, i))) &&
    (forall i, j :: 0 <= i < j < n ==> Chain(config, i) != Chain(config, j))
  }

  /** The n-th entry is the first with this id before the chain leaves the
      range or meets itself. */
  predicate FirstMatch(config: seq<byte>, id: nat, n: nat) {
    Sound(config, n + 1) && ByteAt(config, Chain(config, n)) == id &&
    forall i :: 0 <= i < n ==> ByteAt(config, Chain(config, i)) != id
  }

  datatype Found = Nowhere | At(ptr: nat)

  /** The 4-aligned pointers of the range. */
  function Slots(): (r: set<nat>)
  {
    set p: nat | 0x40 <= p <= 0xFC && p % 4 == 0
  }

  lemma SlotsHold(config: seq<byte>, n: nat)
    requires InRange(Chain(config, n))
    ensures Chain(config, n) in Slots()
  {
  }

  /** The walk so far: n different entries seen, none with this id. */
  predicate Walked(config: seq<byte>, id: nat, n: nat, seen: set<nat>) {
    Sound(config, n) && (forall i :: 0 <= i < n ==> ByteAt(config, Chain(config, i)) != id) &&
    (forall i :: 0 <= i < n ==> Chain(config, i) in seen) &&
    (forall p :: p in seen ==> exists i :: 0 <= i < n && Chain(config, i) == p)
  }

  lemma WalkedStart(config: seq<byte>, id: nat)
    ensures Walked(config, id, 0, {})
  {
  }

  lemma WalkedNext(config: seq<byte>, id: nat, n: nat, seen: set<nat>)
    requires Walked(config, id, n, seen) && InRange(Chain(config, n)) && Chain(config, n) !in seen
    ensures Sound(config, n + 1)
    ensures if ByteAt(config, Chain(config, n)) == id then FirstMatch(config, id, n)
            else Walked(config, id, n + 1, seen + {Chain(config, n)})
  {
    hide Chain, ByteAt, InRange;
  }

  /** Where the loop stops, no later entry can count. */
  lemma WalkedEnd(config: seq<byte>, id: nat, n: nat, seen: set<nat>, k: nat)
    requires Walked(config, id, n, seen) && (!InRange(Chain(config, n)) || Chain(config, n) in seen)
    ensures !FirstMatch(config, id, k)
  {
    hide Chain, ByteAt, InRange;
  }

  /** Ends on every space, cyclic chains included, because each round visits a
      slot not visited before; finds the first match on the chain if there is one. */
  method FindCap(config: seq<byte>, id: nat) returns (r: Found)
    ensures !HasList(config) ==> r == Nowhere
    ensures r.At? ==> exists n: nat :: FirstMatch(config, id, n) && r.ptr == Chain(config, n)
    ensures HasList(config) && r == Nowhere ==> forall n: nat :: !FirstMatch(config, id, n)
  {
    hide Walked, FirstMatch, Sound, Slots;
    StatusBit(config);
    if And(HalfAt(config, STATUS), STATUS_CAP_LIST) == 0 {
      return Nowhere;
    }
    hide And, HalfAt, HasList;
    PointerIs(config, CAPABILITY_LIST);
    var ptr, seen: set<nat> := And(ByteAt(config, CAPABILITY_LIST), 0xfc), {};
    ghost var n := 0;
    WalkedStart(config, id);
    while ptr != 0 && ptr !in seen && 0x40 <= ptr <= 0xFC
      invariant ptr == Chain(config, n) && seen <= Slots() && Walked(config, id, n, seen)
      decreases Slots() - seen
    {
      SlotsHold(config, n);
      WalkedNext(config, id, n, seen);
      seen := seen + {ptr};
      if ByteAt(config, ptr) == id {
        return At(ptr);
      }
      PointerIs(config, ptr + 1);
      ptr := And(ByteAt(config, ptr + 1), 0xfc);
      n := n + 1;
    }
    forall k: nat ensures !FirstMatch(config, id, k) {
      WalkedEnd(config, id, n, seen, k);
    }
    return Nowhere;
  }

  /** The answer is a function of the chain: at most one entry is the first match. */
  lemma FirstMatchUnique(config: seq<byte>, id: nat, n: nat, k: nat)
    requires FirstMatch(config, id, n) && FirstMatch(config, id, k)
    ensures n == k
  {
    hide Chain, ByteAt, InRange;
  }
}
