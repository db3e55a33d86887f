/** Video memory as the channel staging code uses it: a flat store of dwords,
    a view of memory that `DwordView` proves the windowed accessors to keep. */
module Dwords {
  import opened Words

  /** Dword at each 4-aligned byte address; one never written reads as some
      fixed value, here 0. */
  type Mem = map<nat, word>

  function Get(m: Mem, a: nat): word {
    if a in m then m[a] else 0
  }

  function Put(m: Mem, at: nat, ws: seq<word>): Mem
    decreases |ws|
  {
    if ws == [] then m else Put(m[at := ws[0]], at + 4, ws[1..])
  }

  function Zeros(n: nat): (r: seq<word>)
    ensures |r| == n && forall i :: 0 <= i < n ==> r[i] == 0
  {
    seq<word>(n, _ => 0)
  }

  /** Address a is one of the n dwords from `at` on. */
  predicate Covers(at: nat, n: nat, a: nat) {
    at <= a < at + 4 * n && (a - at) % 4 == 0
  }

  /** What a block write leaves at every address. */
  lemma {:induction false} PutGet(m: Mem, at: nat, ws: seq<word>, a: nat)
    ensures Get(Put(m, at, ws), a) == if Covers(at, |ws|, a) then ws[(a - at) / 4] else Get(m, a)
    decreases |ws|
  {
    if ws != [] {
      PutGet(m[at := ws[0]], at + 4, ws[1..], a);
    }
  }

  lemma {:induction false} PutSnoc(m: Mem, at: nat, ws: seq<word>, w: word)
    ensures Put(m, at, ws + [w]) == Put(m, at, ws)[at + 4 * |ws| := w]
    decreases |ws|
  {
    if ws == [] {
      assert Put(m[at := w], at + 4, []) == m[at := w];
      assert [w][1..] == [];
    } else {
      PutSnoc(m[at := ws[0]], at + 4, ws[1..], w);
      assert (ws + [w])[1..] == ws[1..] + [w];
    }
  }
}
