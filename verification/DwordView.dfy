/** Video memory as dwords: what the windowed accessors of `Pramin` leave, seen as
    the store that the staging code is stated on, and the registers written on the
    way, each with the memory at that time. */
module DwordView {
  import opened Bits
  import opened Words
  import opened Dwords
  import opened Chestnut
  import opened Pramin

  /** Addresses that the window reaches. */
  const LIMIT := 0x1000000 * APERTURE

  function DwordAt(b: Memory, a: nat): word {
    Unpack(Slice(b, a, 4))
  }

  ghost function ViewOf(b: Memory): Mem {
    map a: nat | 0 <= a < LIMIT && a % 4 == 0 :: DwordAt(b, a)
  }

  /** Data as write_block sends it: zero-padded, in dwords. */
  function DwordsOf(data: seq<byte>): seq<word> {
    FromBytes(Padded(data))
  }

  lemma {:induction false} FromBytesAt(b: seq<byte>, i: nat)
    requires |b| % 4 == 0
    ensures 4 * |FromBytes(b)| == |b|
    ensures i < |FromBytes(b)| ==> 4 * i + 4 <= |b| && FromBytes(b)[i] == Unpack(b[4 * i..4 * i + 4])
    decreases |b|
  {
    hide Unpack;
    if b != [] {
      FromBytesAt(b[4..], if i > 0 then i - 1 else 0);
      if i > 0 && i < |FromBytes(b)| {
        assert b[4..][4 * (i - 1)..4 * (i - 1) + 4] == b[4 * i..4 * i + 4];
      }
    }
  }

  lemma PaddedWhole(n: nat)
    ensures RoundUp(n) % 4 == 0 && RoundUp(4 * n) == 4 * n
  {
    RemainderIs(RoundUp(n), 4, (n + 3) / 4, 0);
    RemainderIs(4 * n + 3, 4, n, 3);
  }

  /** Packed words are sent as they are. */
  lemma DwordsOfPacked(ws: seq<word>)
    ensures DwordsOf(ToBytes(ws)) == ws && |Padded(ToBytes(ws))| == 4 * |ws|
  {
    PaddedWhole(|ws|);
    BytesRoundTrip(ws);
    hide RoundUp;
    assert Padded(ToBytes(ws)) == ToBytes(ws);
  }

  // ---- one access ------------------------------------------------------------------

  lemma AtBytes(at: nat, n: nat, a: nat, i: nat)
    requires at % 4 == 0 && a % 4 == 0 && i < 4
    ensures at <= a + i < at + 4 * n <==> Covers(at, n, a)
  {
    var p, q := at / 4, a / 4;
    assert at == 4 * p && a == 4 * q;
    if a >= at {
      RemainderIs(a - at, 4, q - p, 0);
    }
  }

  /** A flat write of n dwords shows as those dwords and leaves the others. */
  lemma FlatDword(b: Memory, b': Memory, at: nat, data: seq<byte>, n: nat, a: nat)
    requires IsFlat(b', b, at, data) && |data| == 4 * n && at % 4 == 0 && a % 4 == 0
    ensures DwordAt(b', a) == if Covers(at, n, a) then Unpack(data[a - at..a - at + 4]) else DwordAt(b, a)
  {
    hide Unpack;
    AtBytes(at, n, a, 0);
    AtBytes(at, n, a, 1);
    AtBytes(at, n, a, 2);
    AtBytes(at, n, a, 3);
    hide Covers;
    if Covers(at, n, a) {
      assert Slice(b', a, 4) == data[a - at..a - at + 4];
    } else {
      assert Slice(b', a, 4) == Slice(b, a, 4);
    }
  }

  lemma {:induction false} PutKeys(m: Mem, at: nat, ws: seq<word>, a: nat)
    ensures a in Put(m, at, ws) <==> a in m || Covers(at, |ws|, a)
    decreases |ws|
  {
    if ws != [] {
      PutKeys(m[at := ws[0]], at + 4, ws[1..], a);
    }
  }

  /** A flat write of whole dwords is `Put` of them. */
  lemma FlatView(b: Memory, b': Memory, at: nat, data: seq<byte>)
    requires IsFlat(b', b, at, data) && |data| % 4 == 0 && at % 4 == 0 && at + |data| <= LIMIT
    ensures ViewOf(b') == Put(ViewOf(b), at, FromBytes(data))
  {
    hide DwordAt, Unpack, IsFlat;
    var ws := FromBytes(data);
    FromBytesAt(data, 0);
    forall a: nat
      ensures a in Put(ViewOf(b), at, ws) <==> a in ViewOf(b')
      ensures a in ViewOf(b') ==> Put(ViewOf(b), at, ws)[a] == ViewOf(b')[a]
    {
      PutKeys(ViewOf(b), at, ws, a);
      PutGet(ViewOf(b), at, ws, a);
      if Covers(at, |ws|, a) {
        InsideLimit(at, |ws|, a);
        FromBytesAt(data, (a - at) / 4);
        assert 4 * ((a - at) / 4) == a - at;
      }
      if a in ViewOf(b') {
        FlatDword(b, b', at, data, |ws|, a);
      }
    }
  }

  /** VRAM.write_block is `Put` of the padded data's dwords. */
  lemma WriteBlockView(b: Memory, b': Memory, at: nat, data: seq<byte>)
    requires IsFlat(b', b, at, Padded(data)) && at % 4 == 0 && at + |Padded(data)| <= LIMIT
    ensures ViewOf(b') == Put(ViewOf(b), at, DwordsOf(data))
  {
    hide ViewOf, RoundUp, IsFlat;
    PaddedWhole(|data|);
    FlatView(b, b', at, Padded(data));
  }

  lemma PackedWord(w: word)
    ensures FromBytes(Pack(w)) == [w] && |Pack(w)| == 4
  {
    UnpackPack(w);
    hide Pack, Unpack;
    assert Pack(w)[..4] == Pack(w) && Pack(w)[4..] == [];
    assert FromBytes(Pack(w)) == [Unpack(Pack(w)[..4])] + FromBytes([]);
  }

  /** VRAM.write32 is the update of one dword. */
  lemma Write32View(b: Memory, b': Memory, at: nat, val: nat)
    requires IsFlat(b', b, at, Pack(val % U32)) && at % 4 == 0 && at + 4 <= LIMIT
    ensures ViewOf(b') == ViewOf(b)[at := val % U32]
  {
    hide ViewOf, Pack, IsFlat;
    var m, w := ViewOf(b), val % U32;
    PackedWord(w);
    FlatView(b, b', at, Pack(w));
    assert Put(m, at, [w]) == m[at := w] by { PutOne(m, at, w); }
  }

  lemma PutOne(m: Mem, at: nat, w: word)
    ensures Put(m, at, [w]) == m[at := w]
  {
    PutSnoc(m, at, [], w);
    assert [] + [w] == [w];
  }

  lemma InsideLimit(at: nat, n: nat, a: nat)
    requires at % 4 == 0 && at + 4 * n <= LIMIT && Covers(at, n, a)
    ensures a < LIMIT && a % 4 == 0
  {
    SumAligned(at, a - at);
  }

  /** VRAM.read32 returns the dword seen. */
  lemma Read32View(b: Memory, a: nat)
    requires a % 4 == 0 && a < LIMIT
    ensures Slice(b, a, 4) == Pack(Get(ViewOf(b), a))
  {
    PackUnpack(Slice(b, a, 4));
  }

  // ---- the accessors on the view -----------------------------------------------------

  ghost function View(v: Vram): Mem
    reads v.iface.board
  {
    ViewOf(v.iface.board.vram)
  }

  /** A register the board was sent: its enabled bytes, the value, and the dwords of
      memory at the time. */
  datatype Rung = Rung(reg: nat, be: nat, val: word, mem: Mem)

  ghost function Log(v: Vram): (r: seq<Rung>)
    reads v.iface.board
  {
    var log := v.iface.board.log;
    seq(|log|, i requires 0 <= i < |log| => Rung(log[i].reg, log[i].be, log[i].val, ViewOf(log[i].vram)))
  }

  method Store(v: Vram, addr: nat, val: nat)
    requires v.Valid() && v.Reachable(addr, 4)
    modifies v, v.iface.board
    ensures v.Valid() && Log(v) == old(Log(v)) && View(v) == old(View(v))[addr := val % U32]
  {
    v.Write32(addr, val);
    Write32View(old(v.iface.board.vram), v.iface.board.vram, addr, val);
  }

  method StoreBlock(v: Vram, addr: nat, data: seq<byte>)
    requires v.Valid() && v.Reachable(addr, |Padded(data)|)
    modifies v, v.iface.board
    ensures v.Valid() && Log(v) == old(Log(v)) && View(v) == Put(old(View(v)), addr, DwordsOf(data))
  {
    v.WriteBlock(addr, data);
    WriteBlockView(old(v.iface.board.vram), v.iface.board.vram, addr, data);
  }

  /** A block of packed words. */
  method StorePacked(v: Vram, addr: nat, ws: seq<word>)
    requires v.Valid() && v.Reachable(addr, 4 * |ws|)
    modifies v, v.iface.board
    ensures v.Valid() && Log(v) == old(Log(v)) && View(v) == Put(old(View(v)), addr, ws)
  {
    DwordsOfPacked(ws);
    StoreBlock(v, addr, ToBytes(ws));
  }

  /** Words one by one. */
  method StoreEach(v: Vram, addr: nat, ws: seq<word>)
    requires v.Valid() && v.Reachable(addr, 4 * |ws|)
    modifies v, v.iface.board
    ensures v.Valid() && Log(v) == old(Log(v)) && View(v) == Put(old(View(v)), addr, ws)
  {
    hide ViewOf;
    var i := 0;
    while i < |ws|
      invariant 0 <= i <= |ws| && v.Valid() && Log(v) == old(Log(v))
      invariant View(v) == Put(old(View(v)), addr, ws[..i])
    {
      PutSnoc(old(View(v)), addr, ws[..i], ws[i]);
      assert ws[..i + 1] == ws[..i] + [ws[i]];
      WordAligned(addr, i);
      Store(v, addr + 4 * i, ws[i]);
      i := i + 1;
    }
    assert ws[..i] == ws;
  }

  lemma WordAligned(addr: nat, i: nat)
    requires addr % 4 == 0
    ensures (addr + 4 * i) % 4 == 0
  {
    RemainderIs(4 * i, 4, i, 0);
    SumAligned(addr, 4 * i);
  }

  method Zero(v: Vram, addr: nat, n: nat)
    requires v.Valid() && v.Reachable(addr, 4 * n)
    modifies v, v.iface.board
    ensures v.Valid() && Log(v) == old(Log(v)) && View(v) == Put(old(View(v)), addr, Zeros(n))
  {
    hide ViewOf;
    var i := 0;
    while i < n
      invariant 0 <= i <= n && v.Valid() && Log(v) == old(Log(v))
      invariant View(v) == Put(old(View(v)), addr, Zeros(i))
    {
      PutSnoc(old(View(v)), addr, Zeros(i), 0);
      assert Zeros(i + 1) == Zeros(i) + [0];
      WordAligned(addr, i);
      Store(v, addr + 4 * i, 0);
      i := i + 1;
    }
  }

  /** dev.write32 on a register. */
  method Ring(v: Vram, reg: nat, val: nat)
    requires v.Valid() && reg % 4 == 0 && reg != PRAMIN_WINDOW_REG && v.iface.board.IsRegister(v.iface.board.bar0 + reg)
    modifies v.iface.board
    ensures v.Valid() && View(v) == old(View(v))
    ensures Log(v) == old(Log(v)) + [Rung(reg, 0xF, val % U32, View(v))]
  {
    hide ViewOf;
    v.iface.WriteReg(reg, val);
  }
}
