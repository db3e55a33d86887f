/** Video memory through the 1 MiB PRAMIN window: class `VRAM` of
    examples_en210/add.py over the USB controller. Its block writer splits at
    window boundaries, the controller splits again into stream chunks, and the
    window register is written only when the cached value differs. */
module Pramin {
  import opened Bits
  import opened Words
  import opened Chestnut

  datatype Cached = Unset | Page(page: nat)

  /** Bits 20 to 43 of an address select its window, bits 0 to 19 the offset in it. */
  function WindowPage(addr: nat): nat {
    addr / APERTURE % 0x1000000 * 0x10
  }

  lemma WindowReaches(addr: nat)
    requires addr < 0x1000000 * APERTURE
    ensures WindowPage(addr) * 0x10000 + addr % APERTURE == addr && WindowPage(addr) < U32
    ensures addr % 4 == 0 ==> addr % APERTURE % 4 == 0 && addr % APERTURE + 4 <= APERTURE
  {
    var w, off := addr / APERTURE, addr % APERTURE;
    assert addr == APERTURE * w + off;
    RemainderIs(w, 0x1000000, 0, w);
    if addr % 4 == 0 {
      RemainderIs(APERTURE * w, 4, APERTURE / 4 * w, 0);
      SumAligned(addr, APERTURE * w);
      AlignDown(off, 0, APERTURE);
    }
  }

  lemma RoomIsWhole(addr: nat, off: nat, size: nat, total: nat)
    requires addr % 4 == 0 && off % 4 == 0 && off + size <= total
    requires size <= APERTURE - (addr + off) % APERTURE
    ensures (addr + off) % 4 == 0 && (addr + off) % APERTURE + RoundUp(size) <= APERTURE
    ensures off + RoundUp(size) <= RoundUp(total)
    ensures size == APERTURE - (addr + off) % APERTURE ==> (off + size) % 4 == 0
  {
    hide RoundUp;
    var at := addr + off;
    var w, r := at / APERTURE, at % APERTURE;
    SumAligned(addr, off);
    RemainderIs(APERTURE * w, 4, APERTURE / 4 * w, 0);
    SumAligned(at, APERTURE * w);
    SumAligned(APERTURE, r);
    RoundUpFits(size, APERTURE - r);
    RoundUpAdd(off, size);
    RoundUpAdd(0, total);
    RoundUpFits(off + size, RoundUp(total));
    SumAligned(off, APERTURE - r);
  }

  lemma DwordOfPadded(data: seq<byte>, i: nat)
    requires i % 4 == 0 && i < |data|
    ensures i + 4 <= |Padded(data)|
    ensures var dword := if i + 4 <= |data| then data[i..i + 4] else Padded(data[i..]);
            |dword| == 4 && Pack(Unpack(dword)) == dword && Padded(data)[..i] + dword == Padded(data)[..i + 4]
  {
    var rest := data[i..];
    PaddedAppend(data[..i], rest, data);
    assert |Padded(rest)| >= 4 by {
      assert |rest| >= 1;
    }
    var dword := if i + 4 <= |data| then data[i..i + 4] else Padded(rest);
    assert dword == Padded(rest)[..4];
    PackUnpack(dword);
  }

  class Vram {
    const iface: Controller
    /** Whether the transport has block transfers of its own. */
    const bulk: bool
    var curWindow: Cached

    constructor (iface: Controller, bulk: bool)
      ensures this.iface == iface && this.bulk == bulk && curWindow == Unset
    {
      this.iface, this.bulk, curWindow := iface, bulk, Unset;
    }

    /** The cached page, if any, is what the window register holds. */
    ghost predicate Valid()
      reads this, iface, iface.board
    {
      iface.Ready() && iface.LowBar() && (curWindow.Page? ==> curWindow.page == iface.board.window)
    }

    predicate Reachable(addr: nat, n: nat) {
      addr % 4 == 0 && addr + n <= 0x1000000 * APERTURE
    }

    /** Bus address of a video memory address once its window is set. */
    function Bus(addr: nat): nat {
      iface.board.bar0 + PRAMIN_BASE + addr % APERTURE
    }

    method SetWindow(addr: nat)
      requires Valid() && Reachable(addr, 1)
      modifies this, iface.board
      ensures Valid() && iface.board.log == old(iface.board.log) && iface.board.vram == old(iface.board.vram)
      ensures Bus(addr) % 4 == 0 && iface.board.InAperture(Bus(addr), 4) && iface.board.Behind(Bus(addr)) == addr
    {
      hide WindowPage;
      WindowReaches(addr);
      if Page(WindowPage(addr)) != curWindow {
        iface.WriteWindowReg(WindowPage(addr));
        curWindow := Page(WindowPage(addr));
      }
      SumAligned(PRAMIN_BASE, addr % APERTURE);
      iface.BusAligned(PRAMIN_BASE + addr % APERTURE);
    }

    method Write32(addr: nat, val: nat)
      requires Valid() && Reachable(addr, 4)
      modifies this, iface.board
      ensures Valid() && iface.board.log == old(iface.board.log)
      ensures IsFlat(iface.board.vram, old(iface.board.vram), addr, Pack(val % U32))
    {
      SetWindow(addr);
      var _ := iface.PcieWriteDword(Bus(addr), val % U32);
    }

    method Read32(addr: nat) returns (ok: bool, bytes: seq<byte>)
      requires Valid() && Reachable(addr, 4)
      modifies this, iface.board
      ensures Valid() && iface.board.log == old(iface.board.log) && iface.board.vram == old(iface.board.vram)
      ensures ok ==> bytes == Slice(iface.board.vram, addr, 4)
      ensures iface.GoodLink() ==> ok
    {
      SetWindow(addr);
      ok, bytes := iface.ReadChunk(Bus(addr), 4);
    }

    /** Either path leaves memory with the zero-padded data written flat at the
        address and nothing else changed. */
    method WriteBlock(addr: nat, data: seq<byte>)
      requires Valid() && Reachable(addr, |Padded(data)|)
      modifies this, iface.board
      ensures Valid() && iface.board.log == old(iface.board.log)
      ensures IsFlat(iface.board.vram, old(iface.board.vram), addr, Padded(data))
    {
      if bulk { WriteWindows(addr, data); } else { WriteWords(addr, data); }
    }

    method WriteWindows(addr: nat, data: seq<byte>)
      requires Valid() && Reachable(addr, |Padded(data)|)
      modifies this, iface.board
      ensures Valid() && iface.board.log == old(iface.board.log)
      ensures IsFlat(iface.board.vram, old(iface.board.vram), addr, Padded(data))
    {
      var off := 0;
      ghost var m0 := iface.board.vram;
      while off < |data|
        invariant 0 <= off <= |data| && (off < |data| ==> off % 4 == 0)
        invariant Valid() && iface.board.log == old(iface.board.log)
        invariant IsFlat(iface.board.vram, m0, addr, Padded(data[..off]))
      {
        off := WritePiece(addr, data, off, m0);
      }
      assert data[..off] == data;
    }

    /** As much of the data as fits the window its next byte falls in. */
    method WritePiece(addr: nat, data: seq<byte>, off: nat, ghost m0: Memory) returns (next: nat)
      requires Valid() && Reachable(addr, |Padded(data)|) && off < |data| && off % 4 == 0
      requires IsFlat(iface.board.vram, m0, addr, Padded(data[..off]))
      modifies this, iface.board
      ensures Valid() && iface.board.log == old(iface.board.log)
      ensures off < next <= |data| && (next < |data| ==> next % 4 == 0)
      ensures IsFlat(iface.board.vram, m0, addr, Padded(data[..next]))
    {
      hide Padded, RoundUp;
      var room := APERTURE - (addr + off) % APERTURE;
      var size := if |data| - off < room then |data| - off else room;
      var chunk := data[off..off + size];
      RoomIsWhole(addr, off, size, |data|);
      RoundUpAdd(0, |chunk|);
      ghost var before := iface.board.vram;
      WriteWindow(addr + off, Padded(chunk));
      next := off + size;
      PaddedAppend(data[..off], chunk, data[..next]);
      FlatAppend(m0, before, iface.board.vram, addr, Padded(data[..off]), Padded(chunk), Padded(data[..next]));
    }

    /** Whole dwords that stay inside one window. */
    method WriteWindow(at: nat, dwords: seq<byte>)
      requires Valid() && Reachable(at, |dwords|) && |dwords| > 0 && |dwords| % 4 == 0
      requires at % APERTURE + |dwords| <= APERTURE
      modifies this, iface.board
      ensures Valid() && iface.board.log == old(iface.board.log)
      ensures IsFlat(iface.board.vram, old(iface.board.vram), at, dwords)
    {
      SetWindow(at);
      var _ := iface.PcieMemWrite(Bus(at), dwords);
    }

    method WriteWords(addr: nat, data: seq<byte>)
      requires Valid() && Reachable(addr, |Padded(data)|)
      modifies this, iface.board
      ensures Valid() && iface.board.log == old(iface.board.log)
      ensures IsFlat(iface.board.vram, old(iface.board.vram), addr, Padded(data))
    {
      hide Padded, RoundUp;
      var i := 0;
      ghost var m0, bytes := iface.board.vram, Padded(data);
      RoundUpAdd(0, |data|);
      while i < |data|
        invariant 0 <= i <= |bytes| && i % 4 == 0
        invariant Valid() && iface.board.log == old(iface.board.log)
        invariant IsFlat(iface.board.vram, m0, addr, bytes[..i])
      {
        WriteWordAt(addr, data, i, m0);
        SumAligned(i, 4);
        i := i + 4;
      }
      assert bytes[..i] == bytes;
    }

    method WriteWordAt(addr: nat, data: seq<byte>, i: nat, ghost m0: Memory)
      requires Valid() && Reachable(addr, |Padded(data)|) && i < |data| && i % 4 == 0
      requires IsFlat(iface.board.vram, m0, addr, Padded(data)[..i])
      modifies this, iface.board
      ensures Valid() && iface.board.log == old(iface.board.log) && i + 4 <= |Padded(data)|
      ensures IsFlat(iface.board.vram, m0, addr, Padded(data)[..i + 4])
    {
      hide Padded, Pack, Unpack, RoundUp;
      var dword := if i + 4 <= |data| then data[i..i + 4] else Padded(data[i..]);
      DwordOfPadded(data, i);
      SumAligned(addr, i);
      ghost var before := iface.board.vram;
      Write32(addr + i, Unpack(dword));
      FlatAppend(m0, before, iface.board.vram, addr, Padded(data)[..i], dword, Padded(data)[..i + 4]);
    }

    /** Either path returns the flat slice and changes no memory. */
    method ReadBlock(addr: nat, size: nat) returns (ok: bool, data: seq<byte>)
      requires Valid() && Reachable(addr, size + 3)
      modifies this, iface.board
      ensures Valid() && iface.board.log == old(iface.board.log) && iface.board.vram == old(iface.board.vram)
      ensures ok ==> data == Slice(iface.board.vram, addr, size)
      ensures iface.GoodLink() ==> ok
    {
      if bulk { ok, data := ReadWindows(addr, size); } else { ok, data := ReadWords(addr, size); }
    }

    method ReadWindows(addr: nat, size: nat) returns (ok: bool, data: seq<byte>)
      requires Valid() && Reachable(addr, size + 3)
      modifies this, iface.board
      ensures Valid() && iface.board.log == old(iface.board.log) && iface.board.vram == old(iface.board.vram)
      ensures ok ==> data == Slice(iface.board.vram, addr, size)
      ensures iface.GoodLink() ==> ok
    {
      data := [];
      while |data| < size
        invariant |data| <= size && (|data| < size ==> |data| % 4 == 0)
        invariant Valid() && iface.board.log == old(iface.board.log) && iface.board.vram == old(iface.board.vram)
        invariant data == Slice(iface.board.vram, addr, |data|)
        decreases size - |data|
      {
        var at := addr + |data|;
        var room := APERTURE - at % APERTURE;
        var n := if size - |data| < room then size - |data| else room;
        RoomIsWhole(addr, |data|, n, size);
        var chunk;
        ok, chunk := ReadPiece(at, n);
        if !ok { return; }
        data := data + chunk;
      }
      return true, data;
    }

    /** Some bytes of one window, read as whole dwords. */
    method ReadPiece(at: nat, n: nat) returns (ok: bool, chunk: seq<byte>)
      requires Valid() && Reachable(at, n) && n > 0 && at % APERTURE + RoundUp(n) <= APERTURE
      modifies this, iface.board
      ensures Valid() && iface.board.log == old(iface.board.log) && iface.board.vram == old(iface.board.vram)
      ensures ok ==> chunk == Slice(iface.board.vram, at, n)
      ensures iface.GoodLink() ==> ok
    {
      SetWindow(at);
      RoundUpAdd(0, n);
      ok, chunk := iface.PcieMemRead(Bus(at), RoundUp(n));
      if !ok { return; }
      chunk := chunk[..n];
    }

    method ReadWords(addr: nat, size: nat) returns (ok: bool, data: seq<byte>)
      requires Valid() && Reachable(addr, size + 3)
      modifies this, iface.board
      ensures Valid() && iface.board.log == old(iface.board.log) && iface.board.vram == old(iface.board.vram)
      ensures ok ==> data == Slice(iface.board.vram, addr, size)
      ensures iface.GoodLink() ==> ok
    {
      data := [];
      var i := 0;
      while i < size
        invariant 0 <= i && i % 4 == 0 && |data| == i < size + 4
        invariant Valid() && iface.board.log == old(iface.board.log) && iface.board.vram == old(iface.board.vram)
        invariant data == Slice(iface.board.vram, addr, i)
      {
        var dword;
        ok, dword := Read32(addr + i);
        if !ok { return; }
        data := data + dword;
        i := i + 4;
      }
      return true, data[..size];
    }

    /** What was written reads back, over a link that recovers. */
    method WriteThenRead(addr: nat, data: seq<byte>) returns (back: seq<byte>)
      requires Valid() && Reachable(addr, |data| + 3) && iface.GoodLink()
      modifies this, iface.board
      ensures Valid() && iface.board.log == old(iface.board.log) && back == data
    {
      WriteBlock(addr, data);
      var ok;
      ok, back := ReadBlock(addr, |data|);
      assert forall i :: 0 <= i < |data| ==> back[i] == data[i];
    }
  }
}
