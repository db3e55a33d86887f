/** Memory requests over the Chestnut USB controller (examples_en210/add.py):
    single dwords with byte enables, and runs streamed in chunks whose first
    dword goes twice. Both equal one flat access to video memory. */
module Chestnut {
  import opened Bits
  import opened Words

  const PRAMIN_WINDOW_REG := 0x001700
  const PRAMIN_BASE := 0x700000
  const APERTURE := 0x100000
  const BAR0_SIZE := 0x1000000

  type Memory = nat -> byte

  /** m with data written from address `at` on. */
  function Flat(m: Memory, at: nat, data: seq<byte>): Memory {
    (a: nat) => if at <= a < at + |data| then data[a - at] else m(a)
  }

  function Slice(m: Memory, at: nat, n: nat): (r: seq<byte>)
    ensures |r| == n && forall i :: 0 <= i < n ==> r[i] == m(at + i)
  {
    seq<byte>(n, i requires 0 <= i < n => m(at + i))
  }

  /** Byte lane i of a request's byte enables. */
  predicate Lane(be: nat, i: nat) {
    if i == 0 then be % 2 == 1
    else if i == 1 then be / 2 % 2 == 1
    else if i == 2 then be / 4 % 2 == 1
    else i == 3 && be / 8 % 2 == 1
  }

  function StoreLanes(m: Memory, at: nat, be: nat, value: nat): Memory {
    (a: nat) => if at <= a < at + 4 && Lane(be, a - at) then ByteOf(value, a - at) else m(a)
  }

  /** The enabled bytes of a value over what was there before. */
  function MergeLanes(before: word, be: nat, value: word): word {
    Unpack([if Lane(be, 0) then ByteOf(value, 0) else ByteOf(before, 0),
            if Lane(be, 1) then ByteOf(value, 1) else ByteOf(before, 1),
            if Lane(be, 2) then ByteOf(value, 2) else ByteOf(before, 2),
            if Lane(be, 3) then ByteOf(value, 3) else ByteOf(before, 3)])
  }

  lemma AllLanes(before: word, value: word)
    ensures MergeLanes(before, 0xF, value) == value
  {
    UnpackPack(value);
    assert [ByteOf(value, 0), ByteOf(value, 1), ByteOf(value, 2), ByteOf(value, 3)] == Pack(value);
    hide ByteOf, Unpack, Pack;
  }

  /** A request that reached a register other than the window's: which bytes of it were
      enabled, the value sent, and video memory at the time. */
  datatype RegWrite = RegWrite(reg: nat, be: nat, val: word, vram: Memory)

  datatype Stream = Idle | Sending(at: nat, bytes: nat) | Fetching(at: nat, bytes: nat)

  /** The far side of the cable: the controller's F0 endpoint and the GPU's BAR0,
      of which the PRAMIN window register and aperture are modelled. Completion
      statuses are whatever the link gives, numbered by request. */
  class Board {
    const bar0: nat
    const status: nat -> (nat, nat)
    var window: word
    var vram: Memory
    var log: seq<RegWrite>
    var completions: nat
    var latch: word
    var stream: Stream

    constructor (bar0: nat, status: nat -> (nat, nat), vram: Memory)
      requires bar0 % 16 == 0
      ensures this.bar0 == bar0 && this.status == status && this.vram == vram && window == 0 && log == []
    {
      this.bar0, this.status, this.vram := bar0, status, vram;
      window, log, completions, latch, stream := 0, [], 0, 0, Idle;
    }

    /** Video memory behind bus address a of the aperture. */
    function Behind(a: nat): nat
      requires InAperture(a, 0)
      reads this
    {
      window * 0x10000 + (a - bar0 - 0x700000)
    }

    predicate InAperture(a: nat, n: nat) {
      bar0 + 0x700000 <= a && a + n <= bar0 + 0x800000
    }

    /** A register of BAR0 outside the aperture. */
    predicate IsRegister(a: nat) {
      bar0 <= a < bar0 + 0x700000 || bar0 + 0x800000 <= a < bar0 + 0x1000000
    }

    /** One request, or the header of a stream, by its mode. */
    method ControlOut(fmt: nat, be: nat, address: nat, value: word, mode: nat)
      requires address % 4 == 0 && bar0 % 16 == 0
      requires InAperture(address, if mode == 0 then 4 else 4 * value) ||
               (mode == 0 && fmt == 0x40 && IsRegister(address))
      requires fmt == 0x40 || fmt == 0x00 ==> address < U32
      modifies this
      ensures completions == old(completions)
      ensures address == bar0 + 0x1700 ==> window == MergeLanes(old(window), be, value)
      ensures address != bar0 + 0x1700 ==> window == old(window)
      ensures IsRegister(address) ==> vram == old(vram)
      ensures log == if IsRegister(address) && address != bar0 + 0x1700
                     then old(log) + [RegWrite(address - bar0, be, value, vram)] else old(log)
      ensures !IsRegister(address) && mode == 0 && (fmt == 0x40 || fmt == 0x60) ==>
                vram == StoreLanes(old(vram), old(Behind(address)), be, value)
      ensures !IsRegister(address) && mode == 0 && (fmt == 0x00 || fmt == 0x20) ==>
                vram == old(vram) && latch == Unpack(Slice(old(vram), old(Behind(address)), 4))
      ensures !IsRegister(address) && mode == 1 ==>
                vram == old(vram) && stream == Sending(old(Behind(address)), 4 * value)
      ensures !IsRegister(address) && mode == 2 ==>
                vram == old(vram) && stream == Fetching(old(Behind(address)), 4 * value)
    {
      if address == bar0 + 0x1700 {
        window := MergeLanes(window, be, value);
      } else if IsRegister(address) {
        log := log + [RegWrite(address - bar0, be, value, vram)];
      } else if mode == 1 {
        stream := Sending(Behind(address), 4 * value);
      } else if mode == 2 {
        stream := Fetching(Behind(address), 4 * value);
      } else if fmt == 0x40 || fmt == 0x60 {
        vram := StoreLanes(vram, Behind(address), be, value);
      } else if fmt == 0x00 || fmt == 0x20 {
        latch := Unpack(Slice(vram, Behind(address), 4));
      }
    }

    method ControlIn() returns (data: word, cplStatus: nat, retStatus: nat)
      modifies this`completions
      ensures data == latch && (retStatus, cplStatus) == status(old(completions))
      ensures completions == old(completions) + 1
    {
      data := latch;
      retStatus, cplStatus := status(completions).0, status(completions).1;
      completions := completions + 1;
    }

    method BulkWrite(data: seq<byte>)
      requires stream.Sending? && stream.bytes == |data|
      modifies this`vram, this`stream
      ensures vram == Flat(old(vram), old(stream.at), data)
    {
      vram := Flat(vram, stream.at, data);
      stream := Idle;
    }

    method BulkRead(n: nat) returns (data: seq<byte>)
      requires stream.Fetching? && stream.bytes == n
      modifies this`stream
      ensures data == Slice(vram, old(stream.at), n)
    {
      data := Slice(vram, stream.at, n);
      stream := Idle;
    }
  }

  ghost predicate IsFlat(m': Memory, m: Memory, at: nat, data: seq<byte>) {
    forall a: nat :: m'(a) == Flat(m, at, data)(a)
  }

  /** Writing next to what was written is writing both. */
  lemma FlatAppend(m: Memory, m1: Memory, m2: Memory, at: nat, x: seq<byte>, y: seq<byte>, both: seq<byte>)
    requires IsFlat(m1, m, at, x) && IsFlat(m2, m1, at + |x|, y) && both == x + y
    ensures IsFlat(m2, m, at, both)
  {
  }

  // ---- requests --------------------------------------------------------------

  datatype Reply = NoData | Data(value: nat) | BadSize | LinkFailed(status: nat) | Refused(status: nat)

  /** 256 to the k. */
  function Scale(k: nat): (r: nat)
    ensures r > 0
  {
    if k == 0 then 1 else if k == 1 then 0x100 else if k == 2 then 0x10000 else if k == 3 then 0x1000000 else U32
  }

  /** 2 to the k, for byte-enable masks. */
  function Bit(k: nat): (r: nat)
    ensures r > 0
  {
    if k == 0 then 1 else if k == 1 then 2 else if k == 2 then 4 else if k == 3 then 8 else 16
  }

  /** ((1 << size) - 1) << offset. */
  function ByteEnables(size: nat, offset: nat): nat {
    (Bit(size) - 1) * Bit(offset)
  }

  function At(b: seq<byte>, i: nat): nat {
    if i < |b| then b[i] else 0
  }

  /** Little-endian value of up to four bytes. */
  function LeNumber(b: seq<byte>): nat {
    At(b, 0) + 0x100 * At(b, 1) + 0x10000 * At(b, 2) + 0x1000000 * At(b, 3)
  }

  /** A read is retried while the link reports an error, up to `retries` times. */
  function ReadReply(status: nat -> (nat, nat), n: nat, retries: nat, value: nat): Reply
    decreases retries
  {
    if status(n).0 != 0 then
      if retries > 0 then ReadReply(status, n + 1, retries - 1, value) else LinkFailed(status(n).0)
    else if status(n).1 != 0 then Refused(status(n).1)
    else Data(value)
  }

  /** Before `errors` link errors are over there is a completion without fault. */
  predicate Recovers(status: nat -> (nat, nat), n: nat, errors: nat)
    decreases errors
  {
    status(n) == (0, 0) || (status(n).0 != 0 && errors > 0 && Recovers(status, n + 1, errors - 1))
  }

  lemma {:induction false} RecoveredRead(status: nat -> (nat, nat), n: nat, retries: nat, value: nat)
    requires Recovers(status, n, retries)
    ensures ReadReply(status, n, retries, value) == Data(value)
    decreases retries
  {
    if status(n) != (0, 0) {
      RecoveredRead(status, n + 1, retries - 1, value);
    }
  }

  /** Ten errors in a row are survived, an eleventh is not. */
  lemma {:induction false} ErrorsSurvivedIff(status: nat -> (nat, nat), n: nat, retries: nat, k: nat, value: nat)
    requires forall j :: n <= j < n + k ==> status(j).0 != 0
    requires status(n + k) == (0, 0)
    ensures ReadReply(status, n, retries, value) == Data(value) <==> k <= retries
    decreases k
  {
    if k > 0 && retries > 0 {
      ErrorsSurvivedIff(status, n + 1, retries - 1, k - 1, value);
    }
  }

  lemma {:induction false} ReadReplyValue(status: nat -> (nat, nat), n: nat, retries: nat, value: nat)
    ensures ReadReply(status, n, retries, value).Data? ==> ReadReply(status, n, retries, value).value == value
    decreases retries
  {
    if retries > 0 { ReadReplyValue(status, n + 1, retries - 1, value); }
  }

  lemma LanesAreRange(size: nat, offset: nat, i: nat)
    requires 1 <= size && offset + size <= 4 && i < 4
    ensures Lane(ByteEnables(size, offset), i) <==> offset <= i < offset + size
  {
  }

  lemma ShiftedBytes(value: nat, size: nat, offset: nat, i: nat)
    requires 1 <= size && offset + size <= 4 && value < Scale(size) && offset <= i < offset + size
    ensures value * Scale(offset) < U32
    ensures ByteOf(value * Scale(offset), i) == ByteOf(value, i - offset)
  {
    if offset == 0 {
    } else if offset == 1 {
      assert value * 0x100 / 0x100 == value && value * 0x100 / 0x10000 == value / 0x100;
      assert value * 0x100 / 0x1000000 == value / 0x10000;
    } else if offset == 2 {
      assert value * 0x10000 / 0x10000 == value && value * 0x10000 / 0x1000000 == value / 0x100;
    } else {
      assert value * 0x1000000 / 0x1000000 == value;
    }
  }

  lemma LowDigits(x0: byte, x1: byte, x2: byte, x3: byte, size: nat)
    requires 1 <= size <= 4
    ensures (x0 as int + 0x100 * x1 as int + 0x10000 * x2 as int + 0x1000000 * x3 as int) % Scale(size) ==
            x0 as int + (if size > 1 then 0x100 * x1 as int else 0) + (if size > 2 then 0x10000 * x2 as int else 0) +
            (if size > 3 then 0x1000000 * x3 as int else 0)
  {
  }

  lemma HighDigits(b: seq<byte>, offset: nat)
    requires |b| == 4 && offset < 4
    ensures Unpack(b) / Scale(offset) == LeNumber(b[offset..])
  {
  }

  lemma ExtractedBytes(b: seq<byte>, size: nat, offset: nat)
    requires |b| == 4 && 1 <= size && offset + size <= 4
    ensures Unpack(b) / Scale(offset) % Scale(size) == LeNumber(b[offset..offset + size])
  {
    HighDigits(b, offset);
    var t := b[offset..];
    assert t[..size] == b[offset..offset + size];
    LowDigits(At(t, 0), At(t, 1), At(t, 2), At(t, 3), size);
  }

  class Controller {
    const board: Board
    const streamChunk: nat

    constructor (board: Board, streamChunk: nat)
      ensures this.board == board && this.streamChunk == streamChunk
    {
      this.board, this.streamChunk := board, streamChunk;
    }

    /** BAR0 is 16-byte aligned; the chunk is 512 or 1024. */
    predicate Ready()
    {
      board.bar0 % 16 == 0 && streamChunk > 0 && streamChunk % 4 == 0
    }

    /** All of BAR0 is below 4 GiB, where the single requests of the interface reach. */
    predicate LowBar()
    {
      board.bar0 + BAR0_SIZE <= U32
    }

    /** A request with a 32-bit address reaches that far only. */
    predicate Reaches(wide: bool, address: nat)
    {
      wide || address < U32
    }

    /** pcie_request on video memory: a write touches exactly the `size` bytes at
        the address, a read returns exactly their value. */
    method PcieWrite(wide: bool, address: nat, value: nat, size: nat) returns (r: Reply)
      requires Ready() && board.InAperture(address, 1) && Reaches(wide, address)
      requires 1 <= size <= 4 ==> address % 4 + size <= 4 && value < Scale(size)
      modifies board
      ensures board.window == old(board.window) && board.log == old(board.log)
      ensures board.completions == old(board.completions)
      ensures r == if 1 <= size <= 4 then NoData else BadSize
      ensures r == BadSize ==> board.vram == old(board.vram)
      ensures r == NoData ==>
                forall a: nat :: board.vram(a) ==
                  var p := old(board.Behind(address));
                  if p <= a < p + size then ByteOf(value, a - p) else old(board.vram)(a)
    {
      if !(1 <= size <= 4) { return BadSize; }
      var offset := address % 4;
      ghost var p := board.Behind(address);
      AlignedInAperture(address);
      ShiftedBytes(value, size, offset, offset);
      board.ControlOut(if wide then 0x60 else 0x40, ByteEnables(size, offset), address - offset,
                       value * Scale(offset), 0);
      forall a: nat | p - offset <= a < p - offset + 4
        ensures board.vram(a) == if p <= a < p + size then ByteOf(value, a - p) else old(board.vram)(a)
      {
        LanesAreRange(size, offset, a - (p - offset));
        if p <= a < p + size { ShiftedBytes(value, size, offset, a - (p - offset)); }
      }
      return NoData;
    }

    lemma AlignedInAperture(address: nat)
      requires Ready() && board.InAperture(address, 1)
      ensures (address - address % 4) % 4 == 0 && board.InAperture(address - address % 4, 4)
    {
      BusAligned(PRAMIN_BASE);
      BusAligned(PRAMIN_BASE + APERTURE);
      AlignDown(address, board.bar0 + PRAMIN_BASE, board.bar0 + PRAMIN_BASE + APERTURE);
    }

    lemma BusAligned(reg: nat)
      requires Ready() && reg % 4 == 0
      ensures (board.bar0 + reg) % 4 == 0
    {
      RemainderIs(board.bar0, 4, 4 * (board.bar0 / 16), 0);
      SumAligned(board.bar0, reg);
    }

    method PcieRead(wide: bool, address: nat, size: nat, retries: nat) returns (r: Reply)
      requires Ready() && board.InAperture(address, 1) && Reaches(wide, address)
      requires 1 <= size <= 4 ==> address % 4 + size <= 4
      modifies board
      ensures board.window == old(board.window) && board.log == old(board.log) && board.vram == old(board.vram)
      ensures r == if 1 <= size <= 4
                   then ReadReply(board.status, old(board.completions), retries,
                                  LeNumber(Slice(board.vram, board.Behind(address), size)))
                   else BadSize
      decreases retries
    {
      if !(1 <= size <= 4) { return BadSize; }
      var offset := address % 4;
      AlignedInAperture(address);
      board.ControlOut(if wide then 0x20 else 0x00, ByteEnables(size, offset), address - offset, 0, 0);
      var data, cplStatus, retStatus := board.ControlIn();
      if retStatus != 0 {
        if retries > 0 {
          r := PcieRead(wide, address, size, retries - 1);
          return;
        }
        return LinkFailed(retStatus);
      }
      if cplStatus != 0 { return Refused(cplStatus); }
      ghost var dword := Slice(board.vram, board.Behind(address - offset), 4);
      ExtractedBytes(dword, size, offset);
      assert dword[offset..offset + size] == Slice(board.vram, board.Behind(address), size);
      return Data(data / Scale(offset) % Scale(size));
    }

    // ---- runs ----------------------------------------------------------------

    /** pcie_mem_write: refuses lengths that are not whole dwords, otherwise the
        run is in memory and nothing else has changed, whatever the chunk. */
    method PcieMemWrite(address: nat, data: seq<byte>) returns (ok: bool)
      requires Ready() && address % 4 == 0 && board.InAperture(address, |data|)
      modifies board
      ensures board.window == old(board.window) && board.log == old(board.log)
      ensures ok <==> |data| % 4 == 0
      ensures !ok ==> board.vram == old(board.vram)
      ensures ok ==> IsFlat(board.vram, old(board.vram), old(board.Behind(address)), data)
    {
      if |data| % 4 != 0 { return false; }
      var off := 0;
      ghost var p, m0 := board.Behind(address), board.vram;
      while off < |data|
        invariant 0 <= off <= |data| && off % 4 == 0
        invariant board.window == old(board.window) && board.log == old(board.log)
        invariant IsFlat(board.vram, m0, p, data[..off])
      {
        off := WriteNext(address, data, off, p, m0);
      }
      assert data[..off] == data;
      return true;
    }

    method WriteNext(address: nat, data: seq<byte>, off: nat, ghost p: nat, ghost m0: Memory) returns (next: nat)
      requires Ready() && address % 4 == 0 && board.InAperture(address, |data|) && p == board.Behind(address)
      requires off < |data| && off % 4 == 0 && |data| % 4 == 0
      requires IsFlat(board.vram, m0, p, data[..off])
      modifies board
      ensures off < next <= |data| && next % 4 == 0 && board.window == old(board.window) && board.log == old(board.log)
      ensures IsFlat(board.vram, m0, p, data[..next])
    {
      var size := if |data| - off < streamChunk then |data| - off else streamChunk;
      SizeIsWhole(address, off, |data|, streamChunk);
      next := off + size;
      ghost var before := board.vram;
      WriteChunk(address + off, data[off..next]);
      FlatAppend(m0, before, board.vram, p, data[..off], data[off..next], data[..next]);
    }

    /** The first dword goes as a request of its own and again in the stream. */
    method WriteChunk(address: nat, chunk: seq<byte>)
      requires Ready() && address % 4 == 0 && board.InAperture(address, |chunk|)
      requires |chunk| > 0 && |chunk| % 4 == 0
      modifies board
      ensures board.window == old(board.window) && board.log == old(board.log)
      ensures IsFlat(board.vram, old(board.vram), old(board.Behind(address)), chunk)
    {
      var first := Unpack(chunk[..4]);
      PackUnpack(chunk[..4]);
      var _ := PcieWrite(address >= U32, address, first, 4);
      if |chunk| == 4 { return; }
      board.ControlOut(if address >= U32 then 0x60 else 0x40, 0x0f, address, |chunk| / 4, 1);
      board.BulkWrite(chunk);
    }

    lemma SizeIsWhole(address: nat, off: nat, total: nat, chunk: nat)
      requires address % 4 == 0 && off % 4 == 0 && total % 4 == 0 && chunk % 4 == 0 && off <= total
      ensures (address + off) % 4 == 0 && (total - off) % 4 == 0 && (off + chunk) % 4 == 0
    {
      SumAligned(address, off);
      SumAligned(total, off);
      SumAligned(off, chunk);
    }

    /** From any completion on, at most ten link errors come before a good one. */
    ghost predicate GoodLink() {
      forall n :: Recovers(board.status, n, 10)
    }

    /** pcie_mem_read: the bytes read are the memory's, and a link that makes
        no more than ten errors in a row reads. */
    method PcieMemRead(address: nat, n: nat) returns (ok: bool, data: seq<byte>)
      requires Ready() && address % 4 == 0 && board.InAperture(address, n)
      modifies board
      ensures board.window == old(board.window) && board.log == old(board.log) && board.vram == old(board.vram)
      ensures ok ==> data == Slice(board.vram, board.Behind(address), n)
      ensures n % 4 != 0 ==> !ok
      ensures GoodLink() && n % 4 == 0 ==> ok
    {
      data := [];
      if n % 4 != 0 { return false, []; }
      var off := 0;
      while off < n
        invariant 0 <= off <= n && off % 4 == 0
        invariant board.window == old(board.window) && board.log == old(board.log) && board.vram == old(board.vram)
        invariant data == Slice(board.vram, board.Behind(address), off)
      {
        var size := if n - off < streamChunk then n - off else streamChunk;
        SizeIsWhole(address, off, n, streamChunk);
        var chunk;
        ok, chunk := ReadChunk(address + off, size);
        if !ok { return; }
        data := data + chunk;
        off := off + size;
      }
      return true, data;
    }

    method ReadChunk(address: nat, size: nat) returns (ok: bool, chunk: seq<byte>)
      requires Ready() && address % 4 == 0 && board.InAperture(address, size) && size > 0 && size % 4 == 0
      modifies board
      ensures board.window == old(board.window) && board.log == old(board.log) && board.vram == old(board.vram)
      ensures ok ==> chunk == Slice(board.vram, board.Behind(address), size)
      ensures GoodLink() ==> ok
    {
      var first := PcieRead(address >= U32, address, 4, 10);
      if !first.Data? {
        if GoodLink() {
          RecoveredRead(board.status, old(board.completions), 10,
                        LeNumber(Slice(board.vram, board.Behind(address), 4)));
        }
        return false, [];
      }
      if size == 4 {
        ghost var dword := Slice(board.vram, board.Behind(address), 4);
        assert first.value == Unpack(dword) by {
          ReadReplyValue(board.status, old(board.completions), 10, LeNumber(dword));
        }
        PackUnpack(dword);
        return true, Pack(first.value);
      }
      board.ControlOut(if address >= U32 then 0x20 else 0x00, 0x0f, address, size / 4, 2);
      chunk := board.BulkRead(size);
      return true, chunk;
    }

    // ---- dwords --------------------------------------------------------------

    /** write32 of the interface on video memory. */
    method PcieWriteDword(address: nat, val: word) returns (r: Reply)
      requires Ready() && address % 4 == 0 && board.InAperture(address, 4) && address < U32
      modifies board
      ensures board.window == old(board.window) && board.log == old(board.log)
      ensures IsFlat(board.vram, old(board.vram), old(board.Behind(address)), Pack(val))
    {
      r := PcieWrite(false, address, val, 4);
    }

    /** write32 of the interface on the PRAMIN window register. */
    method WriteWindowReg(val: word)
      requires Ready() && LowBar()
      modifies board
      ensures board.window == val && board.vram == old(board.vram) && board.log == old(board.log)
    {
      BusAligned(PRAMIN_WINDOW_REG);
      AllLanes(board.window, val);
      assert ByteEnables(4, 0) == 0xF;
      board.ControlOut(0x40, ByteEnables(4, 0), board.bar0 + PRAMIN_WINDOW_REG, val, 0);
    }

    /** write32 of the interface on any other register: the board gets all four bytes. */
    method WriteReg(reg: nat, val: nat)
      requires Ready() && LowBar() && reg % 4 == 0 && reg != PRAMIN_WINDOW_REG && board.IsRegister(board.bar0 + reg)
      modifies board
      ensures board.window == old(board.window) && board.vram == old(board.vram)
      ensures board.log == old(board.log) + [RegWrite(reg, 0xF, val % U32, board.vram)]
    {
      BusAligned(reg);
      board.ControlOut(0x40, ByteEnables(4, 0), board.bar0 + reg, val % U32, 0);
    }
  }
}
