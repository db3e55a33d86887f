/** Bytes and little-endian 32-bit words, as `struct.pack('<I')` lays them out. */
module Words {
  import opened Bits

  const U32 := 0x1_0000_0000

  type byte = x: nat | x < 0x100
  type word = x: nat | x < U32 witness 0

  /** Byte i of a word. */
  function ByteOf(w: nat, i: nat): byte {
    if i == 0 then w % 0x100
    else if i == 1 then w / 0x100 % 0x100
    else if i == 2 then w / 0x10000 % 0x100
    else if i == 3 then w / 0x1000000 % 0x100
    else 0
  }

  function Pack(w: nat): (r: seq<byte>)
    ensures |r| == 4 && forall i :: 0 <= i < 4 ==> r[i] == ByteOf(w, i)
  {
    [ByteOf(w, 0), ByteOf(w, 1), ByteOf(w, 2), ByteOf(w, 3)]
  }

  function Unpack(b: seq<byte>): word
    requires |b| == 4
  {
    b[0] as int + 0x100 * b[1] as int + 0x10000 * b[2] as int + 0x1000000 * b[3] as int
  }

  /** Byte and little-endian dword of an image; 0 past its end. */
  function ByteIn(image: seq<byte>, addr: nat): byte {
    if addr < |image| then image[addr] else 0
  }

  function DwordIn(image: seq<byte>, addr: nat): word {
    if addr + 4 <= |image| then Unpack(image[addr..addr + 4]) else 0
  }

  lemma UnpackPack(w: word)
    ensures Unpack(Pack(w)) == w
  {
    assert w / 0x100 / 0x100 == w / 0x10000 && w / 0x10000 / 0x100 == w / 0x1000000;
  }

  lemma PackUnpack(b: seq<byte>)
    requires |b| == 4
    ensures Pack(Unpack(b)) == b
  {
    var b0, b1, b2, b3 := b[0] as int, b[1] as int, b[2] as int, b[3] as int;
    var w := Unpack(b);
    RemainderIs(w, 0x100, b1 + 0x100 * b2 + 0x10000 * b3, b0);
    RemainderIs(w, 0x10000, b2 + 0x100 * b3, b0 + 0x100 * b1);
    RemainderIs(w, 0x1000000, b3, b0 + 0x100 * b1 + 0x10000 * b2);
    RemainderIs(b1 + 0x100 * b2 + 0x10000 * b3, 0x100, b2 + 0x100 * b3, b1);
    RemainderIs(b2 + 0x100 * b3, 0x100, b3, b2);
  }

  /** struct.pack and unpack of a run of words. */
  function ToBytes(ws: seq<word>): (r: seq<byte>)
    ensures |r| == 4 * |ws|
    decreases |ws|
  {
    if ws == [] then [] else Pack(ws[0]) + ToBytes(ws[1..])
  }

  function FromBytes(b: seq<byte>): seq<word>
    decreases |b|
  {
    if |b| < 4 then [] else [Unpack(b[..4])] + FromBytes(b[4..])
  }

  lemma {:induction false} BytesRoundTrip(ws: seq<word>)
    ensures FromBytes(ToBytes(ws)) == ws
    decreases |ws|
  {
    if ws != [] {
      hide Pack, Unpack;
      BytesRoundTrip(ws[1..]);
      UnpackPack(ws[0]);
      assert ToBytes(ws)[..4] == Pack(ws[0]) && ToBytes(ws)[4..] == ToBytes(ws[1..]);
    }
  }

  /** (n + 3) & ~3. */
  function RoundUp(n: nat): (r: nat)
    ensures n <= r < n + 4
  {
    (n + 3) / 4 * 4
  }

  lemma RoundUpAdd(whole: nat, n: nat)
    requires whole % 4 == 0
    ensures RoundUp(whole) == whole && RoundUp(whole + n) == whole + RoundUp(n) && RoundUp(n) % 4 == 0
  {
    var q := whole / 4;
    assert whole == 4 * q;
    assert (whole + n + 3) / 4 == q + (n + 3) / 4;
  }

  lemma RoundUpFits(n: nat, room: nat)
    requires room % 4 == 0 && n <= room
    ensures RoundUp(n) <= room
  {
    assert room == 4 * (room / 4);
  }

  /** Pads with zero bytes up to the next multiple of four. */
  function Padded(data: seq<byte>): (r: seq<byte>)
    ensures |r| == RoundUp(|data|)
    ensures forall i :: 0 <= i < |r| ==> r[i] == if i < |data| then data[i] else 0
  {
    data + seq<byte>(RoundUp(|data|) - |data|, _ => 0)
  }

  /** Padding after a whole number of dwords is the same as padding at the end. */
  lemma PaddedAppend(done: seq<byte>, chunk: seq<byte>, both: seq<byte>)
    requires |done| % 4 == 0 && both == done + chunk
    ensures Padded(done) == done && Padded(both) == done + Padded(chunk)
  {
    hide RoundUp;
    RoundUpAdd(|done|, |chunk|);
  }
}
