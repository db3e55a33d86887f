/** Bytes of a script as they stand in the image, field by field, and how one
    instruction steps over them. */
module NvinitLayout {
  import opened Words
  import opened Nvinit
  import opened NvinitRun

  type half = x: nat | x < 0x10000

  predicate Byte(rom: Rom, p: nat, x: nat) {
    p < |rom.image| && rom.image[p] == x
  }

  /** Little-endian fields of two and four bytes. */
  predicate Half(rom: Rom, p: nat, x: half) {
    Byte(rom, p, x % 0x100) && Byte(rom, p + 1, x / 0x100)
  }

  predicate Dword(rom: Rom, p: nat, x: word) {
    Byte(rom, p, ByteOf(x, 0)) && Byte(rom, p + 1, ByteOf(x, 1)) && Byte(rom, p + 2, ByteOf(x, 2)) &&
    Byte(rom, p + 3, ByteOf(x, 3))
  }

  predicate Octets(rom: Rom, p: nat, bytes: seq<byte>) {
    forall i :: 0 <= i < |bytes| ==> Byte(rom, p + i, bytes[i])
  }

  predicate Dwords(rom: Rom, p: nat, words: seq<word>) {
    forall i :: 0 <= i < |words| ==> Dword(rom, p + 4 * i, words[i])
  }

  lemma ByteRead(rom: Rom, p: nat, x: nat)
    requires Byte(rom, p, x)
    ensures rom.Rd08(p) == x
  {
  }

  lemma HalfRead(rom: Rom, p: nat, x: half)
    requires Half(rom, p, x)
    ensures rom.Rd16(p) == x
  {
  }

  lemma DwordRead(rom: Rom, p: nat, x: word)
    requires Dword(rom, p, x)
    ensures rom.Rd32(p) == x
  {
    assert rom.image[p..p + 4] == Pack(x);
    UnpackPack(x);
    hide Pack, Unpack, ByteOf;
  }

  lemma OctetsRead(rom: Rom, p: nat, bytes: seq<byte>)
    requires Octets(rom, p, bytes)
    ensures rom.Bytes(p, |bytes|) == bytes
  {
    forall i | 0 <= i < |bytes| ensures rom.Rd08(p + i) == bytes[i] {
      assert Byte(rom, p + i, bytes[i]);
    }
  }

  lemma DwordsRead(rom: Rom, p: nat, words: seq<word>)
    requires Dwords(rom, p, words)
    ensures rom.Words(p, |words|) == words
  {
    hide Dword;
    forall i | 0 <= i < |words| ensures rom.Rd32(p + 4 * i) == words[i] {
      DwordRead(rom, p + 4 * i, words[i]);
    }
  }

  /** Pairs of bytes, one behind the other. */
  predicate PairsAt(rom: Rom, p: nat, pairs: seq<(byte, byte)>) {
    forall i :: 0 <= i < |pairs| ==> Byte(rom, p + 2 * i, pairs[i].0) && Byte(rom, p + 2 * i + 1, pairs[i].1)
  }

  lemma PairsRead(rom: Rom, p: nat, pairs: seq<(byte, byte)>)
    requires PairsAt(rom, p, pairs)
    ensures Pairs(rom, p, |pairs|) == pairs
  {
    forall i | 0 <= i < |pairs| ensures Pairs(rom, p, |pairs|)[i] == pairs[i] {
      assert Byte(rom, p + 2 * i, pairs[i].0);
    }
  }

  // ---- one step --------------------------------------------------------------------

  /** One turn of the loop in v goes on `length` bytes further, with s. */
  ghost predicate Turns(rom: Rom, d: Device, v: Vm, fuel: nat, length: nat, s: Sem) {
    Step(Nv(rom, d), v, fuel) == Finished(v.(offset := v.offset + length, sem := s))
  }

  /** It adds these events and changes nothing else. */
  ghost predicate Leaves(rom: Rom, d: Device, v: Vm, fuel: nat, length: nat, events: seq<Event>) {
    Turns(rom, d, v, fuel, length, v.sem.(trace := v.sem.trace + events))
  }

  /** It adds these events and leaves the flag enabled or not. */
  ghost predicate Decides(rom: Rom, d: Device, v: Vm, fuel: nat, length: nat, events: seq<Event>, on: bool) {
    Turns(rom, d, v, fuel, length, v.sem.(trace := v.sem.trace + events, execute := if on then 1 else 3))
  }

  predicate On(v: Vm) {
    v.sem.execute == 1
  }

  lemma LeafTurns(rom: Rom, d: Device, v: Vm, fuel: nat, op: Op, length: nat)
    requires Decode(rom, v.offset) == Leaf(op, length)
    ensures Turns(rom, d, v, fuel, length, Effect(rom, d, op, v.sem))
  {
    hide Decode, Effect;
  }
}
