/** The I2C instructions of a script from their bytes. Addresses stand in them shifted
    left by one, but for I2C_IF. */
module NvinitI2cOps {
  import opened Bits
  import opened Words
  import opened Nvinit
  import opened NvinitRun
  import opened NvinitLayout

  predicate ZmI2cAt(rom: Rom, p: nat, bus: byte, address: byte, bytes: seq<byte>) {
    Byte(rom, p, 0x4e) && Byte(rom, p + 1, bus) && Byte(rom, p + 2, address) && Byte(rom, p + 3, |bytes|) &&
    Octets(rom, p + 4, bytes)
  }

  lemma ZmI2cDecodes(rom: Rom, p: nat, bus: byte, address: byte, bytes: seq<byte>)
    requires ZmI2cAt(rom, p, bus, address, bytes)
    ensures Decode(rom, p) == Leaf(SendI2c(bus, address / 2, bytes), 4 + |bytes|)
  {
    ByteRead(rom, p, 0x4e);
    ByteRead(rom, p + 1, bus);
    ByteRead(rom, p + 2, address);
    ByteRead(rom, p + 3, |bytes|);
    OctetsRead(rom, p + 4, bytes);
    hide Dword, Half, Byte, ByteIn, DwordIn, ByteOf, Rows, Pairs, Triples, Elements, ConditionAt, IoConditionAt,
         IoFlagAt, MacroAt, SubTarget, RamcfgCount, Octets;
  }

  /** ZM_I2C sends its bytes as one message, whatever becomes of it. */
  lemma ZmI2cLeaves(rom: Rom, d: Device, s: Sem, bus: byte, address: byte, bytes: seq<byte>)
    requires s.execute == 1
    ensures Effect(rom, d, SendI2c(bus, address / 2, bytes), s) ==
            s.(trace := s.trace + [I2c(bus, address / 2, [Send(bytes)])])
  {
  }

  lemma ZmI2cStep(rom: Rom, d: Device, v: Vm, fuel: nat, bus: byte, address: byte, bytes: seq<byte>)
    requires ZmI2cAt(rom, v.offset, bus, address, bytes) && On(v)
    ensures Leaves(rom, d, v, fuel, 4 + |bytes|,
                   [I2c(bus, address / 2, [Send(bytes)])])
  {
    hide Effect, Decode, ZmI2cAt;
    ZmI2cDecodes(rom, v.offset, bus, address, bytes);
    LeafTurns(rom, d, v, fuel, SendI2c(bus, address / 2, bytes), 4 + |bytes|);
    ZmI2cLeaves(rom, d, v.sem, bus, address, bytes);
  }

  /** One transfer for each register and value. */
  function PairTransfers(bus: byte, dev: byte, pairs: seq<(byte, byte)>): seq<Event> {
    seq(|pairs|, i requires 0 <= i < |pairs| => I2c(bus, dev, [Send([pairs[i].0, pairs[i].1])]))
  }

  lemma {:induction false} PairsTransfer(d: Device, s: Sem, bus: byte, dev: byte, pairs: seq<(byte, byte)>)
    requires s.execute == 1
    ensures SendPairs(d, s, bus, dev, pairs) == s.(trace := s.trace + PairTransfers(bus, dev, pairs))
    decreases |pairs|
  {
    if pairs == [] {
      assert s.trace + PairTransfers(bus, dev, pairs) == s.trace;
    } else {
      var s1 := Transfer(d, s, bus, dev, [Send([pairs[0].0, pairs[0].1])]).1;
      PairsTransfer(d, s1, bus, dev, pairs[1..]);
      assert PairTransfers(bus, dev, pairs) ==
             [I2c(bus, dev, [Send([pairs[0].0, pairs[0].1])])] + PairTransfers(bus, dev, pairs[1..]);
    }
  }

  lemma PairsAre(rom: Rom, d: Device, s: Sem, bus: byte, dev: byte, pairs: seq<(byte, byte)>)
    ensures Effect(rom, d, SendI2cBytes(bus, dev, pairs), s) == SendPairs(d, s, bus, dev, pairs)
  {
    hide SendPairs;
  }

  predicate ZmI2cByteAt(rom: Rom, p: nat, bus: byte, address: byte, pairs: seq<(byte, byte)>) {
    Byte(rom, p, 0x4d) && Byte(rom, p + 1, bus) && Byte(rom, p + 2, address) && Byte(rom, p + 3, |pairs|) &&
    PairsAt(rom, p + 4, pairs)
  }

  lemma ZmI2cByteDecodes(rom: Rom, p: nat, bus: byte, address: byte, pairs: seq<(byte, byte)>)
    requires ZmI2cByteAt(rom, p, bus, address, pairs)
    ensures Decode(rom, p) == Leaf(SendI2cBytes(bus, address / 2, pairs), 4 + 2 * |pairs|)
  {
    ByteRead(rom, p, 0x4d);
    ByteRead(rom, p + 1, bus);
    ByteRead(rom, p + 2, address);
    ByteRead(rom, p + 3, |pairs|);
    PairsRead(rom, p + 4, pairs);
    hide Dword, Half, Byte, ByteIn, DwordIn, ByteOf, Rows, Pairs, Triples, Elements, ConditionAt, IoConditionAt,
         IoFlagAt, MacroAt, SubTarget, RamcfgCount, PairsAt;
  }

  /** ZM_I2C_BYTE sends each register with its value. */
  lemma ZmI2cByteStep(rom: Rom, d: Device, v: Vm, fuel: nat, bus: byte, address: byte, pairs: seq<(byte, byte)>)
    requires ZmI2cByteAt(rom, v.offset, bus, address, pairs) && On(v)
    ensures Leaves(rom, d, v, fuel, 4 + 2 * |pairs|, PairTransfers(bus, address / 2, pairs))
  {
    hide Effect, Decode, ZmI2cByteAt, PairTransfers, SendPairs;
    ZmI2cByteDecodes(rom, v.offset, bus, address, pairs);
    LeafTurns(rom, d, v, fuel, SendI2cBytes(bus, address / 2, pairs), 4 + 2 * |pairs|);
    PairsTransfer(d, v.sem, bus, address / 2, pairs);
    PairsAre(rom, d, v.sem, bus, address / 2, pairs);
  }

  predicate TriplesAt(rom: Rom, p: nat, triples: seq<(byte, byte, byte)>) {
    forall i :: 0 <= i < |triples| ==>
      Byte(rom, p + 3 * i, triples[i].0) && Byte(rom, p + 3 * i + 1, triples[i].1) &&
      Byte(rom, p + 3 * i + 2, triples[i].2)
  }

  lemma TriplesRead(rom: Rom, p: nat, triples: seq<(byte, byte, byte)>)
    requires TriplesAt(rom, p, triples)
    ensures Triples(rom, p, |triples|) == triples
  {
    forall i | 0 <= i < |triples| ensures Triples(rom, p, |triples|)[i] == triples[i] {
      assert Byte(rom, p + 3 * i, triples[i].0);
    }
  }

  /** A register read as the device answers it and, unless that failed, written back:
      the masked bits kept, the data or-ed in. */
  function Rewritten(d: Device, trace: seq<Event>, bus: byte, dev: byte, triple: (byte, byte, byte)): seq<Event> {
    var ask := I2c(bus, dev, [Send([triple.0]), Receive(1)]);
    match d.i2c(trace, ask)
    case Failed(_) => [ask]
    case Got(value) => [ask, I2c(bus, dev, [Send([triple.0, Or(And(value, triple.1), triple.2) % 0x100])])]
  }

  /** The trace after all of them, each answered in turn. */
  function AllRewritten(d: Device, trace: seq<Event>, bus: byte, dev: byte,
                        triples: seq<(byte, byte, byte)>): seq<Event>
    decreases |triples|
  {
    if triples == [] then trace
    else AllRewritten(d, trace + Rewritten(d, trace, bus, dev, triples[0]), bus, dev, triples[1..])
  }

  lemma OneRewritten(d: Device, s: Sem, bus: byte, dev: byte, triple: (byte, byte, byte))
    ensures MaskI2c(d, s, bus, dev, triple) == s.(trace := s.trace + Rewritten(d, s.trace, bus, dev, triple))
  {
    hide And, Or;
  }

  lemma {:induction false} TriplesRewrite(d: Device, s: Sem, bus: byte, dev: byte, triples: seq<(byte, byte, byte)>)
    requires s.execute == 1
    ensures MaskTriples(d, s, bus, dev, triples) == s.(trace := AllRewritten(d, s.trace, bus, dev, triples))
    decreases |triples|
  {
    hide MaskI2c, Rewritten;
    if triples != [] {
      OneRewritten(d, s, bus, dev, triples[0]);
      TriplesRewrite(d, MaskI2c(d, s, bus, dev, triples[0]), bus, dev, triples[1..]);
    }
  }

  lemma TriplesAre(rom: Rom, d: Device, s: Sem, bus: byte, dev: byte, triples: seq<(byte, byte, byte)>)
    ensures Effect(rom, d, MaskI2cBytes(bus, dev, triples), s) == MaskTriples(d, s, bus, dev, triples)
  {
    hide MaskTriples;
  }

  predicate I2cByteAt(rom: Rom, p: nat, bus: byte, address: byte, triples: seq<(byte, byte, byte)>) {
    Byte(rom, p, 0x4c) && Byte(rom, p + 1, bus) && Byte(rom, p + 2, address) && Byte(rom, p + 3, |triples|) &&
    TriplesAt(rom, p + 4, triples)
  }

  lemma I2cByteDecodes(rom: Rom, p: nat, bus: byte, address: byte, triples: seq<(byte, byte, byte)>)
    requires I2cByteAt(rom, p, bus, address, triples)
    ensures Decode(rom, p) == Leaf(MaskI2cBytes(bus, address / 2, triples), 4 + 3 * |triples|)
  {
    ByteRead(rom, p, 0x4c);
    ByteRead(rom, p + 1, bus);
    ByteRead(rom, p + 2, address);
    ByteRead(rom, p + 3, |triples|);
    TriplesRead(rom, p + 4, triples);
    hide Dword, Half, Byte, ByteIn, DwordIn, ByteOf, Rows, Pairs, Triples, Elements, ConditionAt, IoConditionAt,
         IoFlagAt, MacroAt, SubTarget, RamcfgCount, TriplesAt;
  }

  /** I2C_BYTE rewrites its registers one by one. */
  lemma I2cByteStep(rom: Rom, d: Device, v: Vm, fuel: nat, bus: byte, address: byte, triples: seq<(byte, byte, byte)>)
    requires I2cByteAt(rom, v.offset, bus, address, triples) && On(v)
    ensures Turns(rom, d, v, fuel, 4 + 3 * |triples|,
                  v.sem.(trace := AllRewritten(d, v.sem.trace, bus, address / 2, triples)))
  {
    hide Effect, Decode, I2cByteAt, AllRewritten, MaskTriples;
    I2cByteDecodes(rom, v.offset, bus, address, triples);
    LeafTurns(rom, d, v, fuel, MaskI2cBytes(bus, address / 2, triples), 4 + 3 * |triples|);
    TriplesRewrite(d, v.sem, bus, address / 2, triples);
    TriplesAre(rom, d, v.sem, bus, address / 2, triples);
  }

  lemma FlagBits(e: bv8)
    requires e == 1 || e == 3
    ensures (e | 4) & 0xfb == e && ((e | 4) | 2) & 0xfb == 3 && e | 2 == 3
  {
  }

  /** The byte a failed read leaves is its error. */
  function Answer(reply: I2cReply): byte {
    match reply
    case Got(value) => value
    case Failed(u8) => u8
  }

  predicate I2cIfAt(rom: Rom, p: nat, bus: byte, address: byte, reg: byte, mask: byte, data: byte) {
    Byte(rom, p, 0x5e) && Byte(rom, p + 1, bus) && Byte(rom, p + 2, address) && Byte(rom, p + 3, reg) &&
    Byte(rom, p + 4, mask) && Byte(rom, p + 5, data)
  }

  lemma I2cIfDecodes(rom: Rom, p: nat, bus: byte, address: byte, reg: byte, mask: byte, data: byte)
    requires I2cIfAt(rom, p, bus, address, reg, mask, data)
    ensures Decode(rom, p) == Leaf(Op.I2cIf(bus, address, reg, mask, data), 6)
  {
    ByteRead(rom, p, 0x5e);
    ByteRead(rom, p + 1, bus);
    ByteRead(rom, p + 2, address);
    ByteRead(rom, p + 3, reg);
    ByteRead(rom, p + 4, mask);
    ByteRead(rom, p + 5, data);
    hide Dword, Half, Byte, ByteIn, DwordIn, ByteOf, Rows, Pairs, Triples, Elements, ConditionAt, IoConditionAt,
         IoFlagAt, MacroAt, SubTarget, RamcfgCount;
  }

  lemma I2cIfIs(rom: Rom, d: Device, s: Sem, bus: byte, dev: byte, reg: byte, mask: byte, data: byte)
    requires s.execute == 1 || s.execute == 3
    ensures var ask := I2c(bus, dev, [Send([reg]), Receive(1)]);
            Effect(rom, d, Op.I2cIf(bus, dev, reg, mask, data), s) ==
            s.(trace := s.trace + [ask],
               execute := if And(Answer(d.i2c(s.trace, ask)), mask) == data then s.execute else 3)
  {
    FlagBits(s.execute);
    hide And;
  }

  /** I2C_IF reads a register whatever the flag says; if it does not compare, the script is disabled. */
  lemma I2cIfStep(rom: Rom, d: Device, v: Vm, fuel: nat, bus: byte, address: byte, reg: byte, mask: byte, data: byte)
    requires I2cIfAt(rom, v.offset, bus, address, reg, mask, data) && (v.sem.execute == 1 || v.sem.execute == 3)
    ensures var ask := I2c(bus, address, [Send([reg]), Receive(1)]);
            Turns(rom, d, v, fuel, 6,
                  v.sem.(trace := v.sem.trace + [ask],
                         execute := if And(Answer(d.i2c(v.sem.trace, ask)), mask) == data then v.sem.execute else 3))
  {
    hide Effect, Decode, I2cIfAt, And, Answer;
    I2cIfDecodes(rom, v.offset, bus, address, reg, mask, data);
    LeafTurns(rom, d, v, fuel, Op.I2cIf(bus, address, reg, mask, data), 6);
    I2cIfIs(rom, d, v.sem, bus, address, reg, mask, data);
  }

  predicate I2cLongIfAt(rom: Rom, p: nat, bus: byte, address: byte, low: byte, high: byte, mask: byte, data: byte) {
    Byte(rom, p, 0x9a) && Byte(rom, p + 1, bus) && Byte(rom, p + 2, address) && Byte(rom, p + 3, low) &&
    Byte(rom, p + 4, high) && Byte(rom, p + 5, mask) && Byte(rom, p + 6, data)
  }

  lemma I2cLongIfDecodes(rom: Rom, p: nat, bus: byte, address: byte, low: byte, high: byte, mask: byte, data: byte)
    requires I2cLongIfAt(rom, p, bus, address, low, high, mask, data)
    ensures Decode(rom, p) == Leaf(Op.I2cLongIf(bus, address / 2, low, high, mask, data), 7)
  {
    ByteRead(rom, p, 0x9a);
    ByteRead(rom, p + 1, bus);
    ByteRead(rom, p + 2, address);
    ByteRead(rom, p + 3, low);
    ByteRead(rom, p + 4, high);
    ByteRead(rom, p + 5, mask);
    ByteRead(rom, p + 6, data);
    hide Dword, Half, Byte, ByteIn, DwordIn, ByteOf, Rows, Pairs, Triples, Elements, ConditionAt, IoConditionAt,
         IoFlagAt, MacroAt, SubTarget, RamcfgCount;
  }

  lemma I2cLongIfIs(rom: Rom, d: Device, s: Sem, bus: byte, dev: byte, low: byte, high: byte, mask: byte, data: byte)
    requires s.execute == 1 || s.execute == 3
    ensures var ask := I2c(bus, dev, [Send([high, low]), Receive(1)]);
            var reply := d.i2c(s.trace, ask);
            Effect(rom, d, Op.I2cLongIf(bus, dev, low, high, mask, data), s) ==
            s.(trace := s.trace + [ask],
               execute := if reply.Got? && And(reply.value, mask) == data then s.execute else 3)
  {
    FlagBits(s.execute);
    hide And;
  }

  /** I2C_LONG_IF does so with a sixteen-bit register, high byte first; a failed read does not compare. */
  lemma I2cLongIfStep(rom: Rom, d: Device, v: Vm, fuel: nat, bus: byte, address: byte, low: byte, high: byte,
                      mask: byte, data: byte)
    requires I2cLongIfAt(rom, v.offset, bus, address, low, high, mask, data)
    requires v.sem.execute == 1 || v.sem.execute == 3
    ensures var ask := I2c(bus, address / 2, [Send([high, low]), Receive(1)]);
            var reply := d.i2c(v.sem.trace, ask);
            Turns(rom, d, v, fuel, 7,
                  v.sem.(trace := v.sem.trace + [ask],
                         execute := if reply.Got? && And(reply.value, mask) == data then v.sem.execute else 3))
  {
    hide Effect, Decode, I2cLongIfAt, And;
    I2cLongIfDecodes(rom, v.offset, bus, address, low, high, mask, data);
    LeafTurns(rom, d, v, fuel, Op.I2cLongIf(bus, address / 2, low, high, mask, data), 7);
    I2cLongIfIs(rom, d, v.sem, bus, address / 2, low, high, mask, data);
  }
}
