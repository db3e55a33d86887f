/** The I2C host that the script interpreter of examples_en210/add.py bit-bangs
    through one register, against a slave that may do anything. */
module I2c {
  import opened Bits
  import opened Words
  import opened I2cTiming
  import opened I2cWire

  // ---- the port register ----------------------------------------------------------

  const SCL: bv32 := 0x1
  const SDA: bv32 := 0x2
  const SENSE_SCL: bv32 := 0x10
  const SENSE_SDA: bv32 := 0x20

  function LinesOf(reg: bv32): Level {
    Level(reg & 0x1 != 0, reg & 0x2 != 0)
  }

  /** A read shows the driven bits and the wires: a line is high when neither
      the host nor the slave pulls it low. */
  function Sensed(reg: bv32, slave: Level): bv32 {
    (reg & 0xFFFF_FFCF) |
    (if reg & 0x1 != 0 && slave.scl then 0x10 else 0) |
    (if reg & 0x2 != 0 && slave.sda then 0x20 else 0)
  }

  function Masked(reg: bv32, mask: bv32, data: bv32): bv32 {
    (reg & !mask) | (data & mask)
  }

  lemma SensedLines(reg: bv32, slave: Level)
    ensures LinesOf(Sensed(reg, slave)) == LinesOf(reg)
    ensures Sensed(reg, slave) & SENSE_SCL != 0 <==> LinesOf(reg).scl && slave.scl
    ensures Sensed(reg, slave) & SENSE_SDA != 0 <==> LinesOf(reg).sda && slave.sda
  {
  }

  lemma MaskedClock(reg: bv32, data: bv32)
    requires data == 0 || data == 0x1
    ensures Masked(reg, SCL, data) & 0x1 == data && Masked(reg, SCL, data) & 0x2 == reg & 0x2
  {
  }

  lemma MaskedData(reg: bv32, data: bv32)
    requires data == 0 || data == 0x2
    ensures Masked(reg, SDA, data) & 0x2 == data && Masked(reg, SDA, data) & 0x1 == reg & 0x1
  {
  }

  lemma ClockLines(reg: bv32, b: bool)
    ensures LinesOf(Masked(reg, SCL, if b then SCL else 0)) == LinesOf(reg).(scl := b)
  {
    hide Masked;
    MaskedClock(reg, if b then 0x1 else 0);
    if b {
      assert SCL == 0x1;
    }
  }

  lemma DataLines(reg: bv32, b: bool)
    ensures LinesOf(Masked(reg, SDA, if b then SDA else 0)) == LinesOf(reg).(sda := b)
  {
    hide Masked;
    MaskedData(reg, if b then 0x2 else 0);
    if b {
      assert SDA == 0x2;
    }
  }

  /** The port: its register, every level the host has driven, and a slave that
      answers the n-th read of the register with whatever it likes. */
  class Port {
    var reg: bv32
    var log: seq<Level>
    var polls: nat
    const slave: nat -> Level

    constructor (reg: bv32, slave: nat -> Level)
      ensures this.reg == reg && log == [] && polls == 0 && this.slave == slave
    {
      this.reg, log, polls, this.slave := reg, [], 0, slave;
    }

    ghost function Lines(): Level
      reads this
    {
      LinesOf(reg)
    }

    ghost function Seen(): Observer
      reads this
    {
      Observe(log)
    }

    method Read32() returns (v: bv32)
      modifies this`polls
      ensures polls == old(polls) + 1 && v == Sensed(reg, slave(old(polls)))
    {
      v := Sensed(reg, slave(polls));
      polls := polls + 1;
    }

    method Write32(v: bv32)
      modifies this`reg, this`log
      ensures reg == v && log == old(log) + [LinesOf(v)]
      ensures Seen() == Feed(old(Seen()), LinesOf(v))
    {
      reg := v;
      log := log + [LinesOf(v)];
      assert log[..|log| - 1] == old(log);
    }
  }

  /** The report grew by some part of what was planned. */
  predicate Partly(before: seq<Symbol>, plan: seq<Symbol>, now: seq<Symbol>) {
    exists k :: 0 <= k <= |plan| && now == before + plan[..k]
  }

  lemma PartlyNothing(before: seq<Symbol>, plan: seq<Symbol>)
    ensures Partly(before, plan, before)
  {
    assert before + plan[..0] == before;
  }

  lemma PartlyMore(before: seq<Symbol>, done: seq<Symbol>, step: seq<Symbol>, plan: seq<Symbol>, now: seq<Symbol>)
    requires Partly(before + done, step, now) && done + step <= plan
    ensures Partly(before, plan, now)
  {
    var k :| 0 <= k <= |step| && now == before + done + step[..k];
    assert plan[..|done| + k] == done + step[..k];
    assert before + plan[..|done| + k] == now;
  }

  /** v holds the first k of the bits as the high bits of a byte. */
  predicate Collected(bits: seq<bool>, v: nat, k: nat) {
    k <= 8 && |bits| == 8 && v == Value(bits[..k]) * Pow2(8 - k)
  }

  lemma Distribute(v: nat, p: nat, bit: nat)
    ensures v * (2 * p) + bit * p == (2 * v + bit) * p
  {
    DoubleProduct(v, p);
  }

  /** Adding the next lower bit to the bits already collected. */
  lemma CollectNext(bits: seq<bool>, v: nat, k: nat)
    requires k < 8 && Collected(bits, v, k)
    ensures Collected(bits, Or(v, (if bits[k] then 1 else 0) * Pow2(7 - k)), k + 1)
  {
    var p, h := Pow2(7 - k), Value(bits[..k]);
    var bit := if bits[k] then 1 else 0;
    assert Pow2(8 - k) == 2 * p && bit * p < 2 * p;
    ValueNext(bits, k);
    hide Or, Pow2, Value;
    OrIsSum(h, bit * p, 8 - k);
    Distribute(h, p, bit);
  }

  lemma CollectNone(bits: seq<bool>)
    requires |bits| == 8
    ensures Collected(bits, 0, 0)
  {
  }

  lemma CollectAll(bits: seq<bool>, v: nat)
    requires Collected(bits, v, 8)
    ensures v == Value(bits) < 0x100
  {
    assert Pow2(0) == 1;
    assert bits[..8] == bits;
    ValueBelow(bits);
  }

  lemma {:induction false} PlanGrows(addr: nat, ms: seq<Message>, i: nat)
    requires i < |ms|
    ensures PlanAll(addr, ms[..i + 1]) == PlanAll(addr, ms[..i]) + Plan(addr, ms[i])
    ensures PlanAll(addr, ms[..i + 1]) <= PlanAll(addr, ms)
    decreases |ms|
  {
    hide Plan;
    assert ms[..i + 1][..i] == ms[..i];
    if i + 1 == |ms| {
      assert ms[..i + 1] == ms;
    } else {
      var init := ms[..|ms| - 1];
      PlanGrows(addr, init, i);
      assert init[..i + 1] == ms[..i + 1];
    }
  }

  /** A transfer after its first i messages: what a listener has, and that the
      outcome is what was read so far before what is still to come. */
  ghost predicate Through(addr: nat, slave: nat -> Level, ms: seq<Message>, i: nat, before: Progress, now: Progress,
                          data: seq<seq<byte>>)
    requires i <= |ms|
  {
    now.out == before.out + PlanAll(addr, ms[..i]) &&
    Run(slave, before.polls, true, ms) == Before(data, Run(slave, now.polls, i == 0, ms[i..]))
  }

  datatype Progress = Progress(out: seq<Symbol>, polls: nat)

  lemma ThroughNone(addr: nat, slave: nat -> Level, ms: seq<Message>, before: Progress)
    ensures Through(addr, slave, ms, 0, before, before, [])
  {
    hide Run;
    var o := Run(slave, before.polls, true, ms);
    assert ms[..0] == [] && ms[0..] == ms && before.out + [] == before.out;
    assert o.Ok? ==> [] + o.data == o.data;
  }

  lemma ThroughNext(addr: nat, slave: nat -> Level, ms: seq<Message>, i: nat, before: Progress, mid: Progress,
                    now: Progress, data: seq<seq<byte>>, bytes: seq<byte>)
    requires i < |ms| && Through(addr, slave, ms, i, before, mid, data)
    requires now.out == mid.out + Plan(addr, ms[i])
    requires MessageStatus(slave, mid.polls, i == 0, ms[i]) == Done
    requires now.polls == MessageEnd(slave, mid.polls, i == 0, ms[i])
    requires bytes == MessageData(slave, mid.polls, i == 0, ms[i])
    ensures Through(addr, slave, ms, i + 1, before, now, data + Collect(ms[i], bytes))
  {
    hide Plan, PlanAll, MessageStatus, MessageEnd, MessageData;
    PlanGrows(addr, ms, i);
    assert ms[i..][1..] == ms[i + 1..];
    var o := Run(slave, now.polls, false, ms[i + 1..]);
    assert o.Ok? ==> data + (Collect(ms[i], bytes) + o.data) == data + Collect(ms[i], bytes) + o.data;
  }

  lemma ThroughAll(addr: nat, slave: nat -> Level, ms: seq<Message>, before: Progress, now: Progress,
                   data: seq<seq<byte>>)
    requires Through(addr, slave, ms, |ms|, before, now, data)
    ensures now.out == before.out + PlanAll(addr, ms) && Run(slave, before.polls, true, ms) == Ok(data)
  {
    assert ms[..|ms|] == ms && ms[|ms|..] == [] && data + [] == data;
  }

  /** What was reported during a message is part of the plan, and a message that
      fails makes the whole transfer fail so. */
  lemma PartlyInPlan(addr: nat, slave: nat -> Level, ms: seq<Message>, i: nat, before: Progress, mid: Progress,
                     data: seq<seq<byte>>, out: seq<Symbol>)
    requires i < |ms| && Through(addr, slave, ms, i, before, mid, data) && Partly(mid.out, Plan(addr, ms[i]), out)
    ensures Partly(before.out, PlanAll(addr, ms), out)
    ensures MessageStatus(slave, mid.polls, i == 0, ms[i]) != Done ==>
              Run(slave, before.polls, true, ms) == Failed(MessageStatus(slave, mid.polls, i == 0, ms[i]))
  {
    hide Plan, PlanAll, MessageStatus, MessageEnd, MessageData, Partly;
    PlanGrows(addr, ms, i);
    PartlyMore(before.out, PlanAll(addr, ms[..i]), Plan(addr, ms[i]), PlanAll(addr, ms), out);
  }

  /** What STOP adds when the eighth clock was cut short. */
  predicate Stray(xs: seq<Symbol>) {
    xs == [] || (|xs| == 1 && IsFrame(xs[0]))
  }

  /** Part of the plan, what STOP may add, and STOP. */
  ghost predicate CutShort(before: seq<Symbol>, plan: seq<Symbol>, now: seq<Symbol>) {
    exists got, stray :: Partly(before, plan, got) && Stray(stray) && now == got + stray + [P]
  }

  lemma StoppedShort(before: seq<Symbol>, plan: seq<Symbol>, at: Observer, now: seq<Symbol>)
    requires Partly(before, plan, at.out) && |at.bits| <= 8
    requires now == at.out + (if |at.bits| == 8 then [Frame(at.bits + [false])] else []) + [P]
    ensures CutShort(before, plan, now)
  {
    hide Partly;
    var stray := if |at.bits| == 8 then [Frame(at.bits + [false])] else [];
    assert Stray(stray) && now == at.out + stray + [P];
  }

  class Host {
    const port: Port
    var inited: bool

    constructor (port: Port)
      ensures this.port == port && !inited
    {
      this.port, inited := port, false;
    }

    /** The observer has followed every level the port drove. */
    ghost predicate Tracks()
      reads this, port
    {
      port.Seen().level == port.Lines()
    }

    method Mask(mask: bv32, data: bv32)
      modifies port
      ensures port.polls == old(port.polls) + 1
      ensures port.reg == Masked(Sensed(old(port.reg), port.slave(old(port.polls))), mask, data)
      ensures port.Seen() == Feed(old(port.Seen()), port.Lines())
    {
      var v := port.Read32();
      port.Write32(Masked(v, mask, data));
    }

    method Scl(b: bool)
      requires Tracks()
      modifies port
      ensures Tracks() && port.polls == old(port.polls) + 1
      ensures port.Seen() == Feed(old(port.Seen()), old(port.Seen()).level.(scl := b))
    {
      SensedLines(port.reg, port.slave(port.polls));
      ClockLines(Sensed(port.reg, port.slave(port.polls)), b);
      hide Sensed, Masked, LinesOf;
      Mask(SCL, if b then SCL else 0);
    }

    method Sda(b: bool)
      requires Tracks()
      modifies port
      ensures Tracks() && port.polls == old(port.polls) + 1
      ensures port.Seen() == Feed(old(port.Seen()), old(port.Seen()).level.(sda := b))
    {
      SensedLines(port.reg, port.slave(port.polls));
      DataLines(Sensed(port.reg, port.slave(port.polls)), b);
      hide Sensed, Masked, LinesOf;
      Mask(SDA, if b then SDA else 0);
    }

    method SenseScl() returns (b: bool)
      requires Tracks()
      modifies port
      ensures Tracks() && port.polls == old(port.polls) + 1 && port.Seen() == old(port.Seen())
      ensures b == (port.Seen().level.scl && port.slave(old(port.polls)).scl)
    {
      SensedLines(port.reg, port.slave(port.polls));
      hide Sensed, LinesOf;
      var v := port.Read32();
      b := v & SENSE_SCL != 0;
    }

    method SenseSda() returns (b: bool)
      requires Tracks()
      modifies port
      ensures Tracks() && port.polls == old(port.polls) + 1 && port.Seen() == old(port.Seen())
      ensures b == (port.Seen().level.sda && port.slave(old(port.polls)).sda)
    {
      SensedLines(port.reg, port.slave(port.polls));
      hide Sensed, LinesOf;
      var v := port.Read32();
      b := v & SENSE_SDA != 0;
    }

    /** Releases the clock and waits for the slave to let go of it. */
    method RaiseScl() returns (ok: bool)
      requires Tracks()
      modifies port
      ensures Tracks()
      ensures port.Seen() == Feed(old(port.Seen()), old(port.Seen()).level.(scl := true))
      ensures ok <==> Rises(port.slave, old(port.polls))
      ensures !ok ==> HeldUpTo(port.slave, port.polls)
      ensures ok ==> port.polls == Up(port.slave, old(port.polls)) + 1
    {
      hide FirstUp, LinesOf;
      ghost var s := port.slave;
      Scl(true);
      var k := 0;
      while k < TIMEOUT
        invariant 0 <= k <= TIMEOUT && port.polls == old(port.polls) + 1 + k
        invariant Tracks()
        invariant port.Seen() == Feed(old(port.Seen()), old(port.Seen()).level.(scl := true))
        invariant forall n: nat :: old(port.polls) < n <= old(port.polls) + k ==> !port.slave(n).scl
        invariant FirstUp(s, port.polls, TIMEOUT - k) == Up(s, old(port.polls))
      {
        FirstUpStep(s, port.polls, TIMEOUT - k);
        var high := SenseScl();
        if high {
          assert port.slave(port.polls - 1).scl;
          return true;
        }
        assert !port.slave(port.polls - 1).scl;
        k := k + 1;
      }
      return false;
    }

    /** START, or a repeated START when the clock is low. */
    method Start() returns (ok: bool)
      requires Tracks() && port.Seen().bits == []
      requires port.Seen().level == Level(true, true) || !port.Seen().level.scl
      modifies port
      ensures Tracks()
      ensures ok ==> port.Seen() == Observer(Level(false, false), [], old(port.Seen()).out + [S])
      ensures !ok ==> port.Seen() == Observer(Level(true, true), [true], old(port.Seen()).out)
      ensures ok <==> StartFine(port.slave, old(port.polls), old(port.Seen()).level.scl)
      ensures !ok ==> HeldUpTo(port.slave, port.polls)
      ensures ok ==> port.polls == StartEnd(port.slave, old(port.polls), old(port.Seen()).level.scl)
    {
      hide Rises, HeldUpTo, Up, LinesOf;
      var high := SenseScl();
      if high {
        high := SenseSda();
      }
      if !high {
        Scl(false);
        Sda(true);
        var rose := RaiseScl();
        if !rose {
          return false;
        }
      }
      Sda(false);
      Scl(false);
      return true;
    }

    /** STOP from any state of the lines. */
    method Stop()
      requires Tracks() && |port.Seen().bits| <= 8
      modifies port
      ensures Tracks() && port.Seen().level == Level(true, true) && port.Seen().bits == []
      ensures port.Seen().out ==
              old(port.Seen()).out +
              (if |old(port.Seen()).bits| == 8 then [Frame(old(port.Seen()).bits + [false])] else []) + [P]
      ensures port.polls == old(port.polls) + 4
    {
      Scl(false);
      Sda(false);
      Scl(true);
      Sda(true);
    }

    /** One clock with the data line at b. */
    method BitWrite(b: bool) returns (ok: bool)
      requires Tracks() && !port.Seen().level.scl
      modifies port
      ensures Tracks()
      ensures port.Seen() == Clock(old(port.Seen()), b).(level := Level(!ok, b))
      ensures ok <==> Rises(port.slave, old(port.polls) + 1)
      ensures !ok ==> HeldUpTo(port.slave, port.polls)
      ensures ok ==> port.polls == WriteEnd(port.slave, old(port.polls))
    {
      hide Rises, HeldUpTo, Up, LinesOf;
      Sda(b);
      ok := RaiseScl();
      if ok {
        Scl(false);
      }
    }

    /** One clock with the data line released, sampled while the clock is high. */
    method BitRead() returns (ok: bool, b: bool)
      requires Tracks() && !port.Seen().level.scl
      modifies port
      ensures Tracks()
      ensures port.Seen() == Clock(old(port.Seen()), true).(level := Level(!ok, true))
      ensures ok ==> b == port.slave(ReadAt(port.slave, old(port.polls))).sda
      ensures ok <==> Rises(port.slave, old(port.polls) + 1)
      ensures !ok ==> HeldUpTo(port.slave, port.polls)
      ensures ok ==> port.polls == ReadEnd(port.slave, old(port.polls)) == ReadAt(port.slave, old(port.polls)) + 2
    {
      hide Rises, HeldUpTo, Up, LinesOf;
      b := false;
      Sda(true);
      ok := RaiseScl();
      if ok {
        b := SenseSda();
        Scl(false);
      }
    }

    /** Eight clocks of data and one for the acknowledge. */
    method PutByte(value: byte) returns (status: Status)
      requires Tracks() && port.Seen().bits == [] && !port.Seen().level.scl
      modifies port
      ensures Tracks() && |port.Seen().bits| <= 8
      ensures status != Stuck ==>
                port.Seen().out == old(port.Seen()).out + [Sent(value)] && port.Seen().bits == [] &&
                !port.Seen().level.scl && port.polls >= 2 && (port.slave(port.polls - 2).sda <==> status == Nack)
      ensures Partly(old(port.Seen()).out, [Sent(value)], port.Seen().out)
      ensures status == Stuck ==> HeldUpTo(port.slave, port.polls)
      ensures status == PutStatus(port.slave, old(port.polls))
      ensures status != Stuck ==> port.polls == PutEnd(port.slave, old(port.polls))
    {
      hide Observe, Feed, LinesOf, Pow2, HeldUpTo, Rises, WriteEnd, ReadEnd, ReadAt;
      ghost var before := port.Seen().out;
      PartlyNothing(before, [Sent(value)]);
      assert [Sent(value)][..1] == [Sent(value)];
      var k := 0;
      while k < 8
        invariant 0 <= k <= 8 && Tracks() && !port.Seen().level.scl
        invariant port.Seen().out == before && port.Seen().bits == BitsOf(value)[..k]
        invariant port.polls == WritesEnd(port.slave, old(port.polls), k)
        invariant WritesFine(port.slave, old(port.polls), k)
      {
        var ok := BitWrite(value as int / Pow2(7 - k) % 2 == 1);
        assert BitsOf(value)[..k + 1] == BitsOf(value)[..k] + [BitsOf(value)[k]];
        if !ok {
          return Stuck;
        }
        k := k + 1;
      }
      assert BitsOf(value)[..8] == BitsOf(value);
      var ok, nack := BitRead();
      assert port.Seen().out == before + [Sent(value)] && port.Seen().bits == [];
      return if !ok then Stuck else if nack then Nack else Done;
    }

    method GetByte(last: bool) returns (status: Status, value: byte)
      requires Tracks() && port.Seen().bits == [] && !port.Seen().level.scl
      modifies port
      ensures Tracks() && |port.Seen().bits| <= 8
      ensures status == Done ==>
                port.Seen().out == old(port.Seen()).out + [Taken(last)] && port.Seen().bits == [] &&
                !port.Seen().level.scl
      ensures Partly(old(port.Seen()).out, [Taken(last)], port.Seen().out)
      ensures status == Stuck ==> HeldUpTo(port.slave, port.polls)
      ensures status == GetStatus(port.slave, old(port.polls))
      ensures status == Done ==> port.polls == GetEnd(port.slave, old(port.polls))
      ensures status == Done ==> value == ByteRead(port.slave, old(port.polls))
    {
      hide HeldUpTo, Rises, Collected, Or, Pow2, Value, LinesOf, WriteEnd, ReadEnd, ReadAt;
      ghost var before, bits := port.Seen().out, ByteBits(port.slave, port.polls);
      PartlyNothing(before, [Taken(last)]);
      assert [Taken(last)][..1] == [Taken(last)];
      var v: nat := 0;
      CollectNone(bits);
      var k := 0;
      while k < 8
        invariant 0 <= k <= 8 && Tracks() && !port.Seen().level.scl
        invariant port.Seen().out == before && port.Seen().bits == Released()[..k]
        invariant port.polls == ReadsEnd(port.slave, old(port.polls), k)
        invariant ReadsFine(port.slave, old(port.polls), k) && Collected(bits, v, k)
      {
        var ok, b := BitRead();
        assert Released()[..k + 1] == Released()[..k] + [true];
        if !ok {
          return Stuck, 0;
        }
        CollectNext(bits, v, k);
        v := Or(v, (if b then 1 else 0) * Pow2(7 - k));
        k := k + 1;
      }
      CollectAll(bits, v);
      assert Released()[..8] == Released();
      var ok := BitWrite(last);
      if !ok {
        return Stuck, 0;
      }
      return Done, v;
    }

    /** Between bytes: the clock is low and no frame is under way. */
    ghost predicate Ready()
      reads this, port
    {
      Tracks() && port.Seen().bits == [] && !port.Seen().level.scl
    }

    /** A failure is the slave's: it left the last byte sent without an
        acknowledge, or held the clock for all the time allowed. */
    ghost predicate FailedBy(status: Status)
      reads port
    {
      (status == Nack ==> port.polls >= 2 && port.slave(port.polls - 2).sda) &&
      (status == Stuck ==> HeldUpTo(port.slave, port.polls))
    }

    method WriteBytes(data: seq<byte>) returns (status: Status)
      requires Ready()
      modifies port
      ensures Tracks() && |port.Seen().bits| <= 8
      ensures status == Done ==> Ready() && port.Seen().out == old(port.Seen()).out + Payload(Write(data))
      ensures Partly(old(port.Seen()).out, Payload(Write(data)), port.Seen().out)
      ensures FailedBy(status)
      ensures status == PutsStatus(port.slave, old(port.polls), |data|)
      ensures status == Done ==> port.polls == PutsEnd(port.slave, old(port.polls), |data|)
    {
      hide HeldUpTo, PutStatus, PutEnd, Observe, Feed, LinesOf, BitsOf;
      ghost var before, plan := port.Seen().out, Payload(Write(data));
      ghost var n, s := port.polls, port.slave;
      PartlyNothing(before, plan);
      for i := 0 to |data|
        invariant Ready() && port.Seen().out == before + plan[..i]
        invariant PutsStatus(s, n, |data|) == PutsStatus(s, port.polls, |data| - i)
        invariant PutsEnd(s, n, |data|) == PutsEnd(s, port.polls, |data| - i)
      {
        assert plan[..i] + [Sent(data[i])] == plan[..i + 1];
        status := PutByte(data[i]);
        PartlyMore(before, plan[..i], [Sent(data[i])], plan, port.Seen().out);
        if status != Done {
          return;
        }
      }
      assert plan[..|data|] == plan;
      assert before + plan == before + plan[..|plan|];
      return Done;
    }

    method ReadBytes(count: nat) returns (status: Status, data: seq<byte>)
      requires Ready()
      modifies port
      ensures Tracks() && |port.Seen().bits| <= 8
      ensures status == Done ==> Ready() && port.Seen().out == old(port.Seen()).out + Payload(Read(count))
      ensures Partly(old(port.Seen()).out, Payload(Read(count)), port.Seen().out)
      ensures FailedBy(status)
      ensures status == GetsStatus(port.slave, old(port.polls), count)
      ensures status == Done ==> port.polls == GetsEnd(port.slave, old(port.polls), count)
      ensures status == Done ==> data == BytesRead(port.slave, old(port.polls), count)
    {
      hide HeldUpTo, GetStatus, GetEnd, ByteRead, Observe, Feed, LinesOf, BitsOf;
      ghost var before, plan := port.Seen().out, Payload(Read(count));
      ghost var n, s := port.polls, port.slave;
      PartlyNothing(before, plan);
      data := [];
      for i := 0 to count
        invariant Ready() && port.Seen().out == before + plan[..i]
        invariant GetsStatus(s, n, count) == GetsStatus(s, port.polls, count - i)
        invariant GetsEnd(s, n, count) == GetsEnd(s, port.polls, count - i)
        invariant data + BytesRead(s, port.polls, count - i) == BytesRead(s, n, count)
      {
        assert plan[..i] + [Taken(i + 1 == count)] == plan[..i + 1];
        var value;
        ghost var at := port.polls;
        status, value := GetByte(i + 1 == count);
        PartlyMore(before, plan[..i], [Taken(i + 1 == count)], plan, port.Seen().out);
        if status != Done {
          return status, data;
        }
        assert data + BytesRead(s, at, count - i) == data + [value] + BytesRead(s, port.polls, count - i - 1);
        data := data + [value];
      }
      assert plan[..count] == plan;
      assert before + plan == before + plan[..|plan|];
      return Done, data;
    }

    /** The lines are free, or the host holds the clock low after a message. */
    ghost predicate Open()
      reads this, port
    {
      Tracks() && port.Seen().bits == [] && (port.Seen().level == Level(true, true) || !port.Seen().level.scl)
    }

    /** One message of a transfer: START, address byte, then its data. */
    method Transfer(addr: nat, m: Message) returns (status: Status, data: seq<byte>)
      requires Open()
      modifies port
      ensures Tracks() && |port.Seen().bits| <= 8
      ensures status == Done ==> Ready() && port.Seen().out == old(port.Seen()).out + Plan(addr, m)
      ensures Partly(old(port.Seen()).out, Plan(addr, m), port.Seen().out)
      ensures FailedBy(status)
      ensures status == MessageStatus(port.slave, old(port.polls), old(port.Seen()).level.scl, m)
      ensures status == Done ==>
                port.polls == MessageEnd(port.slave, old(port.polls), old(port.Seen()).level.scl, m)
      ensures status == Done ==>
                data == MessageData(port.slave, old(port.polls), old(port.Seen()).level.scl, m)
    {
      hide HeldUpTo, PutStatus, PutEnd, PutsStatus, PutsEnd, GetsStatus, GetsEnd, BytesRead, StartFine, StartEnd,
           Partly, Payload, AddressByte, Observe, Feed, IsFrame, LinesOf, BitsOf;
      data := [];
      ghost var before, plan := port.Seen().out, Plan(addr, m);
      ghost var head := [S, Sent(AddressByte(addr, m))];
      PartlyNothing(before, plan);
      assert head == plan[..2] && plan[2..] == Payload(m) && [S] + [head[1]] == head;
      var ok := Start();
      if !ok {
        return Stuck, data;
      }
      status := PutByte(AddressByte(addr, m));
      PartlyMore(before, [S], [head[1]], plan, port.Seen().out);
      if status != Done {
        return;
      }
      assert port.Seen().out == before + head;
      if m.Read? {
        status, data := ReadBytes(m.count);
      } else {
        status := WriteBytes(m.data);
      }
      PartlyMore(before, head, Payload(m), plan, port.Seen().out);
      assert before + head + Payload(m) == before + plan;
    }

    /** All messages up to the first that fails. */
    method TransferAll(addr: nat, ms: seq<Message>) returns (status: Status, data: seq<seq<byte>>)
      requires Open() && port.Seen().level == Level(true, true)
      modifies port
      ensures Tracks() && |port.Seen().bits| <= 8
      ensures status == Done ==>
                port.Seen().out == old(port.Seen()).out + PlanAll(addr, ms) && port.Seen().bits == []
      ensures Partly(old(port.Seen()).out, PlanAll(addr, ms), port.Seen().out)
      ensures FailedBy(status)
      ensures Run(port.slave, old(port.polls), true, ms) == if status == Done then Ok(data) else Failed(status)
    {
      hide Plan, PlanAll, Partly, Observe, Feed, IsFrame, LinesOf, HeldUpTo, MessageStatus, MessageEnd, MessageData,
           Run, Through;
      data := [];
      ghost var before, plan := Progress(port.Seen().out, port.polls), PlanAll(addr, ms);
      PartlyNothing(before.out, plan);
      ThroughNone(addr, port.slave, ms, before);
      for i := 0 to |ms|
        invariant Open() && Partly(before.out, plan, port.Seen().out) && (i == 0 <==> port.Seen().level.scl)
        invariant Through(addr, port.slave, ms, i, before, Progress(port.Seen().out, port.polls), data)
      {
        ghost var mid := Progress(port.Seen().out, port.polls);
        var bytes;
        status, bytes := Transfer(addr, ms[i]);
        PartlyInPlan(addr, port.slave, ms, i, before, mid, data, port.Seen().out);
        if status != Done {
          return;
        }
        ThroughNext(addr, port.slave, ms, i, before, mid, Progress(port.Seen().out, port.polls), data, bytes);
        data := data + Collect(ms[i], bytes);
      }
      ThroughAll(addr, port.slave, ms, before, Progress(port.Seen().out, port.polls), data);
      return Done, data;
    }

    /** The port's first use releases both lines. */
    method Prepare()
      requires inited ==> Tracks() && port.Seen().bits == [] && port.Seen().level == Level(true, true)
      requires !inited ==> port.log == []
      modifies port, this`inited
      ensures inited && Tracks() && port.Seen().bits == [] && port.Seen().level == Level(true, true)
      ensures port.Seen().out == old(port.Seen()).out && port.polls == old(port.polls)
    {
      if !inited {
        assert LinesOf(0x7) == Level(true, true);
        port.Write32(0x7);
        inited := true;
      }
    }

    /** A whole transfer: every exit releases both lines after one STOP, and a
        successful one is, to a listener, exactly the messages. The outcome is the
        one worked out from the slave: the data of every read message, each byte
        from the samples of its eight clocks, or the first failure. Against a slave
        that never holds the clock it is Ok exactly when every byte sent is
        acknowledged. */
    method Xfer(addr: nat, ms: seq<Message>) returns (r: Outcome)
      requires inited ==> Tracks() && port.Seen().bits == [] && port.Seen().level == Level(true, true)
      requires !inited ==> port.log == []
      modifies port, this
      ensures inited && Tracks() && port.Seen().bits == [] && port.Seen().level == Level(true, true)
      ensures r == Run(port.slave, old(port.polls), true, ms)
      ensures NeverHolds(port.slave) ==>
                r == if AllAcked(port.slave, old(port.polls), true, ms)
                     then Ok(AllPolled(port.slave, old(port.polls), true, ms)) else Failed(Nack)
      ensures r.Ok? ==> port.Seen().out == old(port.Seen()).out + PlanAll(addr, ms) + [P] && Answers(ms, r.data)
      ensures r.Ok? ==> Listen(PlanAll(addr, ms), []) == Messages(Times(|ms|, addr % 128), ms)
      ensures r.Failed? ==> CutShort(old(port.Seen()).out, PlanAll(addr, ms), port.Seen().out)
      ensures r == Failed(Nack) ==> port.polls >= 6 && port.slave(port.polls - 6).sda
      ensures r == Failed(Stuck) ==> port.polls >= 4 && HeldUpTo(port.slave, port.polls - 4)
    {
      hide PlanAll, Partly, Answers, Run, Listen, NeverHolds, HeldUpTo, AllAcked, AllPolled, Observe, Feed, LinesOf,
           CutShort;
      Prepare();
      ghost var before, n := port.Seen().out, port.polls;
      var status, data := TransferAll(addr, ms);
      ghost var at := port.Seen();
      Stop();
      if NeverHolds(port.slave) {
        RunUnheld(port.slave, n, true, ms);
      }
      if status == Done {
        RunAnswers(port.slave, n, true, ms);
        HearPlan(addr, ms);
        return Ok(data);
      }
      StoppedShort(before, PlanAll(addr, ms), at, port.Seen().out);
      return Failed(status);
    }
  }
}
