/** Reading an I2C waveform: an observer of the two lines that reports START and
    STOP conditions and nine-clock frames, and what a transfer should look like
    to it (NXP UM10204, sections 3.1.4 to 3.1.6). */
module I2cWire {
  import opened Bits
  import opened Words

  datatype Level = Level(scl: bool, sda: bool)
  datatype Symbol = S | P | Frame(bits: seq<bool>)

  /** Last level seen, clocks since the last frame or condition, and the report. */
  datatype Observer = Observer(level: Level, bits: seq<bool>, out: seq<Symbol>)

  /** A clock with the data line at b. */
  function Clock(o: Observer, b: bool): Observer {
    if |o.bits| < 8 then Observer(Level(true, b), o.bits + [b], o.out)
    else Observer(Level(true, b), [], o.out + [Frame(o.bits + [b])])
  }

  function Feed(o: Observer, next: Level): Observer {
    if !o.level.scl && next.scl then Clock(o, next.sda)
    else if o.level.scl && next.scl && o.level.sda != next.sda then
      Observer(next, [], o.out + [if next.sda then P else S])
    else o.(level := next)
  }

  function Observe(log: seq<Level>): Observer
    decreases |log|
  {
    if log == [] then Observer(Level(true, true), [], []) else Feed(Observe(log[..|log| - 1]), log[|log| - 1])
  }

  // ---- what a transfer should look like -----------------------------------------

  datatype Message = Read(count: nat) | Write(data: seq<byte>)

  /** Eight bits of a byte, most significant first. */
  function BitsOf(v: nat): (r: seq<bool>)
    ensures |r| == 8
  {
    seq(8, k requires 0 <= k < 8 => v / Pow2(7 - k) % 2 == 1)
  }

  function Released(): (r: seq<bool>)
    ensures |r| == 8 && forall k :: 0 <= k < 8 ==> r[k]
  {
    seq(8, k => true)
  }

  function AddressByte(addr: nat, m: Message): byte {
    2 * (addr % 128) + if m.Read? then 1 else 0
  }

  /** A byte the host sends: the ninth clock is released for the acknowledge. */
  function Sent(v: nat): Symbol {
    Frame(BitsOf(v) + [true])
  }

  /** A byte the host reads: data released, ninth clock high only on the last. */
  function Taken(last: bool): Symbol {
    Frame(Released() + [last])
  }

  function Payload(m: Message): (r: seq<Symbol>)
    ensures |r| == if m.Read? then m.count else |m.data|
  {
    match m
    case Read(count) => seq(count, i requires 0 <= i < count => Taken(i + 1 == count))
    case Write(data) => seq(|data|, i requires 0 <= i < |data| => Sent(data[i]))
  }

  function Plan(addr: nat, m: Message): seq<Symbol> {
    [S, Sent(AddressByte(addr, m))] + Payload(m)
  }

  function PlanAll(addr: nat, ms: seq<Message>): seq<Symbol>
    decreases |ms|
  {
    if ms == [] then [] else PlanAll(addr, ms[..|ms| - 1]) + Plan(addr, ms[|ms| - 1])
  }

  // ---- reading it back -----------------------------------------------------------

  function Value(bits: seq<bool>): nat
    decreases |bits|
  {
    if bits == [] then 0 else 2 * Value(bits[..|bits| - 1]) + if bits[|bits| - 1] then 1 else 0
  }

  /** The top k of eight bits. */
  function Top(v: nat, k: nat): nat
    requires k <= 8
  {
    v / Pow2(8 - k) % Pow2(k)
  }

  lemma {:induction false} ValueOfBits(v: nat, k: nat)
    requires k <= 8
    ensures Value(BitsOf(v)[..k]) == Top(v, k)
    decreases k
  {
    hide Top, Pow2;
    var bits := BitsOf(v)[..k];
    if k == 0 {
      assert bits == [];
      TopNone(v, k);
    } else {
      ValueOfBits(v, k - 1);
      TopBits(v, k - 1);
      assert bits[..k - 1] == BitsOf(v)[..k - 1];
      assert bits[k - 1] <==> v / Pow2(7 - (k - 1)) % 2 == 1;
    }
  }

  lemma TopNone(v: nat, k: nat)
    requires k == 0
    ensures Top(v, k) == 0
  {
    assert Pow2(k) == 1;
  }

  lemma TopBits(v: nat, k: nat)
    requires k < 8
    ensures 2 * Top(v, k) + v / Pow2(7 - k) % 2 == Top(v, k + 1)
  {
    var p := Pow2(7 - k);
    assert Pow2(8 - k) == 2 * p && Pow2(k + 1) == 2 * Pow2(k);
    DivTwice(v, p);
    HalveDivMod(v / p, Pow2(k));
  }

  datatype Heard = Garbled | Messages(addrs: seq<nat>, ms: seq<Message>)

  predicate IsFrame(x: Symbol) {
    x.Frame? && |x.bits| == 9
  }

  predicate AllFrames(xs: seq<Symbol>) {
    forall i :: 0 <= i < |xs| ==> IsFrame(xs[i])
  }

  function ByteHeard(x: Symbol): byte
    requires IsFrame(x)
  {
    ValueBelow(x.bits[..8]);
    Value(x.bits[..8])
  }

  lemma {:induction false} ValueBelow(bits: seq<bool>)
    ensures Value(bits) < Pow2(|bits|)
    ensures |bits| == 8 ==> Value(bits) < 0x100
    decreases |bits|
  {
    if bits != [] {
      ValueBelow(bits[..|bits| - 1]);
    }
    if |bits| == 8 {
      Powers();
    }
  }

  /** The message that an address frame and the frames after it stand for. */
  function MessageHeard(frames: seq<Symbol>): Message
    requires |frames| > 0 && AllFrames(frames)
  {
    if ByteHeard(frames[0]) % 2 == 1 then Read(|frames| - 1)
    else Write(seq(|frames| - 1, i requires 0 <= i < |frames| - 1 => ByteHeard(frames[i + 1])))
  }

  /** What a listener makes of a report, read from its end; `tail` holds the
      frames met since the last START looking backwards. */
  function Listen(symbols: seq<Symbol>, tail: seq<Symbol>): Heard
    requires AllFrames(tail)
    decreases |symbols|
  {
    if symbols == [] then if tail == [] then Messages([], []) else Garbled
    else
      var rest, last := symbols[..|symbols| - 1], symbols[|symbols| - 1];
      if last == S && tail != [] then
        match Listen(rest, [])
        case Messages(addrs, ms) =>
          Messages(addrs + [ByteHeard(tail[0]) as int / 2], ms + [MessageHeard(tail)])
        case Garbled => Garbled
      else if IsFrame(last) then Listen(rest, [last] + tail)
      else Garbled
  }

  lemma {:induction false} ListenFrames(before: seq<Symbol>, frames: seq<Symbol>, tail: seq<Symbol>)
    requires AllFrames(frames)
    requires AllFrames(tail)
    ensures Listen(before + frames, tail) == Listen(before, frames + tail)
    decreases |frames|
  {
    if frames == [] {
      assert before + frames == before && frames + tail == tail;
    } else {
      var init, last := frames[..|frames| - 1], frames[|frames| - 1];
      assert (before + frames)[..|before + frames| - 1] == before + init;
      assert init + ([last] + tail) == frames + tail;
      ListenFrames(before, init, [last] + tail);
    }
  }

  lemma TopAll(v: byte)
    ensures Top(v, 8) == v
  {
    Powers();
    assert Pow2(0) == 1;
  }

  lemma HearSent(v: byte)
    ensures IsFrame(Sent(v)) && ByteHeard(Sent(v)) == v
  {
    hide Top, Value;
    ValueOfBits(v, 8);
    TopAll(v);
    assert (BitsOf(v) + [true])[..8] == BitsOf(v)[..8] == BitsOf(v);
  }

  /** The frames of one planned message are heard as that message. */
  lemma HearMessage(addr: nat, m: Message, frames: seq<Symbol>)
    requires frames == [Sent(AddressByte(addr, m))] + Payload(m)
    ensures AllFrames(frames)
    ensures MessageHeard(frames) == m && ByteHeard(frames[0]) as int / 2 == addr % 128
  {
    hide Sent, ByteHeard, Value;
    HearSent(AddressByte(addr, m));
    match m
    case Read(count) =>
      forall i | 0 <= i < count ensures IsFrame(Payload(m)[i]) {
        assert Payload(m)[i] == Taken(i + 1 == count);
        assert |Released() + [i + 1 == count]| == 9;
      }
    case Write(data) =>
      forall i | 0 <= i < |data| ensures IsFrame(Sent(data[i])) && ByteHeard(Sent(data[i])) == data[i] {
        HearSent(data[i]);
      }
      assert MessageHeard(frames).data == data;
  }

  lemma ListenStart(before: seq<Symbol>, tail: seq<Symbol>, addrs: seq<nat>, ms: seq<Message>)
    requires AllFrames(tail) && tail != [] && Listen(before, []) == Messages(addrs, ms)
    ensures Listen(before + [S], tail) == Messages(addrs + [ByteHeard(tail[0]) as int / 2], ms + [MessageHeard(tail)])
  {
    hide MessageHeard, ByteHeard;
    assert (before + [S])[..|before|] == before;
  }

  function Times(n: nat, addr: nat): seq<nat> {
    seq(n, i => addr)
  }

  /** A planned transfer is heard as exactly its messages, each to that address. */
  lemma {:induction false} HearPlan(addr: nat, ms: seq<Message>)
    ensures Listen(PlanAll(addr, ms), []) == Messages(Times(|ms|, addr % 128), ms)
    decreases |ms|
  {
    hide MessageHeard, ByteHeard, Payload, Sent, IsFrame;
    if ms != [] {
      var before, m := ms[..|ms| - 1], ms[|ms| - 1];
      var frames := [Sent(AddressByte(addr, m))] + Payload(m);
      var start := PlanAll(addr, before) + [S];
      HearPlan(addr, before);
      HearMessage(addr, m, frames);
      assert PlanAll(addr, ms) == start + frames && frames + [] == frames && before + [m] == ms;
      assert Times(|ms|, addr % 128) == Times(|before|, addr % 128) + [addr % 128];
      hide Listen, PlanAll, AllFrames;
      ListenFrames(start, frames, []);
      ListenStart(PlanAll(addr, before), frames, Times(|before|, addr % 128), before);
    }
  }
}
