/** Which reads of the port sample what during a transfer of the host of
    examples_en210/add.py, worked out from the slave alone: the slave may hold the
    clock low at any poll, so every position depends on when it lets go. When it
    never does, the positions are plain numbers. */
module I2cTiming {
  import opened Bits
  import opened Words
  import opened I2cWire

  const TIMEOUT := 2200

  /** Some poll in the time allowed after read `from` finds the clock let go. */
  predicate Rises(slave: nat -> Level, from: nat) {
    exists n :: from < n <= from + 2200 && slave(n).scl
  }

  /** The slave has held the clock low at each of the last polls, the time allowed. */
  predicate HeldUpTo(slave: nat -> Level, n: nat) {
    n >= 2200 && forall i :: n - 2200 <= i < n ==> !slave(i).scl
  }

  ghost predicate NeverHolds(slave: nat -> Level) {
    forall n :: slave(n).scl
  }

  // ---- one clock ------------------------------------------------------------------

  function FirstUp(slave: nat -> Level, n: nat, tries: nat): nat
    decreases tries
  {
    if tries == 0 || slave(n).scl then n else FirstUp(slave, n + 1, tries - 1)
  }

  /** The poll that finds the clock let go when it is released at read `from`. */
  function Up(slave: nat -> Level, from: nat): nat {
    FirstUp(slave, from + 1, TIMEOUT)
  }

  /** One bit written from read n on: the read that follows it. */
  function WriteEnd(slave: nat -> Level, n: nat): nat {
    Up(slave, n + 1) + 2
  }

  /** One bit read from read n on: the read that samples it, and the one that follows. */
  function ReadAt(slave: nat -> Level, n: nat): nat {
    Up(slave, n + 1) + 1
  }

  function ReadEnd(slave: nat -> Level, n: nat): nat {
    Up(slave, n + 1) + 3
  }

  lemma FirstUpStep(slave: nat -> Level, n: nat, tries: nat)
    requires tries > 0
    ensures FirstUp(slave, n, tries) == if slave(n).scl then n else FirstUp(slave, n + 1, tries - 1)
  {
  }

  lemma {:induction false} FirstUpIs(slave: nat -> Level, n: nat, tries: nat)
    ensures n <= FirstUp(slave, n, tries) <= n + tries
    ensures forall i :: n <= i < FirstUp(slave, n, tries) ==> !slave(i).scl
    ensures FirstUp(slave, n, tries) < n + tries ==> slave(FirstUp(slave, n, tries)).scl
    decreases tries
  {
    if tries > 0 && !slave(n).scl {
      FirstUpIs(slave, n + 1, tries - 1);
    }
  }

  /** A bit is sampled at the read behind the first poll that finds the clock let go,
      and the read behind the sample is the one that pulls the clock low again. */
  lemma SampleIs(slave: nat -> Level, n: nat)
    requires Rises(slave, n + 1)
    ensures n + 3 <= ReadAt(slave, n) <= n + 2202 && ReadEnd(slave, n) == ReadAt(slave, n) + 2
    ensures slave(ReadAt(slave, n) - 1).scl
    ensures forall i :: n + 2 <= i < ReadAt(slave, n) - 1 ==> !slave(i).scl
  {
    hide FirstUp;
    FirstUpIs(slave, n + 2, TIMEOUT);
    var m :| n + 1 < m <= n + 2201 && slave(m).scl;
    assert FirstUp(slave, n + 2, TIMEOUT) <= m;
  }

  lemma ClockUnheld(slave: nat -> Level, n: nat)
    requires NeverHolds(slave)
    ensures Rises(slave, n) && Up(slave, n) == n + 1
  {
    assert slave(n + 1).scl;
  }

  // ---- one byte -------------------------------------------------------------------

  datatype Status = Done | Nack | Stuck

  /** The read that follows k bits written, or read, from read n on. */
  function WritesEnd(slave: nat -> Level, n: nat, k: nat): nat {
    if k == 0 then n else WriteEnd(slave, WritesEnd(slave, n, k - 1))
  }

  function ReadsEnd(slave: nat -> Level, n: nat, k: nat): nat {
    if k == 0 then n else ReadEnd(slave, ReadsEnd(slave, n, k - 1))
  }

  /** The slave lets go of the clock in time for each of the first k bits. */
  predicate WritesFine(slave: nat -> Level, n: nat, k: nat) {
    forall j :: 0 <= j < k ==> Rises(slave, WritesEnd(slave, n, j) + 1)
  }

  predicate ReadsFine(slave: nat -> Level, n: nat, k: nat) {
    forall j :: 0 <= j < k ==> Rises(slave, ReadsEnd(slave, n, j) + 1)
  }

  /** A byte put from read n on: eight bits out, and the acknowledge read back. */
  function PutStatus(slave: nat -> Level, n: nat): Status {
    var t := WritesEnd(slave, n, 8);
    if !WritesFine(slave, n, 8) || !Rises(slave, t + 1) then Stuck
    else if slave(ReadAt(slave, t)).sda then Nack else Done
  }

  function PutEnd(slave: nat -> Level, n: nat): nat {
    ReadEnd(slave, WritesEnd(slave, n, 8))
  }

  /** A byte got from read n on: eight bits in, and the acknowledge written. */
  function GetStatus(slave: nat -> Level, n: nat): (r: Status)
    ensures r != Nack
  {
    if ReadsFine(slave, n, 8) && Rises(slave, ReadsEnd(slave, n, 8) + 1) then Done else Stuck
  }

  function GetEnd(slave: nat -> Level, n: nat): nat {
    WriteEnd(slave, ReadsEnd(slave, n, 8))
  }

  /** The data line as the slave left it at the sample of each of the eight clocks. */
  function ByteBits(slave: nat -> Level, n: nat): (r: seq<bool>)
    ensures |r| == 8
  {
    seq(8, j requires 0 <= j < 8 => slave(ReadAt(slave, ReadsEnd(slave, n, j))).sda)
  }

  function ByteRead(slave: nat -> Level, n: nat): byte {
    ValueBelow(ByteBits(slave, n));
    Value(ByteBits(slave, n))
  }

  function Weight(bits: seq<bool>, j: nat, weight: nat): nat
    requires j < |bits|
  {
    if bits[j] then weight else 0
  }

  function EightBits(bits: seq<bool>): nat
    requires |bits| == 8
  {
    Weight(bits, 0, 0x80) + Weight(bits, 1, 0x40) + Weight(bits, 2, 0x20) + Weight(bits, 3, 0x10) +
    Weight(bits, 4, 8) + Weight(bits, 5, 4) + Weight(bits, 6, 2) + Weight(bits, 7, 1)
  }

  lemma ValueNext(bits: seq<bool>, k: nat)
    requires k < |bits|
    ensures Value(bits[..k + 1]) == 2 * Value(bits[..k]) + Weight(bits, k, 1)
  {
    assert bits[..k + 1][..k] == bits[..k];
  }

  lemma ValueNone(bits: seq<bool>)
    ensures Value(bits[..0]) == 0
  {
  }

  lemma WeightsScale(bits: seq<bool>)
    ensures forall j: nat, w: nat :: j < |bits| ==> Weight(bits, j, w) == w * Weight(bits, j, 1)
  {
  }

  lemma ValueIsWeights(bits: seq<bool>)
    requires |bits| == 8
    ensures Value(bits) == EightBits(bits)
  {
    hide Value, Weight;
    WeightsScale(bits);
    ValueNone(bits);
    ValueNext(bits, 0);
    ValueNext(bits, 1);
    ValueNext(bits, 2);
    ValueNext(bits, 3);
    ValueNext(bits, 4);
    ValueNext(bits, 5);
    ValueNext(bits, 6);
    ValueNext(bits, 7);
    assert bits[..8] == bits;
  }

  /** At the sample of each clock the slave leaves the data line at the next bit of x,
      the high bit first. */
  predicate Presents(slave: nat -> Level, n: nat, x: byte) {
    forall j :: 0 <= j < 8 ==> slave(ReadAt(slave, ReadsEnd(slave, n, j))).sda == (x as int / Pow2(7 - j) % 2 == 1)
  }

  /** A byte that the slave shifts out, high bit first, is read as that byte. */
  lemma PresentedByte(slave: nat -> Level, n: nat, x: byte)
    requires Presents(slave, n, x)
    ensures ByteRead(slave, n) == x
  {
    hide Top, Value, ReadAt, ReadsEnd;
    assert ByteBits(slave, n) == BitsOf(x);
    ValueOfBits(x, 8);
    TopAll(x);
    assert BitsOf(x)[..8] == BitsOf(x);
  }

  // ---- bytes, messages, transfers ---------------------------------------------------

  function PutsStatus(slave: nat -> Level, n: nat, count: nat): Status
    decreases count
  {
    if count == 0 then Done
    else if PutStatus(slave, n) != Done then PutStatus(slave, n)
    else PutsStatus(slave, PutEnd(slave, n), count - 1)
  }

  function PutsEnd(slave: nat -> Level, n: nat, count: nat): nat
    decreases count
  {
    if count == 0 then n else PutsEnd(slave, PutEnd(slave, n), count - 1)
  }

  function GetsStatus(slave: nat -> Level, n: nat, count: nat): (r: Status)
    ensures r != Nack
    decreases count
  {
    if count == 0 then Done
    else if GetStatus(slave, n) != Done then Stuck
    else GetsStatus(slave, GetEnd(slave, n), count - 1)
  }

  function GetsEnd(slave: nat -> Level, n: nat, count: nat): nat
    decreases count
  {
    if count == 0 then n else GetsEnd(slave, GetEnd(slave, n), count - 1)
  }

  function BytesRead(slave: nat -> Level, n: nat, count: nat): (r: seq<byte>)
    ensures |r| == count
    decreases count
  {
    if count == 0 then [] else [ByteRead(slave, n)] + BytesRead(slave, GetEnd(slave, n), count - 1)
  }

  /** START from read n on; `idle` when the host holds neither line. Both lines are
      sensed, the data line only if the clock is high, and unless they are free the
      clock is pulsed first. */
  function StartSensed(slave: nat -> Level, n: nat, idle: bool): nat {
    if idle && slave(n).scl then n + 2 else n + 1
  }

  predicate LinesFree(slave: nat -> Level, n: nat, idle: bool) {
    idle && slave(n).scl && slave(n + 1).sda
  }

  predicate StartFine(slave: nat -> Level, n: nat, idle: bool) {
    LinesFree(slave, n, idle) || Rises(slave, StartSensed(slave, n, idle) + 2)
  }

  function StartEnd(slave: nat -> Level, n: nat, idle: bool): nat {
    if LinesFree(slave, n, idle) then n + 4 else Up(slave, StartSensed(slave, n, idle) + 2) + 3
  }

  function PayloadStatus(slave: nat -> Level, n: nat, m: Message): Status {
    if m.Read? then GetsStatus(slave, n, m.count) else PutsStatus(slave, n, |m.data|)
  }

  function PayloadEnd(slave: nat -> Level, n: nat, m: Message): nat {
    if m.Read? then GetsEnd(slave, n, m.count) else PutsEnd(slave, n, |m.data|)
  }

  function MessageStatus(slave: nat -> Level, n: nat, idle: bool, m: Message): Status {
    var t := StartEnd(slave, n, idle);
    if !StartFine(slave, n, idle) then Stuck
    else if PutStatus(slave, t) != Done then PutStatus(slave, t)
    else PayloadStatus(slave, PutEnd(slave, t), m)
  }

  /** The read at which the payload of a message starts, and the one behind it. */
  function PayloadAt(slave: nat -> Level, n: nat, idle: bool): nat {
    PutEnd(slave, StartEnd(slave, n, idle))
  }

  function MessageEnd(slave: nat -> Level, n: nat, idle: bool, m: Message): nat {
    PayloadEnd(slave, PayloadAt(slave, n, idle), m)
  }

  /** What a message reads: nothing for a write. */
  function MessageData(slave: nat -> Level, n: nat, idle: bool, m: Message): (r: seq<byte>)
    ensures |r| == if m.Read? then m.count else 0
  {
    if m.Read? then BytesRead(slave, PayloadAt(slave, n, idle), m.count) else []
  }

  datatype Outcome = Ok(data: seq<seq<byte>>) | Failed(status: Status)

  /** One answer for each read message. */
  function Collect(m: Message, bytes: seq<byte>): seq<seq<byte>> {
    if m.Read? then [bytes] else []
  }

  function Before(data: seq<seq<byte>>, o: Outcome): Outcome {
    if o.Ok? then Ok(data + o.data) else o
  }

  /** The outcome of a transfer that starts at read n: the data of every read message,
      or how the first message that fails fails. */
  function Run(slave: nat -> Level, n: nat, idle: bool, ms: seq<Message>): (r: Outcome)
    ensures r != Failed(Done)
    decreases |ms|
  {
    if ms == [] then Ok([])
    else
      var m := ms[0];
      var status := MessageStatus(slave, n, idle, m);
      if status != Done then Failed(status)
      else
        Before(Collect(m, MessageData(slave, n, idle, m)), Run(slave, MessageEnd(slave, n, idle, m), false, ms[1..]))
  }

  /** One answer of the right length for each read message, in order. */
  predicate Answers(ms: seq<Message>, data: seq<seq<byte>>)
    decreases |ms|
  {
    if ms == [] then data == []
    else if ms[0].Write? then Answers(ms[1..], data)
    else data != [] && |data[0]| == ms[0].count && Answers(ms[1..], data[1..])
  }

  lemma {:induction false} RunAnswers(slave: nat -> Level, n: nat, idle: bool, ms: seq<Message>)
    requires Run(slave, n, idle, ms).Ok?
    ensures Answers(ms, Run(slave, n, idle, ms).data)
    decreases |ms|
  {
    hide MessageStatus, MessageEnd;
    if ms != [] {
      var rest := Run(slave, MessageEnd(slave, n, idle, ms[0]), false, ms[1..]);
      RunAnswers(slave, MessageEnd(slave, n, idle, ms[0]), false, ms[1..]);
      assert ([MessageData(slave, n, idle, ms[0])] + rest.data)[1..] == rest.data;
      assert [] + rest.data == rest.data;
    }
  }

  // ---- when the clock is never held ---------------------------------------------------

  /** A byte put from read n on takes 37 reads, its acknowledge is the 36th of them. */
  predicate Acked(slave: nat -> Level, n: nat) { !slave(n + 35).sda }

  function Polled(slave: nat -> Level, at: nat, weight: nat): nat {
    if slave(at).sda then weight else 0
  }

  /** A byte got from read n on takes 44 reads and is sampled at every fifth. */
  function PolledByte(slave: nat -> Level, n: nat): byte {
    Polled(slave, n + 3, 0x80) + Polled(slave, n + 8, 0x40) + Polled(slave, n + 13, 0x20) +
    Polled(slave, n + 18, 0x10) + Polled(slave, n + 23, 8) + Polled(slave, n + 28, 4) + Polled(slave, n + 33, 2) +
    Polled(slave, n + 38, 1)
  }

  predicate BytesAcked(slave: nat -> Level, n: nat, count: nat) {
    forall i :: 0 <= i < count ==> Acked(slave, n + 37 * i)
  }

  function PolledBytes(slave: nat -> Level, n: nat, count: nat): seq<byte> {
    seq(count, i requires 0 <= i < count => PolledByte(slave, n + 44 * i))
  }

  /** START senses both lines and, unless they are free, pulses the clock first. */
  function StartPolls(slave: nat -> Level, n: nat, idle: bool): nat {
    if !idle then 7 else if slave(n + 1).sda then 4 else 8
  }

  predicate MessageAcked(slave: nat -> Level, n: nat, idle: bool, m: Message) {
    var t := n + StartPolls(slave, n, idle);
    Acked(slave, t) && (m.Write? ==> BytesAcked(slave, t + 37, |m.data|))
  }

  function MessagePolls(slave: nat -> Level, n: nat, idle: bool, m: Message): nat {
    StartPolls(slave, n, idle) + 37 + if m.Read? then 44 * m.count else 37 * |m.data|
  }

  function PolledData(slave: nat -> Level, n: nat, idle: bool, m: Message): seq<byte> {
    if m.Read? then PolledBytes(slave, n + StartPolls(slave, n, idle) + 37, m.count) else []
  }

  /** The slave acknowledges every byte sent to it. */
  predicate AllAcked(slave: nat -> Level, n: nat, idle: bool, ms: seq<Message>)
    decreases |ms|
  {
    ms == [] ||
    (MessageAcked(slave, n, idle, ms[0]) && AllAcked(slave, n + MessagePolls(slave, n, idle, ms[0]), false, ms[1..]))
  }

  function AllPolled(slave: nat -> Level, n: nat, idle: bool, ms: seq<Message>): seq<seq<byte>>
    decreases |ms|
  {
    if ms == [] then []
    else
      Collect(ms[0], PolledData(slave, n, idle, ms[0])) +
      AllPolled(slave, n + MessagePolls(slave, n, idle, ms[0]), false, ms[1..])
  }

  lemma {:induction false} BitsUnheld(slave: nat -> Level, n: nat, k: nat)
    requires NeverHolds(slave)
    ensures WritesEnd(slave, n, k) == n + 4 * k && WritesFine(slave, n, k)
    ensures ReadsEnd(slave, n, k) == n + 5 * k && ReadsFine(slave, n, k)
    ensures ReadAt(slave, n + 5 * k) == n + 5 * k + 3
    decreases k
  {
    hide Rises, Up, NeverHolds;
    ClockUnheld(slave, n + 5 * k + 1);
    if k > 0 {
      BitsUnheld(slave, n, k - 1);
      ClockUnheld(slave, n + 4 * (k - 1) + 1);
      ClockUnheld(slave, n + 5 * (k - 1) + 1);
    }
  }

  lemma PutUnheld(slave: nat -> Level, n: nat)
    requires NeverHolds(slave)
    ensures PutStatus(slave, n) == (if Acked(slave, n) then Done else Nack) && PutEnd(slave, n) == n + 37
  {
    hide Rises, Up, NeverHolds, WritesEnd, WritesFine, ReadsEnd, ReadsFine;
    BitsUnheld(slave, n, 8);
    ClockUnheld(slave, n + 33);
  }

  lemma BitUnheld(slave: nat -> Level, n: nat, j: nat, weight: nat)
    requires NeverHolds(slave) && j < 8
    ensures Weight(ByteBits(slave, n), j, weight) == Polled(slave, n + 5 * j + 3, weight)
  {
    BitsUnheld(slave, n, j);
  }

  lemma GetUnheld(slave: nat -> Level, n: nat)
    requires NeverHolds(slave)
    ensures GetStatus(slave, n) == Done && GetEnd(slave, n) == n + 44
    ensures ByteRead(slave, n) == PolledByte(slave, n)
  {
    hide Rises, Up, NeverHolds, WritesEnd, WritesFine, ReadsEnd, ReadsFine, Value, ByteBits, Weight, Polled;
    BitsUnheld(slave, n, 8);
    ClockUnheld(slave, n + 41);
    ValueIsWeights(ByteBits(slave, n));
    BitUnheld(slave, n, 0, 0x80);
    BitUnheld(slave, n, 1, 0x40);
    BitUnheld(slave, n, 2, 0x20);
    BitUnheld(slave, n, 3, 0x10);
    BitUnheld(slave, n, 4, 8);
    BitUnheld(slave, n, 5, 4);
    BitUnheld(slave, n, 6, 2);
    BitUnheld(slave, n, 7, 1);
  }

  lemma {:induction false} PutsUnheld(slave: nat -> Level, n: nat, count: nat)
    requires NeverHolds(slave)
    ensures PutsStatus(slave, n, count) == if BytesAcked(slave, n, count) then Done else Nack
    ensures PutsEnd(slave, n, count) == n + 37 * count
    decreases count
  {
    hide PutStatus, PutEnd, NeverHolds, Acked;
    if count > 0 {
      PutUnheld(slave, n);
      PutsUnheld(slave, n + 37, count - 1);
      assert n + 37 * 0 == n;
      if BytesAcked(slave, n, count) {
        forall i | 0 <= i < count - 1 ensures Acked(slave, n + 37 + 37 * i) {
          assert n + 37 + 37 * i == n + 37 * (i + 1);
        }
      } else if Acked(slave, n) {
        var i :| 0 <= i < count && !Acked(slave, n + 37 * i);
        assert n + 37 * i == n + 37 + 37 * (i - 1);
      }
    }
  }

  lemma {:induction false} GetsUnheld(slave: nat -> Level, n: nat, count: nat)
    requires NeverHolds(slave)
    ensures GetsStatus(slave, n, count) == Done && GetsEnd(slave, n, count) == n + 44 * count
    ensures BytesRead(slave, n, count) == PolledBytes(slave, n, count)
    decreases count
  {
    hide GetStatus, GetEnd, NeverHolds, ByteRead, PolledByte;
    if count > 0 {
      GetUnheld(slave, n);
      GetsUnheld(slave, n + 44, count - 1);
      assert n + 44 * 0 == n;
      forall i | 0 < i < count ensures BytesRead(slave, n, count)[i] == PolledByte(slave, n + 44 * i) {
        assert n + 44 + 44 * (i - 1) == n + 44 * i;
      }
    }
  }

  lemma StartUnheld(slave: nat -> Level, n: nat, idle: bool)
    requires NeverHolds(slave)
    ensures StartFine(slave, n, idle) && StartEnd(slave, n, idle) == n + StartPolls(slave, n, idle)
  {
    hide Rises, Up;
    ClockUnheld(slave, StartSensed(slave, n, idle) + 2);
  }

  lemma MessageUnheld(slave: nat -> Level, n: nat, idle: bool, m: Message)
    requires NeverHolds(slave)
    ensures MessageStatus(slave, n, idle, m) == if MessageAcked(slave, n, idle, m) then Done else Nack
    ensures MessageEnd(slave, n, idle, m) == n + MessagePolls(slave, n, idle, m)
    ensures MessageData(slave, n, idle, m) == PolledData(slave, n, idle, m)
  {
    hide NeverHolds, StartFine, StartEnd, StartPolls, PutStatus, PutEnd, Acked, BytesAcked, PutsStatus, PutsEnd,
         GetsStatus, GetsEnd, BytesRead, PolledBytes;
    StartUnheld(slave, n, idle);
    PutUnheld(slave, n + StartPolls(slave, n, idle));
    if m.Read? {
      GetsUnheld(slave, n + StartPolls(slave, n, idle) + 37, m.count);
    } else {
      PutsUnheld(slave, n + StartPolls(slave, n, idle) + 37, |m.data|);
    }
  }

  /** Against a slave that never holds the clock a transfer succeeds exactly when every
      byte sent is acknowledged, and then reads the data line at these reads. */
  lemma {:induction false} RunUnheld(slave: nat -> Level, n: nat, idle: bool, ms: seq<Message>)
    requires NeverHolds(slave)
    ensures Run(slave, n, idle, ms) ==
            if AllAcked(slave, n, idle, ms) then Ok(AllPolled(slave, n, idle, ms)) else Failed(Nack)
    decreases |ms|
  {
    hide NeverHolds, MessageStatus, MessageAcked, MessagePolls, MessageEnd, MessageData, PolledData;
    if ms != [] {
      MessageUnheld(slave, n, idle, ms[0]);
      RunUnheld(slave, n + MessagePolls(slave, n, idle, ms[0]), false, ms[1..]);
    }
  }

  // ---- a slave that shifts its bytes out --------------------------------------------

  predicate PresentsAll(slave: nat -> Level, n: nat, xs: seq<byte>)
    decreases |xs|
  {
    xs == [] || (Presents(slave, n, xs[0]) && PresentsAll(slave, GetEnd(slave, n), xs[1..]))
  }

  lemma {:induction false} PresentedBytes(slave: nat -> Level, n: nat, xs: seq<byte>)
    requires PresentsAll(slave, n, xs)
    ensures BytesRead(slave, n, |xs|) == xs
    decreases |xs|
  {
    hide Presents, ByteRead, GetEnd;
    if xs != [] {
      PresentedByte(slave, n, xs[0]);
      PresentedBytes(slave, GetEnd(slave, n), xs[1..]);
    }
  }

  /** A register read, the register's number written and one byte got: the slave's
      byte is the answer. */
  lemma RegisterRead(slave: nat -> Level, n: nat, reg: byte, x: byte)
    requires Run(slave, n, true, [Write([reg]), Read(1)]).Ok?
    requires Presents(slave, PayloadAt(slave, MessageEnd(slave, n, true, Write([reg])), false), x)
    ensures Run(slave, n, true, [Write([reg]), Read(1)]) == Ok([[x]])
  {
    hide Presents, PayloadAt, MessageStatus, MessageEnd, GetEnd, ByteRead;
    var ms := [Write([reg]), Read(1)];
    var t := MessageEnd(slave, n, true, ms[0]);
    assert ms[1..] == [Read(1)] && ms[1..][1..] == [];
    PresentedByte(slave, PayloadAt(slave, t, false), x);
    assert BytesRead(slave, PayloadAt(slave, t, false), 1) == [x];
    assert Run(slave, t, false, ms[1..]) == Ok([[x]] + []);
  }
}
