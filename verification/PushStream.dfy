/** Push-buffer methods (`nvm50`) and GPFIFO entries (`gp_entry`) of
    examples_en210/add.py, with the decoders a GPU front end applies. */
module PushStream {
  import opened Bits
  import opened Words

  /** One nvm50 call. */
  datatype Call = Call(subch: nat, mthd: nat, args: seq<word>, inc: bool)

  predicate Encodable(c: Call) {
    c.subch < 8 && c.mthd < 0x2000 && c.mthd % 4 == 0 && |c.args| < 0x800
  }

  /** (sec_op << 29) | (count << 18) | (tert_op << 16) | (subch << 13) | method. */
  function Pack5(sec: nat, count: nat, tert: nat, subch: nat, mthd: nat): nat {
    Or(Or(Or(Or(sec * 0x20000000, count * 0x40000), tert * 0x10000), subch * 0x2000), mthd)
  }

  function Sum5(sec: nat, count: nat, tert: nat, subch: nat, mthd: nat): nat {
    sec * 0x20000000 + count * 0x40000 + tert * 0x10000 + subch * 0x2000 + mthd
  }

  lemma Pack5IsSum(sec: nat, count: nat, tert: nat, subch: nat, mthd: nat)
    requires count < 0x800 && tert < 4 && subch < 8 && mthd < 0x2000
    ensures Pack5(sec, count, tert, subch, mthd) == Sum5(sec, count, tert, subch, mthd)
  {
    hide Or, Pow2;
    Powers();
    var a := sec * 0x20000000;
    OrPut(a, sec, count * 0x40000, 29, 0x20000000);
    var b := a + count * 0x40000;
    OrPut(b, sec * 0x800 + count, tert * 0x10000, 18, 0x40000);
    var c := b + tert * 0x10000;
    OrPut(c, sec * 0x2000 + count * 4 + tert, subch * 0x2000, 16, 0x10000);
    OrPut(c + subch * 0x2000, sec * 0x10000 + count * 0x20 + tert * 8 + subch, mthd, 13, 0x2000);
  }

  function Header(c: Call): nat {
    Pack5(if c.inc then 0 else 2, |c.args|, 0, c.subch, c.mthd)
  }

  lemma HeaderIs(c: Call)
    requires Encodable(c)
    ensures Header(c) == Sum5(if c.inc then 0 else 2, |c.args|, 0, c.subch, c.mthd) < 0x1_0000_0000
  {
    Pack5IsSum(if c.inc then 0 else 2, |c.args|, 0, c.subch, c.mthd);
  }

  function Encode(c: Call): seq<word>
    requires Encodable(c)
  {
    HeaderIs(c);
    [Header(c)] + c.args
  }

  function EncodeAll(cs: seq<Call>): seq<word>
    requires forall i :: 0 <= i < |cs| ==> Encodable(cs[i])
    decreases |cs|
  {
    if cs == [] then [] else Encode(cs[0]) + EncodeAll(cs[1..])
  }

  /** One method write as the engine sees it. */
  datatype Write = Write(subch: nat, mthd: nat, arg: word)

  function WritesOf(c: Call): (r: seq<Write>)
    ensures |r| == |c.args|
  {
    seq(|c.args|, i requires 0 <= i < |c.args| => Write(c.subch, if c.inc then c.mthd + 4 * i else c.mthd, c.args[i]))
  }

  function WritesOfAll(cs: seq<Call>): seq<Write>
    decreases |cs|
  {
    if cs == [] then [] else WritesOf(cs[0]) + WritesOfAll(cs[1..])
  }

  // ---- the front end ---------------------------------------------------------

  datatype Fields = Fields(sec: nat, count: nat, subch: nat, mthd: nat)

  function FieldsOf(h: word): Fields {
    Fields(h / 0x20000000, h / 0x40000 % 0x800, h / 0x2000 % 8, h % 0x2000 / 4 * 4)
  }

  /** Header, then as many arguments as it counts; a truncated tail is dropped. */
  function Decode(ws: seq<word>): seq<Write>
    decreases |ws|
  {
    if ws == [] then []
    else
      var f := FieldsOf(ws[0]);
      if 1 + f.count > |ws| then []
      else
        seq(f.count, i requires 0 <= i < f.count =>
              Write(f.subch, if f.sec == 2 then f.mthd else f.mthd + 4 * i, ws[1 + i]))
        + Decode(ws[1 + f.count..])
  }

  lemma SumFields(sec: nat, count: nat, subch: nat, quad: nat)
    requires sec < 8 && count < 0x800 && subch < 8 && quad < 0x800
    ensures FieldsOf(Sum5(sec, count, 0, subch, 4 * quad)) == Fields(sec, count, subch, 4 * quad)
  {
    var h := Sum5(sec, count, 0, subch, 4 * quad);
    RemainderIs(h, 0x20000000, sec, count * 0x40000 + subch * 0x2000 + 4 * quad);
    RemainderIs(h, 0x40000, sec * 0x800 + count, subch * 0x2000 + 4 * quad);
    RemainderIs(sec * 0x800 + count, 0x800, sec, count);
    RemainderIs(h, 0x2000, sec * 0x10000 + count * 0x20 + subch, 4 * quad);
    RemainderIs(sec * 0x10000 + count * 0x20 + subch, 8, sec * 0x2000 + count * 4, subch);
    RemainderIs(4 * quad, 4, quad, 0);
  }

  lemma HeaderFields(c: Call)
    requires Encodable(c)
    ensures Header(c) < 0x1_0000_0000
    ensures FieldsOf(Header(c)) == Fields(if c.inc then 0 else 2, |c.args|, c.subch, c.mthd)
  {
    hide Header;
    HeaderIs(c);
    SumFields(if c.inc then 0 else 2, |c.args|, c.subch, c.mthd / 4);
  }

  /** The engine sees exactly the methods the caller asked for, in order. */
  lemma {:induction false} PushRoundTrip(cs: seq<Call>)
    requires forall i :: 0 <= i < |cs| ==> Encodable(cs[i])
    ensures Decode(EncodeAll(cs)) == WritesOfAll(cs)
    decreases |cs|
  {
    if cs != [] {
      var c, rest := cs[0], EncodeAll(cs[1..]);
      HeaderFields(c);
      PushRoundTrip(cs[1..]);
      DecodeFirst(c, rest);
    }
  }

  lemma DecodeFirst(c: Call, rest: seq<word>)
    requires Encodable(c)
    ensures Decode(Encode(c) + rest) == WritesOf(c) + Decode(rest)
  {
    hide Header, FieldsOf;
    HeaderFields(c);
    var ws := Encode(c) + rest;
    assert ws[0] == Header(c);
    assert ws[1 + |c.args|..] == rest;
    var first := seq(|c.args|, i requires 0 <= i < |c.args| =>
                       Write(c.subch, if c.inc then c.mthd + 4 * i else c.mthd, ws[1 + i]));
    assert first == WritesOf(c);
  }

  // ---- GPFIFO entries --------------------------------------------------------

  datatype Entry = Entry(addr: nat, length: nat, priv: nat, level: nat, noSwitch: nat, disable: nat)

  predicate Storable(e: Entry) {
    e.addr < 0x1_0000_0000 && e.addr % 4 == 0 && e.length < 0x400000 &&
    e.priv < 2 && e.level < 2 && e.noSwitch < 2 && e.disable < 2
  }

  function GpLow(e: Entry): nat {
    Or(Or(e.addr / 4 * 4, e.noSwitch * 2), e.disable)
  }

  function GpHigh(e: Entry): nat {
    Or(Or(Or(e.length * 0x400, e.level * 0x200), e.priv * 0x100), e.addr / 0x1_0000_0000 % 0x100)
  }

  lemma GpLowIs(e: Entry)
    requires Storable(e)
    ensures GpLow(e) == e.addr + e.noSwitch * 2 + e.disable < 0x1_0000_0000
  {
    hide Or, Pow2;
    Powers();
    var h := e.addr / 4;
    assert e.addr == h * 4;
    OrPut(e.addr, h, e.noSwitch * 2, 2, 4);
    OrPut(e.addr + e.noSwitch * 2, h * 2 + e.noSwitch, e.disable, 1, 2);
  }

  lemma GpHighIs(e: Entry)
    requires Storable(e)
    ensures GpHigh(e) == e.length * 0x400 + e.level * 0x200 + e.priv * 0x100 < 0x1_0000_0000
  {
    hide Or, Pow2;
    Powers();
    var a := e.length * 0x400;
    OrPut(a, e.length, e.level * 0x200, 10, 0x400);
    var b := a + e.level * 0x200;
    OrPut(b, e.length * 2 + e.level, e.priv * 0x100, 9, 0x200);
    OrPut(b + e.priv * 0x100, e.length * 4 + e.level * 2 + e.priv, 0, 8, 0x100);
  }

  function GpEntry(e: Entry): (r: seq<word>)
    requires Storable(e)
    ensures |r| == 2
  {
    GpLowIs(e);
    GpHighIs(e);
    [GpLow(e), GpHigh(e)]
  }

  function ReadEntry(low: word, high: word): Entry {
    Entry(low / 4 * 4 + high % 0x100 * 0x1_0000_0000, high / 0x400, high / 0x100 % 2, high / 0x200 % 2,
          low / 2 % 2, low % 2)
  }

  lemma HighFields(length: nat, level: nat, priv: nat)
    requires level < 2 && priv < 2
    ensures var high := length * 0x400 + level * 0x200 + priv * 0x100;
            high % 0x100 == 0 && high / 0x400 == length && high / 0x200 % 2 == level && high / 0x100 % 2 == priv
  {
    var high := length * 0x400 + level * 0x200 + priv * 0x100;
    RemainderIs(high, 0x100, length * 4 + level * 2 + priv, 0);
    RemainderIs(high, 0x200, length * 2 + level, priv * 0x100);
    RemainderIs(high, 0x400, length, level * 0x200 + priv * 0x100);
  }

  lemma LowFields(quad: nat, noSwitch: nat, disable: nat)
    requires noSwitch < 2 && disable < 2
    ensures var low := 4 * quad + noSwitch * 2 + disable;
            low / 4 == quad && low / 2 % 2 == noSwitch && low % 2 == disable
  {
    var low := 4 * quad + noSwitch * 2 + disable;
    RemainderIs(low, 4, quad, noSwitch * 2 + disable);
    RemainderIs(low, 2, 2 * quad + noSwitch, disable);
  }

  lemma EntryRoundTrip(e: Entry)
    requires Storable(e)
    ensures ReadEntry(GpEntry(e)[0], GpEntry(e)[1]) == e
  {
    hide GpLow, GpHigh;
    GpLowIs(e);
    GpHighIs(e);
    LowFields(e.addr / 4, e.noSwitch, e.disable);
    HighFields(e.length, e.level, e.priv);
  }
}
