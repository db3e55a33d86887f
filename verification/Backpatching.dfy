/** The single-pass, patch-in-place assembler emits what a two-pass assembler
    would: pass one numbers the words and collects the label positions, pass
    two writes every branch with its label's position. */
module Backpatching {
  import opened Bits
  import opened Words
  import opened Ctxprog

  // ---- the two-pass reference -----------------------------------------------

  datatype Sym = Word(w: nat) | Ref(mod: nat, low: nat, name: nat)

  /** Flag and polarity, the low byte of a branch word. */
  function Low(flag: nat, state: bool): nat {
    flag + if state then 0 else 0x80
  }

  function Branch(mod: nat, low: nat, target: nat): nat {
    0x00400000 + mod * 0x40000 + target * 0x100 + low
  }

  function Placeholder(mod: nat, low: nat, name: nat): nat {
    0xff400000 + mod * 0x40000 + name * 0x100 + low
  }

  function SymsOf(k: Call): seq<Sym>
    requires InRange(k)
  {
    match k
    case OutCall(inst) => [Word(inst)]
    case LsrCall(val) => [Word(0x00200000 + val)]
    case CtxCall(reg, length) =>
      if length > 15 then [Word(0x00200000 + length), Word(0x00100000 + (reg - 0x00400000) / 4)]
      else [Word(0x00100000 + length * 0x10000 + (reg - 0x00400000) / 4)]
    case NameCall(name) => []
    case BraCall(mod, flag, state, name) =>
      if mod == 2 then [Word(Branch(2, Low(flag, state), 0))] else [Ref(mod, Low(flag, state), name)]
    case WaitCall(flag, state) => [Word(0x00500000 + flag + if state then 0x80 else 0)]
    case SetCall(flag, state) => [Word(0x00700000 + flag + if state then 0x80 else 0)]
    case PosCall(offset) => [Word(0x00200000 + offset), Word(0x00600006)]
    case DefCall(_, _) => []
  }

  /** Pass one: the words in order, branches still naming their label. */
  function Syms(ks: seq<Call>): seq<Sym>
    requires AllInRange(ks)
  {
    if ks == [] then [] else Syms(ks[..|ks| - 1]) + SymsOf(ks[|ks| - 1])
  }

  /** Pass one: where each label stands. */
  function Positions(ks: seq<Call>): map<nat, nat>
    requires AllInRange(ks)
  {
    if ks == [] then map[]
    else
      var before := Positions(ks[..|ks| - 1]);
      match ks[|ks| - 1]
      case NameCall(name) => before[name := |Syms(ks[..|ks| - 1])|]
      case _ => before
  }

  predicate DefinedOnce(ks: seq<Call>)
    requires AllInRange(ks)
  {
    ks == [] ||
    (DefinedOnce(ks[..|ks| - 1]) &&
     (ks[|ks| - 1].NameCall? ==> ks[|ks| - 1].name !in Positions(ks[..|ks| - 1])))
  }

  /** Pass two. */
  function Resolve(s: Sym, positions: map<nat, nat>): nat
    requires s.Ref? ==> s.name in positions
  {
    match s
    case Word(w) => w
    case Ref(mod, low, name) => Branch(mod, low, positions[name])
  }

  /** Every reference has a label that a nine-bit target can name and that the
      zero-means-undefined convention can see. */
  ghost predicate Linkable(ks: seq<Call>)
    requires AllInRange(ks)
  {
    forall s :: s in Syms(ks) && s.Ref? ==> s.name in Positions(ks) && 1 <= Positions(ks)[s.name] <= 511
  }

  // ---- when there is room -------------------------------------------------------

  /** Each call emits one word for each of its symbols, or none of it fits. */
  lemma CallFits(c: Ctx, k: Call)
    requires c.mode == Prog && Sane(c) && InRange(k) && |c.code| <= c.max
    ensures Do(c, k).Ok? <==> |c.code| + |SymsOf(k)| <= c.max
    ensures Do(c, k).Ok? ==>
              |Do(c, k).ctx.code| == |c.code| + |SymsOf(k)| && Do(c, k).ctx.mode == Prog && Do(c, k).ctx.max == c.max
  {
    hide Or, And, RegIndex;
  }

  /** A PROG run succeeds exactly when the program fits the store. */
  lemma {:induction false} RunFitsIff(max: nat, size: nat, ks: seq<Call>)
    requires AllInRange(ks)
    ensures Generate(Start(Prog, max, size), ks).Ok? <==> |Syms(ks)| <= max
    ensures Generate(Start(Prog, max, size), ks).Ok? ==>
              var c := Generate(Start(Prog, max, size), ks).ctx;
              |c.code| == |Syms(ks)| && c.mode == Prog && c.max == max
    decreases |ks|
  {
    if ks != [] {
      hide Do, SymsOf;
      var before, k := ks[..|ks| - 1], ks[|ks| - 1];
      RunFitsIff(max, size, before);
      if Generate(Start(Prog, max, size), before).Ok? {
        CallFits(Generate(Start(Prog, max, size), before).ctx, k);
      }
    }
  }

  // ---- the words ------------------------------------------------------------

  predicate WellFormed(s: Sym) {
    match s
    case Word(w) => w < U32 && w / 0x100000 != 0xff4
    case Ref(mod, low, name) => mod < 2 && low < 0x100 && name < 32
  }

  lemma FlagWord(base: nat, flag: nat, high: bool)
    requires base % 0x100 == 0 && flag < 0x80
    ensures Or(Or(base, flag), if high then 0x80 else 0) == base + flag + if high then 0x80 else 0
  {
    hide Or, Pow2;
    Powers();
    var h := base / 0x100;
    assert base == h * 0x100;
    OrPut(base, h, flag, 8, 0x100);
    if high {
      OrAssociative(base, flag, 0x80);
      OrPut(0x80, 1, flag, 7, 0x80);
      OrPut(base, h, flag + 0x80, 8, 0x100);
    } else {
      OrPut(base + flag, base + flag, 0, 0, 1);
    }
  }

  lemma CtxWordIs(index: nat, length: nat)
    requires index < 0x10000 && length < 16
    ensures CtxWord(index, length) == 0x00100000 + length * 0x10000 + index
  {
    Powers();
    OrIsSum(1, length * 0x10000, 20);
    OrIsSum(0x10 + length, index, 16);
  }

  lemma LsrWordIs(val: nat)
    requires val < 0x100000
    ensures Or(0x00200000, val) == 0x00200000 + val
  {
    Powers();
    OrIsSum(2, val, 20);
  }

  lemma ModifierWord(mod: nat)
    requires mod <= 2
    ensures Or(0x00400000, mod * 0x40000) == 0x00400000 + mod * 0x40000
  {
    Powers();
    OrIsSum(1, mod * 0x40000, 22);
  }

  lemma UndefinedWord(mod: nat, name: nat)
    requires mod < 2 && name < 32
    ensures Or(0x00400000 + mod * 0x40000, Or(0xff000000, name * 0x100)) == Placeholder(mod, 0, name)
  {
    hide Or, Pow2;
    Powers();
    var a, n := 0x00400000 + mod * 0x40000, name * 0x100;
    OrAssociative(a, 0xff000000, n);
    OrPut(0xff000000, 0xff, a, 24, 0x1000000);
    OrPut(0xff000000 + a, 0x3fd0 + mod, n, 18, 0x40000);
  }

  lemma DefinedWord(mod: nat, position: nat)
    requires mod < 2 && position <= 512
    ensures Or(0x00400000 + mod * 0x40000, position * 0x100) == Branch(mod, 0, position)
  {
    Powers();
    OrIsSum(0x10 + mod, position * 0x100, 18);
  }

  function KnownBranch(labels: seq<nat>, mod: nat, low: nat, name: nat): nat
    requires name < |labels|
  {
    if mod == 2 then Branch(2, low, 0)
    else if labels[name] == 0 then Placeholder(mod, low, name)
    else Branch(mod, low, labels[name])
  }

  /** What _cp_bra emits, by what it knows of the label. */
  lemma BraWordIs(labels: seq<nat>, mod: nat, flag: nat, state: bool, name: nat)
    requires mod <= 2 && flag < 0x80 && name < |labels| == 32 && labels[name] <= 512
    ensures BraWord(labels, mod, flag, state, name) == KnownBranch(labels, mod, Low(flag, state), name)
  {
    ModifierWord(mod);
    var base := KnownBranch(labels, mod, 0, name);
    if mod == 2 {
      OrSymmetric(base, 0);
    } else if labels[name] == 0 {
      UndefinedWord(mod, name);
    } else {
      DefinedWord(mod, labels[name]);
    }
    BaseAligned(labels, mod, name);
    FlagWord(base, flag, !state);
  }

  lemma BaseAligned(labels: seq<nat>, mod: nat, name: nat)
    requires name < |labels|
    ensures KnownBranch(labels, mod, 0, name) % 0x100 == 0
  {
  }

  lemma MaskIs(w: nat)
    ensures And(w, 0xfff00000) == w / 0x100000 % 0x1000 * 0x100000
    ensures And(w, 0x0001ff00) == w / 0x100 % 0x200 * 0x100
  {
    Powers();
    AndField(w, 12, 20);
    AndField(w, 9, 8);
  }

  lemma KeepIs(w: nat)
    ensures And(w, 0x00ff00ff) == w / 0x10000 % 0x100 * 0x10000 + w % 0x10000 % 0x100
  {
    Powers();
    AndTwoFields(w, 8, 16, 0x00ff00ff);
  }

  lemma RetargetWord(mod: nat, low: nat, target: nat)
    requires mod < 2 && low < 0x100 && target <= 512
    ensures Or(0x00400000 + mod * 0x40000 + low, target * 0x100) == Branch(mod, low, target)
  {
    hide Or, Pow2;
    Powers();
    var kept := 0x00400000 + mod * 0x40000;
    OrPut(kept, 0x4000 + mod * 0x400, low, 8, 0x100);
    OrAssociative(kept, low, target * 0x100);
    OrPut(target * 0x100, target, low, 8, 0x100);
    OrPut(kept, 0x10 + mod, target * 0x100 + low, 18, 0x40000);
  }

  lemma PlaceholderFields(mod: nat, low: nat, name: nat)
    requires mod < 2 && low < 0x100 && name < 32
    ensures var w := Placeholder(mod, low, name);
            w / 0x100000 % 0x1000 == 0xff4 && w / 0x10000 % 0x100 == 0x40 + 4 * mod &&
            w / 0x100 % 0x200 == name && w % 0x10000 % 0x100 == low
  {
    var w, m := Placeholder(mod, low, name), mod * 0x40000 + name * 0x100 + low;
    RemainderIs(w, 0x100000, 0xff4, m);
    RemainderIs(w, 0x10000, 0xff40 + 4 * mod, name * 0x100 + low);
    RemainderIs(0xff40 + 4 * mod, 0x100, 0xff, 0x40 + 4 * mod);
    RemainderIs(w, 0x100, 0xff4000 + mod * 0x400 + name, low);
    RemainderIs(0xff4000 + mod * 0x400 + name, 0x200, 0x7fa0 + mod * 2, name);
    RemainderIs(name * 0x100 + low, 0x100, name, low);
  }

  /** Patching turns the placeholders of that name into branches, and nothing else. */
  lemma PatchPlaceholder(mod: nat, low: nat, name: nat, defined: nat, target: nat)
    requires mod < 2 && low < 0x100 && name < 32 && defined < 32 && target <= 512
    ensures Patch(Placeholder(mod, low, name), defined, target) ==
            if name == defined then Branch(mod, low, target) else Placeholder(mod, low, name)
  {
    var w := Placeholder(mod, low, name);
    PlaceholderFields(mod, low, name);
    MaskIs(w);
    if name == defined {
      KeepIs(w);
      assert And(w, 0x00ff00ff) == 0x00400000 + mod * 0x40000 + low;
      RetargetWord(mod, low, target);
    }
  }

  lemma PatchOther(w: nat, defined: nat, target: nat)
    requires w < U32 && w / 0x100000 != 0xff4
    ensures Patch(w, defined, target) == w
  {
    MaskIs(w);
  }

  // ---- the invariant of the single pass -------------------------------------

  /** The word that stands for a symbol while the label table reads `labels`. */
  function Expect(s: Sym, labels: seq<nat>): nat
    requires WellFormed(s) && |labels| == 32
  {
    match s
    case Word(w) => w
    case Ref(mod, low, name) => KnownBranch(labels, mod, low, name)
  }

  ghost predicate Renders(code: seq<nat>, syms: seq<Sym>, labels: seq<nat>) {
    && |labels| == 32 && (forall n :: 0 <= n < 32 ==> labels[n] <= 512)
    && |code| == |syms|
    && forall i :: 0 <= i < |syms| ==> WellFormed(syms[i]) && code[i] == Expect(syms[i], labels)
  }

  ghost predicate Knows(labels: seq<nat>, positions: map<nat, nat>) {
    && |labels| == 32
    && forall n: nat :: n < 32 ==> labels[n] == if n in positions then positions[n] else 0
  }

  lemma OutRenders(c: Ctx, s: Sym, inst: nat, syms: seq<Sym>)
    requires c.mode == Prog && Renders(c.code, syms, c.labels)
    requires WellFormed(s) && inst == Expect(s, c.labels)
    ensures CpOut(c, inst).Ok? ==> Renders(CpOut(c, inst).ctx.code, syms + [s], c.labels)
  {
  }

  lemma TwoOutsRender(c: Ctx, s: Sym, inst: nat, s': Sym, inst': nat, syms: seq<Sym>)
    requires c.mode == Prog && Renders(c.code, syms, c.labels)
    requires WellFormed(s) && inst == Expect(s, c.labels) && WellFormed(s') && inst' == Expect(s', c.labels)
    ensures CpOut(c, inst).Ok? && CpOut(CpOut(c, inst).ctx, inst').Ok? ==>
              Renders(CpOut(CpOut(c, inst).ctx, inst').ctx.code, syms + [s, s'], c.labels)
  {
    OutRenders(c, s, inst, syms);
    if CpOut(c, inst).Ok? {
      OutRenders(CpOut(c, inst).ctx, s', inst', syms + [s]);
      assert syms + [s] + [s'] == syms + [s, s'];
    }
  }

  /** One call in PROG mode appends the call's symbols. */
  lemma CallRenders(c: Ctx, k: Call, syms: seq<Sym>)
    requires c.mode == Prog && Sane(c) && InRange(k) && !k.NameCall?
    requires Renders(c.code, syms, c.labels)
    requires Do(c, k).Ok?
    ensures Renders(Do(c, k).ctx.code, syms + SymsOf(k), c.labels)
  {
    match k
    case OutCall(inst) => OutRenders(c, Word(inst), inst, syms);
    case LsrCall(val) =>
      LsrWordIs(val);
      OutRenders(c, Word(0x00200000 + val), Or(0x00200000, val), syms);
    case CtxCall(reg, length) => CtxRenders(c, reg, length, syms);
    case BraCall(mod, flag, state, name) =>
      BraWordIs(c.labels, mod, flag, state, name);
      OutRenders(c, SymsOf(k)[0], BraWord(c.labels, mod, flag, state, name), syms);
    case WaitCall(flag, state) =>
      FlagWord(0x00500000, flag, state);
      OutRenders(c, SymsOf(k)[0], Or(Or(0x00500000, flag), if state then 0x80 else 0), syms);
    case SetCall(flag, state) =>
      FlagWord(0x00700000, flag, state);
      OutRenders(c, SymsOf(k)[0], Or(Or(0x00700000, flag), if state then 0x80 else 0), syms);
    case PosCall(offset) =>
      LsrWordIs(offset);
      TwoOutsRender(c.(pos := offset, base := offset), Word(0x00200000 + offset), Or(0x00200000, offset),
                    Word(0x00600006), 0x00600006, syms);
    case DefCall(_, _) =>
      assert syms + [] == syms;
  }

  lemma CtxRenders(c: Ctx, reg: nat, length: nat, syms: seq<Sym>)
    requires c.mode == Prog && Sane(c) && InRange(CtxCall(reg, length))
    requires Renders(c.code, syms, c.labels)
    requires CpCtx(c, reg, length).Ok?
    ensures Renders(CpCtx(c, reg, length).ctx.code, syms + SymsOf(CtxCall(reg, length)), c.labels)
  {
    hide Or, And;
    var index := (reg - 0x00400000) / 4;
    RemainderIs(reg + U32 - 0x00400000, U32, 1, reg - 0x00400000);
    var c' := c.(reg := index, base := c.pos, pos := (c.pos + length) % U32);
    if length > 15 {
      LsrWordIs(length);
      CtxWordIs(index, 0);
      TwoOutsRender(c', Word(0x00200000 + length), Or(0x00200000, length),
                    Word(0x00100000 + index), CtxWord(index, 0), syms);
    } else {
      CtxWordIs(index, length);
      OutRenders(c', Word(0x00100000 + length * 0x10000 + index), CtxWord(index, length), syms);
    }
  }

  lemma CallKeeps(c: Ctx, k: Call)
    requires c.mode == Prog && Sane(c) && InRange(k) && !k.NameCall?
    requires Do(c, k).Ok? && |c.code| <= c.max
    ensures var c' := Do(c, k).ctx;
            c'.mode == Prog && c'.labels == c.labels && c'.max == c.max && |c'.code| <= c.max
  {
  }

  lemma NameRenders(c: Ctx, name: nat, syms: seq<Sym>)
    requires c.mode == Prog && Sane(c) && name < 32 && |c.code| <= 512
    requires Renders(c.code, syms, c.labels) && c.labels[name] == 0
    ensures var c' := CpName(c, name).ctx; Renders(c'.code, syms, c'.labels)
  {
    var c' := CpName(c, name).ctx;
    forall i | 0 <= i < |syms|
      ensures c'.code[i] == Expect(syms[i], c'.labels)
    {
      assert |c.code| > 0;
      match syms[i]
      case Word(w) => PatchOther(w, name, |c.code|);
      case Ref(mod, low, n) =>
        if c.labels[n] == 0 {
          PatchPlaceholder(mod, low, n, name, |c.code|);
        } else {
          PatchOther(Branch(mod, low, c.labels[n]), name, |c.code|);
        }
    }
  }

  lemma {:induction false} RunRenders(max: nat, size: nat, ks: seq<Call>)
    requires max <= 512 && AllInRange(ks) && DefinedOnce(ks)
    requires Generate(Start(Prog, max, size), ks).Ok?
    ensures var c := Generate(Start(Prog, max, size), ks).ctx;
            && c.mode == Prog && c.max == max && |c.code| <= max
            && Renders(c.code, Syms(ks), c.labels)
            && Knows(c.labels, Positions(ks))
    decreases |ks|
  {
    if ks != [] {
      var before, k := ks[..|ks| - 1], ks[|ks| - 1];
      RunRenders(max, size, before);
      var c := Generate(Start(Prog, max, size), before).ctx;
      if k.NameCall? {
        NameRenders(c, k.name, Syms(before));
      } else {
        CallRenders(c, k, Syms(before));
        CallKeeps(c, k);
      }
    }
  }

  // ---- what it means --------------------------------------------------------

  /** The single-pass assembler equals the two-pass one on every linkable
      program that fits the store: no placeholder is left, every branch carries
      its label's position, every other word is as emitted. */
  lemma PatchingIsTwoPass(max: nat, size: nat, ks: seq<Call>)
    requires max <= 512 && AllInRange(ks) && DefinedOnce(ks) && Linkable(ks)
    requires Generate(Start(Prog, max, size), ks).Ok?
    ensures var code := Generate(Start(Prog, max, size), ks).ctx.code;
            && |code| == |Syms(ks)|
            && forall i :: 0 <= i < |code| ==>
                 (Syms(ks)[i].Ref? ==> Syms(ks)[i].name in Positions(ks))
                 && code[i] == Resolve(Syms(ks)[i], Positions(ks))
                 && code[i] / 0x100000 != 0xff4
  {
    RunRenders(max, size, ks);
    var c := Generate(Start(Prog, max, size), ks).ctx;
    forall i | 0 <= i < |c.code|
      ensures (Syms(ks)[i].Ref? ==> Syms(ks)[i].name in Positions(ks)) &&
              c.code[i] == Resolve(Syms(ks)[i], Positions(ks)) && c.code[i] / 0x100000 != 0xff4
    {
      assert Syms(ks)[i] in Syms(ks);
    }
  }

  /** How an executor reads a branch word. */
  predicate IsBranchTo(w: nat, mod: nat, low: nat, target: nat) {
    w / 0x100000 == 4 && w / 0x40000 % 4 == mod && w / 0x100 % 0x200 == target && w % 0x100 == low
  }

  /** A reference comes out as a branch to its label exactly when the label is
      defined at a position from 1 to 511. A label at 0 is taken for undefined,
      a label at 512 does not fit the nine-bit field. */
  lemma BranchResolvedIff(max: nat, size: nat, ks: seq<Call>, i: nat)
    requires max <= 512 && AllInRange(ks) && DefinedOnce(ks)
    requires Generate(Start(Prog, max, size), ks).Ok?
    requires i < |Syms(ks)| && Syms(ks)[i].Ref?
    ensures var code := Generate(Start(Prog, max, size), ks).ctx.code; var s := Syms(ks)[i];
            && |code| == |Syms(ks)|
            && ((s.name in Positions(ks) && IsBranchTo(code[i], s.mod, s.low, Positions(ks)[s.name])) <==>
                (s.name in Positions(ks) && 1 <= Positions(ks)[s.name] <= 511))
  {
    RunRenders(max, size, ks);
    var c := Generate(Start(Prog, max, size), ks).ctx;
    var s := Syms(ks)[i];
    assert WellFormed(s);
    if s.name in Positions(ks) {
      var p := Positions(ks)[s.name];
      assert c.labels[s.name] == p;
      if p == 0 {
        PlaceholderFields(s.mod, s.low, s.name);
      } else {
        BranchFields(s.mod, s.low, p);
      }
    }
  }

  lemma BranchFields(mod: nat, low: nat, target: nat)
    requires mod < 2 && low < 0x100 && target <= 512
    ensures IsBranchTo(Branch(mod, low, target), mod, low, target) <==> target <= 511
  {
    var w := Branch(mod, low, target);
    assert w / 0x100 == 0x4000 + mod * 0x400 + target && w % 0x100 == low;
    assert w / 0x40000 == 0x10 + mod;
  }

  /** A backward branch to a label at the very start stays an undefined one. */
  lemma LabelAtZeroIsLost(mod: nat, flag: nat, state: bool, name: nat)
    requires mod < 2 && flag < 0x80 && name < 32
    ensures var ks := [NameCall(name), BraCall(mod, flag, state, name)];
            && AllInRange(ks)
            && Generate(Start(Prog, 512, 0), ks).Ok?
            && Generate(Start(Prog, 512, 0), ks).ctx.code == [Placeholder(mod, Low(flag, state), name)]
  {
    var k, k' := NameCall(name), BraCall(mod, flag, state, name);
    var ks := [k, k'];
    var s := Start(Prog, 512, 0);
    assert ks[..1] == [k] && [k][..0] == [];
    assert Generate(s, []) == Ok(s);
    assert Generate(s, [k]) == CpName(s, name);
    var c := CpName(s, name).ctx;
    assert c.labels[name] == 0;
    BraWordIs(c.labels, mod, flag, state, name);
    assert Generate(s, ks) == CpBra(c, mod, flag, state, name);
  }
}
