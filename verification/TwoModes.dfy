/** PROG and VALS runs of one generator agree: executing the emitted words on
    the emitted image gives every register the value the generator asked for. */
module TwoModes {
  import opened Bits
  import opened Words
  import opened Ctxprog
  import opened Backpatching

  // ---- the executor, read off the fields the encoder packs -------------------

  /** Length register, image pointer and PGRAPH registers by dword index. */
  datatype Machine = Machine(lsr: nat, ptr: nat, regs: map<nat, nat>)

  function At(image: seq<nat>, i: nat): nat {
    if i < |image| then image[i] else 0
  }

  predicate Within(k: nat, base: nat, len: nat) {
    base <= k < base + len
  }

  function Span(base: nat, len: nat): set<nat> {
    set k: nat | base <= k < base + len && Within(k, base, len)
  }

  /** The registers one CTX instruction loads. */
  function Loaded(image: seq<nat>, reg: nat, ptr: nat, n: nat): map<nat, nat> {
    map k | k in Span(reg, n) :: At(image, ptr + k - reg)
  }

  function Exec1(m: Machine, w: nat, image: seq<nat>): Machine {
    if w / 0x100000 == 2 then m.(lsr := w % 0x100000)
    else if w / 0x100000 == 1 then
      var count := w / 0x10000 % 0x10;
      var n := if count == 0 then m.lsr else count;
      m.(ptr := m.ptr + n, regs := m.regs + Loaded(image, w % 0x10000, m.ptr, n))
    else if w == 0x00600006 then m.(ptr := m.lsr)
    else m
  }

  function Exec(m: Machine, code: seq<nat>, image: seq<nat>): Machine {
    if code == [] then m
    else Exec1(Exec(m, code[..|code| - 1], image), code[|code| - 1], image)
  }

  lemma {:induction false} ExecAppend(m: Machine, a: seq<nat>, b: seq<nat>, image: seq<nat>)
    ensures Exec(m, a + b, image) == Exec(Exec(m, a, image), b, image)
    decreases |b|
  {
    if b == [] {
      assert a + b == a;
    } else {
      ExecAppend(m, a, b[..|b| - 1], image);
      assert (a + b)[..|a + b| - 1] == a + b[..|b| - 1];
    }
  }

  // ---- the meaning of a generator, without words or slots --------------------

  function Index(reg: nat): nat
    requires 0x00400000 <= reg
  {
    (reg - 0x00400000) / 4
  }

  /** cp_ctx opens registers with value zero, gr_def gives one its value. */
  function Meaning(ks: seq<Call>, regs: map<nat, nat>): map<nat, nat>
    requires AllInRange(ks)
  {
    if ks == [] then regs
    else
      var before := Meaning(ks[..|ks| - 1], regs);
      match ks[|ks| - 1]
      case CtxCall(reg, length) => before + map k | k in Span(Index(reg), length) :: 0
      case DefCall(reg, val) => before[Index(reg) := val]
      case _ => before
  }

  // ---- the generators covered ------------------------------------------------

  /** Cursor of the run, the open window and the slots of the closed ones. */
  datatype Layout = Layout(pos: nat, base: nat, reg: nat, len: nat, closed: set<nat>)

  function Window(l: Layout): set<nat> {
    Span(l.base, l.len)
  }

  function LayoutOf(ks: seq<Call>): Layout
    requires AllInRange(ks)
  {
    if ks == [] then Layout(0, 0, 0, 0, {})
    else
      var l := LayoutOf(ks[..|ks| - 1]);
      match ks[|ks| - 1]
      case CtxCall(reg, length) => Layout(l.pos + length, l.pos, Index(reg), length, l.closed + Window(l))
      case PosCall(offset) => Layout(offset, offset, l.reg, 0, l.closed + Window(l))
      case _ => l
  }

  /** Calls without branches whose windows take fresh slots inside an image of
      `size` words and whose definitions fall inside the open window. A raw word
      may be anything that neither loads registers nor moves the pointer. */
  ghost predicate Placed(ks: seq<Call>, size: nat)
    requires AllInRange(ks)
  {
    ks == [] ||
    (Placed(ks[..|ks| - 1], size) &&
     var l := LayoutOf(ks[..|ks| - 1]);
     match ks[|ks| - 1]
     case CtxCall(reg, length) =>
       1 <= length && l.pos + length <= size && Span(l.pos, length) !! l.closed + Window(l)
     case DefCall(reg, val) => l.reg <= Index(reg) < l.reg + l.len
     case PosCall(_) => true
     case WaitCall(_, _) => true
     case SetCall(_, _) => true
     case LsrCall(_) => true
     case NameCall(name) => name !in Positions(ks[..|ks| - 1])
     case OutCall(inst) => inst / 0x100000 != 1 && inst != 0x00600006
     case BraCall(_, _, _, _) => false)
  }

  lemma {:induction false} PlacedFacts(ks: seq<Call>, size: nat)
    requires AllInRange(ks) && Placed(ks, size)
    ensures DefinedOnce(ks)
    ensures forall s :: s in Syms(ks) ==> s.Word?
    ensures var l := LayoutOf(ks); l.closed !! Window(l) && (l.len > 0 ==> l.base + l.len <= size)
    decreases |ks|
  {
    if ks != [] {
      PlacedFacts(ks[..|ks| - 1], size);
    }
  }

  /** Both modes move the same cursors, for every generator. */
  lemma {:induction false} CursorsAgree(max: nat, max': nat, size: nat, size': nat, ks: seq<Call>)
    requires AllInRange(ks) && Generate(Start(Prog, max, size), ks).Ok? && Generate(Start(Vals, max', size'), ks).Ok?
    ensures var c, c' := Generate(Start(Prog, max, size), ks).ctx, Generate(Start(Vals, max', size'), ks).ctx;
            c.mode == Prog && c'.mode == Vals && c.pos == c'.pos && c.base == c'.base && c.reg == c'.reg
    decreases |ks|
  {
    hide Do;
    if ks != [] {
      var before, k := ks[..|ks| - 1], ks[|ks| - 1];
      CursorsAgree(max, max', size, size', before);
      CursorStep(Generate(Start(Prog, max, size), before).ctx, k);
      CursorStep(Generate(Start(Vals, max', size'), before).ctx, k);
    }
  }

  /** For a placed one they are where its layout says. */
  lemma {:induction false} CursorsLaidOut(mode: Mode, max: nat, size: nat, ks: seq<Call>)
    requires AllInRange(ks) && Placed(ks, size) && size <= 0x40000000
    requires Generate(Start(mode, max, size), ks).Ok?
    ensures var c := Generate(Start(mode, max, size), ks).ctx; var l := LayoutOf(ks);
            c.mode == mode && c.pos == l.pos && c.base == l.base && c.reg == l.reg && |c.image| == size
    decreases |ks|
  {
    hide Do, Positions;
    if ks != [] {
      var before, k := ks[..|ks| - 1], ks[|ks| - 1];
      CursorsLaidOut(mode, max, size, before);
      CursorStep(Generate(Start(mode, max, size), before).ctx, k);
    }
  }

  lemma CursorStep(c: Ctx, k: Call)
    requires Sane(c) && InRange(k) && Do(c, k).Ok?
    ensures var c' := Do(c, k).ctx;
            && c'.mode == c.mode && |c'.image| == |c.image|
            && match k
               case CtxCall(reg, length) =>
                 c'.reg == Index(reg) && c'.base == c.pos && c'.pos == (c.pos + length) % U32
               case PosCall(offset) => c'.reg == c.reg && c'.base == offset && c'.pos == offset
               case _ => c'.reg == c.reg && c'.base == c.base && c'.pos == c.pos
  {
    hide Or, And, Patch, PatchAll, BraWord, CtxWord, Slot;
    match k
    case CtxCall(reg, length) => RegIsIndex(reg);
    case _ =>
  }

  lemma RegIsIndex(reg: nat)
    requires 0x00400000 <= reg < U32
    ensures RegIndex(reg) == Index(reg)
  {
    RemainderIs(reg + U32 - 0x00400000, U32, 1, reg - 0x00400000);
  }

  // ---- what the two runs leave -----------------------------------------------

  ghost function Program(max: nat, size: nat, ks: seq<Call>): seq<nat>
    requires AllInRange(ks) && Generate(Start(Prog, max, size), ks).Ok?
  {
    Generate(Start(Prog, max, size), ks).ctx.code
  }

  lemma {:induction false} ValsRuns(max: nat, size: nat, ks: seq<Call>)
    requires AllInRange(ks)
    ensures var r := Generate(Start(Vals, max, size), ks); r.Ok? && r.ctx.mode == Vals
    decreases |ks|
  {
    if ks != [] {
      ValsRuns(max, size, ks[..|ks| - 1]);
    }
  }

  ghost function Image(max: nat, size: nat, ks: seq<Call>): seq<nat>
    requires AllInRange(ks)
  {
    ValsRuns(max, size, ks);
    Generate(Start(Vals, max, size), ks).ctx.image
  }

  function SlotOf(l: Layout, reg: nat): int
    requires 0x00400000 <= reg
  {
    l.base + Index(reg) - l.reg
  }

  lemma DoVals(c: Ctx, k: Call, l: Layout)
    requires c.mode == Vals && Sane(c) && InRange(k) && |c.image| <= 0x40000000
    requires c.base == l.base && c.reg == l.reg
    requires k.DefCall? ==> l.reg <= Index(k.reg) && SlotOf(l, k.reg) < |c.image|
    ensures Do(c, k).Ok?
    ensures Do(c, k).ctx.image == if k.DefCall? then c.image[SlotOf(l, k.reg) := k.val] else c.image
  {
    if k.DefCall? {
      assert RegIndex(k.reg) == Index(k.reg);
      assert Slot(c, k.reg) == SlotOf(l, k.reg);
    }
  }

  /** One VALS call writes at most one slot, and only of the open window. */
  lemma ImageStep(max: nat, size: nat, ks: seq<Call>)
    requires AllInRange(ks) && Placed(ks, size) && size <= 0x40000000 && ks != []
    ensures var before, k := ks[..|ks| - 1], ks[|ks| - 1]; var l := LayoutOf(before);
            && |Image(max, size, before)| == size
            && (k.DefCall? ==> SlotOf(l, k.reg) in Window(l) && SlotOf(l, k.reg) < size)
            && Image(max, size, ks) ==
                 if k.DefCall? then Image(max, size, before)[SlotOf(l, k.reg) := k.val]
                 else Image(max, size, before)
  {
    var before := ks[..|ks| - 1];
    ValsRuns(max, size, before);
    CursorsLaidOut(Vals, max, size, before);
    PlacedFacts(before, size);
    DoVals(Generate(Start(Vals, max, size), before).ctx, ks[|ks| - 1], LayoutOf(before));
  }

  /** Slots no window has taken are still zero. */
  lemma {:induction false} FreshSlotsAreZero(max: nat, size: nat, ks: seq<Call>)
    requires AllInRange(ks) && Placed(ks, size) && size <= 0x40000000
    ensures var l := LayoutOf(ks); var image := Image(max, size, ks);
            forall s: nat :: s !in l.closed + Window(l) ==> At(image, s) == 0
    decreases |ks|
  {
    if ks == [] {
      ValsRuns(max, size, ks);
    } else {
      FreshSlotsAreZero(max, size, ks[..|ks| - 1]);
      ImageStep(max, size, ks);
    }
  }

  /** Once a window is closed its slots keep their values to the end of the run. */
  lemma {:induction false} ClosedSlotsKeep(max: nat, size: nat, ks: seq<Call>, n: nat)
    requires AllInRange(ks) && Placed(ks, size) && size <= 0x40000000 && n <= |ks|
    ensures AllInRange(ks[..n]) && Placed(ks[..n], size)
    ensures var l := LayoutOf(ks[..n]);
            && l.closed <= LayoutOf(ks).closed
            && forall s: nat :: s in l.closed ==> At(Image(max, size, ks), s) == At(Image(max, size, ks[..n]), s)
    decreases |ks|
  {
    if n == |ks| {
      assert ks[..n] == ks;
    } else {
      var before := ks[..|ks| - 1];
      ClosedSlotsKeep(max, size, before, n);
      assert before[..n] == ks[..n];
      ImageStep(max, size, ks);
      PlacedFacts(before, size);
    }
  }

  /** The words of a straight-line call. */
  function WordsOf(k: Call): seq<nat>
    requires InRange(k)
  {
    match k
    case CtxCall(reg, length) =>
      if length > 15 then [0x00200000 + length, 0x00100000 + Index(reg)]
      else [0x00100000 + length * 0x10000 + Index(reg)]
    case WaitCall(flag, state) => [0x00500000 + flag + if state then 0x80 else 0]
    case SetCall(flag, state) => [0x00700000 + flag + if state then 0x80 else 0]
    case PosCall(offset) => [0x00200000 + offset, 0x00600006]
    case OutCall(inst) => [inst]
    case LsrCall(val) => [0x00200000 + val]
    case _ => []
  }

  lemma WordsAreSyms(k: Call)
    requires InRange(k) && !k.BraCall?
    ensures |WordsOf(k)| == |SymsOf(k)|
    ensures forall i :: 0 <= i < |WordsOf(k)| ==> SymsOf(k)[i] == Word(WordsOf(k)[i])
  {
  }

  lemma ProgramStep(max: nat, size: nat, ks: seq<Call>)
    requires max <= 512 && AllInRange(ks) && Placed(ks, size) && ks != []
    requires Generate(Start(Prog, max, size), ks).Ok?
    ensures Program(max, size, ks) == Program(max, size, ks[..|ks| - 1]) + WordsOf(ks[|ks| - 1])
  {
    var before, k := ks[..|ks| - 1], ks[|ks| - 1];
    PlacedFacts(ks, size);
    RunRenders(max, size, ks);
    PlacedFacts(before, size);
    RunRenders(max, size, before);
    WordsAreSyms(k);
    AllWords(Program(max, size, before), Program(max, size, ks), Syms(before), SymsOf(k), WordsOf(k),
             Generate(Start(Prog, max, size), before).ctx.labels, Generate(Start(Prog, max, size), ks).ctx.labels);
  }

  lemma AllWords(code: seq<nat>, code': seq<nat>, syms: seq<Sym>, more: seq<Sym>, words: seq<nat>,
                 labels: seq<nat>, labels': seq<nat>)
    requires Renders(code, syms, labels) && Renders(code', syms + more, labels')
    requires forall s :: s in syms ==> s.Word?
    requires |words| == |more| && forall i :: 0 <= i < |words| ==> more[i] == Word(words[i])
    ensures code' == code + words
  {
    forall i | 0 <= i < |code'|
      ensures code'[i] == (code + words)[i]
    {
      if i < |syms| { assert syms[i] in syms; }
    }
  }

  lemma ProgramExecutes(max: nat, size: nat, ks: seq<Call>, m: Machine, image: seq<nat>)
    requires max <= 512 && AllInRange(ks) && Placed(ks, size) && ks != []
    requires Generate(Start(Prog, max, size), ks).Ok?
    ensures Exec(m, Program(max, size, ks), image) ==
            Exec(Exec(m, Program(max, size, ks[..|ks| - 1]), image), WordsOf(ks[|ks| - 1]), image)
  {
    ProgramStep(max, size, ks);
    ExecAppend(m, Program(max, size, ks[..|ks| - 1]), WordsOf(ks[|ks| - 1]), image);
  }

  // ---- the agreement ---------------------------------------------------------

  /** Registers of the open window hold the final image, all others what the
      generator means so far. */
  ghost predicate TracksAt(m: Machine, l: Layout, final: seq<nat>, now: seq<nat>, meant: map<nat, nat>, r: nat)
    requires r in m.regs && r in meant
  {
    if Within(r, l.reg, l.len)
    then m.regs[r] == At(final, l.base + r - l.reg) && meant[r] == At(now, l.base + r - l.reg)
    else m.regs[r] == meant[r]
  }

  ghost predicate Tracks(m: Machine, l: Layout, final: seq<nat>, now: seq<nat>, meant: map<nat, nat>) {
    && m.ptr == l.pos
    && m.regs.Keys == meant.Keys
    && forall r :: r in meant ==> TracksAt(m, l, final, now, meant, r)
  }

  lemma CtxExecutes(m: Machine, k: Call, image: seq<nat>)
    requires InRange(k) && k.CtxCall? && 1 <= k.length
    ensures var m' := Exec(m, WordsOf(k), image);
            m'.ptr == m.ptr + k.length && m'.regs == m.regs + Loaded(image, Index(k.reg), m.ptr, k.length)
  {
    hide Exec1, Loaded;
    var code := WordsOf(k);
    if k.length > 15 {
      LsrExecutes(m, k.length, image);
      assert code[..1] == [0x00200000 + k.length] && code[..1][..0] == [];
      assert Exec(m, code[..1], image) == m.(lsr := k.length);
      CtxWordExecutes(m.(lsr := k.length), Index(k.reg), 0, image);
    } else {
      assert code[..0] == [];
      CtxWordExecutes(m, Index(k.reg), k.length, image);
    }
  }

  lemma LsrExecutes(m: Machine, val: nat, image: seq<nat>)
    requires val < 0x100000
    ensures Exec1(m, 0x00200000 + val, image) == m.(lsr := val)
  {
    RemainderIs(0x00200000 + val, 0x100000, 2, val);
  }

  lemma CtxWordExecutes(m: Machine, index: nat, count: nat, image: seq<nat>)
    requires index < 0x10000 && count < 16
    ensures var n := if count == 0 then m.lsr else count;
            Exec1(m, 0x00100000 + count * 0x10000 + index, image) ==
            m.(ptr := m.ptr + n, regs := m.regs + Loaded(image, index, m.ptr, n))
  {
    var w := 0x00100000 + count * 0x10000 + index;
    RemainderIs(w, 0x10000, 0x10 + count, index);
    RemainderIs(w, 0x100000, 1, count * 0x10000 + index);
    RemainderIs(0x10 + count, 0x10, 1, count);
  }

  /** A new window: the old one's slots are final, the new one's still zero. */
  lemma CtxTracks(m: Machine, l: Layout, final: seq<nat>, now: seq<nat>, meant: map<nat, nat>,
                  index: nat, length: nat, m': Machine, l': Layout, meant': map<nat, nat>)
    requires Tracks(m, l, final, now, meant)
    requires forall s :: s in Window(l) ==> At(final, s) == At(now, s)
    requires forall s :: s in Span(l.pos, length) ==> At(now, s) == 0
    requires m'.ptr == m.ptr + length && m'.regs == m.regs + Loaded(final, index, m.ptr, length)
    requires l' == Layout(l.pos + length, l.pos, index, length, l.closed + Window(l))
    requires meant' == meant + map k | k in Span(index, length) :: 0
    ensures Tracks(m', l', final, now, meant')
  {
    forall r | r in meant'
      ensures r in m'.regs && TracksAt(m', l', final, now, meant', r)
    {
      CtxTracksAt(m, l, final, now, meant, index, length, m', l', meant', r);
    }
  }

  lemma CtxTracksAt(m: Machine, l: Layout, final: seq<nat>, now: seq<nat>, meant: map<nat, nat>,
                    index: nat, length: nat, m': Machine, l': Layout, meant': map<nat, nat>, r: nat)
    requires Tracks(m, l, final, now, meant)
    requires forall s :: s in Window(l) ==> At(final, s) == At(now, s)
    requires forall s :: s in Span(l.pos, length) ==> At(now, s) == 0
    requires m'.regs == m.regs + Loaded(final, index, m.ptr, length)
    requires l' == Layout(l.pos + length, l.pos, index, length, l.closed + Window(l))
    requires meant' == meant + map k | k in Span(index, length) :: 0
    requires r in meant'
    ensures r in m'.regs && TracksAt(m', l', final, now, meant', r)
  {
    hide At;
    if Within(r, index, length) {
      assert r in Span(index, length);
      assert l.pos + r - index in Span(l.pos, length);
    } else {
      assert r !in Span(index, length);
      assert TracksAt(m, l, final, now, meant, r);
      if Within(r, l.reg, l.len) {
        assert l.base + r - l.reg in Window(l);
      }
    }
  }

  /** Moving the pointer closes the window. */
  lemma PosTracks(m: Machine, l: Layout, final: seq<nat>, now: seq<nat>, meant: map<nat, nat>, offset: nat, lsr: nat)
    requires Tracks(m, l, final, now, meant)
    requires forall s :: s in Window(l) ==> At(final, s) == At(now, s)
    ensures Tracks(m.(lsr := lsr, ptr := offset), Layout(offset, offset, l.reg, 0, l.closed + Window(l)),
                   final, now, meant)
  {
    forall r | r in meant
      ensures m.regs[r] == meant[r]
    {
      assert TracksAt(m, l, final, now, meant, r);
      if Within(r, l.reg, l.len) {
        assert l.base + r - l.reg in Window(l);
      }
    }
  }

  /** A definition changes the image under its own register only. */
  lemma DefTracks(m: Machine, l: Layout, final: seq<nat>, now: seq<nat>, meant: map<nat, nat>, index: nat, val: nat)
    requires Tracks(m, l, final, now, meant)
    requires Within(index, l.reg, l.len) && index in m.regs && l.base + index - l.reg < |now|
    ensures Tracks(m, l, final, now[l.base + index - l.reg := val], meant[index := val])
  {
    assert TracksAt(m, l, final, now, meant, index);
    forall r | r in meant
      ensures TracksAt(m, l, final, now[l.base + index - l.reg := val], meant[index := val], r)
    {
      assert TracksAt(m, l, final, now, meant, r);
    }
  }

  lemma PosExecutes(m: Machine, offset: nat, image: seq<nat>)
    requires offset < 0x100000
    ensures Exec(m, WordsOf(PosCall(offset)), image) == m.(lsr := offset, ptr := offset)
  {
    LsrExecutes(m, offset, image);
    var code := WordsOf(PosCall(offset));
    assert code[..1] == [0x00200000 + offset] && code[..1][..0] == [];
    assert Exec(m, code[..1], image) == m.(lsr := offset);
  }

  /** Waits, flags, lengths, labels and the raw words allowed move no register. */
  lemma QuietExecutes(m: Machine, k: Call, image: seq<nat>)
    requires InRange(k) && !k.CtxCall? && !k.PosCall? && !k.BraCall?
    requires k.OutCall? ==> k.inst / 0x100000 != 1 && k.inst != 0x00600006
    ensures Exec(m, WordsOf(k), image).ptr == m.ptr && Exec(m, WordsOf(k), image).regs == m.regs
  {
    if WordsOf(k) != [] {
      assert WordsOf(k)[..0] == [];
    }
  }

  lemma QuietTracks(m: Machine, k: Call, l: Layout, final: seq<nat>, now: seq<nat>, meant: map<nat, nat>)
    requires Tracks(m, l, final, now, meant) && InRange(k) && !k.CtxCall? && !k.PosCall? && !k.BraCall?
    requires k.OutCall? ==> k.inst / 0x100000 != 1 && k.inst != 0x00600006
    ensures Tracks(Exec(m, WordsOf(k), final), l, final, now, meant)
  {
    QuietExecutes(m, k, final);
    hide Exec;
    forall r | r in meant ensures TracksAt(Exec(m, WordsOf(k), final), l, final, now, meant, r) {
      assert TracksAt(m, l, final, now, meant, r);
    }
  }

  /** The registers of the open window have been loaded. */
  lemma {:induction false} WindowIsMeant(ks: seq<Call>, size: nat, regs: map<nat, nat>)
    requires AllInRange(ks) && Placed(ks, size)
    ensures var l := LayoutOf(ks); forall k: nat :: Within(k, l.reg, l.len) ==> k in Meaning(ks, regs)
    decreases |ks|
  {
    if ks != [] {
      WindowIsMeant(ks[..|ks| - 1], size, regs);
    }
  }

  lemma StepTracks(max: nat, size: nat, here: seq<Call>, m: Machine, final: seq<nat>, regs: map<nat, nat>)
    requires size <= 0x40000000 && AllInRange(here) && here != [] && Placed(here, size)
    requires forall s: nat :: s in LayoutOf(here).closed ==> At(final, s) == At(Image(max, size, here), s)
    requires var before := here[..|here| - 1];
             Tracks(m, LayoutOf(before), final, Image(max, size, before), Meaning(before, regs))
    ensures Tracks(Exec(m, WordsOf(here[|here| - 1]), final), LayoutOf(here),
                   final, Image(max, size, here), Meaning(here, regs))
  {
    var before, k := here[..|here| - 1], here[|here| - 1];
    var l, now, meant := LayoutOf(before), Image(max, size, before), Meaning(before, regs);
    ImageStep(max, size, here);
    match k
    case CtxCall(reg, length) =>
      FreshSlotsAreZero(max, size, before);
      CtxExecutes(m, k, final);
      CtxTracks(m, l, final, now, meant, Index(reg), length, Exec(m, WordsOf(k), final), LayoutOf(here),
                Meaning(here, regs));
    case PosCall(offset) =>
      PosExecutes(m, offset, final);
      PosTracks(m, l, final, now, meant, offset, offset);
    case DefCall(reg, val) =>
      WindowIsMeant(before, size, regs);
      DefTracks(m, l, final, now, meant, Index(reg), val);
    case WaitCall(flag, state) => QuietTracks(m, k, l, final, now, meant);
    case SetCall(flag, state) => QuietTracks(m, k, l, final, now, meant);
    case LsrCall(val) => QuietTracks(m, k, l, final, now, meant);
    case NameCall(name) => QuietTracks(m, k, l, final, now, meant);
    case OutCall(inst) => QuietTracks(m, k, l, final, now, meant);
  }

  lemma {:induction false} MachineTracks(max: nat, size: nat, ks: seq<Call>, n: nat, lsr: nat,
                                          regs: map<nat, nat>)
    requires max <= 512 && size <= 0x40000000 && AllInRange(ks) && Placed(ks, size)
    requires n <= |ks| && Generate(Start(Prog, max, size), ks[..n]).Ok?
    ensures Placed(ks[..n], size)
    ensures Tracks(Exec(Machine(lsr, 0, regs), Program(max, size, ks[..n]), Image(max, size, ks)), LayoutOf(ks[..n]),
                   Image(max, size, ks), Image(max, size, ks[..n]), Meaning(ks[..n], regs))
    decreases n
  {
    ClosedSlotsKeep(max, size, ks, n);
    var here := ks[..n];
    if n == 0 {
      assert Program(max, size, here) == [];
    } else {
      assert here[..n - 1] == ks[..n - 1];
      MachineTracks(max, size, ks, n - 1, lsr, regs);
      var final := Image(max, size, ks);
      StepTracks(max, size, here, Exec(Machine(lsr, 0, regs), Program(max, size, ks[..n - 1]), final), final, regs);
      ProgramExecutes(max, size, here, Machine(lsr, 0, regs), final);
    }
  }

  /** Executing the PROG run's words on the VALS run's image leaves exactly the
      registers the generator means, from any registers and length register. */
  lemma TwoModesAgree(max: nat, size: nat, ks: seq<Call>, lsr: nat, regs: map<nat, nat>)
    requires max <= 512 && size <= 0x40000000 && AllInRange(ks) && Placed(ks, size)
    requires Generate(Start(Prog, max, size), ks).Ok?
    ensures Exec(Machine(lsr, 0, regs), Program(max, size, ks), Image(max, size, ks)).regs == Meaning(ks, regs)
  {
    assert ks[..|ks|] == ks;
    MachineTracks(max, size, ks, |ks|, lsr, regs);
  }

  /** In particular a register ends at its last definition. */
  lemma {:induction false} LastDefinitionWins(ks: seq<Call>, regs: map<nat, nat>, i: nat)
    requires AllInRange(ks) && i < |ks| && ks[i].DefCall?
    requires forall j :: i < j < |ks| ==>
               (ks[j].DefCall? ==> Index(ks[j].reg) != Index(ks[i].reg)) &&
               (ks[j].CtxCall? ==> Index(ks[i].reg) !in Span(Index(ks[j].reg), ks[j].length))
    ensures Index(ks[i].reg) in Meaning(ks, regs) && Meaning(ks, regs)[Index(ks[i].reg)] == ks[i].val
    decreases |ks|
  {
    var before := ks[..|ks| - 1];
    if i < |ks| - 1 {
      assert ks[|ks| - 1] == ks[|ks| - 1];
      LastDefinitionWins(before, regs, i);
    }
  }

  /** Exactly when the words of a cp_ctx move the image pointer by its length: it is
      not 0, or the length register happens to be. */
  lemma CtxMovesIff(m: Machine, k: Call, image: seq<nat>)
    requires InRange(k) && k.CtxCall?
    ensures Exec(m, WordsOf(k), image).ptr == m.ptr + k.length <==> k.length >= 1 || m.lsr == 0
  {
    hide Exec1, Loaded;
    if k.length >= 1 {
      CtxExecutes(m, k, image);
    } else {
      assert WordsOf(k)[..0] == [];
      CtxWordExecutes(m, Index(k.reg), k.length, image);
    }
  }

  /** A cp_ctx of length 0 is not a no-op: its count field reads as "use the
      length register", so it loads whatever length was last set. */
  lemma EmptyCtxLoadsStaleLength(m: Machine, index: nat, image: seq<nat>)
    requires index < 0x10000
    ensures Exec1(m, CtxWord(index, 0), image).regs == m.regs + Loaded(image, index, m.ptr, m.lsr)
  {
    hide Exec1, CtxWord, Loaded;
    CtxWordIs(index, 0);
    CtxWordExecutes(m, index, 0, image);
  }
}
