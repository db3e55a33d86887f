/** The context-program assembler of examples_en210/tools/ctxnv40_defs.h.

    One generator is run twice over `struct nvkm_grctx`: in PROG mode it emits
    instruction words, patching forward branches in place; in VALS mode it
    fills the data image those instructions will load. `Ctx` and the functions
    below say what each call does to the structure; class `Grctx` does it in
    place. */
module Ctxprog {
  import opened Bits
  import opened Words

  datatype Mode = Prog | Vals

  datatype Ctx = Ctx(mode: Mode, max: nat, code: seq<nat>, labels: seq<nat>,
                     reg: nat, pos: nat, base: nat, image: seq<nat>)

  /** A run that fills the program store stops the generator. */
  datatype Run = Ok(ctx: Ctx) | Overflow

  // ---- one function per call of the generator -------------------------------

  function CpOut(c: Ctx, inst: nat): Run {
    if c.mode != Prog then Ok(c)
    else if |c.code| == c.max then Overflow
    else Ok(c.(code := c.code + [inst]))
  }

  function CpLsr(c: Ctx, val: nat): Run {
    CpOut(c, Or(0x00200000, val))
  }

  function RegIndex(reg: nat): nat
    requires reg < U32
  {
    (reg + U32 - 0x00400000) % U32 / 4
  }

  function CtxWord(index: nat, length: nat): nat {
    Or(Or(0x00100000, length * 0x10000), index)
  }

  function CpCtx(c: Ctx, reg: nat, length: nat): Run
    requires reg < U32
  {
    var c := c.(reg := RegIndex(reg), base := c.pos, pos := (c.pos + length) % U32);
    if length > 15 then
      match CpLsr(c, length)
      case Ok(c) => CpOut(c, CtxWord(c.reg, 0))
      case Overflow => Overflow
    else CpOut(c, CtxWord(c.reg, length))
  }

  /** cp_name's rewriting of one already emitted word. */
  function Patch(w: nat, name: nat, target: nat): nat {
    if And(w, 0xfff00000) == 0xff400000 && And(w, 0x0001ff00) == name * 0x100
    then Or(And(w, 0x00ff00ff), target * 0x100)
    else w
  }

  function PatchAll(code: seq<nat>, name: nat, target: nat): (r: seq<nat>)
    ensures |r| == |code| && forall i :: 0 <= i < |code| ==> r[i] == Patch(code[i], name, target)
  {
    seq(|code|, i requires 0 <= i < |code| => Patch(code[i], name, target))
  }

  function CpName(c: Ctx, name: nat): Run
    requires name < |c.labels|
  {
    if c.mode != Prog then Ok(c)
    else Ok(c.(labels := c.labels[name := |c.code|], code := PatchAll(c.code, name, |c.code|)))
  }

  function BraWord(labels: seq<nat>, mod: nat, flag: nat, state: bool, name: nat): nat
    requires name < |labels|
  {
    var ip := if mod == 2 then 0
              else if labels[name] == 0 then Or(0xff000000, name * 0x100)
              else labels[name] * 0x100;
    Or(Or(Or(Or(0x00400000, mod * 0x40000), ip), flag), if state then 0 else 0x80)
  }

  function CpBra(c: Ctx, mod: nat, flag: nat, state: bool, name: nat): Run
    requires name < |c.labels|
  {
    CpOut(c, BraWord(c.labels, mod, flag, state, name))
  }

  function CpWait(c: Ctx, flag: nat, state: bool): Run {
    CpOut(c, Or(Or(0x00500000, flag), if state then 0x80 else 0))
  }

  function CpSet(c: Ctx, flag: nat, state: bool): Run {
    CpOut(c, Or(Or(0x00700000, flag), if state then 0x80 else 0))
  }

  function CpPos(c: Ctx, offset: nat): Run {
    var c := c.(pos := offset, base := offset);
    match CpLsr(c, offset)
    case Ok(c) => CpOut(c, 0x00600006)
    case Overflow => Overflow
  }

  /** Slot of the image that gr_def writes, as a word index. */
  function Slot(c: Ctx, reg: nat): nat
    requires reg < U32 && c.reg < U32 && c.base < U32
  {
    ((RegIndex(reg) + U32 - c.reg) % U32 + c.base) % U32 % 0x40000000
  }

  function GrDef(c: Ctx, reg: nat, val: nat): Run
    requires reg < U32 && c.reg < U32 && c.base < U32
  {
    if c.mode != Vals || Slot(c, reg) >= |c.image| then Ok(c)
    else Ok(c.(image := c.image[Slot(c, reg) := val]))
  }

  // ---- the same calls, in place ---------------------------------------------

  class Grctx {
    const mode: Mode
    const ucode: array<nat>
    const ctxprogLabels: array<nat>
    const data: array<nat>
    var ctxprogLen: nat
    var ctxprogReg: nat
    var ctxvalsPos: nat
    var ctxvalsBase: nat

    ghost predicate Valid()
      reads this
    {
      && ctxprogLen <= ucode.Length
      && ctxprogLabels.Length == 32
      && ctxprogReg < U32 && ctxvalsPos < U32 && ctxvalsBase < U32
      && ucode != ctxprogLabels && ucode != data && ctxprogLabels != data
    }

    ghost function View(): Ctx
      requires Valid()
      reads this, ucode, ctxprogLabels, data
    {
      Ctx(mode, ucode.Length, ucode[..ctxprogLen], ctxprogLabels[..], ctxprogReg, ctxvalsPos, ctxvalsBase, data[..])
    }

    /** What a call that reports ok has done; one that does not has overflowed. */
    ghost predicate Did(ok: bool, r: Run)
      requires Valid()
      reads this, ucode, ctxprogLabels, data
    {
      r == if ok then Ok(View()) else Overflow
    }

    constructor (mode: Mode, max: nat, size: nat)
      ensures Valid() && fresh(ucode) && fresh(ctxprogLabels) && fresh(data)
      ensures View() == Start(mode, max, size)
    {
      this.mode := mode;
      ucode := new nat[max](_ => 0);
      ctxprogLabels := new nat[32](_ => 0);
      data := new nat[size](_ => 0);
      ctxprogLen, ctxprogReg, ctxvalsPos, ctxvalsBase := 0, 0, 0, 0;
    }

    method Out(inst: nat) returns (ok: bool)
      requires Valid()
      modifies this`ctxprogLen, ucode
      ensures Valid() && Did(ok, CpOut(old(View()), inst))
    {
      if mode != Prog {
        return true;
      }
      if ctxprogLen == ucode.Length {
        return false;
      }
      ucode[ctxprogLen] := inst;
      ctxprogLen := ctxprogLen + 1;
      assert ucode[..ctxprogLen] == old(ucode[..ctxprogLen]) + [inst];
      return true;
    }

    method Lsr(val: nat) returns (ok: bool)
      requires Valid()
      modifies this`ctxprogLen, ucode
      ensures Valid() && Did(ok, CpLsr(old(View()), val))
    {
      ok := Out(Or(0x00200000, val));
    }

    method LoadRegs(reg: nat, length: nat) returns (ok: bool)
      requires Valid() && reg < U32
      modifies this, ucode
      ensures Valid() && Did(ok, CpCtx(old(View()), reg, length))
    {
      var length := length;
      ctxprogReg := RegIndex(reg);
      ctxvalsBase := ctxvalsPos;
      ctxvalsPos := (ctxvalsBase + length) % U32;
      if length > 15 {
        ok := Lsr(length);
        if !ok { return; }
        length := 0;
      }
      ok := Out(CtxWord(ctxprogReg, length));
    }

    method Name(name: nat)
      requires Valid() && name < 32
      modifies ctxprogLabels, ucode
      ensures Valid() && Did(true, CpName(old(View()), name))
    {
      if mode != Prog {
        return;
      }
      ctxprogLabels[name] := ctxprogLen;
      var i := 0;
      while i < ctxprogLen
        modifies ucode
        invariant 0 <= i <= ctxprogLen
        invariant forall j :: 0 <= j < i ==> ucode[j] == Patch(old(ucode[j]), name, ctxprogLen)
        invariant forall j :: i <= j < ctxprogLen ==> ucode[j] == old(ucode[j])
      {
        if And(ucode[i], 0xfff00000) == 0xff400000 && And(ucode[i], 0x0001ff00) == name * 0x100 {
          ucode[i] := Or(And(ucode[i], 0x00ff00ff), ctxprogLen * 0x100);
        }
        i := i + 1;
      }
      assert ucode[..ctxprogLen] == PatchAll(old(ucode[..ctxprogLen]), name, ctxprogLen);
    }

    method Bra(mod: nat, flag: nat, state: bool, name: nat) returns (ok: bool)
      requires Valid() && name < 32
      modifies this`ctxprogLen, ucode
      ensures Valid() && Did(ok, CpBra(old(View()), mod, flag, state, name))
    {
      var ip := 0;
      if mod != 2 {
        ip := ctxprogLabels[name] * 0x100;
        if ip == 0 {
          ip := Or(0xff000000, name * 0x100);
        }
      }
      ok := Out(Or(Or(Or(Or(0x00400000, mod * 0x40000), ip), flag), if state then 0 else 0x80));
    }

    method Wait(flag: nat, state: bool) returns (ok: bool)
      requires Valid()
      modifies this`ctxprogLen, ucode
      ensures Valid() && Did(ok, CpWait(old(View()), flag, state))
    {
      ok := Out(Or(Or(0x00500000, flag), if state then 0x80 else 0));
    }

    method Set(flag: nat, state: bool) returns (ok: bool)
      requires Valid()
      modifies this`ctxprogLen, ucode
      ensures Valid() && Did(ok, CpSet(old(View()), flag, state))
    {
      ok := Out(Or(Or(0x00700000, flag), if state then 0x80 else 0));
    }

    method Pos(offset: nat) returns (ok: bool)
      requires Valid() && offset < U32
      modifies this, ucode
      ensures Valid() && Did(ok, CpPos(old(View()), offset))
    {
      ctxvalsPos := offset;
      ctxvalsBase := ctxvalsPos;
      ok := Lsr(ctxvalsPos);
      if !ok { return; }
      ok := Out(0x00600006);
    }

    method Def(reg: nat, val: nat)
      requires Valid() && reg < U32
      modifies data
      ensures Valid() && Did(true, GrDef(old(View()), reg, val))
    {
      if mode != Vals {
        return;
      }
      var slot := ((RegIndex(reg) + U32 - ctxprogReg) % U32 + ctxvalsBase) % U32 % 0x40000000;
      if slot < data.Length {
        data[slot] := val;
        assert data[..] == old(data[..])[slot := val];
      }
    }
  }

  /** The structure as both callers build it: everything zero. */
  function Start(mode: Mode, max: nat, size: nat): Ctx {
    Ctx(mode, max, [], seq(32, _ => 0), 0, 0, 0, seq(size, _ => 0))
  }

  // ---- a generator is a list of calls ---------------------------------------

  datatype Call =
    | OutCall(inst: nat)
    | LsrCall(val: nat)
    | CtxCall(reg: nat, length: nat)
    | NameCall(name: nat)
    | BraCall(mod: nat, flag: nat, state: bool, name: nat)
    | WaitCall(flag: nat, state: bool)
    | SetCall(flag: nat, state: bool)
    | PosCall(offset: nat)
    | DefCall(reg: nat, val: nat)

  /** Arguments that fit the fields the words give them. */
  predicate InRange(k: Call) {
    match k
    case OutCall(inst) => inst < U32 && inst / 0x100000 != 0xff4 && inst / 0x100000 != 4
    case LsrCall(val) => val < 0x100000
    case CtxCall(reg, length) => 0x00400000 <= reg < 0x00440000 && length < 0x100000
    case NameCall(name) => name < 32
    case BraCall(mod, flag, _, name) => mod <= 2 && flag < 0x80 && name < 32
    case WaitCall(flag, _) => flag < 0x80
    case SetCall(flag, _) => flag < 0x80
    case PosCall(offset) => offset < 0x100000
    case DefCall(reg, val) => 0x00400000 <= reg < 0x00440000 && val < U32
  }

  ghost predicate AllInRange(ks: seq<Call>) {
    forall i :: 0 <= i < |ks| ==> InRange(ks[i])
  }

  predicate Sane(c: Ctx) {
    |c.labels| == 32 && c.reg < U32 && c.base < U32 && c.pos < U32
  }

  function Do(c: Ctx, k: Call): (r: Run)
    requires Sane(c) && InRange(k)
    ensures r.Ok? ==> Sane(r.ctx)
  {
    match k
    case OutCall(inst) => CpOut(c, inst)
    case LsrCall(val) => CpLsr(c, val)
    case CtxCall(reg, length) => CpCtx(c, reg, length)
    case NameCall(name) => CpName(c, name)
    case BraCall(mod, flag, state, name) => CpBra(c, mod, flag, state, name)
    case WaitCall(flag, state) => CpWait(c, flag, state)
    case SetCall(flag, state) => CpSet(c, flag, state)
    case PosCall(offset) => CpPos(c, offset)
    case DefCall(reg, val) => GrDef(c, reg, val)
  }

  function Generate(c: Ctx, ks: seq<Call>): (r: Run)
    requires Sane(c) && AllInRange(ks)
    ensures r.Ok? ==> Sane(r.ctx)
    decreases |ks|
  {
    if ks == [] then Ok(c)
    else
      match Generate(c, ks[..|ks| - 1])
      case Ok(c') => Do(c', ks[|ks| - 1])
      case Overflow => Overflow
  }
}
