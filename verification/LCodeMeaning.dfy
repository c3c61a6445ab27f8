/**
  What the code generated so far does: a run from an earlier point reaches the end, where the expression in hand
  has its value, or leaves through one of the lists of the expression, or through a list of an enclosing one.
  Here the effect of every operation of the generator on this view is determined.
  */
module LCodeMeaning {
  import opened LCodeVm
  import opened LCodeGen
  import opened LCodeRun
  import opened LCodeShape
  import opened LCodeWays

  /** The value that the test of a jump has found, if the jump keeps it. */
  datatype Carry = NoValue | Has(v: Value)

  datatype End =
    | AtEnd(c: Carry, regs: Regs)
    | ExitT(c: Carry, regs: Regs)
    | ExitF(c: Carry, regs: Regs)
    | Other(jump: nat, regs: Regs)
    | Wrong

  function CarryOf(fs: Func, j: nat, s: Regs): Carry {
    if HasValue(fs.code, j) then Has(Get(s, fs.code[j - 1].b)) else NoValue
  }

  function ViewOf(fs: Func, e: Exp, o: Outcome): End {
    match o
    case Fall(s) => AtEnd(NoValue, s)
    case Exit(j, s) =>
      if j in fs.jpc then AtEnd(CarryOf(fs, j, s), s)
      else if j in e.t then ExitT(CarryOf(fs, j, s), s)
      else if j in e.f then ExitF(CarryOf(fs, j, s), s)
      else Other(j, s)
    case Stuck => Wrong
  }

  function View(env: Env, fs: Func, e: Exp, pc: nat, r: Regs): End {
    ViewOf(fs, e, Run(env, Body(fs, e), pc, r))
  }

  /** The value of the expression when its end is reached. */
  function ValueAt(env: Env, fs: Func, e: Exp, s: Regs): Value {
    var n := |fs.code|;
    match e.k
    case KTrue => Bool(true)
    case KFalse => Bool(false)
    case KNum(v) => Num(v)
    case KLocal(i) => Get(s, i)
    case KReg(i) => Get(s, i)
    case KUpval(i) => env.up(i)
    case KReloc =>
      if n >= 1 && fs.code[n - 1].Not? then Bool(IsFalse(Get(s, fs.code[n - 1].b)))
      else if n >= 1 && fs.code[n - 1].GetUpval? then env.up(fs.code[n - 1].u)
      else Nil
    case KJmp => Bool(n >= 2 && IsTest(fs.code[n - 2]) && Taken(env, fs.code[n - 2], s))
  }

  ghost predicate SameBelow(s: Regs, s': Regs, base: nat) { forall i: nat | i < base :: Get(s', i) == Get(s, i) }

  /** What a jump holds, whoever's value it is. */
  function Content(h: Held): Carry { if h.Nothing? then NoValue else Has(h.v) }

  /** The view `o` is that of a run which goes the way `w`, with the registers below `base` as in `s`. */
  ghost predicate Delivers(env: Env, w: Way, base: nat, s: Regs, fs: Func, e: Exp, o: End) {
    match o
    case AtEnd(c, s') => w.Arrives? && c == Content(w.h) && SameBelow(s, s', base) && ValueAt(env, fs, e, s') == w.v
    case ExitT(c, s') => w.LeavesT? && c == Content(w.h) && SameBelow(s, s', base)
    case ExitF(c, s') => w.LeavesF? && c == Content(w.h) && SameBelow(s, s', base)
    case _ => false
  }

  /** A jump to an instruction that has been emitted carries nothing. */
  function SettledEnd(o: End): End { if o.AtEnd? then AtEnd(NoValue, o.regs) else o }

  // ---------- emitting ----------

  predicate Here(fs: Func, o: Outcome) { o.Fall? || (o.Exit? && o.jump in fs.jpc) }

  /** A run through code to which `more` is appended after the jumps to it have been patched. */
  lemma EmitRun(env: Env, fs: Func, more: seq<Instr>, pc: nat, r: Regs)
    requires AllOpen(fs.code, fs.jpc)
    requires !Run(env, fs.code, pc, r).Stuck?
    ensures var n := |fs.code|;
      var code := Patch(fs.code, fs.jpc, n, NO_REG, n);
      var o := Run(env, fs.code, pc, r);
      && (Here(fs, o) ==> Run(env, code + more, pc, r) == Run(env, code + more, n, o.regs))
      && (!Here(fs, o) ==> Run(env, code + more, pc, r) == o)
  {
    var n := |fs.code|;
    var code := Patch(fs.code, fs.jpc, n, NO_REG, n);
    var o := Run(env, fs.code, pc, r);
    assert Patchable(fs.code, fs.jpc, n, n);
    PatchRun(env, fs.code, fs.jpc, n, NO_REG, n, pc, r);
    var o' := Run(env, code, pc, r);
    assert o' == if Here(fs, o) then Fall(o.regs) else o by {
      hide Patch;
      assert Run(env, code, n, o.regs) == Fall(o.regs);
    }
    hide Patch;
    AppendRun(env, code, more, pc, r);
  }

  /** The carry of a jump depends on the jump's own test only. */
  lemma SameCarry(fs: Func, gs: Func, j: nat, s: Regs)
    requires SameJump(fs, gs, j)
    ensures CarryOf(gs, j, s) == CarryOf(fs, j, s)
  {
  }

  /** Instructions that only set a register. */
  predicate Simple(i: Instr) { !IsTest(i) && !i.Jmp? && !(i.LoadBool? && i.skip) }

  lemma EmitSame(fs: Func, e: Exp, i: Instr)
    requires Good(fs, e) && !Pending(e)
    ensures forall j | j in Lists(e) :: SameJump(fs, Code(fs, i), j)
  {
    var n := |fs.code|;
    assert Body(fs, e) == fs.code;
    PatchOpen(fs.code, fs.jpc, n, NO_REG, n, [i], Lists(e));
    OpenInside(fs.code, Lists(e));
  }

  lemma CodeView(env: Env, fs: Func, e: Exp, i: Instr, k: Kind, pc: nat, r: Regs)
    requires Good(fs, e) && !Pending(e) && Simple(i) && !Pending(Exp(k, {}, {}))
    requires !View(env, fs, e, pc, r).Wrong?
    ensures var o := View(env, fs, e, pc, r);
      View(env, Code(fs, i), e.(k := k), pc, r) == if o.AtEnd? then AtEnd(NoValue, Effect(env, i, o.regs)) else o
  {
    var n := |fs.code|;
    var gs := Code(fs, i);
    assert Body(fs, e) == fs.code;
    assert Body(gs, e.(k := k)) == gs.code;
    EmitSame(fs, e, i);
    EmitRun(env, fs, [i], pc, r);
    var o := Run(env, fs.code, pc, r);
    if Here(fs, o) {
      assert Run(env, gs.code, n, o.regs) == Fall(Effect(env, i, o.regs)) by { hide Patch; }
    } else if o.jump in Lists(e) {
      SameCarry(fs, gs, o.jump, o.regs);
    }
  }

  /** An instruction that is emitted but still waits for its destination changes no register yet. */
  lemma RelocView(env: Env, fs: Func, e: Exp, i: Instr, pc: nat, r: Regs)
    requires Good(fs, e) && !Pending(e) && Relocatable(i)
    requires !View(env, fs, e, pc, r).Wrong?
    ensures View(env, Code(fs, i), e.(k := KReloc), pc, r) == SettledEnd(View(env, fs, e, pc, r))
  {
    var n := |fs.code|;
    var gs := Code(fs, i);
    assert Body(fs, e) == fs.code;
    var code := Patch(fs.code, fs.jpc, n, NO_REG, n);
    assert Body(gs, e.(k := KReloc)) == code == code + [];
    EmitSame(fs, e, i);
    EmitRun(env, fs, [], pc, r);
    var o := Run(env, fs.code, pc, r);
    if !Here(fs, o) && o.jump in Lists(e) {
      SameCarry(fs, gs, o.jump, o.regs);
    }
  }

  // ---------- discharging ----------

  lemma DischargeVarsView(env: Env, fs: Func, e: Exp, pc: nat, r: Regs)
    requires Good(fs, e) && !View(env, fs, e, pc, r).Wrong?
    ensures var g := DischargeVars(fs, e);
      && View(env, g.fs, g.e, pc, r) == (if e.k.KUpval? then SettledEnd(View(env, fs, e, pc, r)) else View(env, fs, e, pc, r))
      && forall s :: ValueAt(env, g.fs, g.e, s) == ValueAt(env, fs, e, s)
  {
    if e.k.KUpval? {
      RelocView(env, fs, e, GetUpval(0, e.k.i), pc, r);
    } else if e.k.KLocal? {
      assert Body(fs, e.(k := KReg(e.k.r))) == Body(fs, e);
    }
  }

  /** `s'` is `s` with `v` in register `reg`. */
  ghost predicate Sets(s: Regs, s': Regs, reg: nat, v: Value) {
    Get(s', reg) == v && forall i: nat | i != reg :: Get(s', i) == Get(s, i)
  }

  /** The value is in the register already, and no instruction is needed. */
  predicate There(k: Kind, reg: nat) { (k.KReg? || k.KLocal?) && k.r == reg }

  /** From the view `o` to `o'`: the value goes to a register when the end is reached. */
  ghost predicate Stores(env: Env, fs: Func, e: Exp, o: End, reg: nat, o': End) {
    if o.AtEnd? then
      && o'.AtEnd? && Sets(o.regs, o'.regs, reg, ValueAt(env, fs, e, o.regs))
      && o'.c == if There(e.k, reg) then o.c else NoValue
    else o' == o
  }

  lemma SetAView(env: Env, fs: Func, e: Exp, reg: nat, pc: nat, r: Regs)
    requires Good(fs, e) && e.k.KReloc? && !View(env, fs, e, pc, r).Wrong?
    ensures var gs := fs.(code := LastSetA(fs.code, reg)); var e' := e.(k := KReg(reg));
      Stores(env, fs, e, View(env, fs, e, pc, r), reg, View(env, gs, e', pc, r))
  {
    var n := |fs.code|;
    var gs := fs.(code := LastSetA(fs.code, reg));
    var e' := e.(k := KReg(reg));
    var last := SetA(fs.code[n - 1], reg);
    assert gs.code == Body(fs, e) + [last] && Body(gs, e') == gs.code;
    AppendRun(env, Body(fs, e), [last], pc, r);
    var o := Run(env, Body(fs, e), pc, r);
    assert fs.jpc == {};
    if o.Fall? {
      assert Run(env, gs.code, n - 1, o.regs) == Fall(Effect(env, last, o.regs));
    } else if o.jump in Lists(e) {
      assert Open(Body(fs, e), o.jump);
      SameCarry(fs, gs, o.jump, o.regs);
    }
  }

  lemma Discharge2RegView(env: Env, fs: Func, e: Exp, reg: nat, pc: nat, r: Regs)
    requires Good(fs, e) && !e.k.KJmp? && !View(env, fs, e, pc, r).Wrong?
    ensures var g := Discharge2Reg(fs, e, reg);
      Stores(env, fs, e, View(env, fs, e, pc, r), reg, View(env, g.fs, g.e, pc, r))
  {
    hide Good, View, Code, LastSetA;
    var g := DischargeVars(fs, e);
    DischargeVarsView(env, fs, e, pc, r);
    DischargeVarsShape(fs, e);
    match g.e.k {
      case KTrue => CodeView(env, g.fs, g.e, LoadBool(reg, true, false), KReg(reg), pc, r);
      case KFalse => CodeView(env, g.fs, g.e, LoadBool(reg, false, false), KReg(reg), pc, r);
      case KNum(n) => CodeView(env, g.fs, g.e, LoadK(reg, Num(n)), KReg(reg), pc, r);
      case KReloc => SetAView(env, g.fs, g.e, reg, pc, r);
      case KReg(i) => if reg != i { CodeView(env, g.fs, g.e, Move(reg, i), KReg(reg), pc, r); }
      case _ =>
    }
  }

  // ---------- closing the lists ----------

  /** The code ends with the two instructions that load booleans. */
  predicate Tail(code: seq<Instr>, reg: nat) {
    var n := |code|;
    n >= 2 && code[n - 2] == LoadBool(reg, false, true) && code[n - 1] == LoadBool(reg, true, false)
  }

  lemma TailRun(env: Env, code: seq<Instr>, reg: nat, s: Regs)
    requires Tail(code, reg)
    ensures var n := |code|;
      && Run(env, code, n - 2, s) == Fall(s[reg := Bool(false)])
      && Run(env, code, n - 1, s) == Fall(s[reg := Bool(true)])
  {
  }

  lemma TailPatch(code: seq<Instr>, list: set<nat>, vtarget: int, reg: nat, dtarget: int, dest: nat)
    requires Tail(code, dest) && AllOpen(code, list)
    ensures Tail(Patch(code, list, vtarget, reg, dtarget), dest)
  {
    var n := |code|;
    assert forall j | j in list :: Open(code, j) && code[j].Jmp?;
  }

  /** What a closed list makes of a jump. */
  function Closed(code: seq<Instr>, list: set<nat>, reg: nat, b: bool, o: Outcome): Outcome {
    if o.Exit? && o.jump in list then
      Fall(if HasValue(code, o.jump) then Stored(code, o.jump, reg, o.regs) else o.regs[reg := Bool(b)])
    else o
  }

  /** A jump of the list carries a value, or the code ends with the loads and `dtarget` is the right one. */
  ghost predicate Closable(code: seq<Instr>, list: set<nat>, reg: nat, b: bool, dtarget: int) {
    forall j | j in list ::
      && Open(code, j)
      && (HasValue(code, j) || (Tail(code, reg) && j < |code| - 2 && dtarget == |code| - (if b then 1 else 2)))
  }

  lemma CloseOne(env: Env, code: seq<Instr>, list: set<nat>, reg: nat, b: bool, dtarget: int, pc: nat, r: Regs)
    requires Closable(code, list, reg, b, dtarget) && !Run(env, code, pc, r).Stuck?
    ensures Run(env, Patch(code, list, |code|, reg, dtarget), pc, r) == Closed(code, list, reg, b, Run(env, code, pc, r))
  {
    var n := |code|;
    var done := Patch(code, list, n, reg, dtarget);
    assert Patchable(code, list, n, dtarget) && AllOpen(code, list);
    PatchRun(env, code, list, n, reg, dtarget, pc, r);
    var o := Run(env, code, pc, r);
    if o.Exit? && o.jump in list && !HasValue(code, o.jump) {
      TailPatch(code, list, n, reg, dtarget, reg);
      hide Patch, Run, Closable, Patchable, AllOpen, Stored;
      TailRun(env, done, reg, o.regs);
    } else {
      hide Patch, Tail, Patchable, AllOpen, Stored;
    }
  }

  lemma ClosableAfter(code: seq<Instr>, list: set<nat>, vtarget: int, reg: nat, dtarget: int, t: set<nat>, pt: int)
    requires Paired(code) && AllOpen(code, list) && list !! t && Closable(code, t, reg, true, pt)
    ensures var done := Patch(code, list, vtarget, reg, dtarget);
      Closable(done, t, reg, true, pt)
    ensures var done := Patch(code, list, vtarget, reg, dtarget);
      forall o: Outcome | o.Exit? && o.jump in t :: Closed(done, t, reg, true, o) == Closed(code, t, reg, true, o)
  {
    var done := Patch(code, list, vtarget, reg, dtarget);
    assert AllOpen(code, t) by { forall j | j in t ensures Open(code, j) { } }
    PatchOpen(code, list, vtarget, reg, dtarget, [], t);
    if Tail(code, reg) {
      TailPatch(code, list, vtarget, reg, dtarget, reg);
    }
    hide Patch;
    forall j | j in t
      ensures HasValue(done, j) == HasValue(code, j)
      ensures HasValue(done, j) ==> done[j - 1] == code[j - 1]
      ensures Open(done, j)
    {
      assert Open(code, j);
    }
  }

  /** What two closed lists make of an outcome. */
  function ClosedBoth(code: seq<Instr>, t: set<nat>, f: set<nat>, reg: nat, o: Outcome): Outcome {
    Closed(code, t, reg, true, Closed(code, f, reg, false, o))
  }

  lemma CloseBoth(env: Env, code: seq<Instr>, t: set<nat>, f: set<nat>, reg: nat, pt: int, pf: int, pc: nat, r: Regs)
    requires Paired(code) && t !! f && !Run(env, code, pc, r).Stuck?
    requires Closable(code, t, reg, true, pt) && Closable(code, f, reg, false, pf)
    ensures var n := |code|;
      Run(env, Patch(Patch(code, f, n, reg, pf), t, n, reg, pt), pc, r) == ClosedBoth(code, t, f, reg, Run(env, code, pc, r))
  {
    var n := |code|;
    var mid := Patch(code, f, n, reg, pf);
    var o := Run(env, code, pc, r);
    CloseOne(env, code, f, reg, false, pf, pc, r);
    assert AllOpen(code, f) by { forall j | j in f ensures Open(code, j) { } }
    ClosableAfter(code, f, n, reg, pf, t, pt);
    hide Closable, Patch;
    CloseOne(env, mid, t, reg, true, pt, pc, r);
  }

  /** The effect of `CloseLists` on a run: the jumps of both lists reach the end with their value in `reg`.  A
      comparison in hand (`isJmp`) that falls through is false. */
  function ClosedView(fs: Func, isJmp: bool, t: set<nat>, f: set<nat>, reg: nat, o: Outcome): End {
    if Here(fs, o) then
      AtEnd(if o.Exit? && !isJmp then CarryOf(fs, o.jump, o.regs) else NoValue, if isJmp then o.regs[reg := Bool(false)] else o.regs)
    else
      var o' := ClosedBoth(fs.code, t, f, reg, o);
      match o'
      case Fall(s) => AtEnd(NoValue, s)
      case Exit(j, s) => Other(j, s)
      case Stuck => Wrong
  }

  /** The code after the two booleans are loaded, before the lists are patched. */
  lemma LoadsRun(env: Env, fs: Func, reg: nat, lists: set<nat>, pc: nat, r: Regs)
    requires Paired(fs.code) && AllOpen(fs.code, fs.jpc) && AllOpen(fs.code, lists) && fs.jpc !! lists
    requires !Run(env, fs.code, pc, r).Stuck?
    ensures var g := Code(Code(fs, LoadBool(reg, false, true)), LoadBool(reg, true, false));
      var o := Run(env, fs.code, pc, r);
      && Tail(g.code, reg) && |g.code| == |fs.code| + 2 && Paired(g.code) && AllOpen(g.code, lists)
      && Run(env, g.code, pc, r) == (if Here(fs, o) then Fall(o.regs[reg := Bool(false)]) else o)
      && (forall j | j in lists :: j < |fs.code| && HasValue(g.code, j) == HasValue(fs.code, j))
      && (forall j | j in lists && HasValue(fs.code, j) :: g.code[j - 1] == fs.code[j - 1])
  {
    var n := |fs.code|;
    var g := Code(Code(fs, LoadBool(reg, false, true)), LoadBool(reg, true, false));
    var more := [LoadBool(reg, false, true), LoadBool(reg, true, false)];
    LoadBoolsShape(fs, reg, lists);
    EmitRun(env, fs, more, pc, r);
    OpenInside(fs.code, lists);
    hide Patch;
    var o := Run(env, fs.code, pc, r);
    TailRun(env, g.code, reg, o.regs);
  }

  /** The outcome before the lists are patched, and what patching makes of it. */
  lemma LoadsClose(env: Env, fs: Func, t: set<nat>, f: set<nat>, reg: nat, pc: nat, r: Regs)
    requires Paired(fs.code) && AllOpen(fs.code, fs.jpc) && AllOpen(fs.code, t + f)
    requires t !! f && fs.jpc !! t + f
    requires !Run(env, fs.code, pc, r).Stuck?
    ensures var g := Code(Code(fs, LoadBool(reg, false, true)), LoadBool(reg, true, false));
      var n := |g.code|;
      var o := Run(env, fs.code, pc, r);
      Run(env, Patch(Patch(g.code, f, n, reg, n - 2), t, n, reg, n - 1), pc, r) ==
      (if Here(fs, o) then Fall(o.regs[reg := Bool(false)]) else ClosedBoth(fs.code, t, f, reg, o))
  {
    hide Patch, Open, Run;
    var g := Code(Code(fs, LoadBool(reg, false, true)), LoadBool(reg, true, false));
    var n := |g.code|;
    LoadsRun(env, fs, reg, t + f, pc, r);
    assert Closable(g.code, t, reg, true, n - 1) && Closable(g.code, f, reg, false, n - 2);
    CloseBoth(env, g.code, t, f, reg, n - 1, n - 2, pc, r);
    var o := Run(env, fs.code, pc, r);
    if !Here(fs, o) && o.jump in t + f {
      assert o.jump < |fs.code|;
      assert HasValue(g.code, o.jump) == HasValue(fs.code, o.jump);
    }
  }

  /** Appending an unconditional jump turns reaching the end into leaving through it. */
  lemma JumpRun(env: Env, fs: Func, pc: nat, r: Regs)
    requires Paired(fs.code) && !Run(env, fs.code, pc, r).Stuck?
    ensures var o := Run(env, fs.code, pc, r);
      Run(env, Jump(fs).fs.code, pc, r) == if o.Fall? then Exit(|fs.code|, o.regs) else o
  {
    var n := |fs.code|;
    var code := fs.code + [Jmp(NO_JUMP)];
    AppendRun(env, fs.code, [Jmp(NO_JUMP)], pc, r);
    var o := Run(env, fs.code, pc, r);
    if n > 0 {
      assert code[n - 1] == fs.code[n - 1];
    }
    assert Jump(fs).fs.code == code;
    assert !Controlled(code, n);
    if o.Fall? {
      assert Run(env, code, n, o.regs) == Leave(env, code, n, o.regs);
    }
  }

  lemma {:induction false} ExitInside(env: Env, code: seq<Instr>, pc: nat, r: Regs)
    ensures var o := Run(env, code, pc, r); o.Exit? ==> o.jump < |code|
    decreases |code| - pc
  {
    if pc < |code| {
      var i := code[pc];
      if IsTest(i) {
        if pc + 1 < |code| && code[pc + 1].Jmp? {
          if Taken(env, i, r) {
            if code[pc + 1].sbx >= 0 { ExitInside(env, code, pc + 2 + code[pc + 1].sbx, AfterTest(i, r)); }
          } else {
            ExitInside(env, code, pc + 2, r);
          }
        }
      } else if i.Jmp? {
        if i.sbx >= 0 { ExitInside(env, code, pc + 1 + i.sbx, r); }
      } else if i.LoadBool? && i.skip {
        ExitInside(env, code, pc + 2, Effect(env, i, r));
      } else {
        ExitInside(env, code, pc + 1, Effect(env, i, r));
      }
    }
  }

  /** The jumps that wait for the next instruction stay as they are; the jump around the loads carries nothing. */
  lemma ClosedPending(fs: Func, t: set<nat>, f: set<nat>, reg: nat)
    requires Separate(fs, t, f)
    ensures var gs := CloseLists(fs, false, t, f, reg);
      && (forall j | j in fs.jpc :: SameJump(fs, gs, j))
      && (NeedValue(fs.code, t) || NeedValue(fs.code, f) ==> !HasValue(gs.code, |fs.code|))
  {
    hide Open, Patch, NeedValue;
    var n := |fs.code|;
    assert AllOpen(fs.code, t + f) && AllOpen(fs.code, fs.jpc);
    OpenInside(fs.code, fs.jpc);
    OpenInside(fs.code, t + f);
    if NeedValue(fs.code, t) || NeedValue(fs.code, f) {
      var j := Jump(fs);
      JumpShape(fs);
      OpenAppend(fs.code, [Jmp(NO_JUMP)], fs.jpc);
      OpenAppend(fs.code, [Jmp(NO_JUMP)], t + f);
      CloseWithLoads(j.fs, t, f, reg, j.list);
      assert n in j.list;
      assert n > 0 ==> !IsTest(fs.code[n - 1]);
    } else {
      PatchBothShape(fs.code, t, f, n, reg, NO_JUMP, NO_JUMP, fs.jpc);
    }
  }

  lemma CloseWithLoadsView(env: Env, fs: Func, isJmp: bool, t: set<nat>, f: set<nat>, reg: nat, pc: nat, r: Regs)
    requires Separate(fs, t, f) && !Run(env, fs.code, pc, r).Stuck?
    requires NeedValue(fs.code, t) || NeedValue(fs.code, f)
    ensures View(env, CloseLists(fs, isJmp, t, f, reg), Exp(KReg(reg), {}, {}), pc, r) ==
            ClosedView(fs, isJmp, t, f, reg, Run(env, fs.code, pc, r))
  {
    hide Open, Patch, Run, NeedValue;
    var gs := CloseLists(fs, isJmp, t, f, reg);
    assert Body(gs, Exp(KReg(reg), {}, {})) == gs.code;
    assert AllOpen(fs.code, t + f) && AllOpen(fs.code, fs.jpc);
    var o := Run(env, fs.code, pc, r);
    OpenInside(fs.code, t + f);
    ExitInside(env, fs.code, pc, r);
    if isJmp {
      LoadsClose(env, fs, t, f, reg, pc, r);
    } else {
      var j := Jump(fs);
      JumpShape(fs);
      OpenAppend(fs.code, [Jmp(NO_JUMP)], fs.jpc);
      OpenAppend(fs.code, [Jmp(NO_JUMP)], t + f);
      JumpRun(env, fs, pc, r);
      LoadsClose(env, j.fs, t, f, reg, pc, r);
      ClosedPending(fs, t, f, reg);
      if o.Exit? && o.jump in fs.jpc { SameCarry(fs, gs, o.jump, o.regs); }
      assert !Here(fs, o) && o.jump in t + f ==> HasValue(j.fs.code, o.jump) == HasValue(fs.code, o.jump);
    }
  }

  lemma CloseWithoutLoadsView(env: Env, fs: Func, isJmp: bool, t: set<nat>, f: set<nat>, reg: nat, pc: nat, r: Regs)
    requires Separate(fs, t, f) && !Run(env, fs.code, pc, r).Stuck? && !isJmp
    requires !NeedValue(fs.code, t) && !NeedValue(fs.code, f)
    ensures View(env, CloseLists(fs, isJmp, t, f, reg), Exp(KReg(reg), {}, {}), pc, r) ==
            ClosedView(fs, isJmp, t, f, reg, Run(env, fs.code, pc, r))
  {
    hide Open, Patch, Run;
    var gs := CloseLists(fs, isJmp, t, f, reg);
    assert Body(gs, Exp(KReg(reg), {}, {})) == gs.code;
    assert Closable(fs.code, t, reg, true, NO_JUMP) && Closable(fs.code, f, reg, false, NO_JUMP);
    CloseBoth(env, fs.code, t, f, reg, NO_JUMP, NO_JUMP, pc, r);
    ClosedPending(fs, t, f, reg);
    var o := Run(env, fs.code, pc, r);
    if o.Exit? && o.jump in fs.jpc { SameCarry(fs, gs, o.jump, o.regs); }
  }

  // ---------- values in registers ----------

  /** The value that a jump of a list stands for. */
  function Final(c: Carry, b: bool): Value { if c.Has? then c.v else Bool(b) }

  /** From the view `o` to `o'`: however the expression ends, its value is in `reg` afterwards. */
  ghost predicate Collects(env: Env, fs: Func, e: Exp, o: End, reg: nat, o': End) {
    match o
    case AtEnd(c, s) =>
      && o'.AtEnd? && Sets(s, o'.regs, reg, ValueAt(env, fs, e, s))
      && o'.c == if There(e.k, reg) then c else NoValue
    case ExitT(c, s) => o'.AtEnd? && o'.c == NoValue && Sets(s, o'.regs, reg, Final(c, true))
    case ExitF(c, s) => o'.AtEnd? && o'.c == NoValue && Sets(s, o'.regs, reg, Final(c, false))
    case _ => o' == o
  }

  lemma ClosedJump(fs: Func, isJmp: bool, t: set<nat>, f: set<nat>, reg: nat, o: Outcome)
    requires Separate(fs, t, f) && reg != NO_REG
    requires o.Exit? && o.jump !in fs.jpc
    ensures var o' := ClosedView(fs, isJmp, t, f, reg, o);
      && (o.jump in t ==> o'.AtEnd? && o'.c == NoValue && Sets(o.regs, o'.regs, reg, Final(CarryOf(fs, o.jump, o.regs), true)))
      && (o.jump in f ==> o'.AtEnd? && o'.c == NoValue && Sets(o.regs, o'.regs, reg, Final(CarryOf(fs, o.jump, o.regs), false)))
      && (o.jump !in t + f ==> o' == Other(o.jump, o.regs))
  {
    hide Open;
  }

  lemma CloseListsView(env: Env, fs: Func, isJmp: bool, t: set<nat>, f: set<nat>, reg: nat, pc: nat, r: Regs)
    requires Separate(fs, t, f) && !Run(env, fs.code, pc, r).Stuck?
    requires isJmp ==> NeedValue(fs.code, t)
    ensures View(env, CloseLists(fs, isJmp, t, f, reg), Exp(KReg(reg), {}, {}), pc, r) ==
            ClosedView(fs, isJmp, t, f, reg, Run(env, fs.code, pc, r))
  {
    hide View, CloseLists, ClosedView, Run, NeedValue, Separate;
    if NeedValue(fs.code, t) || NeedValue(fs.code, f) {
      CloseWithLoadsView(env, fs, isJmp, t, f, reg, pc, r);
    } else {
      CloseWithoutLoadsView(env, fs, isJmp, t, f, reg, pc, r);
    }
  }

  /** Closing the lists of a value that is already in the register. */
  lemma CloseValueView(env: Env, fs: Func, e: Exp, reg: nat, pc: nat, r: Regs)
    requires Good(fs, e) && e.k == KReg(reg) && reg != NO_REG
    requires !View(env, fs, e, pc, r).Wrong?
    ensures Collects(env, fs, e, View(env, fs, e, pc, r), reg,
                     View(env, CloseLists(fs, false, e.t, e.f, reg), Exp(KReg(reg), {}, {}), pc, r))
  {
    SeparateLists(fs, e, e.t);
    assert Body(fs, e) == fs.code;
    CloseListsView(env, fs, false, e.t, e.f, reg, pc, r);
    hide Good, CloseLists, Run, Separate;
    var o := Run(env, fs.code, pc, r);
    if !Here(fs, o) {
      hide ClosedView, Sets;
      ClosedJump(fs, false, e.t, e.f, reg, o);
    }
  }

  /** The run of a comparison that is still in hand. */
  lemma CompareRun(env: Env, fs: Func, e: Exp, pc: nat, r: Regs)
    requires Good(fs, e) && e.k.KJmp? && !Run(env, Body(fs, e), pc, r).Stuck?
    ensures var n := |fs.code|;
      var o := Run(env, Body(fs, e), pc, r);
      Run(env, fs.code, pc, r) ==
      if !o.Fall? then o else if Taken(env, fs.code[n - 2], o.regs) then Exit(n - 1, o.regs) else Fall(o.regs)
  {
    var n := |fs.code|;
    var more := fs.code[n - 2..];
    assert fs.code == Body(fs, e) + more;
    AppendRun(env, Body(fs, e), more, pc, r);
    var o := Run(env, Body(fs, e), pc, r);
    if o.Fall? {
      assert fs.code[n - 2].Compare? && fs.code[n - 1] == Jmp(NO_JUMP);
      CompareTaken(env, fs.code, n - 2, o.regs);
    }
  }

  lemma CompareTaken(env: Env, code: seq<Instr>, at: nat, s: Regs)
    requires at + 2 == |code| && code[at].Compare? && code[at + 1] == Jmp(NO_JUMP)
    ensures Run(env, code, at, s) == if Taken(env, code[at], s) then Exit(at + 1, s) else Fall(s)
  {
  }

  /** A comparison in hand is stored as a boolean. */
  lemma StoredCompare(env: Env, fs: Func, e: Exp, reg: nat, b: Outcome, o: Outcome, v: End)
    requires Good(fs, e) && e.k.KJmp? && reg != NO_REG
    requires var n := |fs.code|;
      && o == (if !b.Fall? then b else if Taken(env, fs.code[n - 2], b.regs) then Exit(n - 1, b.regs) else Fall(b.regs))
      && !b.Stuck? && (b.Exit? ==> b.jump < n - 2)
      && v == ClosedView(fs, true, e.t + {n - 1}, e.f, reg, o)
    ensures Collects(env, fs, e, ViewOf(fs, e, b), reg, v)
  {
    var n := |fs.code|;
    var t := e.t + {n - 1};
    SeparateLists(fs, e, t);
    assert |Body(fs, e)| == n - 2 && fs.jpc == {};
    assert fs.code[n - 2].Compare? && !HasValue(fs.code, n - 1);
    hide Good, Separate, Body;
    if b.Exit? {
      hide ClosedView, Sets;
      ClosedJump(fs, true, t, e.f, reg, o);
    } else if o.Exit? {
      hide ClosedView, Sets;
      ClosedJump(fs, true, t, e.f, reg, o);
      assert o.jump in t;
    }
  }

  lemma CloseCompareView(env: Env, fs: Func, e: Exp, reg: nat, pc: nat, r: Regs)
    requires Good(fs, e) && e.k.KJmp? && reg != NO_REG
    requires !View(env, fs, e, pc, r).Wrong?
    ensures Collects(env, fs, e, View(env, fs, e, pc, r), reg,
                     View(env, CloseLists(fs, true, e.t + {|fs.code| - 1}, e.f, reg), Exp(KReg(reg), {}, {}), pc, r))
  {
    var n := |fs.code|;
    var t := e.t + {n - 1};
    SeparateLists(fs, e, t);
    CompareRun(env, fs, e, pc, r);
    assert !HasValue(fs.code, n - 1) && n - 1 in t;
    CloseListsView(env, fs, true, t, e.f, reg, pc, r);
    ExitInside(env, Body(fs, e), pc, r);
    assert |Body(fs, e)| == n - 2;
    hide Good, CloseLists, Run, Separate, Body, PendingOk, Collects;
    var gs := CloseLists(fs, true, t, e.f, reg);
    StoredCompare(env, fs, e, reg, Run(env, Body(fs, e), pc, r), Run(env, fs.code, pc, r),
                  View(env, gs, Exp(KReg(reg), {}, {}), pc, r));
  }

  /** A discharged value is collected by what follows. */
  lemma StoresCollects(env: Env, fs: Func, e: Exp, o: End, reg: nat, gs: Func, e': Exp, o': End, o'': End)
    requires Stores(env, fs, e, o, reg, o') && Collects(env, gs, e', o', reg, o'') && e'.k == KReg(reg)
    ensures Collects(env, fs, e, o, reg, o'')
  {
  }

  lemma StoresOnly(env: Env, fs: Func, e: Exp, o: End, reg: nat, o': End)
    requires Stores(env, fs, e, o, reg, o') && !o.ExitT? && !o.ExitF?
    ensures Collects(env, fs, e, o, reg, o')
  {
  }

  lemma Exp2RegView(env: Env, fs: Func, e: Exp, reg: nat, pc: nat, r: Regs)
    requires Good(fs, e) && reg != NO_REG && !View(env, fs, e, pc, r).Wrong?
    ensures var g := Exp2Reg(fs, e, reg);
      Collects(env, fs, e, View(env, fs, e, pc, r), reg, View(env, g.fs, g.e, pc, r))
  {
    hide View, Collects, CloseLists, Good, Discharge2Reg;
    Discharge2RegShape(fs, e, reg);
    if e.k.KJmp? {
      Exp2RegJump(fs, e, reg);
      CloseCompareView(env, fs, e, reg, pc, r);
    } else {
      var d := Discharge2Reg(fs, e, reg);
      Discharge2RegView(env, fs, e, reg, pc, r);
      hide Stores;
      if e.t + e.f == {} {
        NoLists(e);
        ListlessView(env, fs, e, pc, r);
        StoresOnly(env, fs, e, View(env, fs, e, pc, r), reg, View(env, d.fs, d.e, pc, r));
      } else {
        StoredNotWrong(env, fs, e, View(env, fs, e, pc, r), reg, View(env, d.fs, d.e, pc, r));
        CloseValueView(env, d.fs, d.e, reg, pc, r);
        var gs := CloseLists(d.fs, false, e.t, e.f, reg);
        StoresCollects(env, fs, e, View(env, fs, e, pc, r), reg, d.fs, d.e, View(env, d.fs, d.e, pc, r),
                       View(env, gs, Exp(KReg(reg), {}, {}), pc, r));
      }
    }
  }

  lemma ListlessView(env: Env, fs: Func, e: Exp, pc: nat, r: Regs)
    requires e == Exp(e.k, {}, {})
    ensures !View(env, fs, e, pc, r).ExitT? && !View(env, fs, e, pc, r).ExitF?
  {
    hide Run, Body;
  }

  lemma StoredNotWrong(env: Env, fs: Func, e: Exp, o: End, reg: nat, o': End)
    requires Stores(env, fs, e, o, reg, o') && !o.Wrong?
    ensures !o'.Wrong?
  {
  }

  lemma Exp2RegJump(fs: Func, e: Exp, reg: nat)
    requires Good(fs, e) && e.k.KJmp?
    ensures Exp2Reg(fs, e, reg) == Gen(CloseLists(fs, true, e.t + {|fs.code| - 1}, e.f, reg), Exp(KReg(reg), {}, {}))
  {
    hide CloseLists;
    assert |fs.code| - 1 in e.t + {|fs.code| - 1} + e.f;
  }

  // ---------- delivering ----------

  /** From one stage of the generator to the next: exits of enclosing expressions stay, and if the run goes the way
      `w` in the first then it goes the way `w'` in the second. */
  ghost predicate Passes(env: Env, w: Way, w': Way, base: nat, s: Regs, fs: Func, e: Exp, o: End, gs: Func, e': Exp, o': End) {
    (o.Other? ==> o' == o) && (Delivers(env, w, base, s, fs, e, o) ==> Delivers(env, w', base, s, gs, e', o'))
  }

  lemma CollectsPasses(env: Env, w: Way, base: nat, s: Regs, fs: Func, e: Exp, o: End, reg: nat, gs: Func, e': Exp, o': End)
    requires Collects(env, fs, e, o, reg, o') && e'.k == KReg(reg) && base <= reg
    ensures Passes(env, w, Gathered(There(e.k, reg), w), base, s, fs, e, o, gs, e', o')
  {
  }

  lemma OnlyRegsView(env: Env, fs: Func, gs: Func, e: Exp, pc: nat, r: Regs)
    requires OnlyRegs(fs, gs)
    ensures View(env, gs, e, pc, r) == View(env, fs, e, pc, r)
    ensures forall s :: ValueAt(env, gs, e, s) == ValueAt(env, fs, e, s)
  {
    assert Body(gs, e) == Body(fs, e);
  }

  lemma ToRegView(env: Env, w: Way, base: nat, s: Regs, fs: Func, e: Exp, pc: nat, r: Regs)
    requires Good(fs, e) && RegsOk(fs, e, base) && !View(env, fs, e, pc, r).Wrong?
    requires !e.k.KLocal? && !e.k.KUpval?
    requires var fs1 := FreeExp(fs, e);
      var g := Exp2Reg(ReserveReg(fs1), e, fs1.freereg); g.fs.fits
    ensures var fs1 := FreeExp(fs, e);
      var g := Exp2Reg(ReserveReg(fs1), e, fs1.freereg);
      Passes(env, w, Gathered(There(e.k, base), w), base, s, fs, e, View(env, fs, e, pc, r), g.fs, g.e, View(env, g.fs, g.e, pc, r))
  {
    hide Good, Step, Exp2Reg, View, Delivers, Collects, ValueAt;
    var fs1 := FreeExp(fs, e);
    FreeExpShape(fs, e, base);
    var fs2 := ReserveReg(fs1);
    ReserveRegShape(fs1, e);
    Exp2RegShape(fs2, e, base);
    var g := Exp2Reg(fs2, e, base);
    StepVars(fs2, e, g.fs, g.e);
    OnlyRegsView(env, fs, fs2, e, pc, r);
    Exp2RegView(env, fs2, e, base, pc, r);
    CollectsPasses(env, w, base, s, fs2, e, View(env, fs2, e, pc, r), base, g.fs, g.e, View(env, g.fs, g.e, pc, r));
    DeliversRegs(env, w, base, s, fs, fs2, e, View(env, fs, e, pc, r));
  }

  lemma DeliversRegs(env: Env, w: Way, base: nat, s: Regs, fs: Func, gs: Func, e: Exp, o: End)
    requires OnlyRegs(fs, gs)
    ensures Delivers(env, w, base, s, fs, e, o) == Delivers(env, w, base, s, gs, e, o)
  {
  }
}
