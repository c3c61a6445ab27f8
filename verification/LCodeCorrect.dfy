/**
  The emitted code does what `LCodeWays` says: every operation of the code generator turns the way of a run in hand
  into the way that it should, and so does the code of a whole expression.
  */
module LCodeCorrect {
  import opened LCodeVm
  import opened LCodeGen
  import opened LCodeWays
  import opened LCodeRun
  import opened LCodeShape
  import opened LCodeMeaning

  lemma PassesTrans(env: Env, v: Way, w: Way, u: Way, base: nat, s: Regs,
                    fs: Func, e: Exp, o: End, gs: Func, e': Exp, o': End, hs: Func, e'': Exp, o'': End)
    requires Passes(env, v, w, base, s, fs, e, o, gs, e', o') && Passes(env, w, u, base, s, gs, e', o', hs, e'', o'')
    ensures Passes(env, v, u, base, s, fs, e, o, hs, e'', o'')
  {
    hide Delivers;
  }

  lemma SamePasses(env: Env, w: Way, base: nat, s: Regs, fs: Func, e: Exp, o: End, gs: Func, e': Exp)
    requires forall s' :: ValueAt(env, gs, e', s') == ValueAt(env, fs, e, s')
    ensures Passes(env, w, w, base, s, fs, e, o, gs, e', o)
    ensures Passes(env, w, Settled(w), base, s, fs, e, o, gs, e', SettledEnd(o))
  {
  }

  /** The way after the variable in hand, if it is one, has been discharged. */
  function VarsWay(e: Exp, w: Way): Way { if e.k.KUpval? then Settled(w) else w }

  lemma DischargeVarsPasses(env: Env, w: Way, base: nat, s: Regs, fs: Func, e: Exp, pc: nat, r: Regs)
    requires Good(fs, e) && !View(env, fs, e, pc, r).Wrong?
    ensures var g := DischargeVars(fs, e);
      var o' := View(env, g.fs, g.e, pc, r);
      !o'.Wrong? && Passes(env, w, VarsWay(e, w), base, s, fs, e, View(env, fs, e, pc, r), g.fs, g.e, o')
  {
    hide Good, View, ValueAt, Delivers, Passes;
    DischargeVarsView(env, fs, e, pc, r);
    var g := DischargeVars(fs, e);
    SamePasses(env, w, base, s, fs, e, View(env, fs, e, pc, r), g.fs, g.e);
  }

  /** A register in hand from which jumps leave is that of a local variable. */
  predicate LocalReg(fs: Func, e: Exp) { e.k.KReg? && HasJumps(e) ==> e.k.r < fs.nactvar }

  /** The way after `luaK_exp2anyreg`. */
  function AnyRegWay(e: Exp, w: Way): Way {
    if (e.k.KReg? || e.k.KLocal?) && !HasJumps(e) then w else Gathered(false, w)
  }

  lemma GatheredVars(e: Exp, w: Way)
    ensures Gathered(false, VarsWay(e, w)) == Gathered(false, w)
  {
  }

  lemma Exp2AnyRegPasses(env: Env, w: Way, base: nat, s: Regs, fs: Func, e: Exp, pc: nat, r: Regs)
    requires Good(fs, e) && RegsOk(fs, e, base) && LocalReg(fs, e) && !View(env, fs, e, pc, r).Wrong?
    requires Exp2AnyReg(fs, e).fs.fits
    ensures var g := Exp2AnyReg(fs, e);
      Passes(env, w, AnyRegWay(e, w), base, s, fs, e, View(env, fs, e, pc, r), g.fs, g.e, View(env, g.fs, g.e, pc, r))
  {
    hide Good, View, ValueAt, Passes, Step, Exp2Reg, Gathered;
    var g := DischargeVars(fs, e);
    DischargeVarsShape(fs, e);
    DischargeVarsPasses(env, w, base, s, fs, e, pc, r);
    ReDischarge(g.fs, g.e);
    GatheredVars(e, w);
    if !(g.e.k.KReg? && !HasJumps(g.e)) {
      var v, o := VarsWay(e, w), View(env, g.fs, g.e, pc, r);
      var h := Exp2AnyReg(fs, e);
      StepVars(fs, e, g.fs, g.e);
      assert !(g.e.k.KReg? && g.e.k.r >= g.fs.nactvar);
      ToRegShape(g.fs, g.e, base);
      ToRegView(env, v, base, s, g.fs, g.e, pc, r);
      PassesTrans(env, w, v, Gathered(false, v), base, s, fs, e, View(env, fs, e, pc, r), g.fs, g.e, o, h.fs, h.e, View(env, h.fs, h.e, pc, r));
    }
  }

  /** The way after `luaK_exp2RK`: a literal or a local variable from which no jumps leave is an operand as it is. */
  function OperandWay(e: Exp, w: Way): Way {
    if !HasJumps(e) && (e.k.KReg? || e.k.KLocal? || e.k.KTrue? || e.k.KFalse? || e.k.KNum?) then w else Gathered(false, w)
  }

  lemma GatheredTwice(w: Way)
    ensures Gathered(false, Gathered(false, w)) == Gathered(false, w)
  {
  }

  lemma Exp2RKPasses(env: Env, w: Way, base: nat, s: Regs, fs: Func, e: Exp, pc: nat, r: Regs)
    requires Good(fs, e) && RegsOk(fs, e, base) && LocalReg(fs, e) && !View(env, fs, e, pc, r).Wrong?
    requires Exp2RK(fs, e).fs.fits
    ensures var g := Exp2RK(fs, e);
      Passes(env, w, OperandWay(e, w), base, s, fs, e, View(env, fs, e, pc, r), g.fs, g.e, View(env, g.fs, g.e, pc, r))
  {
    hide Good, View, ValueAt, Passes, Step, Exp2AnyReg, Gathered;
    var g := Exp2Val(fs, e);
    var h := Exp2RK(fs, e);
    Exp2ValShape(fs, e, base);
    var second := !g.e.k.KNum? && !g.e.k.KTrue? && !g.e.k.KFalse?;
    if second {
      Exp2AnyRegShape(g.fs, g.e, base);
      StepVars(g.fs, g.e, h.fs, h.e);
    }
    GatheredVars(e, w);
    GatheredTwice(w);
    var v := if HasJumps(e) then AnyRegWay(e, w) else VarsWay(e, w);
    if HasJumps(e) {
      Exp2AnyRegPasses(env, w, base, s, fs, e, pc, r);
      Exp2AnyRegShape(fs, e, base);
    } else {
      DischargeVarsPasses(env, w, base, s, fs, e, pc, r);
    }
    assert !HasJumps(g.e);
    if second {
      var o := View(env, g.fs, g.e, pc, r);
      if o.Wrong? {
        WrongPasses(env, w, v, AnyRegWay(g.e, v), base, s, fs, e, View(env, fs, e, pc, r), g.fs, g.e, o, h.fs, h.e, View(env, h.fs, h.e, pc, r));
      } else {
        Exp2AnyRegPasses(env, v, base, s, g.fs, g.e, pc, r);
        PassesTrans(env, w, v, AnyRegWay(g.e, v), base, s, fs, e, View(env, fs, e, pc, r), g.fs, g.e, o, h.fs, h.e, View(env, h.fs, h.e, pc, r));
      }
    }
  }

  lemma WrongPasses(env: Env, w: Way, v: Way, u: Way, base: nat, s: Regs, fs: Func, e: Exp, o: End, gs: Func, e': Exp, o': End, hs: Func, e'': Exp, o'': End)
    requires Passes(env, w, v, base, s, fs, e, o, gs, e', o') && o'.Wrong?
    ensures Passes(env, w, u, base, s, fs, e, o, hs, e'', o'')
  {
  }

  // ---------- conditions ----------

  /** The expression after a jump on its truth: its lists, with the new jumps in the one that leaves. */
  function After(e: Exp, stay: bool, list: set<nat>): Exp {
    if stay then Exp(KTrue, e.t, e.f + list) else Exp(KTrue, e.t + list, e.f)
  }

  /** The outcome of a condition: the run goes on or leaves, with what `t` says that it holds. */
  ghost predicate Decides(t: Turn, base: nat, s: Regs, stay: bool, o: End) {
    match o
    case AtEnd(c, s') => t.On? && c == Content(t.h) && SameBelow(s, s', base)
    case ExitT(c, s') => t.Off? && !stay && c == Content(t.h) && SameBelow(s, s', base)
    case ExitF(c, s') => t.Off? && stay && c == Content(t.h) && SameBelow(s, s', base)
    case _ => false
  }

  function HeldBy(c: Carry): Held { if c.Has? then Own(c.v) else Nothing }

  /** What is in hand, in the terms of `LCodeWays`. */
  predicate InForm(f: Form, fs: Func, e: Exp) {
    match e.k
    case KTrue => f.TrueForm?
    case KFalse => f.FalseForm?
    case KNum(_) => f.NumForm?
    case KLocal(_) => f.LocalForm?
    case KReg(_) => f.LocalForm?
    case KUpval(_) => f.UpvalForm?
    case KReloc => f == if |fs.code| > 0 && fs.code[|fs.code| - 1].Not? then NotForm else FetchForm
    case KJmp => f.CompareForm?
  }

  ghost predicate Branches(env: Env, f: Form, fs: Func, e: Exp, base: nat, stay: bool, o: End, o': End) {
    if o.AtEnd? then Decides(Turned(f, stay, Arrives(HeldBy(o.c), ValueAt(env, fs, e, o.regs))), base, o.regs, stay, o') else o' == o
  }

  /** The value is tested where it is, and kept by the jump. */
  predicate Tested(f: Form, stay: bool) { f.LocalForm? || f.FetchForm? || f.UpvalForm? || (f.NumForm? && !stay) }

  /** A run up to the end of the code takes the test; any other run is as before. */
  lemma CondJumpRun(env: Env, fs: Func, e: Exp, i: Instr, pc: nat, r: Regs)
    requires Good(fs, e) && !Pending(e) && (i.Test? || (i.TestSet? && i.a == NO_REG))
    requires !Run(env, fs.code, pc, r).Stuck?
    ensures var n, o := |fs.code|, Run(env, fs.code, pc, r);
            Run(env, CondJump(fs, i).fs.code, pc, r) ==
            if !Here(fs, o) then o else if Taken(env, i, o.regs) then Exit(n + 1, o.regs) else Fall(o.regs)
  {
    var n := |fs.code|;
    var j := CondJump(fs, i);
    CondJumpShape(fs, e, i);
    EmitRun(env, fs, [i, Jmp(NO_JUMP)], pc, r);
    var o := Run(env, fs.code, pc, r);
    hide Good, Patch, Keeps, Apart, CondJump, Run;
    if Here(fs, o) {
      CondJumpEnd(env, j.fs.code, n, i, o.regs);
    }
  }

  /** What that means for the expression. */
  lemma CondJumpCases(env: Env, fs: Func, e: Exp, i: Instr, stay: bool, o: Outcome)
    requires Good(fs, e) && !Pending(e) && (i.Test? || (i.TestSet? && i.a == NO_REG))
    requires o.Exit? ==> o.jump < |fs.code|
    requires !ViewOf(fs, e, o).Wrong?
    ensures var j, n := CondJump(fs, i), |fs.code|;
            var o' := if !Here(fs, o) then o else if Taken(env, i, o.regs) then Exit(n + 1, o.regs) else Fall(o.regs);
            var v := ViewOf(fs, e, o);
            ViewOf(j.fs, After(e, stay, j.list), o') ==
            if !v.AtEnd? then v
            else if !Taken(env, i, v.regs) then AtEnd(NoValue, v.regs)
            else if stay then ExitF(CarryOf(j.fs, n + 1, v.regs), v.regs)
            else ExitT(CarryOf(j.fs, n + 1, v.regs), v.regs)
  {
    var j := CondJump(fs, i);
    CondJumpIs(fs, i);
    CondJumpSame(fs, e, i);
    ListsInside(fs, e);
    hide Good, CondJump, CarryOf, Taken;
    if !Here(fs, o) && o.Exit? && o.jump in Lists(e) {
      SameCarry(fs, j.fs, o.jump, o.regs);
    }
  }

  lemma CondJumpIs(fs: Func, i: Instr)
    ensures var j := CondJump(fs, i); j.list == {|fs.code| + 1} && j.fs.jpc == {}
  {
    hide Patch;
  }

  lemma ListsInside(fs: Func, e: Exp)
    requires Good(fs, e) && !Pending(e)
    ensures Body(fs, e) == fs.code
    ensures forall j | j in Lists(e) :: j < |fs.code|
  {
    OpenInside(fs.code, Lists(e));
  }

  lemma NotStuck(fs: Func, e: Exp, o: Outcome)
    requires !ViewOf(fs, e, o).Wrong?
    ensures !o.Stuck?
  {
  }

  /** The view after a test and its jump. */
  lemma CondJumpView(env: Env, fs: Func, e: Exp, i: Instr, stay: bool, pc: nat, r: Regs)
    requires Good(fs, e) && !Pending(e) && (i.Test? || (i.TestSet? && i.a == NO_REG))
    requires !View(env, fs, e, pc, r).Wrong?
    ensures var j := CondJump(fs, i);
      var n := |fs.code|;
      var o := View(env, fs, e, pc, r);
      View(env, j.fs, After(e, stay, j.list), pc, r) ==
      if !o.AtEnd? then o
      else if !Taken(env, i, o.regs) then AtEnd(NoValue, o.regs)
      else if stay then ExitF(CarryOf(j.fs, n + 1, o.regs), o.regs)
      else ExitT(CarryOf(j.fs, n + 1, o.regs), o.regs)
  {
    hide Good, CarryOf, Run, ViewOf, Here, Patch;
    ListsInside(fs, e);
    NotStuck(fs, e, Run(env, fs.code, pc, r));
    ExitInside(env, fs.code, pc, r);
    CondJumpRun(env, fs, e, i, pc, r);
    assert Body(CondJump(fs, i).fs, After(e, stay, CondJump(fs, i).list)) == CondJump(fs, i).fs.code;
    CondJumpCases(env, fs, e, i, stay, Run(env, fs.code, pc, r));
  }

  lemma CondJumpEnd(env: Env, code: seq<Instr>, n: nat, i: Instr, s: Regs)
    requires |code| == n + 2 && code[n] == i && code[n + 1] == Jmp(NO_JUMP)
    requires i.Test? || (i.TestSet? && i.a == NO_REG)
    ensures Run(env, code, n, s) == if Taken(env, i, s) then Exit(n + 1, s) else Fall(s)
  {
  }

  lemma CondJumpSame(fs: Func, e: Exp, i: Instr)
    requires Good(fs, e) && !Pending(e) && IsTest(i)
    ensures forall j | j in Lists(e) :: SameJump(fs, CondJump(fs, i).fs, j)
  {
    var n := |fs.code|;
    assert Body(fs, e) == fs.code;
    var more := [i, Jmp(NO_JUMP)];
    assert CondJump(fs, i).fs.code == Patch(fs.code, fs.jpc, n, NO_REG, n) + more;
    PatchOpen(fs.code, fs.jpc, n, NO_REG, n, more, Lists(e));
    OpenInside(fs.code, Lists(e));
  }

  /** A TESTSET and a jump on the value in a register. */
  lemma TestSetBranches(env: Env, f: Form, fs: Func, e: Exp, base: nat, stay: bool, pc: nat, r: Regs)
    requires Good(fs, e) && e.k.KReg? && Tested(f, stay) && !View(env, fs, e, pc, r).Wrong?
    ensures var j := CondJump(fs, TestSet(NO_REG, e.k.r, !stay));
      Branches(env, f, fs, e, base, stay, View(env, fs, e, pc, r), View(env, j.fs, After(e, stay, j.list), pc, r))
  {
    var i := TestSet(NO_REG, e.k.r, !stay);
    var j := CondJump(fs, i);
    CondJumpView(env, fs, e, i, stay, pc, r);
    CondJumpShape(fs, e, i);
    var n := |fs.code|;
    assert j.fs.code[n] == i;
    hide Good, View, Patch, Keeps, Apart, CondJump, Open;
  }

  lemma WithoutNotView(env: Env, fs: Func, e: Exp, pc: nat, r: Regs)
    requires Good(fs, e) && e.k.KReloc?
    ensures var n := |fs.code|; n > 0 && View(env, fs.(code := fs.code[..n - 1]), e.(k := KTrue), pc, r) == View(env, fs, e, pc, r)
  {
    var n := |fs.code|;
    var gs := fs.(code := fs.code[..n - 1]);
    assert Body(gs, e.(k := KTrue)) == Body(fs, e);
    var o := Run(env, Body(fs, e), pc, r);
    if o.Exit? && o.jump in Lists(e) {
      assert Open(Body(fs, e), o.jump);
    }
  }

  /** A test and a jump that replace a `not`. */
  lemma NotBranches(env: Env, fs: Func, e: Exp, base: nat, stay: bool, pc: nat, r: Regs)
    requires Good(fs, e) && e.k.KReloc? && |fs.code| > 0 && fs.code[|fs.code| - 1].Not? && !View(env, fs, e, pc, r).Wrong?
    ensures var n := |fs.code|;
      var j := CondJump(fs.(code := fs.code[..n - 1]), Test(fs.code[n - 1].b, stay));
      Branches(env, NotForm, fs, e, base, stay, View(env, fs, e, pc, r), View(env, j.fs, After(e, stay, j.list), pc, r))
  {
    var n := |fs.code|;
    var gs := fs.(code := fs.code[..n - 1]);
    var i := Test(fs.code[n - 1].b, stay);
    WithoutNot(fs, e);
    WithoutNotView(env, fs, e, pc, r);
    CondJumpView(env, gs, e.(k := KTrue), i, stay, pc, r);
    CondJumpShape(gs, e.(k := KTrue), i);
    var j := CondJump(gs, i);
    assert j.fs.code[n - 1] == i;
    hide Good, View, Patch, Keeps, Apart, CondJump, Open;
  }

  lemma StoresBranches(env: Env, f: Form, fs: Func, e: Exp, base: nat, stay: bool, reg: nat, o: End, gs: Func, e': Exp, o': End, o'': End)
    requires Stores(env, fs, e, o, reg, o') && e'.k == KReg(reg) && base <= reg && Tested(f, stay)
    requires Branches(env, f, gs, e', base, stay, o', o'')
    ensures Branches(env, f, fs, e, base, stay, o, o'')
  {
  }

  lemma AnyRegStores(env: Env, fs: Func, e: Exp, base: nat, pc: nat, r: Regs)
    requires Good(fs, e) && RegsOk(fs, e, base) && !e.k.KLocal? && !e.k.KUpval? && !e.k.KJmp? && !e.k.KReg?
    requires !View(env, fs, e, pc, r).Wrong?
    ensures var g := Discharge2AnyReg(fs, e);
      g.e.k == KReg(base) && Stores(env, fs, e, View(env, fs, e, pc, r), base, View(env, g.fs, g.e, pc, r))
  {
    hide Good, View, Discharge2Reg, ValueAt;
    var fs1 := ReserveReg(fs);
    ReserveRegShape(fs, e);
    OnlyRegsView(env, fs, fs1, e, pc, r);
    Discharge2RegShape(fs1, e, base);
    Discharge2RegView(env, fs1, e, base, pc, r);
  }

  lemma JumpOnCondBranches(env: Env, f: Form, fs: Func, e: Exp, base: nat, stay: bool, pc: nat, r: Regs)
    requires Good(fs, e) && RegsOk(fs, e, base) && !e.k.KLocal? && !e.k.KUpval? && !e.k.KJmp?
    requires InForm(f, fs, e) && (f.NotForm? || Tested(f, stay)) && !View(env, fs, e, pc, r).Wrong?
    ensures var j := JumpOnCond(fs, e, !stay);
      Branches(env, f, fs, e, base, stay, View(env, fs, e, pc, r), View(env, j.fs, After(e, stay, j.list), pc, r))
  {
    var n := |fs.code|;
    hide Good, View, CondJump, Branches, Stores, ValueAt;
    if e.k.KReloc? && n > 0 && fs.code[n - 1].Not? {
      NotBranches(env, fs, e, base, stay, pc, r);
    } else {
      var g := Discharge2AnyReg(fs, e);
      Discharge2AnyRegShape(fs, e, base);
      FreeExpShape(g.fs, g.e, base);
      var hs := FreeExp(g.fs, g.e);
      OnlyRegsView(env, g.fs, hs, g.e, pc, r);
      if e.k.KReg? {
        TestSetBranches(env, f, hs, g.e, base, stay, pc, r);
        BranchesRegs(env, f, fs, hs, e, base, stay, View(env, fs, e, pc, r),
                     View(env, JumpOnCond(fs, e, !stay).fs, After(e, stay, JumpOnCond(fs, e, !stay).list), pc, r));
      } else {
        AnyRegStores(env, fs, e, base, pc, r);
        StoredNotWrong(env, fs, e, View(env, fs, e, pc, r), base, View(env, g.fs, g.e, pc, r));
        TestSetBranches(env, f, hs, g.e, base, stay, pc, r);
        StoresBranches(env, f, fs, e, base, stay, base, View(env, fs, e, pc, r), hs, g.e, View(env, hs, g.e, pc, r),
                       View(env, JumpOnCond(fs, e, !stay).fs, After(e, stay, JumpOnCond(fs, e, !stay).list), pc, r));
      }
    }
  }

  lemma BranchesRegs(env: Env, f: Form, fs: Func, gs: Func, e: Exp, base: nat, stay: bool, o: End, o': End)
    requires OnlyRegs(fs, gs) && Branches(env, f, gs, e, base, stay, o, o')
    ensures Branches(env, f, fs, e, base, stay, o, o')
  {
  }

  function LiteralForm(b: bool): Form { if b then TrueForm else FalseForm }

  /** An unconditional jump takes over the jumps to it with the values that they hold. */
  lemma JumpBranches(env: Env, fs: Func, e: Exp, base: nat, stay: bool, pc: nat, r: Regs)
    requires Good(fs, e) && e.k == (if stay then KFalse else KTrue) && !View(env, fs, e, pc, r).Wrong?
    ensures var j := Jump(fs);
      Branches(env, LiteralForm(!stay), fs, e, base, stay, View(env, fs, e, pc, r), View(env, j.fs, After(e, stay, j.list), pc, r))
  {
    var n := |fs.code|;
    var j := Jump(fs);
    var e' := After(e, stay, j.list);
    assert Body(fs, e) == fs.code && Body(j.fs, e') == j.fs.code;
    JumpRun(env, fs, pc, r);
    ExitInside(env, fs.code, pc, r);
    OpenInside(fs.code, Lists(e));
    JumpCarry(fs, e);
    hide Good, Jump, CarryOf, Run;
    JumpIs(fs);
  }

  lemma JumpIs(fs: Func)
    ensures Jump(fs).list == {|fs.code|} + fs.jpc && Jump(fs).fs.jpc == {}
  {
  }

  lemma JumpCarry(fs: Func, e: Exp)
    requires Good(fs, e) && !Pending(e)
    ensures var j := Jump(fs);
      && (forall s :: CarryOf(j.fs, |fs.code|, s) == NoValue)
      && (forall k, s | k in fs.jpc + Lists(e) :: CarryOf(j.fs, k, s) == CarryOf(fs, k, s))
  {
    var j := Jump(fs);
    assert Body(fs, e) == fs.code;
    OpenInside(fs.code, fs.jpc + Lists(e));
    var n := |fs.code|;
    assert n > 0 ==> !IsTest(fs.code[n - 1]);
    assert !HasValue(j.fs.code, n);
  }

  lemma NothingBranches(env: Env, f: Form, fs: Func, e: Exp, base: nat, stay: bool, pc: nat, r: Regs)
    requires Good(fs, e) && InForm(f, fs, e) && ((e.k.KNum? && stay) || e.k == (if stay then KTrue else KFalse))
    ensures Branches(env, f, fs, e, base, stay, View(env, fs, e, pc, r), View(env, fs, After(e, stay, {}), pc, r))
  {
    assert After(e, stay, {}) == e.(k := KTrue);
    assert Body(fs, e.(k := KTrue)) == Body(fs, e);
    hide Good;
  }

  lemma InvertedRun(env: Env, fs: Func, e: Exp, gs: Func, stay: bool, pc: nat, r: Regs)
    requires Good(fs, e) && e.k.KJmp? && gs == (if stay then InvertJump(fs) else fs)
    requires !Run(env, Body(fs, e), pc, r).Stuck?
    ensures var n := |fs.code|;
      var o := Run(env, Body(fs, e), pc, r);
      Run(env, gs.code, pc, r) ==
      if !o.Fall? then o else if Taken(env, fs.code[n - 2], o.regs) != stay then Exit(n - 1, o.regs) else Fall(o.regs)
  {
    var n := |fs.code|;
    var more := gs.code[n - 2..];
    assert gs.code == Body(fs, e) + more;
    AppendRun(env, Body(fs, e), more, pc, r);
    var o := Run(env, Body(fs, e), pc, r);
    if o.Fall? {
      CompareTaken(env, gs.code, n - 2, o.regs);
    }
  }

  lemma InvertCarry(fs: Func, e: Exp, n: nat)
    requires Good(fs, e) && e.k.KJmp? && n + 1 == |fs.code|
    ensures forall j, s | j in Lists(e) :: CarryOf(InvertJump(fs), j, s) == CarryOf(fs, j, s)
    ensures forall s :: CarryOf(InvertJump(fs), n, s) == CarryOf(fs, n, s) == NoValue
  {
    OpenInside(Body(fs, e), Lists(e));
  }

  lemma KJmpBranches(env: Env, fs: Func, e: Exp, base: nat, stay: bool, pc: nat, r: Regs)
    requires Good(fs, e) && e.k.KJmp? && !View(env, fs, e, pc, r).Wrong?
    ensures var gs := if stay then InvertJump(fs) else fs;
      Branches(env, CompareForm, fs, e, base, stay, View(env, fs, e, pc, r), View(env, gs, After(e, stay, {|fs.code| - 1}), pc, r))
  {
    var n := |fs.code|;
    var gs := if stay then InvertJump(fs) else fs;
    var e' := After(e, stay, {n - 1});
    assert Body(gs, e') == gs.code && |Body(fs, e)| == n - 2;
    assert gs.jpc == {} && fs.jpc == {};
    InvertedRun(env, fs, e, gs, stay, pc, r);
    ExitInside(env, Body(fs, e), pc, r);
    InvertCarry(fs, e, n - 1);
    OpenInside(Body(fs, e), Lists(e));
    hide Good, CarryOf, Run, Body, InvertJump;
  }

  lemma ConditionalJumpBranches(env: Env, f: Form, fs: Func, e: Exp, base: nat, stay: bool, pc: nat, r: Regs)
    requires Good(fs, e) && RegsOk(fs, e, base) && InForm(f, fs, e) && !e.k.KLocal? && !e.k.KUpval? && !View(env, fs, e, pc, r).Wrong?
    ensures var j := ConditionalJump(fs, e, stay);
      Branches(env, f, fs, e, base, stay, View(env, fs, e, pc, r), View(env, j.fs, After(e, stay, j.list), pc, r))
  {
    hide Good, View, JumpOnCond, Jump, InvertJump, Branches;
    match e.k {
      case KTrue => if stay { NothingBranches(env, f, fs, e, base, stay, pc, r); } else { JumpBranches(env, fs, e, base, stay, pc, r); }
      case KFalse => if stay { JumpBranches(env, fs, e, base, stay, pc, r); } else { NothingBranches(env, f, fs, e, base, stay, pc, r); }
      case KNum(_) => if stay { NothingBranches(env, f, fs, e, base, stay, pc, r); } else { JumpOnCondBranches(env, f, fs, e, base, stay, pc, r); }
      case KJmp =>
        PendingJmp(fs, e);
        KJmpBranches(env, fs, e, base, stay, pc, r);
      case _ => JumpOnCondBranches(env, f, fs, e, base, stay, pc, r);
    }
  }

  lemma PendingJmp(fs: Func, e: Exp)
    requires Good(fs, e) && e.k.KJmp?
    ensures |fs.code| >= 2
  {
  }

  /** The list of the jumps that leave. */
  function Leaving(stay: bool, list: set<nat>): Exp { if stay then Exp(KTrue, {}, list) else Exp(KTrue, list, {}) }

  /** The jumps of the list that does not leave arrive here. */
  lemma SettleView(env: Env, fs: Func, e: Exp, list: set<nat>, stay: bool, pc: nat, r: Regs)
    requires Apart(fs, e, list)
    ensures var gs := fs.(jpc := fs.jpc + (if stay then e.t else e.f));
      var o := View(env, fs, After(e, stay, list), pc, r);
      View(env, gs, Leaving(stay, (if stay then e.f else e.t) + list), pc, r) ==
      if stay && o.ExitT? then AtEnd(o.c, o.regs) else if !stay && o.ExitF? then AtEnd(o.c, o.regs) else o
  {
    var gs := fs.(jpc := fs.jpc + (if stay then e.t else e.f));
    assert Body(gs, Leaving(stay, (if stay then e.f else e.t) + list)) == Body(fs, After(e, stay, list)) == fs.code;
    hide Open, Run;
  }

  /** What `luaK_goiftrue` and `luaK_goiffalse` do with a run that goes the way `w`. */
  lemma GoIfDecides(env: Env, w: Way, f: Form, base: nat, s: Regs, fs: Func, e: Exp, stay: bool, pc: nat, r: Regs)
    requires Good(fs, e) && RegsOk(fs, e, base) && InForm(f, fs, e) && !View(env, fs, e, pc, r).Wrong?
    ensures var j := GoIf(fs, e, stay);
      var o := View(env, fs, e, pc, r);
      var o' := View(env, j.fs, Leaving(stay, j.list), pc, r);
      && (o.Other? ==> o' == o)
      && (Delivers(env, w, base, s, fs, e, o) ==> Decides(Turned(f, stay, w), base, s, stay, o'))
  {
    hide Good, View, ConditionalJump, ValueAt, Apart, Branches, Turned, Delivers, Decides;
    var g := DischargeVars(fs, e);
    DischargeVarsShape(fs, e);
    DischargeVarsPasses(env, w, base, s, fs, e, pc, r);
    DischargedForm(f, fs, e);
    var j := ConditionalJump(g.fs, g.e, stay);
    ConditionalJumpShape(g.fs, g.e, stay, base);
    ConditionalJumpBranches(env, Fetched(f), g.fs, g.e, base, stay, pc, r);
    SettleView(env, j.fs, g.e, j.list, stay, pc, r);
    var o := View(env, g.fs, g.e, pc, r);
    var o' := View(env, j.fs, After(g.e, stay, j.list), pc, r);
    BranchesDecides(env, VarsWay(e, w), Fetched(f), base, s, g.fs, g.e, stay, o, o');
    TurnedFetched(f, stay, e, w, fs);
  }

  lemma DischargedForm(f: Form, fs: Func, e: Exp)
    requires Good(fs, e) && InForm(f, fs, e)
    ensures var g := DischargeVars(fs, e); InForm(Fetched(f), g.fs, g.e)
  {
  }

  lemma TurnedFetched(f: Form, stay: bool, e: Exp, w: Way, fs: Func)
    requires InForm(f, fs, e)
    ensures Turned(Fetched(f), stay, VarsWay(e, w)) == Turned(f, stay, w)
  {
  }

  lemma BranchesDecides(env: Env, w: Way, f: Form, base: nat, s: Regs, fs: Func, e: Exp, stay: bool, o: End, o': End)
    requires Branches(env, f, fs, e, base, stay, o, o')
    ensures o.Other? ==> o' == o
    ensures var o'' := if stay && o'.ExitT? then AtEnd(o'.c, o'.regs) else if !stay && o'.ExitF? then AtEnd(o'.c, o'.regs) else o';
      Delivers(env, w, base, s, fs, e, o) ==> Decides(Turned(f, stay, w), base, s, stay, o'')
  {
  }

  // ---------- negation ----------

  /** From one view to the next the value at the end is negated, and nothing else changes. */
  ghost predicate Negates(env: Env, base: nat, fs: Func, e: Exp, o: End, gs: Func, e': Exp, o': End) {
    if o.AtEnd? then
      && o'.AtEnd? && SameBelow(o.regs, o'.regs, base)
      && o'.c == (if e.k.KTrue? || e.k.KFalse? || e.k.KNum? then o.c else NoValue)
      && ValueAt(env, gs, e', o'.regs) == Bool(IsFalse(ValueAt(env, fs, e, o.regs)))
    else o' == o
  }

  lemma LiteralNegates(env: Env, base: nat, fs: Func, e: Exp, pc: nat, r: Regs)
    requires e.k.KTrue? || e.k.KFalse? || e.k.KNum?
    ensures var g := Negated(fs, e);
      Negates(env, base, fs, e, View(env, fs, e, pc, r), g.fs, g.e, View(env, g.fs, g.e, pc, r))
  {
    var g := Negated(fs, e);
    assert Body(g.fs, g.e) == Body(fs, e);
  }

  lemma CompareNegates(env: Env, base: nat, fs: Func, e: Exp, pc: nat, r: Regs)
    requires Good(fs, e) && e.k.KJmp? && !View(env, fs, e, pc, r).Wrong?
    ensures Negates(env, base, fs, e, View(env, fs, e, pc, r), InvertJump(fs), e, View(env, InvertJump(fs), e, pc, r))
  {
    assert Body(InvertJump(fs), e) == Body(fs, e);
    InvertCarry(fs, e, |fs.code| - 1);
    OpenInside(Body(fs, e), Lists(e));
    InvertValue(env, fs, e);
    hide Good, Run, Body, InvertJump, CarryOf, ValueAt;
  }

  lemma InvertValue(env: Env, fs: Func, e: Exp)
    requires Good(fs, e) && e.k.KJmp?
    ensures InvertJump(fs).jpc == fs.jpc
    ensures forall s :: ValueAt(env, InvertJump(fs), e, s) == Bool(IsFalse(ValueAt(env, fs, e, s)))
  {
  }

  /** `OP_NOT` on the value in a register. */
  lemma NotNegates(env: Env, base: nat, fs: Func, e: Exp, pc: nat, r: Regs)
    requires Good(fs, e) && e.k.KReg? && !View(env, fs, e, pc, r).Wrong?
    ensures var gs := Code(fs, Not(0, e.k.r)); var e' := e.(k := KReloc);
      Negates(env, base, fs, e, View(env, fs, e, pc, r), gs, e', View(env, gs, e', pc, r))
  {
    RelocView(env, fs, e, Not(0, e.k.r), pc, r);
    hide Good, View, Patch;
  }

  lemma StoresNegates(env: Env, base: nat, fs: Func, e: Exp, reg: nat, o: End, gs: Func, e': Exp, o': End, hs: Func, e'': Exp, o'': End)
    requires Stores(env, fs, e, o, reg, o') && e'.k == KReg(reg) && base <= reg && (e.k.KReg? || e.k.KReloc?)
    requires Negates(env, base, gs, e', o', hs, e'', o'')
    ensures Negates(env, base, fs, e, o, hs, e'', o'')
  {
  }

  lemma NegatesRegs(env: Env, base: nat, fs: Func, gs: Func, e: Exp, o: End, hs: Func, e': Exp, o': End)
    requires OnlyRegs(fs, gs) && Negates(env, base, gs, e, o, hs, e', o')
    ensures Negates(env, base, fs, e, o, hs, e', o')
  {
  }

  lemma RegNegates(env: Env, base: nat, fs: Func, e: Exp, pc: nat, r: Regs)
    requires Good(fs, e) && RegsOk(fs, e, base) && !View(env, fs, e, pc, r).Wrong?
    requires e.k.KReg? || e.k.KReloc?
    ensures var g := Negated(fs, e);
      Negates(env, base, fs, e, View(env, fs, e, pc, r), g.fs, g.e, View(env, g.fs, g.e, pc, r))
  {
    hide Good, View, Negates, Stores, ValueAt, Code;
    var g := Discharge2AnyReg(fs, e);
    Discharge2AnyRegShape(fs, e, base);
    FreeExpShape(g.fs, g.e, base);
    var hs := FreeExp(g.fs, g.e);
    OnlyRegsView(env, g.fs, hs, g.e, pc, r);
    var n := Negated(fs, e);
    if e.k.KReg? {
      NotNegates(env, base, hs, g.e, pc, r);
      NegatesRegs(env, base, fs, hs, e, View(env, fs, e, pc, r), n.fs, n.e, View(env, n.fs, n.e, pc, r));
    } else {
      AnyRegStores(env, fs, e, base, pc, r);
      StoredNotWrong(env, fs, e, View(env, fs, e, pc, r), base, View(env, g.fs, g.e, pc, r));
      NotNegates(env, base, hs, g.e, pc, r);
      StoresNegates(env, base, fs, e, base, View(env, fs, e, pc, r), hs, g.e, View(env, hs, g.e, pc, r), n.fs, n.e, View(env, n.fs, n.e, pc, r));
    }
  }

  lemma NegatedNegates(env: Env, base: nat, fs: Func, e: Exp, pc: nat, r: Regs)
    requires Good(fs, e) && RegsOk(fs, e, base) && !View(env, fs, e, pc, r).Wrong?
    requires !e.k.KLocal? && !e.k.KUpval?
    ensures var g := Negated(fs, e);
      Negates(env, base, fs, e, View(env, fs, e, pc, r), g.fs, g.e, View(env, g.fs, g.e, pc, r))
  {
    hide Good, View, Negates, Negated;
    if e.k.KJmp? {
      CompareNegates(env, base, fs, e, pc, r);
      NegatedJmp(fs, e);
    } else if e.k.KReg? || e.k.KReloc? {
      RegNegates(env, base, fs, e, pc, r);
    } else {
      LiteralNegates(env, base, fs, e, pc, r);
    }
  }

  lemma NegatedJmp(fs: Func, e: Exp)
    requires e.k.KJmp?
    ensures Negated(fs, e) == Gen(InvertJump(fs), e)
  {
  }

  /** The view when the lists are exchanged and their values dropped. */
  function Exchanged(o: End): End {
    if o.ExitT? then ExitF(NoValue, o.regs) else if o.ExitF? then ExitT(NoValue, o.regs) else o
  }

  lemma RemoveView(env: Env, fs: Func, e: Exp, pc: nat, r: Regs)
    requires Good(fs, e) && !View(env, fs, e, pc, r).Wrong?
    ensures var gs := fs.(code := RemoveValues(RemoveValues(fs.code, e.t), e.f)); var e' := Exp(e.k, e.f, e.t);
      && View(env, gs, e', pc, r) == Exchanged(View(env, fs, e, pc, r))
      && forall s :: ValueAt(env, gs, e', s) == ValueAt(env, fs, e, s)
  {
    RemoveTwice(fs.code, e.t, e.f);
    var list := Lists(e);
    var gs := fs.(code := RemoveValues(fs.code, list));
    var e' := Exp(e.k, e.f, e.t);
    OpenInside(Body(fs, e), list);
    assert Body(gs, e') == RemoveValues(Body(fs, e), list);
    RemoveRun(env, Body(fs, e), list, pc, r);
    RemovedCarry(fs, e);
    RemovedValue(env, fs, e);
    hide Good, RemoveValues, Run, Body, CarryOf, ValueAt, Open;
  }

  lemma RemovedCarry(fs: Func, e: Exp)
    requires Good(fs, e)
    ensures forall j, s | j in Lists(e) :: CarryOf(fs.(code := RemoveValues(fs.code, Lists(e))), j, s) == NoValue
  {
  }

  lemma RemovedValue(env: Env, fs: Func, e: Exp)
    requires Good(fs, e)
    ensures forall s :: ValueAt(env, fs.(code := RemoveValues(fs.code, Lists(e))), Exp(e.k, e.f, e.t), s) == ValueAt(env, fs, e, s)
  {
    var n := |fs.code|;
    var code := RemoveValues(fs.code, Lists(e));
    OpenInside(Body(fs, e), Lists(e));
    assert e.k.KReloc? ==> code[n - 1] == fs.code[n - 1];
    assert e.k.KJmp? ==> code[n - 2] == fs.code[n - 2];
    hide Good, RemoveValues;
  }

  lemma CodeNotPasses(env: Env, w: Way, f: Form, base: nat, s: Regs, fs: Func, e: Exp, pc: nat, r: Regs)
    requires Good(fs, e) && RegsOk(fs, e, base) && InForm(f, fs, e) && !View(env, fs, e, pc, r).Wrong?
    ensures var g := CodeNot(fs, e);
      Passes(env, w, NotWay(f, w), base, s, fs, e, View(env, fs, e, pc, r), g.fs, g.e, View(env, g.fs, g.e, pc, r))
  {
    CodeNotIs(fs, e);
    hide Good, View, ValueAt, Negated, CodeNot, RemoveValues, Negates, Passes, NotWay, InForm;
    var g := DischargeVars(fs, e);
    DischargeVarsShape(fs, e);
    DischargeVarsPasses(env, w, base, s, fs, e, pc, r);
    DischargedForm(f, fs, e);
    var h := Negated(g.fs, g.e);
    NegatedShape(g.fs, g.e, base);
    NegatedNegates(env, base, g.fs, g.e, pc, r);
    var o := View(env, g.fs, g.e, pc, r);
    var o' := View(env, h.fs, h.e, pc, r);
    NegatesNotWrong(env, base, g.fs, g.e, o, h.fs, h.e, o');
    RemoveView(env, h.fs, h.e, pc, r);
    var q := CodeNot(fs, e);
    var o'' := View(env, q.fs, q.e, pc, r);
    var v := VarsWay(e, w);
    ExchangedPasses(env, v, Fetched(f), base, s, g.fs, g.e, o, h.fs, h.e, o', q.fs, q.e, o'');
    PassesTrans(env, w, v, NotWay(Fetched(f), v), base, s, fs, e, View(env, fs, e, pc, r), g.fs, g.e, o, q.fs, q.e, o'');
    assert NotWay(Fetched(f), v) == NotWay(f, w) by { NotFetched(f, e, w, fs); }
  }

  lemma NegatesNotWrong(env: Env, base: nat, fs: Func, e: Exp, o: End, gs: Func, e': Exp, o': End)
    requires Negates(env, base, fs, e, o, gs, e', o') && !o.Wrong?
    ensures !o'.Wrong?
  {
  }

  lemma NotFetched(f: Form, e: Exp, w: Way, fs: Func)
    requires InForm(f, fs, e)
    ensures NotWay(Fetched(f), VarsWay(e, w)) == NotWay(f, w)
  {
  }

  lemma ExchangedPasses(env: Env, w: Way, f: Form, base: nat, s: Regs, fs: Func, e: Exp, o: End, gs: Func, e': Exp, o': End, hs: Func, e'': Exp, o'': End)
    requires InForm(f, fs, e) && Negates(env, base, fs, e, o, gs, e', o') && o'' == Exchanged(o')
    requires forall s' :: ValueAt(env, hs, e'', s') == ValueAt(env, gs, e', s')
    ensures Passes(env, w, NotWay(f, w), base, s, fs, e, o, hs, e'', o'')
  {
  }

  // ---------- comparisons ----------

  /** Without lists the expression does not matter for the view. */
  lemma SpentView(env: Env, fs: Func, e: Exp, pc: nat, r: Regs)
    requires e == Exp(e.k, {}, {}) && !Pending(e)
    ensures View(env, fs, NONE, pc, r) == View(env, fs, e, pc, r)
  {
    assert Body(fs, e) == Body(fs, NONE);
  }

  lemma OperandValue(env: Env, fs: Func, e: Exp, o: RK, base: nat, s: Regs)
    requires IsOperand(fs, e, o, base)
    ensures ValueAt(env, fs, e, s) == Operand(s, o)
  {
  }

  /** The comparison is emitted and its jump is in hand. */
  lemma CompareView(env: Env, fs: Func, e: Exp, i: Instr, pc: nat, r: Regs)
    requires Good(fs, e) && !Pending(e) && e == Exp(e.k, {}, {}) && i.Compare? && !View(env, fs, e, pc, r).Wrong?
    ensures var g := CondJump(fs, i).fs; var e' := Exp(KJmp, {}, {});
      && View(env, g, e', pc, r) == SettledEnd(View(env, fs, e, pc, r))
      && forall s :: ValueAt(env, g, e', s) == Bool(Taken(env, i, s))
  {
    var n := |fs.code|;
    var code := Patch(fs.code, fs.jpc, n, NO_REG, n);
    var g := CondJump(fs, i).fs;
    var e' := Exp(KJmp, {}, {});
    CompareShape(fs, e, i);
    assert Body(fs, e) == fs.code && Body(g, e') == code == code + [];
    EmitRun(env, fs, [], pc, r);
    assert g.code[n] == i && |g.code| == n + 2;
    hide Good, Patch, CondJump, Step;
  }

  /** The two operands are ready and hold `v` and `w`. */
  lemma CompareDelivers(env: Env, v: Value, w: Value, base: nat, s: Regs, fs: Func, e: Exp, i: Instr, o1: RK, o2: RK, pc: nat, r: Regs)
    requires Good(fs, e) && !Pending(e) && e == Exp(e.k, {}, {}) && i.Compare?
    requires i.lhs == o1 && i.rhs == o2
    requires var o := View(env, fs, e, pc, r);
      && !o.Wrong?
      && (o.AtEnd? ==> SameBelow(s, o.regs, base) && Operand(o.regs, o1) == v && Operand(o.regs, o2) == w)
    ensures var g := CondJump(fs, i).fs; var e' := Exp(KJmp, {}, {});
      var o := View(env, fs, e, pc, r);
      var o' := View(env, g, e', pc, r);
      (o.AtEnd? ==> Delivers(env, Arrives(Nothing, Bool(env.cmp(i.op, v, w) == i.cond)), base, s, g, e', o')) && (o.Other? ==> o' == o)
  {
    CompareView(env, fs, e, i, pc, r);
    hide Good, View, CondJump, ValueAt, SameBelow, Operand;
  }

  /** The value that `codecomp` computes for a comparison of `v` and `w`. */
  predicate Compared(env: Env, op: CmpOp, cond: bool, v: Value, w: Value) {
    if !cond && op != OpEq then env.cmp(op, w, v) else env.cmp(op, v, w) == cond
  }

  lemma OperandStored(e: Exp, w: Way)
    ensures StoredBy(OperandWay(e, w)) == StoredBy(w)
  {
  }

  lemma CodeCompPasses(env: Env, v: Value, w: Way, base: nat, s: Regs, s1: Regs, fs: Func, op: CmpOp, cond: bool, e1: Exp, o1: RK, e2: Exp, pc: nat, r: Regs)
    requires Good(fs, e2) && IsOperand(fs, e1, o1, base) && RegsOk(fs, e2, Above(fs, o1, base)) && LocalReg(fs, e2)
    requires SameBelow(s, s1, base) && Operand(s1, o1) == v && !View(env, fs, e2, pc, r).Wrong?
    requires CodeComp(fs, op, cond, e1, e2).fs.fits
    ensures var g := CodeComp(fs, op, cond, e1, e2);
      var o := View(env, fs, e2, pc, r);
      var o' := View(env, g.fs, g.e, pc, r);
      && (Delivers(env, w, Above(fs, o1, base), s1, fs, e2, o) ==>
            Delivers(env, Arrives(Nothing, Bool(Compared(env, op, cond, v, StoredBy(w)))), base, s, g.fs, g.e, o'))
      && (o.Other? ==> o' == o)
  {
    hide Good, View, Delivers, CondJump, Exp2RK, Step, ValueAt, SameBelow, OperandWay, StoredBy;
    OperandAgain(fs, e1, o1, base);
    CodeCompShape(fs, op, cond, e1, o1, e2, base);
    var b := Exp2RK(fs, e2);
    var top := Above(fs, o1, base);
    Exp2RKShape(fs, e2, top);
    StepVars(fs, e2, b.fs, b.e);
    var gs := FreeExp(b.fs, b.e);
    FreeExpShape(b.fs, b.e, top);
    var hs := FreeExp(gs, e1);
    OnlyRegsShape(gs, hs, b.e);
    StepVars(b.fs, b.e, gs, b.e);
    StepVars(gs, b.e, hs, b.e);
    OnlyRegsView(env, b.fs, hs, b.e, pc, r);
    var i := if !cond && op != OpEq then Compare(op, true, b.o, o1) else Compare(op, cond, o1, b.o);
    CompareShape(hs, b.e, i);
    var q := CondJump(hs, i).fs;
    StepVars(hs, b.e, q, Exp(KJmp, {}, {}));
    Exp2RKPasses(env, w, top, s1, fs, e2, pc, r);
    OperandStored(e2, w);
    var o := View(env, fs, e2, pc, r);
    var o1' := View(env, hs, b.e, pc, r);
    ListlessView(env, hs, b.e, pc, r);
    if Delivers(env, w, top, s1, fs, e2, o) {
      Listless(env, OperandWay(e2, w), top, s1, b.fs, b.e, o1');
      var u := StoredBy(w);
      OperandsReady(env, v, u, base, s, s1, b.fs, b.e, o1, b.o, top, o1'.regs);
      if !cond && op != OpEq {
        CompareDelivers(env, u, v, base, s, hs, b.e, i, b.o, o1, pc, r);
      } else {
        CompareDelivers(env, v, u, base, s, hs, b.e, i, o1, b.o, pc, r);
      }
    } else if o.Other? {
      CompareView(env, hs, b.e, i, pc, r);
    }
  }

  lemma Listless(env: Env, w: Way, base: nat, s: Regs, fs: Func, e: Exp, o: End)
    requires Delivers(env, w, base, s, fs, e, o) && !o.ExitT? && !o.ExitF?
    ensures o.AtEnd? && SameBelow(s, o.regs, base) && ValueAt(env, fs, e, o.regs) == StoredBy(w)
    ensures w.Arrives? && o.c == Content(w.h)
  {
  }

  lemma OperandsReady(env: Env, v: Value, w: Value, base: nat, s: Regs, s1: Regs, fs: Func, e: Exp, o1: RK, o2: RK, top: nat, s2: Regs)
    requires SameBelow(s, s1, base) && SameBelow(s1, s2, top) && Operand(s1, o1) == v && base <= top
    requires o1.Reg? ==> o1.r < top
    requires IsOperand(fs, e, o2, top) && ValueAt(env, fs, e, s2) == w
    ensures SameBelow(s, s2, base) && Operand(s2, o1) == v && Operand(s2, o2) == w
  {
  }

  // ---------- expressions ----------

  /** What the form of an expression tells of it when it has been compiled. */
  ghost predicate Formed(x: Expr, fs: Func, e: Exp) {
    && InForm(FormOf(x), fs, e) && (e.k.KReg? ==> e.k.r < fs.nactvar)
    && (e.t != {} <==> Leaves(x, true)) && (e.f != {} <==> Leaves(x, false))
  }

  lemma DischargeFormed(f: Form, fs: Func, e: Exp)
    requires Good(fs, e) && InForm(f, fs, e) && (e.k.KReg? ==> e.k.r < fs.nactvar) && (e.k.KLocal? ==> e.k.r < fs.nactvar)
    ensures var g := DischargeVars(fs, e);
      InForm(Fetched(f), g.fs, g.e) && (g.e.k.KReg? ==> g.e.k.r < g.fs.nactvar) && g.e.t == e.t && g.e.f == e.f
  {
  }

  lemma NegatedFormed(x: Expr, fs: Func, e: Exp, base: nat)
    requires x.NotOf? && Good(fs, e) && RegsOk(fs, e, base) && InForm(Fetched(FormOf(x.x)), fs, e) && !e.k.KLocal? && !e.k.KUpval?
    ensures var g := Negated(fs, e); InForm(FormOf(x), g.fs, g.e) && g.e.t == e.t && g.e.f == e.f && !g.e.k.KReg?
  {
    NegatedShape(fs, e, base);
    hide Good, Patch, Discharge2AnyReg;
  }

  lemma RemovedForm(f: Form, fs: Func, e: Exp)
    requires Good(fs, e) && InForm(f, fs, e)
    ensures InForm(f, fs.(code := RemoveValues(RemoveValues(fs.code, e.t), e.f)), Exp(e.k, e.f, e.t))
  {
    RemoveTwice(fs.code, e.t, e.f);
    OpenInside(Body(fs, e), Lists(e));
    assert e.k.KReloc? ==> RemoveValues(fs.code, Lists(e))[|fs.code| - 1] == fs.code[|fs.code| - 1];
    hide Good;
  }

  lemma CodeNotFormed(x: Expr, fs: Func, e: Exp, base: nat)
    requires x.NotOf? && Good(fs, e) && RegsOk(fs, e, base) && Formed(x.x, fs, e)
    ensures var g := CodeNot(fs, e); Formed(x, g.fs, g.e)
  {
    CodeNotIs(fs, e);
    hide Good, CodeNot, DischargeVars, Negated, RemoveValues;
    var g := DischargeVars(fs, e);
    DischargeVarsShape(fs, e);
    DischargeFormed(FormOf(x.x), fs, e);
    var h := Negated(g.fs, g.e);
    NegatedFormed(x, g.fs, g.e, base);
    NegatedShape(g.fs, g.e, base);
    RemovedForm(FormOf(x), h.fs, h.e);
  }

  /** The list of the jumps that leave after a condition is empty only if a literal decides that the run goes on. */
  lemma GoIfList(f: Form, fs: Func, e: Exp, stay: bool)
    requires Good(fs, e) && InForm(f, fs, e)
    ensures var list := GoIf(fs, e, stay).list;
      list != {} <==> ((if stay then e.f else e.t) != {} || !(if stay then f.TrueForm? || f.NumForm? else f.FalseForm?))
  {
    DischargedForm(f, fs, e);
    var g := DischargeVars(fs, e);
    DischargeVarsShape(fs, e);
    ConditionalList(Fetched(f), g.fs, g.e, stay);
    hide Good, ConditionalJump, DischargeVars;
    var l := ConditionalJump(g.fs, g.e, stay).list;
    if l != {} {
      var j :| j in l;
      assert j in GoIf(fs, e, stay).list;
    } else {
      assert GoIf(fs, e, stay).list == if stay then e.f else e.t;
    }
  }

  lemma ConditionalList(f: Form, fs: Func, e: Exp, stay: bool)
    requires Good(fs, e) && InForm(f, fs, e) && !e.k.KLocal? && !e.k.KUpval?
    ensures ConditionalJump(fs, e, stay).list != {} <==> !(if stay then f.TrueForm? || f.NumForm? else f.FalseForm?)
  {
    hide Patch, Discharge2AnyReg, FreeExp, InvertJump, Paired, AllOpen;
    assert |fs.code| in {|fs.code|} + fs.jpc;
    JumpListed(fs, e, !stay);
  }

  lemma JumpListed(fs: Func, e: Exp, cond: bool)
    ensures JumpOnCond(fs, e, cond).list != {} && Jump(fs).list != {}
  {
    hide Code, Discharge2AnyReg, FreeExp;
    forall gs: Func ensures |gs.code| in Jump(gs).list { }
  }

  lemma LogicFormed(x: Expr, g: Gen, h: Gen)
    requires (x.And? || x.Or?) && Good(g.fs, g.e) && Formed(x.left, g.fs, g.e)
    requires Good(h.fs, h.e) && Formed(x.right, h.fs, h.e) && (h.e.k.KLocal? ==> h.e.k.r < h.fs.nactvar)
    ensures var j := GoIf(g.fs, g.e, x.And?);
      var d := DischargeVars(h.fs, h.e);
      Formed(x, d.fs, Joined(d.e, x.And?, j.list))
  {
    GoIfList(FormOf(x.left), g.fs, g.e, x.And?);
    DischargeFormed(FormOf(x.right), h.fs, h.e);
    hide Good, GoIf, DischargeVars;
    var list := GoIf(g.fs, g.e, x.And?).list;
    var d := DischargeVars(h.fs, h.e);
    UnionEmpty(d.e.t, list);
    UnionEmpty(d.e.f, list);
    assert d.e.t == h.e.t && d.e.f == h.e.f;
  }

  lemma UnionEmpty(s: set<nat>, t: set<nat>)
    ensures s + t != {} <==> s != {} || t != {}
  {
    if s != {} { var j :| j in s; assert j in s + t; }
    if t != {} { var j :| j in t; assert j in s + t; }
  }

  lemma {:induction false} CompileFormed(fs: Func, x: Expr, base: nat)
    requires Good(fs, NONE) && RegsOk(fs, NONE, base) && LocalsBelow(x, fs.nactvar)
    ensures var g := Compile(fs, x); Formed(x, g.fs, g.e)
    decreases x
  {
    hide Good, Step, CodeNot, DischargeVars, GoIf, Exp2RK, CodeRel;
    match x {
      case Paren(y) =>
        CompileFormed(fs, y, base);
        CompileShape(fs, y, base);
        var g := Compile(fs, y);
        DischargeFormed(FormOf(y), g.fs, g.e);
      case NotOf(y) =>
        CompileFormed(fs, y, base);
        CompileShape(fs, y, base);
        var g := Compile(fs, y);
        CodeNotFormed(x, g.fs, g.e, base);
      case And(y, z) => LogicCompileFormed(fs, x, base);
      case Or(y, z) => LogicCompileFormed(fs, x, base);
      case Rel(op, y, z) =>
        var g := Compile(fs, y);
        CompileShape(fs, y, base);
        StepVars(fs, NONE, g.fs, g.e);
        var a := Exp2RK(g.fs, g.e);
        OperandShape(g.fs, g.e, base);
        var h := Compile(a.fs, z);
        CompileShape(a.fs, z, a.fs.freereg);
        StepVars(a.fs, NONE, h.fs, h.e);
        CompareFormed(x, h.fs, a.e, a.o, h.e, base);
      case _ =>
    }
  }

  lemma {:induction false} LogicCompileFormed(fs: Func, x: Expr, base: nat)
    requires Good(fs, NONE) && RegsOk(fs, NONE, base) && LocalsBelow(x, fs.nactvar) && (x.And? || x.Or?)
    ensures var g := Compile(fs, x); Formed(x, g.fs, g.e)
    decreases x, 0
  {
    hide Good, Step, DischargeVars, GoIf, Formed;
    var g := Compile(fs, x.left);
    CompileFormed(fs, x.left, base);
    CompileShape(fs, x.left, base);
    StepVars(fs, NONE, g.fs, g.e);
    GoIfShape(g.fs, g.e, x.And?, base);
    var j := GoIf(g.fs, g.e, x.And?);
    GoIfVars(g.fs, g.e, x.And?, base);
    var h := Compile(j.fs, x.right);
    CompileFormed(j.fs, x.right, base);
    CompileShape(j.fs, x.right, base);
    LogicFormed(x, g, h);
  }

  /** A comparison leaves its jump in hand. */
  lemma CompareFormed(x: Expr, fs: Func, e1: Exp, o1: RK, e2: Exp, base: nat)
    requires x.Rel? && Good(fs, e2) && IsOperand(fs, e1, o1, base) && RegsOk(fs, e2, Above(fs, o1, base))
    ensures var q := CodeRel(fs, x.op, e1, e2); Formed(x, q.fs, q.e)
  {
    hide Good, Step, CodeComp;
    match x.op
    case EQ => CodeCompShape(fs, OpEq, true, e1, o1, e2, base);
    case NE => CodeCompShape(fs, OpEq, false, e1, o1, e2, base);
    case LT => CodeCompShape(fs, OpLt, true, e1, o1, e2, base);
    case LE => CodeCompShape(fs, OpLe, true, e1, o1, e2, base);
    case GT => CodeCompShape(fs, OpLt, false, e1, o1, e2, base);
    case GE => CodeCompShape(fs, OpLe, false, e1, o1, e2, base);
  }

  // ---------- the way of an expression ----------

  /** The way depends on the registers of the local variables only. */
  lemma {:induction false} WaySame(env: Env, x: Expr, base: nat, s: Regs, s': Regs, h: Held)
    requires LocalsBelow(x, base) && SameBelow(s, s', base)
    ensures WayOf(env, x, s', h) == WayOf(env, x, s, h)
  {
    match x {
      case Paren(y) => WaySame(env, y, base, s, s', h);
      case NotOf(y) => WaySame(env, y, base, s, s', h);
      case And(y, z) =>
        WaySame(env, y, base, s, s', h);
        var t := Turned(FormOf(y), true, WayOf(env, y, s, h));
        if t.On? { WaySame(env, z, base, s, s', t.h); }
      case Or(y, z) =>
        WaySame(env, y, base, s, s', h);
        var t := Turned(FormOf(y), false, WayOf(env, y, s, h));
        if t.On? { WaySame(env, z, base, s, s', t.h); }
      case Rel(_, y, z) =>
        WaySame(env, y, base, s, s', h);
        WaySame(env, z, base, s, s', OperandHeld(y, WayOf(env, y, s, h)));
      case _ =>
    }
  }

  lemma {:induction false} LocalsMono(x: Expr, n: nat, m: nat)
    requires LocalsBelow(x, n) && n <= m
    ensures LocalsBelow(x, m)
  {
    match x {
      case Paren(y) => LocalsMono(y, n, m);
      case NotOf(y) => LocalsMono(y, n, m);
      case And(y, z) => LocalsMono(y, n, m); LocalsMono(z, n, m);
      case Or(y, z) => LocalsMono(y, n, m); LocalsMono(z, n, m);
      case Rel(_, y, z) => LocalsMono(y, n, m); LocalsMono(z, n, m);
      case _ =>
    }
  }

  /** A run that is at the end, with `h` in its hands, or has left. */
  predicate Comes(o: End, h: Held) { if o.AtEnd? then o.c == Content(h) else o.Other? }

  /** From the state `fs` to `gs` with the expression `e` in hand, a run that arrived at the end of `fs` with `h` goes
      the way of `x`, and a run that left stays out. */
  ghost predicate Means(env: Env, x: Expr, h: Held, base: nat, fs: Func, gs: Func, e: Exp, pc: nat, r: Regs) {
    var o := View(env, fs, NONE, pc, r);
    var o' := View(env, gs, e, pc, r);
    && (o.AtEnd? ==> Delivers(env, WayOf(env, x, o.regs, h), base, o.regs, gs, e, o'))
    && (o.Other? ==> o' == o)
  }

  lemma AtomMeans(env: Env, x: Expr, h: Held, base: nat, fs: Func, k: Kind, pc: nat, r: Regs)
    requires Good(fs, NONE) && !k.KReloc? && !k.KJmp? && Comes(View(env, fs, NONE, pc, r), h)
    requires forall s :: WayOf(env, x, s, h) == Arrives(h, ValueAt(env, fs, Exp(k, {}, {}), s))
    ensures Means(env, x, h, base, fs, fs, Exp(k, {}, {}), pc, r)
  {
    assert Body(fs, NONE) == Body(fs, Exp(k, {}, {}));
    hide Good, Run, Body, ValueAt, WayOf;
  }

  /** An operation on the expression that turns the way of `y` into the way of `x`. */
  lemma MeansPasses(env: Env, y: Expr, x: Expr, h: Held, base: nat, fs: Func, gs: Func, e: Exp, hs: Func, e': Exp, pc: nat, r: Regs)
    requires Means(env, y, h, base, fs, gs, e, pc, r)
    requires var o := View(env, fs, NONE, pc, r);
      o.AtEnd? ==> Passes(env, WayOf(env, y, o.regs, h), WayOf(env, x, o.regs, h), base, o.regs, gs, e, View(env, gs, e, pc, r), hs, e', View(env, hs, e', pc, r))
    requires View(env, gs, e, pc, r).Other? ==> View(env, hs, e', pc, r) == View(env, gs, e, pc, r)
    ensures Means(env, x, h, base, fs, hs, e', pc, r)
  {
    hide View, Delivers, WayOf;
  }

  lemma MeansNotWrong(env: Env, x: Expr, h: Held, base: nat, fs: Func, gs: Func, e: Exp, pc: nat, r: Regs)
    requires Means(env, x, h, base, fs, gs, e, pc, r) && Comes(View(env, fs, NONE, pc, r), h)
    ensures !View(env, gs, e, pc, r).Wrong?
  {
    hide View, WayOf;
  }

  // ---------- and, or ----------

  /** The jumps that leave, seen from the outside. */
  lemma LeavingView(env: Env, fs: Func, list: set<nat>, stay: bool, pc: nat, r: Regs)
    ensures var o := View(env, fs, Leaving(stay, list), pc, r);
      var o' := View(env, fs, NONE, pc, r);
      && (o.AtEnd? || o.Other? || o.Wrong? ==> o' == o)
      && (o.Other? ==> o.jump !in list)
      && (o.ExitT? || o.ExitF? ==> o'.Other? && o'.jump in list && o'.regs == o.regs && o.c == CarryOf(fs, o'.jump, o.regs))
  {
    assert Body(fs, Leaving(stay, list)) == Body(fs, NONE);
    hide Run;
  }

  /** The expression `e` with the jumps of the left operand added. */
  function Joined(e: Exp, stay: bool, list: set<nat>): Exp {
    if stay then e.(f := e.f + list) else e.(t := e.t + list)
  }

  /** When the right operand is complete the jumps of the left one count as its own. */
  lemma JoinView(env: Env, js: Func, list: set<nat>, ds: Func, e: Exp, stay: bool, pc: nat, r: Regs)
    requires Apart(js, NONE, list) && Good(ds, e) && Step(js, NONE, ds, e)
    ensures var o := View(env, ds, e, pc, r);
      var o' := View(env, ds, Joined(e, stay, list), pc, r);
      && (forall s :: ValueAt(env, ds, Joined(e, stay, list), s) == ValueAt(env, ds, e, s))
      && (!o.Other? || o.jump !in list ==> o' == o)
      && (o.Other? && o.jump in list ==>
            o' == (if stay then ExitF(CarryOf(js, o.jump, o.regs), o.regs) else ExitT(CarryOf(js, o.jump, o.regs), o.regs)))
  {
    var e' := Joined(e, stay, list);
    assert Body(ds, e') == Body(ds, e);
    JoinLists(js, list, ds, e, e');
    JoinCarry(js, list, ds, e);
    hide Run, Open, CarryOf;
  }

  lemma JoinCarry(js: Func, list: set<nat>, ds: Func, e: Exp)
    requires Apart(js, NONE, list) && Step(js, NONE, ds, e)
    ensures forall j, s | j in list :: CarryOf(ds, j, s) == CarryOf(js, j, s)
  {
    assert Lists(NONE) == {};
    OpenInside(js.code, list);
    forall j, s | j in list ensures CarryOf(ds, j, s) == CarryOf(js, j, s) {
      assert Open(js.code, j) && j !in js.jpc;
      SameCarry(js, ds, j, s);
    }
  }

  /** The parts of a logical operator: where the left operand turns, and the way of the right one. */
  lemma ChosenDelivers(env: Env, stay: bool, t: Turn, w: Way, base: nat, s: Regs, list: set<nat>, js: Func, p: End, ds: Func, e: Exp, o: End, e': Exp, o': End)
    requires Decides(t, base, s, stay, p)
    requires p.AtEnd? ==> Delivers(env, w, base, p.regs, ds, e, o)
    requires p.ExitT? || p.ExitF? ==> o.Other? && o.jump in list && o.regs == p.regs && p.c == CarryOf(js, o.jump, o.regs)
    requires !o.Other? || o.jump !in list ==> o' == o
    requires o.Other? && o.jump in list ==>
               o' == (if stay then ExitF(CarryOf(js, o.jump, o.regs), o.regs) else ExitT(CarryOf(js, o.jump, o.regs), o.regs))
    requires forall s' :: ValueAt(env, ds, e', s') == ValueAt(env, ds, e, s')
    ensures Delivers(env, if t.On? then w else if stay then LeavesF(t.h) else LeavesT(t.h), base, s, ds, e', o')
  {
    hide CarryOf, ValueAt;
  }

  lemma VarsDischarged(f: Form, fs: Func, e: Exp, w: Way)
    requires InForm(f, fs, e)
    ensures VarsWay(e, w) == Discharged(f, w)
  {
  }

  /** The way of a logical operator in terms of those of its operands. */
  lemma LogicWay(env: Env, x: Expr, s: Regs, h: Held)
    requires x.And? || x.Or?
    ensures var t := Turned(FormOf(x.left), x.And?, WayOf(env, x.left, s, h));
      WayOf(env, x, s, h) ==
      if t.On? then Discharged(FormOf(x.right), WayOf(env, x.right, s, t.h)) else if x.And? then LeavesF(t.h) else LeavesT(t.h)
  {
  }

  /** What a run holds after the condition of a logical operator, if it gets there. */
  function HeldAfter(env: Env, x: Expr, s: Regs, h: Held): Held
    requires x.And? || x.Or?
  {
    Turned(FormOf(x.left), x.And?, WayOf(env, x.left, s, h)).h
  }

  lemma LogicMeans(env: Env, x: Expr, h: Held, base: nat, fs: Func, g: Gen, q: Gen, pc: nat, r: Regs)
    requires (x.And? || x.Or?) && LocalsBelow(x.right, base) && Comes(View(env, fs, NONE, pc, r), h)
    requires Good(g.fs, g.e) && RegsOk(g.fs, g.e, base) && InForm(FormOf(x.left), g.fs, g.e) && Means(env, x.left, h, base, fs, g.fs, g.e, pc, r)
    requires var j := GoIf(g.fs, g.e, x.And?); var h' := HeldAfter(env, x, View(env, fs, NONE, pc, r).regs, h);
      && Good(q.fs, q.e) && Step(j.fs, NONE, q.fs, q.e) && InForm(FormOf(x.right), q.fs, q.e)
      && Comes(View(env, j.fs, NONE, pc, r), h') && Means(env, x.right, h', base, j.fs, q.fs, q.e, pc, r)
    ensures var j := GoIf(g.fs, g.e, x.And?);
      var d := DischargeVars(q.fs, q.e);
      Means(env, x, h, base, fs, d.fs, Joined(d.e, x.And?, j.list), pc, r)
  {
    hide Good, View, GoIf, DischargeVars, Apart, Keeps, Delivers, Decides, ValueAt, CarryOf, Joined, Passes, Leaving, WayOf, Turned, InForm, VarsWay;
    var stay := x.And?;
    var o0 := View(env, fs, NONE, pc, r);
    var s := o0.regs;
    var j := GoIf(g.fs, g.e, stay);
    var w := WayOf(env, x.left, s, h);
    var t := Turned(FormOf(x.left), stay, w);
    MeansNotWrong(env, x.left, h, base, fs, g.fs, g.e, pc, r);
    GoIfShape(g.fs, g.e, stay, base);
    GoIfDecides(env, w, FormOf(x.left), base, s, g.fs, g.e, stay, pc, r);
    LeavingView(env, j.fs, j.list, stay, pc, r);
    var p := View(env, j.fs, Leaving(stay, j.list), pc, r);
    var d := DischargeVars(q.fs, q.e);
    DischargeVarsShape(q.fs, q.e);
    StepTrans(j.fs, NONE, q.fs, q.e, d.fs, d.e);
    MeansNotWrong(env, x.right, t.h, base, j.fs, q.fs, q.e, pc, r);
    JoinView(env, j.fs, j.list, d.fs, d.e, stay, pc, r);
    var v := WayOf(env, x.right, p.regs, t.h);
    DischargeVarsPasses(env, v, base, p.regs, q.fs, q.e, pc, r);
    VarsDischarged(FormOf(x.right), q.fs, q.e, v);
    if o0.AtEnd? {
      if p.AtEnd? {
        WayDecided(env, x.right, base, s, stay, t, p);
        PassesDelivers(env, v, VarsWay(q.e, v), base, p.regs, q.fs, q.e, View(env, q.fs, q.e, pc, r), d.fs, d.e, View(env, d.fs, d.e, pc, r));
      } else {
        PassesStays(env, v, VarsWay(q.e, v), base, p.regs, q.fs, q.e, View(env, q.fs, q.e, pc, r), d.fs, d.e, View(env, d.fs, d.e, pc, r));
      }
      ChosenDelivers(env, stay, t, VarsWay(q.e, v), base, s, j.list, j.fs, p, d.fs, d.e,
                     View(env, d.fs, d.e, pc, r), Joined(d.e, stay, j.list), View(env, d.fs, Joined(d.e, stay, j.list), pc, r));
      DecidesOn(t, base, s, stay, p);
      LogicWay(env, x, s, h);
    } else {
      PassesStays(env, v, VarsWay(q.e, v), base, p.regs, q.fs, q.e, View(env, q.fs, q.e, pc, r), d.fs, d.e, View(env, d.fs, d.e, pc, r));
    }
  }

  lemma PassesDelivers(env: Env, v: Way, w: Way, base: nat, s: Regs, fs: Func, e: Exp, o: End, gs: Func, e': Exp, o': End)
    requires Passes(env, v, w, base, s, fs, e, o, gs, e', o') && Delivers(env, v, base, s, fs, e, o)
    ensures Delivers(env, w, base, s, gs, e', o')
  {
  }

  lemma PassesStays(env: Env, v: Way, w: Way, base: nat, s: Regs, fs: Func, e: Exp, o: End, gs: Func, e': Exp, o': End)
    requires Passes(env, v, w, base, s, fs, e, o, gs, e', o')
    ensures o.Other? ==> o' == o
  {
  }

  lemma DecidesOn(t: Turn, base: nat, s: Regs, stay: bool, p: End)
    ensures Decides(t, base, s, stay, p) ==> (t.On? <==> p.AtEnd?) && (p.AtEnd? || p.ExitT? || p.ExitF?)
    ensures Decides(t, base, s, stay, p) && p.AtEnd? ==> p.c == Content(t.h)
  {
  }

  lemma WayDecided(env: Env, z: Expr, base: nat, s: Regs, stay: bool, t: Turn, p: End)
    requires Decides(t, base, s, stay, p) && p.AtEnd? && LocalsBelow(z, base)
    ensures WayOf(env, z, p.regs, t.h) == WayOf(env, z, s, t.h)
  {
    WaySame(env, z, base, s, p.regs, t.h);
  }

  // ---------- comparisons ----------

  lemma RelWay(env: Env, x: Expr, s: Regs, h: Held)
    requires x.Rel?
    ensures var w := WayOf(env, x.left, s, h);
      WayOf(env, x, s, h) ==
      Arrives(Nothing, Bool(Truth(env, x.op, StoredBy(w), StoredBy(WayOf(env, x.right, s, OperandHeld(x.left, w))))))
  {
  }

  lemma OperandHolds(x: Expr, fs: Func, e: Exp, w: Way)
    requires Formed(x, fs, e) && OperandWay(e, w).Arrives?
    ensures OperandWay(e, w).h == OperandHeld(x, w)
  {
    UnionEmpty(e.t, e.f);
  }

  /** What a run holds after the left operand of a comparison. */
  function HeldBetween(env: Env, x: Expr, s: Regs, h: Held): Held
    requires x.Rel?
  {
    OperandHeld(x.left, WayOf(env, x.left, s, h))
  }

  /** After the left operand of a comparison a run is at the end with the value in the operand, or it has left. */
  lemma OperandArrives(env: Env, x: Expr, h: Held, base: nat, fs: Func, gs: Func, e: Exp, pc: nat, r: Regs)
    requires x.Rel? && Good(gs, e) && RegsOk(gs, e, base) && Formed(x.left, gs, e) && Comes(View(env, fs, NONE, pc, r), h)
    requires Means(env, x.left, h, base, fs, gs, e, pc, r) && Exp2RK(gs, e).fs.fits
    ensures var o, a := View(env, fs, NONE, pc, r), Exp2RK(gs, e);
      var o' := View(env, a.fs, NONE, pc, r);
      && Comes(o', HeldBetween(env, x, o.regs, h)) && (o.Other? ==> o' == o)
      && (o.AtEnd? ==> o'.AtEnd? && SameBelow(o.regs, o'.regs, base) && Operand(o'.regs, a.o) == StoredBy(WayOf(env, x.left, o.regs, h)))
  {
    hide Good, View, Exp2RK, Delivers, Passes, Step, ValueAt, SameBelow, WayOf, OperandHeld, OperandWay, StoredBy, Operand;
    var o := View(env, fs, NONE, pc, r);
    var w := WayOf(env, x.left, o.regs, h);
    MeansNotWrong(env, x.left, h, base, fs, gs, e, pc, r);
    var a := Exp2RK(gs, e);
    OperandShape(gs, e, base);
    Exp2RKPasses(env, w, base, o.regs, gs, e, pc, r);
    var o' := View(env, a.fs, a.e, pc, r);
    ListlessView(env, a.fs, a.e, pc, r);
    SpentView(env, a.fs, a.e, pc, r);
    if o.AtEnd? {
      PassesDelivers(env, w, OperandWay(e, w), base, o.regs, gs, e, View(env, gs, e, pc, r), a.fs, a.e, o');
      Listless(env, OperandWay(e, w), base, o.regs, a.fs, a.e, o');
      OperandValue(env, a.fs, a.e, a.o, base, o'.regs);
      OperandStored(e, w);
      OperandHolds(x.left, gs, e, w);
    } else {
      PassesStays(env, w, OperandWay(e, w), base, o.regs, gs, e, View(env, gs, e, pc, r), a.fs, a.e, o');
    }
  }

  /** The comparison operators of the language in terms of the three of the machine. */
  lemma RelPasses(env: Env, v: Value, w: Way, base: nat, s: Regs, s1: Regs, fs: Func, op: RelOp, e1: Exp, o1: RK, e2: Exp, pc: nat, r: Regs)
    requires Good(fs, e2) && IsOperand(fs, e1, o1, base) && RegsOk(fs, e2, Above(fs, o1, base)) && LocalReg(fs, e2)
    requires SameBelow(s, s1, base) && Operand(s1, o1) == v && !View(env, fs, e2, pc, r).Wrong?
    requires CodeRel(fs, op, e1, e2).fs.fits
    ensures var g := CodeRel(fs, op, e1, e2);
      var o := View(env, fs, e2, pc, r);
      var o' := View(env, g.fs, g.e, pc, r);
      && (Delivers(env, w, Above(fs, o1, base), s1, fs, e2, o) ==>
            Delivers(env, Arrives(Nothing, Bool(Truth(env, op, v, StoredBy(w)))), base, s, g.fs, g.e, o'))
      && (o.Other? ==> o' == o)
  {
    hide Good, View, CodeComp, Delivers, Step, SameBelow, StoredBy, Operand;
    match op
    case EQ => CodeCompPasses(env, v, w, base, s, s1, fs, OpEq, true, e1, o1, e2, pc, r);
    case NE => CodeCompPasses(env, v, w, base, s, s1, fs, OpEq, false, e1, o1, e2, pc, r);
    case LT => CodeCompPasses(env, v, w, base, s, s1, fs, OpLt, true, e1, o1, e2, pc, r);
    case LE => CodeCompPasses(env, v, w, base, s, s1, fs, OpLe, true, e1, o1, e2, pc, r);
    case GT => CodeCompPasses(env, v, w, base, s, s1, fs, OpLt, false, e1, o1, e2, pc, r);
    case GE => CodeCompPasses(env, v, w, base, s, s1, fs, OpLe, false, e1, o1, e2, pc, r);
  }

  lemma SameBelowRefl(s: Regs, base: nat)
    ensures SameBelow(s, s, base)
  {
  }

  /** The parts of a comparison: the left operand is ready in `a`, and the right one in hand. */
  lemma RelMeans(env: Env, x: Expr, h: Held, base: nat, fs: Func, a: Operanded, q: Gen, pc: nat, r: Regs)
    requires x.Rel? && LocalsBelow(x.right, base) && IsOperand(q.fs, a.e, a.o, base)
    requires Good(q.fs, q.e) && RegsOk(q.fs, q.e, Above(q.fs, a.o, base)) && LocalReg(q.fs, q.e)
    requires var o, o' := View(env, fs, NONE, pc, r), View(env, a.fs, NONE, pc, r);
      && Comes(o, h) && Comes(o', HeldBetween(env, x, o.regs, h)) && (o.Other? ==> o' == o)
      && (o.AtEnd? ==> o'.AtEnd? && SameBelow(o.regs, o'.regs, base) && Operand(o'.regs, a.o) == StoredBy(WayOf(env, x.left, o.regs, h)))
      && Means(env, x.right, HeldBetween(env, x, o.regs, h), Above(q.fs, a.o, base), a.fs, q.fs, q.e, pc, r)
    requires CodeRel(q.fs, x.op, a.e, q.e).fs.fits
    ensures var g := CodeRel(q.fs, x.op, a.e, q.e); Means(env, x, h, base, fs, g.fs, g.e, pc, r)
  {
    hide Good, View, CodeRel, Delivers, ValueAt, SameBelow, LocalsBelow, WayOf, StoredBy, Operand, OperandHeld, LocalReg, RegsOk, IsOperand, Above;
    var o, o' := View(env, fs, NONE, pc, r), View(env, a.fs, NONE, pc, r);
    var h' := HeldBetween(env, x, o.regs, h);
    MeansNotWrong(env, x.right, h', Above(q.fs, a.o, base), a.fs, q.fs, q.e, pc, r);
    var u := WayOf(env, x.right, o.regs, h');
    if o.AtEnd? {
      WaySame(env, x.right, base, o.regs, o'.regs, h');
      RelPasses(env, Operand(o'.regs, a.o), u, base, o.regs, o'.regs, q.fs, x.op, a.e, a.o, q.e, pc, r);
      RelWay(env, x, o.regs, h);
    } else {
      SameBelowRefl(o.regs, base);
      RelPasses(env, Operand(o.regs, a.o), u, base, o.regs, o.regs, q.fs, x.op, a.e, a.o, q.e, pc, r);
    }
  }

  // ---------- all expressions ----------

  lemma LogicVars(fs: Func, e: Exp, stay: bool, base: nat, h: Gen)
    requires Good(fs, e) && RegsOk(fs, e, base)
    requires var j := GoIf(fs, e, stay); Good(h.fs, h.e) && Step(j.fs, NONE, h.fs, h.e)
    requires var d := DischargeVars(h.fs, h.e); d.fs.fits
    ensures h.fs.fits
    ensures var j := GoIf(fs, e, stay); j.fs.fits && j.fs.nactvar == fs.nactvar
    ensures fs.fits
  {
    hide Good, Keeps, GoIf, Apart, DischargeVars;
    DischargeVarsShape(h.fs, h.e);
    var j := GoIf(fs, e, stay);
    StepVars(j.fs, NONE, h.fs, h.e);
    GoIfShape(fs, e, stay, base);
    KeepsRegs(BodyLen(fs, e), fs, Lists(e), j.fs, j.list);
  }

  /** The code of an expression does what its way says, if there are enough registers. */
  lemma {:induction false} CompileMeans(env: Env, fs: Func, x: Expr, h: Held, base: nat, pc: nat, r: Regs)
    requires Good(fs, NONE) && RegsOk(fs, NONE, base) && LocalsBelow(x, fs.nactvar)
    requires Compile(fs, x).fs.fits && Comes(View(env, fs, NONE, pc, r), h)
    ensures var g := Compile(fs, x); Means(env, x, h, base, fs, g.fs, g.e, pc, r)
    decreases x, 1
  {
    hide Good, View, Step, CodeNot, DischargeVars, GoIf, Exp2RK, CodeRel, Means, Passes;
    match x {
      case Local(i) => AtomMeans(env, x, h, base, fs, KLocal(i), pc, r);
      case Upval(i) => AtomMeans(env, x, h, base, fs, KUpval(i), pc, r);
      case True => AtomMeans(env, x, h, base, fs, KTrue, pc, r);
      case False => AtomMeans(env, x, h, base, fs, KFalse, pc, r);
      case Number(n) => AtomMeans(env, x, h, base, fs, KNum(n), pc, r);
      case Paren(y) => UnaryMeans(env, fs, x, y, h, base, pc, r);
      case NotOf(y) => UnaryMeans(env, fs, x, y, h, base, pc, r);
      case And(_, _) => LogicCompileMeans(env, fs, x, h, base, pc, r);
      case Or(_, _) => LogicCompileMeans(env, fs, x, h, base, pc, r);
      case Rel(_, _, _) => RelCompileMeans(env, fs, x, h, base, pc, r);
    }
  }

  lemma {:induction false} UnaryMeans(env: Env, fs: Func, x: Expr, y: Expr, h: Held, base: nat, pc: nat, r: Regs)
    requires Good(fs, NONE) && RegsOk(fs, NONE, base) && LocalsBelow(x, fs.nactvar)
    requires Compile(fs, x).fs.fits && Comes(View(env, fs, NONE, pc, r), h)
    requires x == Paren(y) || x == NotOf(y)
    ensures var g := Compile(fs, x); Means(env, x, h, base, fs, g.fs, g.e, pc, r)
    decreases x, 0
  {
    hide Good, View, Step, CodeNot, DischargeVars, Means, Passes, InForm, FormOf, Discharged, NotWay, VarsWay;
    var g := Compile(fs, y);
    var q := Compile(fs, x);
    CompileShape(fs, y, base);
    CompileFormed(fs, y, base);
    if x.Paren? {
      DischargeVarsShape(g.fs, g.e);
    } else {
      CodeNotShape(g.fs, g.e, base);
    }
    StepVars(g.fs, g.e, q.fs, q.e);
    CompileMeans(env, fs, y, h, base, pc, r);
    MeansNotWrong(env, y, h, base, fs, g.fs, g.e, pc, r);
    var o := View(env, fs, NONE, pc, r);
    var w := WayOf(env, y, o.regs, h);
    if x.Paren? {
      DischargeVarsPasses(env, w, base, o.regs, g.fs, g.e, pc, r);
      VarsDischarged(FormOf(y), g.fs, g.e, w);
    } else {
      CodeNotPasses(env, w, FormOf(y), base, o.regs, g.fs, g.e, pc, r);
    }
    PassesStays(env, w, WayOf(env, x, o.regs, h), base, o.regs, g.fs, g.e, View(env, g.fs, g.e, pc, r), q.fs, q.e, View(env, q.fs, q.e, pc, r));
    MeansPasses(env, y, x, h, base, fs, g.fs, g.e, q.fs, q.e, pc, r);
  }

  lemma {:induction false} LogicCompileMeans(env: Env, fs: Func, x: Expr, h: Held, base: nat, pc: nat, r: Regs)
    requires Good(fs, NONE) && RegsOk(fs, NONE, base) && LocalsBelow(x, fs.nactvar)
    requires Compile(fs, x).fs.fits && Comes(View(env, fs, NONE, pc, r), h)
    requires x.And? || x.Or?
    ensures var g := Compile(fs, x); Means(env, x, h, base, fs, g.fs, g.e, pc, r)
    decreases x, 0
  {
    hide Good, View, Step, DischargeVars, GoIf, Means, InForm, FormOf, WayOf, HeldAfter, Leaves;
    var stay := x.And?;
    var g := Compile(fs, x.left);
    CompileShape(fs, x.left, base);
    CompileFormed(fs, x.left, base);
    StepVars(fs, NONE, g.fs, g.e);
    var j := GoIf(g.fs, g.e, stay);
    GoIfShape(g.fs, g.e, stay, base);
    GoIfVars(g.fs, g.e, stay, base);
    var q := Compile(j.fs, x.right);
    CompileShape(j.fs, x.right, base);
    CompileFormed(j.fs, x.right, base);
    LogicVars(g.fs, g.e, stay, base, q);
    CompileMeans(env, fs, x.left, h, base, pc, r);
    GoIfArrives(env, x, h, base, fs, g.fs, g.e, pc, r);
    var h' := HeldAfter(env, x, View(env, fs, NONE, pc, r).regs, h);
    CompileMeans(env, j.fs, x.right, h', base, pc, r);
    LocalsMono(x.right, fs.nactvar, base);
    LogicMeans(env, x, h, base, fs, g, q, pc, r);
  }

  /** After a jump on a condition the run is at the end or has left. */
  lemma GoIfArrives(env: Env, x: Expr, h: Held, base: nat, fs: Func, gs: Func, e: Exp, pc: nat, r: Regs)
    requires (x.And? || x.Or?) && Good(gs, e) && RegsOk(gs, e, base) && InForm(FormOf(x.left), gs, e)
    requires Means(env, x.left, h, base, fs, gs, e, pc, r) && Comes(View(env, fs, NONE, pc, r), h)
    ensures Comes(View(env, GoIf(gs, e, x.And?).fs, NONE, pc, r), HeldAfter(env, x, View(env, fs, NONE, pc, r).regs, h))
  {
    hide Good, View, GoIf, Delivers, Decides, Leaving, InForm, FormOf, WayOf, Turned, Content;
    var o := View(env, fs, NONE, pc, r);
    var w := WayOf(env, x.left, o.regs, h);
    MeansNotWrong(env, x.left, h, base, fs, gs, e, pc, r);
    GoIfDecides(env, w, FormOf(x.left), base, o.regs, gs, e, x.And?, pc, r);
    var j := GoIf(gs, e, x.And?);
    LeavingView(env, j.fs, j.list, x.And?, pc, r);
    DecidesOn(Turned(FormOf(x.left), x.And?, w), base, o.regs, x.And?, View(env, j.fs, Leaving(x.And?, j.list), pc, r));
  }

  lemma {:induction false} RelCompileMeans(env: Env, fs: Func, x: Expr, h: Held, base: nat, pc: nat, r: Regs)
    requires Good(fs, NONE) && RegsOk(fs, NONE, base) && LocalsBelow(x, fs.nactvar)
    requires Compile(fs, x).fs.fits && Comes(View(env, fs, NONE, pc, r), h)
    requires x.Rel?
    ensures var g := Compile(fs, x); Means(env, x, h, base, fs, g.fs, g.e, pc, r)
    decreases x, 0
  {
    hide Good, View, Step, Exp2RK, CodeRel, Means, InForm, WayOf, Operand, StoredBy, SameBelow, HeldBetween;
    var g := Compile(fs, x.left);
    CompileShape(fs, x.left, base);
    CompileFormed(fs, x.left, base);
    StepVars(fs, NONE, g.fs, g.e);
    var a := Exp2RK(g.fs, g.e);
    OperandShape(g.fs, g.e, base);
    var q := Compile(a.fs, x.right);
    CompileShape(a.fs, x.right, a.fs.freereg);
    CompileFormed(a.fs, x.right, a.fs.freereg);
    StepVars(a.fs, NONE, q.fs, q.e);
    CodeRelShape(q.fs, x.op, a.e, a.o, q.e, base);
    var p := CodeRel(q.fs, x.op, a.e, q.e);
    StepVars(q.fs, q.e, p.fs, p.e);
    OperandVars(g.fs, g.e, base);
    CompileMeans(env, fs, x.left, h, base, pc, r);
    OperandArrives(env, x, h, base, fs, g.fs, g.e, pc, r);
    var h' := HeldBetween(env, x, View(env, fs, NONE, pc, r).regs, h);
    CompileMeans(env, a.fs, x.right, h', a.fs.freereg, pc, r);
    LocalsMono(x.right, fs.nactvar, base);
    RelMeans(env, x, h, base, fs, a, q, pc, r);
  }

  lemma OperandVars(fs: Func, e: Exp, base: nat)
    requires Good(fs, e) && RegsOk(fs, e, base)
    ensures var a := Exp2RK(fs, e); a.fs.fits ==> fs.fits
  {
    hide Good, Step, Exp2RK;
    OperandShape(fs, e, base);
    StepVars(fs, e, Exp2RK(fs, e).fs, NONE);
  }

  // ---------- the main theorem ----------

  /** `expr` followed by `exp2reg`: the expression is compiled into the register `reg`. */
  ghost function CompileInto(fs: Func, x: Expr, reg: nat): Func {
    var g := Compile(fs, x);
    Exp2Reg(g.fs, g.e, reg).fs
  }
}
