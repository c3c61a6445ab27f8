/**
  The main theorems on expressions built from local variables, upvalues, literals, comparisons, `and`, `or` and `not`:
  what the emitted code computes, and that this is the value of the expression, with exactly one kind of exception.
  */
module LCodeTheorem {
  import opened LCodeVm
  import opened LCodeGen
  import opened LCodeWays
  import opened LCodeShape
  import opened LCodeMeaning
  import opened LCodeCorrect
  import opened LCodeRegisters
  import opened LCodeClosed

  /** The code when the next instruction is about to be emitted: the jumps to it have their target. */
  function Finished(fs: Func): seq<Instr> { Patch(fs.code, fs.jpc, |fs.code|, NO_REG, |fs.code|) }

  /** A generator between two statements: complete code up to the jumps to the next instruction. */
  ghost predicate Ready(fs: Func) {
    Good(fs, NONE) && AllListed(fs, NONE, {}) && fs.nactvar <= fs.freereg < MAXSTACK
  }

  /** There are enough registers for the code of the expression. */
  predicate Enough(fs: Func, x: Expr) { fs.fits && fs.freereg + Slots(x) < MAXSTACK }

  /** A function without code. */
  function Start(nactvar: nat): Func { Func([], {}, nactvar, nactvar, true) }

  lemma StartReady(n: nat)
    requires n < MAXSTACK
    ensures Ready(Start(n))
  {
  }

  lemma FinishedRun(env: Env, fs: Func, pc: nat, r: Regs)
    requires AllOpen(fs.code, fs.jpc) && View(env, fs, NONE, pc, r).AtEnd?
    ensures Run(env, Finished(fs), pc, r) == Fall(View(env, fs, NONE, pc, r).regs)
  {
    var n := |fs.code|;
    assert Body(fs, NONE) == fs.code;
    EmitRun(env, fs, [], pc, r);
    assert Finished(fs) + [] == Finished(fs);
  }

  lemma FinishedComplete(fs: Func)
    requires Good(fs, NONE) && AllListed(fs, NONE, {})
    ensures Complete(Finished(fs))
  {
    var n := |fs.code|;
    assert Body(fs, NONE) == fs.code;
    OpenInside(fs.code, fs.jpc);
    assert fs.jpc + Lists(NONE) + {} == fs.jpc + {};
    ListedPatch(fs.code, n, fs.jpc, n, NO_REG, n, {});
  }

  /** The registers after `v` has been computed into `reg`. */
  ghost predicate Computed(v: Value, reg: nat, base: nat, r: Regs, s: Regs) {
    Get(s, reg) == v && forall i: nat | i < base && i != reg :: Get(s, i) == Get(r, i)
  }

  lemma CollectsComputed(env: Env, w: Way, reg: nat, base: nat, r: Regs, fs: Func, e: Exp, o: End, o': End)
    requires Delivers(env, w, base, r, fs, e, o) && Collects(env, fs, e, o, reg, o')
    ensures o'.AtEnd? && Computed(StoredBy(w), reg, base, r, o'.regs)
  {
  }

  lemma ArrivesAtStart(env: Env, fs: Func, r: Regs)
    ensures View(env, fs, NONE, |fs.code|, r) == AtEnd(NoValue, r)
  {
    assert Body(fs, NONE) == fs.code;
  }

  /** WHAT IS COMPUTED.  Running the code emitted for any expression with destination `reg`, a local variable or the
      first free register, leaves there what its way stores and the other active registers alone; the code is
      complete.  The only condition is that the registers suffice. */
  lemma ValueEmitted(env: Env, fs: Func, x: Expr, reg: nat, r: Regs)
    requires Ready(fs) && LocalsBelow(x, fs.nactvar) && reg <= fs.freereg && Enough(fs, x)
    ensures var o := Run(env, Finished(CompileInto(fs, x, reg)), |fs.code|, r);
      o.Fall? && Computed(Emitted(env, x, r), reg, fs.freereg, r, o.regs)
    ensures Complete(Finished(CompileInto(fs, x, reg)))
  {
    hide Good, View, Step, Compile, Exp2Reg, AllListed, Delivers, Collects, Patch, Computed, Finished, WayOf, StoredBy, Slots;
    EnoughRegisters(fs, x, reg);
    var base := fs.freereg;
    var pc := |fs.code|;
    var g := Compile(fs, x);
    CompileShape(fs, x, base);
    CompileListed(fs, x, base, {});
    var h := Exp2Reg(g.fs, g.e, reg);
    Exp2RegShape(g.fs, g.e, reg);
    Exp2RegListed(g.fs, g.e, reg, {});
    StepVars(g.fs, g.e, h.fs, h.e);
    ArrivesAtStart(env, fs, r);
    CompileMeans(env, fs, x, Nothing, base, pc, r);
    MeansNotWrong(env, x, Nothing, base, fs, g.fs, g.e, pc, r);
    Exp2RegView(env, g.fs, g.e, reg, pc, r);
    CollectsComputed(env, WayOf(env, x, r, Nothing), reg, base, r, g.fs, g.e, View(env, g.fs, g.e, pc, r), View(env, h.fs, h.e, pc, r));
    SpentView(env, h.fs, h.e, pc, r);
    ListedSpent(h.fs, h.e);
    SpentShape(h.fs, h.e, h.fs, h.e) by { StepRefl(h.fs, h.e); }
    GoodOpen(h.fs);
    FinishedRun(env, h.fs, pc, r);
    FinishedComplete(h.fs);
  }

  lemma GoodOpen(fs: Func)
    requires Good(fs, NONE)
    ensures AllOpen(fs.code, fs.jpc)
  {
    assert Body(fs, NONE) == fs.code;
  }

  lemma ListedSpent(fs: Func, e: Exp)
    requires AllListed(fs, e, {}) && e == Exp(e.k, {}, {}) && !Pending(e)
    ensures AllListed(fs, NONE, {})
  {
    assert Lists(e) == Lists(NONE);
  }

  lemma ComputedAt(v: Value, reg: nat, base: nat, r: Regs, s: Regs)
    requires Computed(v, reg, base, r, s)
    ensures Get(s, reg) == v
  {
  }

  /** VALUE PRESERVATION.  If every comparison that the run comes to is true to the values of its operands, the
      destination holds the value of the expression if and only if the run does not leave the expression through a
      jump that has taken over, from another condition, a value other than the boolean it stands for. */
  lemma ValuePreservedIff(env: Env, fs: Func, x: Expr, reg: nat, r: Regs)
    requires Ready(fs) && LocalsBelow(x, fs.nactvar) && reg <= fs.freereg && Enough(fs, x)
    requires TrueComparisons(env, x, r, Nothing)
    ensures var o := Run(env, Finished(CompileInto(fs, x, reg)), |fs.code|, r);
      o.Fall? && (Get(o.regs, reg) == Eval(env, x, r) <==> !Spoilt(WayOf(env, x, r, Nothing)))
  {
    ValueEmitted(env, fs, x, reg, r);
    hide *;
    ComputedAt(Emitted(env, x, r), reg, fs.freereg, r, Run(env, Finished(CompileInto(fs, x, reg)), |fs.code|, r).regs);
    EmittedIsRightIff(env, x, r);
  }

  /** VALUE PRESERVATION for all expressions in which the operands of comparisons are plain, without a condition on
      the run. */
  lemma PlainOperandsPreservedIff(env: Env, fs: Func, x: Expr, reg: nat, r: Regs)
    requires Ready(fs) && LocalsBelow(x, fs.nactvar) && reg <= fs.freereg && Enough(fs, x) && PlainOperands(x)
    ensures var o := Run(env, Finished(CompileInto(fs, x, reg)), |fs.code|, r);
      o.Fall? && (Get(o.regs, reg) == Eval(env, x, r) <==> !Spoilt(WayOf(env, x, r, Nothing)))
  {
    hide *;
    PlainOperandsAreClean(env, x, r, Nothing);
    CleanIsTrue(env, x, r, Nothing);
    ValuePreservedIff(env, fs, x, reg, r);
  }

  /** VALUE PRESERVATION for plain expressions: there is no condition but the number of registers. */
  lemma PlainValuePreserved(env: Env, fs: Func, x: Expr, reg: nat, r: Regs)
    requires Ready(fs) && LocalsBelow(x, fs.nactvar) && reg <= fs.freereg && Enough(fs, x)
    requires Plain(x)
    ensures var o := Run(env, Finished(CompileInto(fs, x, reg)), |fs.code|, r);
      o.Fall? && Computed(Eval(env, x, r), reg, fs.freereg, r, o.regs)
  {
    ValueEmitted(env, fs, x, reg, r);
    hide *;
    PlainIsRight(env, x, r);
  }

  /** The smallest expressions whose value is lost: for all variables `a` and `b` and every expression `c`, the code
      for `(a and b) or (true or c)`, `(a and b) or (false and c)`, `(a or b) and (true or c)` and
      `(a or b) and (false and c)` yields `a` in place of the literal exactly if `a` decides the first operator and is
      not itself the literal. */
  lemma TakenOverIsWrongIff(env: Env, fs: Func, p: bool, k: bool, a: Expr, b: Expr, c: Expr, reg: nat, r: Regs)
    requires Variable(a) && Variable(b)
    requires var x := Smallest(p, k, a, b, c);
      Ready(fs) && LocalsBelow(x, fs.nactvar) && reg <= fs.freereg && Enough(fs, x)
    ensures var x, v := Smallest(p, k, a, b, c), Eval(env, a, r);
      var o := Run(env, Finished(CompileInto(fs, x, reg)), |fs.code|, r);
      && o.Fall?
      && (Get(o.regs, reg) != Eval(env, x, r) <==> IsFalse(v) == p && v != Bool(k))
      && (Get(o.regs, reg) != Eval(env, x, r) ==> Get(o.regs, reg) == v && Eval(env, x, r) == Bool(k))
  {
    hide *;
    var x := Smallest(p, k, a, b, c);
    ValueEmitted(env, fs, x, reg, r);
    ComputedAt(Emitted(env, x, r), reg, fs.freereg, r, Run(env, Finished(CompileInto(fs, x, reg)), |fs.code|, r).regs);
    SmallestIsWrongIff(env, p, k, a, b, c, r);
  }

  lemma LocalShape(p: bool, k: bool)
    ensures var x := Smallest(p, k, Local(0), Local(1), Local(2)); Slots(x) == 0 && LocalsBelow(x, 3)
  {
    var y, z := Logic(!p, Local(0), Local(1)), Logic(k, Constant(k), Local(2));
    assert Slots(y) == Slots(z) == 0 && FormOf(y).LocalForm? && LocalsBelow(y, 3) && LocalsBelow(z, 3);
    assert Slots(Paren(y)) == 0 && FormOf(Paren(y)).LocalForm?;
  }

  /** With `a` == 5 the code for `(a or b) and (true or c)` computes 5 and not true. */
  lemma ValueCanBeLost(env: Env)
    ensures var x, r := Smallest(false, true, Local(0), Local(1), Local(2)), map[0 := Num(5)];
      var o := Run(env, Finished(CompileInto(Start(3), x, 3)), 0, r);
      o.Fall? && Get(o.regs, 3) == Num(5) && Eval(env, x, r) == Bool(true)
  {
    hide Ready, Slots, LocalsBelow, Run, Finished, CompileInto, Smallest;
    var r: Regs := map[0 := Num(5)];
    StartReady(3);
    LocalShape(false, true);
    assert Eval(env, Local(0), r) == Num(5);
    hide Eval;
    TakenOverIsWrongIff(env, Start(3), false, true, Local(0), Local(1), Local(2), 3, r);
  }

  /** The interpreter computes it. */
  method RunExpression(env: Env, ghost fs: Func, ghost x: Expr, reg: nat, code: seq<Instr>, start: nat, r: Regs) returns (s: Regs)
    requires Ready(fs) && LocalsBelow(x, fs.nactvar) && reg <= fs.freereg && Enough(fs, x)
    requires code == Finished(CompileInto(fs, x, reg)) && start == |fs.code|
    ensures Computed(Emitted(env, x, r), reg, fs.freereg, r, s)
    ensures TrueComparisons(env, x, r, Nothing) ==> (Get(s, reg) == Eval(env, x, r) <==> !Spoilt(WayOf(env, x, r, Nothing)))
  {
    hide *;
    ValueEmitted(env, fs, x, reg, r);
    s := Execute(env, code, start, r);
    ComputedAt(Emitted(env, x, r), reg, fs.freereg, r, s);
    if TrueComparisons(env, x, r, Nothing) {
      EmittedIsRightIff(env, x, r);
    }
  }

  /** CONDITIONS.  The code of `if x` goes on exactly when the way of `x` does, and otherwise leaves through the list
      that `luaK_goiftrue` returns.  If comparisons are true to their operands it goes on exactly when `x` is
      true, whatever the jumps hold. */
  lemma ConditionPreserved(env: Env, fs: Func, x: Expr, r: Regs)
    requires Ready(fs) && LocalsBelow(x, fs.nactvar) && Enough(fs, x)
    ensures var g := Compile(fs, x);
      var j := GoIf(g.fs, g.e, true);
      var o := View(env, j.fs, Exp(KTrue, {}, j.list), |fs.code|, r);
      && (o.AtEnd? || o.ExitF?)
      && (o.AtEnd? <==> Turned(FormOf(x), true, WayOf(env, x, r, Nothing)).On?)
      && (TrueComparisons(env, x, r, Nothing) ==> (o.AtEnd? <==> !IsFalse(Eval(env, x, r))))
      && (forall i: nat | i < fs.freereg :: Get(o.regs, i) == Get(r, i))
  {
    hide Good, View, Step, Compile, GoIf, Delivers, WayOf, FormOf, InForm, TrueComparisons, Eval, Turned, Leaves, Slots;
    EnoughRegisters(fs, x, 0);
    var base := fs.freereg;
    var pc := |fs.code|;
    var g := Compile(fs, x);
    CompileShape(fs, x, base);
    CompileFormed(fs, x, base);
    ArrivesAtStart(env, fs, r);
    CompileMeans(env, fs, x, Nothing, base, pc, r);
    MeansNotWrong(env, x, Nothing, base, fs, g.fs, g.e, pc, r);
    GoIfDecides(env, WayOf(env, x, r, Nothing), FormOf(x), base, r, g.fs, g.e, true, pc, r);
    if TrueComparisons(env, x, r, Nothing) {
      ConditionSound(env, x, r);
    }
  }
}
