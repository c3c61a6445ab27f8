/**
  From an expression to its value: the generator of `LCodeFuncState` and the interpreter of `LCodeVm` together.
  */
module LCodeProgram {
  import opened LCodeVm
  import G = LCodeGen
  import opened LCodeChains
  import opened LCodeManual
  import opened LCodeRegisters
  import opened LCodeTheorem
  import opened LCodeWays
  import Shape = LCodeShape
  import Closed = LCodeClosed
  import FS = LCodeFuncState

  /** Code without pending jumps is the same in both views. */
  lemma NothingPending(code: seq<Instr>, open: set<nat>)
    requires Complete(Plainly(code, open)) && forall j | j in open :: j < |code|
    ensures Plainly(code, open) == code
  {
    var plain := Plainly(code, open);
    forall j | 0 <= j < |code| ensures plain[j] == code[j] {
      assert plain[j].Jmp? ==> plain[j].sbx != NO_JUMP;
    }
  }

  lemma ExpressionComplete(x: G.Expr, n: nat, reg: nat)
    requires n < G.MAXSTACK && Shape.LocalsBelow(x, n)
    ensures Complete(Finished(CompiledInto(x, n, reg)))
  {
    hide G.Compile, G.Exp2Reg, Shape.Good, Closed.AllListed, Finished, Complete, Shape.Step;
    var fs := Start(n);
    StartReady(n);
    assert Shape.Good(fs, G.NONE) && Closed.AllListed(fs, G.NONE, {});
    var g := G.Compile(fs, x);
    Shape.CompileShape(fs, x, n);
    Closed.CompileListed(fs, x, n, {});
    var h := G.Exp2Reg(g.fs, g.e, reg);
    Shape.Exp2RegShape(g.fs, g.e, reg);
    Closed.Exp2RegListed(g.fs, g.e, reg, {});
    ListedSpent(h.fs, h.e);
    Shape.StepRefl(h.fs, h.e);
    Shape.SpentShape(h.fs, h.e, h.fs, h.e);
    FinishedComplete(h.fs);
  }

  ghost function CompiledInto(x: G.Expr, n: nat, reg: nat): G.Func {
    var g := G.Compile(Start(n), x);
    G.Exp2Reg(g.fs, g.e, reg).fs
  }

  /** What the run of the complete code leaves. */
  lemma ProgramRun(env: Env, x: G.Expr, n: nat, r: Regs)
    requires n < G.MAXSTACK && Shape.LocalsBelow(x, n) && n + Slots(x) < G.MAXSTACK
    ensures var o := Run(env, Finished(CompiledInto(x, n, n)), 0, r);
      o.Fall? && Computed(Emitted(env, x, r), n, n, r, o.regs)
  {
    hide Computed, G.Compile, G.Exp2Reg, Ready, Finished, Run, Slots, Emitted;
    StartReady(n);
    ValueEmitted(env, Start(n), x, n, r);
  }

  lemma ProgramFits(x: G.Expr, n: nat)
    requires n < G.MAXSTACK && Shape.LocalsBelow(x, n)
    ensures CompiledInto(x, n, n).fits <==> n + Slots(x) < G.MAXSTACK
  {
    hide G.Compile, G.Exp2Reg, Slots;
    StartReady(n);
    EnoughRegisters(Start(n), x, n);
  }

  /** Compiling an expression in a function with `n` local variables and running the code: exactly if the source
      needs no more registers than there are, the register after the locals holds what the way of the expression
      stores, and the locals are as before.  For a plain expression that is the value that the
      manual gives it, and for any other, if its comparisons are true to their operands, exactly if its way is not
      spoilt. */
  method CompileAndRun(env: Env, x: G.Expr, n: nat, r: Regs) returns (ok: bool, s: Regs)
    requires n < G.MAXSTACK && Shape.LocalsBelow(x, n)
    ensures ok <==> n + Slots(x) < 250
    ensures ok ==> Computed(Emitted(env, x, r), n, n, r, s)
    ensures ok && Plain(x) ==> Computed(Manual(env, x, r), n, n, r, s)
    ensures ok && TrueComparisons(env, x, r, Nothing) ==> (Get(s, n) == Manual(env, x, r) <==> !Spoilt(WayOf(env, x, r, Nothing)))
  {
    hide Computed, G.Compile, G.Exp2Reg, FS.FuncState.InHand, Run, Slots, WayOf, Emitted, TrueComparisons, Plain, G.Eval, Manual, Shape.LocalsBelow;
    var fs := new FS.FuncState(n);
    fs.StartInHand();
    fs.CompileInto(x, n);
    ExpressionComplete(x, n, n);
    hide G.Patch, Complete;
    assert fs.A().code == Finished(CompiledInto(x, n, n));
    NothingPending(fs.code, fs.open);
    hide Plainly, Finished, CompiledInto;
    ok, s := fs.fits, r;
    ProgramFits(x, n);
    if ok {
      ProgramRun(env, x, n, r);
      s := Execute(env, fs.code, 0, r);
      ComputedAt(Emitted(env, x, r), n, n, r, s);
      RightWhen(env, x, r);
      EvalIsManual(env, x, r);
    }
  }

  lemma RightWhen(env: Env, x: G.Expr, r: Regs)
    ensures Plain(x) ==> Emitted(env, x, r) == G.Eval(env, x, r)
    ensures TrueComparisons(env, x, r, Nothing) ==> (Emitted(env, x, r) == G.Eval(env, x, r) <==> !Spoilt(WayOf(env, x, r, Nothing)))
  {
    hide *;
    if Plain(x) { PlainIsRight(env, x, r); }
    if TrueComparisons(env, x, r, Nothing) { EmittedIsRightIff(env, x, r); }
  }
}
