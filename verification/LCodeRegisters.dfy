/**
  How many registers an expression needs, said on the source: exactly when its code can be generated
  (`luaK_checkstack`, lcode.c:199-206).
  */
module LCodeRegisters {
  import opened LCodeVm
  import opened LCodeGen
  import opened LCodeWays
  import opened LCodeShape
  import opened LCodeMeaning
  import opened LCodeCorrect

  function Max(a: nat, b: nat): nat { if a < b then b else a }

  /** Is the value put in a new register before it is tested? */
  predicate TestTakes(f: Form, stay: bool) { f.UpvalForm? || f.FetchForm? || (f.NumForm? && !stay) }

  /** Is it put in a new register before it is negated? */
  predicate NotTakes(f: Form) { f.UpvalForm? || f.FetchForm? || f.NotForm? }

  /** The registers that an operand of a comparison takes. */
  function OperandSlots(x: Expr): nat {
    if !Leaves(x, true) && !Leaves(x, false) && (Literal(FormOf(x)) || FormOf(x).LocalForm?) then 0 else 1
  }

  /** The registers above the active ones that the code of an expression needs before its value goes to its
      destination. */
  function Slots(x: Expr): nat {
    match x
    case Paren(y) => Slots(y)
    case NotOf(y) => Max(Slots(y), if NotTakes(FormOf(y)) then 1 else 0)
    case And(y, z) => Max(Max(Slots(y), if TestTakes(FormOf(y), true) then 1 else 0), Slots(z))
    case Or(y, z) => Max(Max(Slots(y), if TestTakes(FormOf(y), false) then 1 else 0), Slots(z))
    case Rel(_, y, z) => Max(Max(Slots(y), OperandSlots(y)), OperandSlots(y) + Max(Slots(z), OperandSlots(z)))
    case _ => 0
  }

  /** There is room for `n` more registers. */
  predicate Room(fs: Func, base: nat, n: nat) { fs.fits && base + n < MAXSTACK }

  lemma KeptFits(fs: Func, e: Exp, reg: nat)
    ensures Discharge2Reg(fs, e, reg).fs.fits == DischargeVars(fs, e).fs.fits == fs.fits
    ensures Exp2Reg(fs, e, reg).fs.fits == fs.fits
  {
    hide Patch, NeedValue;
  }

  lemma AnyRegFits(fs: Func, e: Exp, base: nat)
    requires RegsOk(fs, e, base) && !e.k.KLocal?
    ensures Discharge2AnyReg(fs, e).fs.fits <==> if e.k.KReg? then fs.fits else Room(fs, base, 1)
  {
    hide Discharge2Reg;
    KeptFits(ReserveReg(fs), e, fs.freereg);
  }

  lemma JumpOnCondFits(fs: Func, e: Exp, cond: bool, base: nat)
    requires RegsOk(fs, e, base) && !e.k.KLocal?
    ensures JumpOnCond(fs, e, cond).fs.fits <==>
            if e.k.KReg? || (e.k.KReloc? && |fs.code| > 0 && fs.code[|fs.code| - 1].Not?) then fs.fits else Room(fs, base, 1)
  {
    AnyRegFits(fs, e, base);
    hide Discharge2AnyReg, Patch;
  }

  lemma GoIfFits(f: Form, fs: Func, e: Exp, stay: bool, base: nat)
    requires Good(fs, e) && RegsOk(fs, e, base) && InForm(f, fs, e)
    ensures GoIf(fs, e, stay).fs.fits <==> Room(fs, base, if TestTakes(f, stay) then 1 else 0)
  {
    var g := DischargeVars(fs, e);
    DischargeVarsShape(fs, e);
    DischargedForm(f, fs, e);
    KeptFits(fs, e, 0);
    JumpOnCondFits(g.fs, g.e, if g.e.k.KNum? then true else !stay, base);
    hide Good, JumpOnCond, DischargeVars;
  }

  lemma CodeNotFits(f: Form, fs: Func, e: Exp, base: nat)
    requires Good(fs, e) && RegsOk(fs, e, base) && InForm(f, fs, e)
    ensures CodeNot(fs, e).fs.fits <==> Room(fs, base, if NotTakes(f) then 1 else 0)
  {
    var g := DischargeVars(fs, e);
    DischargeVarsShape(fs, e);
    DischargedForm(f, fs, e);
    KeptFits(fs, e, 0);
    AnyRegFits(g.fs, g.e, base);
    hide Good, Discharge2AnyReg, DischargeVars, Patch, RemoveValues;
  }

  // ---------- operands ----------

  lemma NextRegFits(fs: Func, e: Exp, base: nat)
    requires Good(fs, e) && RegsOk(fs, e, base) && !e.k.KLocal? && !e.k.KUpval?
    ensures Exp2NextReg(fs, e).fs.fits <==> Room(fs, base, 1)
  {
    hide Good, Exp2Reg, Step;
    FreeExpShape(fs, e, base);
    var fs1 := FreeExp(fs, e);
    KeptFits(ReserveReg(fs1), e, fs1.freereg);
  }

  lemma Exp2AnyRegFits(fs: Func, e: Exp, base: nat)
    requires Good(fs, e) && RegsOk(fs, e, base) && LocalReg(fs, e)
    ensures Exp2AnyReg(fs, e).fs.fits <==> if (e.k.KReg? || e.k.KLocal?) && !HasJumps(e) then fs.fits else Room(fs, base, 1)
  {
    var g := DischargeVars(fs, e);
    DischargeVarsShape(fs, e);
    KeptFits(fs, e, 0);
    StepVars(fs, e, g.fs, g.e);
    NextRegFits(g.fs, g.e, base);
    ReDischarge(g.fs, g.e);
    hide Good, Exp2Reg, Step;
  }

  /** An operand that is used where it is. */
  predicate InPlace(e: Exp) {
    !HasJumps(e) && (e.k.KReg? || e.k.KLocal? || e.k.KTrue? || e.k.KFalse? || e.k.KNum?)
  }

  lemma RKFits(fs: Func, e: Exp, base: nat)
    requires Good(fs, e) && RegsOk(fs, e, base) && LocalReg(fs, e)
    ensures Exp2RK(fs, e).fs.fits <==> if InPlace(e) then fs.fits else Room(fs, base, 1)
  {
    hide Good, Step, Exp2AnyReg, RegsOk;
    var g := Exp2Val(fs, e);
    Exp2ValShape(fs, e, base);
    Exp2AnyRegFits(g.fs, g.e, base);
    if HasJumps(e) {
      Exp2AnyRegFits(fs, e, base);
      Exp2AnyRegShape(fs, e, base);
    } else {
      KeptFits(fs, e, 0);
    }
  }

  lemma InPlaceSlots(x: Expr, fs: Func, e: Exp)
    requires Formed(x, fs, e)
    ensures OperandSlots(x) == if InPlace(e) then 0 else 1
  {
    UnionEmpty(e.t, e.f);
  }

  lemma OperandFits(x: Expr, fs: Func, e: Exp, base: nat)
    requires Good(fs, e) && RegsOk(fs, e, base) && Formed(x, fs, e)
    ensures Exp2RK(fs, e).fs.fits <==> Room(fs, base, OperandSlots(x))
  {
    hide Good, Exp2RK, InPlace, Formed;
    FormedLocal(x, fs, e);
    RKFits(fs, e, base);
    InPlaceSlots(x, fs, e);
  }

  lemma FormedLocal(x: Expr, fs: Func, e: Exp)
    requires Formed(x, fs, e)
    ensures LocalReg(fs, e) && (e.k.KReg? ==> e.k.r < fs.nactvar)
  {
  }

  /** Where the registers stand after an operand. */
  lemma OperandTop(x: Expr, fs: Func, e: Exp, base: nat)
    requires Good(fs, e) && RegsOk(fs, e, base) && Formed(x, fs, e)
    ensures Exp2RK(fs, e).fs.freereg == base + OperandSlots(x)
  {
    hide Good, Step;
    InPlaceSlots(x, fs, e);
    FormedLocal(x, fs, e);
    OperandShape(fs, e, base);
    RKPlace(fs, e, base);
    hide Exp2RK, Formed;
  }

  lemma RKPlace(fs: Func, e: Exp, base: nat)
    requires Good(fs, e) && RegsOk(fs, e, base) && LocalReg(fs, e) && (e.k.KReg? ==> e.k.r < fs.nactvar)
    ensures var a := Exp2RK(fs, e);
      if InPlace(e) then a.o.Const? || a.o.r < fs.nactvar else a.o == Reg(base) && fs.nactvar <= base
  {
    hide Good, Step, Exp2AnyReg, Exp2Val;
    var g := Exp2Val(fs, e);
    Exp2ValShape(fs, e, base);
    StepVars(fs, e, g.fs, g.e);
    ValPlace(fs, e, base);
    AnyRegPlace(g.fs, g.e, base);
  }

  lemma AnyRegPlace(fs: Func, e: Exp, base: nat)
    requires Good(fs, e) && RegsOk(fs, e, base) && LocalReg(fs, e)
    ensures Exp2AnyReg(fs, e).e == if (e.k.KReg? || e.k.KLocal?) && !HasJumps(e) then e.(k := KReg(e.k.r)) else Exp(KReg(base), {}, {})
  {
    hide Good, Step;
    var g := DischargeVars(fs, e);
    DischargeVarsShape(fs, e);
    StepVars(fs, e, g.fs, g.e);
    FreeExpShape(g.fs, g.e, base);
    ReDischarge(g.fs, g.e);
    forall fs': Func, reg: nat ensures Exp2Reg(fs', g.e, reg).e == Exp(KReg(reg), {}, {}) { }
    hide Exp2Reg;
  }

  lemma ValPlace(fs: Func, e: Exp, base: nat)
    requires Good(fs, e) && RegsOk(fs, e, base) && LocalReg(fs, e)
    ensures var g := Exp2Val(fs, e);
      g.e == if HasJumps(e) then Exp(KReg(base), {}, {}) else DischargeVars(fs, e).e
  {
    hide Good, Exp2AnyReg;
    if HasJumps(e) { AnyRegPlace(fs, e, base); }
  }

  // ---------- expressions ----------

  lemma CodeCompFits(z: Expr, fs: Func, op: CmpOp, cond: bool, e1: Exp, o1: RK, e2: Exp, base: nat)
    requires Good(fs, e2) && IsOperand(fs, e1, o1, base) && RegsOk(fs, e2, Above(fs, o1, base)) && Formed(z, fs, e2)
    ensures CodeComp(fs, op, cond, e1, e2).fs.fits <==> Room(fs, Above(fs, o1, base), OperandSlots(z))
  {
    OperandAgain(fs, e1, o1, base);
    OperandFits(z, fs, e2, Above(fs, o1, base));
    hide Good, Exp2RK, Formed, OperandSlots, Patch;
  }

  lemma CodeRelFits(z: Expr, fs: Func, op: RelOp, e1: Exp, o1: RK, e2: Exp, base: nat)
    requires Good(fs, e2) && IsOperand(fs, e1, o1, base) && RegsOk(fs, e2, Above(fs, o1, base)) && Formed(z, fs, e2)
    ensures CodeRel(fs, op, e1, e2).fs.fits <==> Room(fs, Above(fs, o1, base), OperandSlots(z))
  {
    hide Good, Formed, CodeComp, OperandSlots;
    match op
    case EQ => CodeCompFits(z, fs, OpEq, true, e1, o1, e2, base);
    case NE => CodeCompFits(z, fs, OpEq, false, e1, o1, e2, base);
    case LT => CodeCompFits(z, fs, OpLt, true, e1, o1, e2, base);
    case LE => CodeCompFits(z, fs, OpLe, true, e1, o1, e2, base);
    case GT => CodeCompFits(z, fs, OpLt, false, e1, o1, e2, base);
    case GE => CodeCompFits(z, fs, OpLe, false, e1, o1, e2, base);
  }

  /** Registers run out in the code of an expression if and only if it needs more of them than there are. */
  lemma {:induction false} CompileFits(fs: Func, x: Expr, base: nat)
    requires Good(fs, NONE) && RegsOk(fs, NONE, base) && LocalsBelow(x, fs.nactvar)
    ensures Compile(fs, x).fs.fits <==> Room(fs, base, Slots(x))
    decreases x, 1
  {
    hide Good, Step, CodeNot, DischargeVars, GoIf, Exp2RK, CodeRel, Formed, FormOf;
    match x {
      case Paren(y) =>
        CompileFits(fs, y, base);
        var g := Compile(fs, y);
        KeptFits(g.fs, g.e, 0);
      case NotOf(y) =>
        CompileFits(fs, y, base);
        CompileShape(fs, y, base);
        CompileFormed(fs, y, base);
        var g := Compile(fs, y);
        FormedIn(y, g.fs, g.e);
        CodeNotFits(FormOf(y), g.fs, g.e, base);
      case And(_, _) => LogicFits(fs, x, base);
      case Or(_, _) => LogicFits(fs, x, base);
      case Rel(_, _, _) => RelFits(fs, x, base);
      case _ =>
    }
  }

  lemma FormedIn(x: Expr, fs: Func, e: Exp)
    requires Formed(x, fs, e)
    ensures InForm(FormOf(x), fs, e)
  {
  }

  lemma {:induction false} LogicFits(fs: Func, x: Expr, base: nat)
    requires Good(fs, NONE) && RegsOk(fs, NONE, base) && LocalsBelow(x, fs.nactvar) && (x.And? || x.Or?)
    ensures Compile(fs, x).fs.fits <==> Room(fs, base, Slots(x))
    decreases x, 0
  {
    hide Good, Step, DischargeVars, GoIf, Formed, FormOf;
    var g := Compile(fs, x.left);
    CompileFits(fs, x.left, base);
    CompileShape(fs, x.left, base);
    CompileFormed(fs, x.left, base);
    FormedIn(x.left, g.fs, g.e);
    StepVars(fs, NONE, g.fs, g.e);
    GoIfShape(g.fs, g.e, x.And?, base);
    GoIfVars(g.fs, g.e, x.And?, base);
    GoIfFits(FormOf(x.left), g.fs, g.e, x.And?, base);
    var j := GoIf(g.fs, g.e, x.And?);
    CompileFits(j.fs, x.right, base);
    var h := Compile(j.fs, x.right);
    KeptFits(h.fs, h.e, 0);
  }

  lemma {:induction false} RelFits(fs: Func, x: Expr, base: nat)
    requires Good(fs, NONE) && RegsOk(fs, NONE, base) && LocalsBelow(x, fs.nactvar) && x.Rel?
    ensures Compile(fs, x).fs.fits <==> Room(fs, base, Slots(x))
    decreases x, 0
  {
    hide Good, Step, Exp2RK, CodeRel, Formed, FormOf, OperandSlots;
    var g := Compile(fs, x.left);
    CompileFits(fs, x.left, base);
    CompileShape(fs, x.left, base);
    CompileFormed(fs, x.left, base);
    StepVars(fs, NONE, g.fs, g.e);
    OperandFits(x.left, g.fs, g.e, base);
    OperandTop(x.left, g.fs, g.e, base);
    OperandShape(g.fs, g.e, base);
    var a := Exp2RK(g.fs, g.e);
    CompileFits(a.fs, x.right, a.fs.freereg);
    CompileShape(a.fs, x.right, a.fs.freereg);
    CompileFormed(a.fs, x.right, a.fs.freereg);
    var h := Compile(a.fs, x.right);
    StepVars(a.fs, NONE, h.fs, h.e);
    CodeRelFits(x.right, h.fs, x.op, a.e, a.o, h.e, base);
  }

  /** Registers suffice for an expression that is compiled into a register if and only if the source says so. */
  lemma EnoughRegisters(fs: Func, x: Expr, reg: nat)
    requires Good(fs, NONE) && fs.nactvar <= fs.freereg < MAXSTACK && LocalsBelow(x, fs.nactvar)
    ensures CompileInto(fs, x, reg).fits <==> fs.fits && fs.freereg + Slots(x) < MAXSTACK
    ensures Compile(fs, x).fs.fits <==> fs.fits && fs.freereg + Slots(x) < MAXSTACK
  {
    hide Good, Compile, Exp2Reg, Slots;
    CompileFits(fs, x, fs.freereg);
    var g := Compile(fs, x);
    KeptFits(g.fs, g.e, reg);
  }
}
