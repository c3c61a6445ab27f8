/**
  The code generator for operands, comparisons and logical operators (lcode.c), as functions on values.
  A list of pending jumps is a set of positions here and a pending jump has offset NO_JUMP;
  module `LCodeFuncState` threads the lists through the offsets, as the C code does, and refines these functions.
  */
module LCodeGen {
  import opened LCodeVm

  datatype RelOp = EQ | NE | LT | LE | GT | GE

  datatype Expr =
    | Local(r: nat)
    | Upval(i: nat)
    | True
    | False
    | Number(n: int)
    | Paren(x: Expr)
    | NotOf(x: Expr)
    | And(left: Expr, right: Expr)
    | Or(left: Expr, right: Expr)
    | Rel(op: RelOp, left: Expr, right: Expr)

  predicate Truth(env: Env, op: RelOp, v: Value, w: Value) {
    match op
    case EQ => env.cmp(OpEq, v, w)
    case NE => !env.cmp(OpEq, v, w)
    case LT => env.cmp(OpLt, v, w)
    case LE => env.cmp(OpLe, v, w)
    case GT => env.cmp(OpLt, w, v)
    case GE => env.cmp(OpLe, w, v)
  }

  /** The value of an expression, as the manual defines the operators (section 2.5 of the Lua 5.1 Reference Manual). */
  function Eval(env: Env, x: Expr, r: Regs): Value {
    match x
    case Local(i) => Get(r, i)
    case Upval(i) => env.up(i)
    case True => Bool(true)
    case False => Bool(false)
    case Number(n) => Num(n)
    case Paren(y) => Eval(env, y, r)
    case NotOf(y) => Bool(IsFalse(Eval(env, y, r)))
    case And(y, z) => if IsFalse(Eval(env, y, r)) then Eval(env, y, r) else Eval(env, z, r)
    case Or(y, z) => if IsFalse(Eval(env, y, r)) then Eval(env, z, r) else Eval(env, y, r)
    case Rel(op, y, z) => Bool(Truth(env, op, Eval(env, y, r), Eval(env, z, r)))
  }

  /** `expkind`.  The instruction of a KReloc or KJmp expression is always the last one generated. */
  datatype Kind = KTrue | KFalse | KNum(n: int) | KLocal(r: nat) | KUpval(i: nat) | KReg(r: nat) | KReloc | KJmp

  /** `expdesc`: the kind and the lists of the jumps that leave the expression when it is true or false. */
  datatype Exp = Exp(k: Kind, t: set<nat>, f: set<nat>)

  const NONE := Exp(KTrue, {}, {})

  /** `MAXSTACK` (llimits.h). */
  const MAXSTACK: nat := 250

  /** `FuncState`.  `fits` is lost when registers run out. */
  datatype Func = Func(code: seq<Instr>, jpc: set<nat>, freereg: nat, nactvar: nat, fits: bool)

  datatype Gen = Gen(fs: Func, e: Exp)
  datatype Jumped = Jumped(fs: Func, list: set<nat>)
  datatype Operanded = Operanded(fs: Func, e: Exp, o: RK)

  // ---------- patching ----------

  /** The jump at `j` is controlled by a TESTSET: it leaves with a value. */
  predicate HasValue(code: seq<Instr>, j: nat) { 0 < j <= |code| && code[j - 1].TestSet? }

  /** `patchtestreg` on a TESTSET. */
  function Settle(i: Instr, reg: nat): Instr
    requires i.TestSet?
  {
    if reg != NO_REG && reg != i.b then TestSet(reg, i.b, i.c) else Test(i.b, i.c)
  }

  /** `patchlistaux`: jumps with a value go to `vtarget` and store it in `reg`, the others go to `dtarget`. */
  function Patch(code: seq<Instr>, list: set<nat>, vtarget: int, reg: nat, dtarget: int): (r: seq<Instr>)
    ensures |r| == |code|
  {
    seq(|code|, i requires 0 <= i < |code| =>
      if i in list then Jmp((if HasValue(code, i) then vtarget else dtarget) - (i + 1))
      else if i + 1 in list && code[i].TestSet? then Settle(code[i], reg)
      else code[i])
  }

  /** `removevalues`: the jumps of the list lose their values but stay pending. */
  function RemoveValues(code: seq<Instr>, list: set<nat>): (r: seq<Instr>)
    ensures |r| == |code|
  {
    seq(|code|, i requires 0 <= i < |code| =>
      if i + 1 in list && code[i].TestSet? then Settle(code[i], NO_REG) else code[i])
  }

  /** `need_value`: some jump of the list leaves without a value. */
  ghost predicate NeedValue(code: seq<Instr>, list: set<nat>) {
    exists j :: j in list && !HasValue(code, j)
  }

  // ---------- emitting ----------

  /** `luaK_code`: the jumps waiting for the next instruction get it as their target. */
  function Code(fs: Func, i: Instr): Func {
    fs.(code := Patch(fs.code, fs.jpc, |fs.code|, NO_REG, |fs.code|) + [i], jpc := {})
  }

  /** `luaK_jump`: the jumps waiting for the next instruction join the list of the new jump. */
  function Jump(fs: Func): Jumped {
    Jumped(fs.(code := fs.code + [Jmp(NO_JUMP)], jpc := {}), {|fs.code|} + fs.jpc)
  }

  /** `condjump` */
  function CondJump(fs: Func, i: Instr): Jumped { Jump(Code(fs, i)) }

  function ReserveReg(fs: Func): Func {
    fs.(freereg := fs.freereg + 1, fits := fs.fits && fs.freereg + 1 < MAXSTACK)
  }

  /** `freereg` and `freeexp` */
  function FreeReg(fs: Func, r: nat): Func {
    if r >= fs.nactvar && fs.freereg > 0 then fs.(freereg := fs.freereg - 1) else fs
  }

  function FreeExp(fs: Func, e: Exp): Func { if e.k.KReg? then FreeReg(fs, e.k.r) else fs }

  // ---------- discharging ----------

  /** `luaK_dischargevars` */
  function DischargeVars(fs: Func, e: Exp): Gen {
    match e.k
    case KLocal(r) => Gen(fs, e.(k := KReg(r)))
    case KUpval(i) => Gen(Code(fs, GetUpval(0, i)), e.(k := KReloc))
    case _ => Gen(fs, e)
  }

  predicate Relocatable(i: Instr) { i.GetUpval? || i.Not? }

  /** `SETARG_A` on a relocatable instruction. */
  function SetA(i: Instr, reg: nat): Instr {
    if i.GetUpval? then GetUpval(reg, i.u) else if i.Not? then Not(reg, i.b) else i
  }

  function LastSetA(code: seq<Instr>, reg: nat): seq<Instr> {
    if code == [] then code else code[|code| - 1 := SetA(code[|code| - 1], reg)]
  }

  /** `discharge2reg` */
  function Discharge2Reg(fs: Func, e: Exp, reg: nat): Gen {
    var g := DischargeVars(fs, e);
    match g.e.k
    case KTrue => Gen(Code(g.fs, LoadBool(reg, true, false)), g.e.(k := KReg(reg)))
    case KFalse => Gen(Code(g.fs, LoadBool(reg, false, false)), g.e.(k := KReg(reg)))
    case KNum(n) => Gen(Code(g.fs, LoadK(reg, Num(n))), g.e.(k := KReg(reg)))
    case KReloc => Gen(g.fs.(code := LastSetA(g.fs.code, reg)), g.e.(k := KReg(reg)))
    case KReg(r) => Gen(if reg != r then Code(g.fs, Move(reg, r)) else g.fs, g.e.(k := KReg(reg)))
    case _ => g
  }

  /** `discharge2anyreg` */
  function Discharge2AnyReg(fs: Func, e: Exp): Gen {
    if e.k.KReg? then Gen(fs, e) else Discharge2Reg(ReserveReg(fs), e, fs.freereg)
  }

  /** The second half of `exp2reg`: the jumps of both lists get a target at the end of the expression, through
      an instruction that loads a boolean when they carry no value. */
  ghost function CloseLists(fs: Func, isJmp: bool, t: set<nat>, f: set<nat>, reg: nat): Func {
    if NeedValue(fs.code, t) || NeedValue(fs.code, f) then
      var j := if isJmp then Jumped(fs, {}) else Jump(fs);
      var g := Code(Code(j.fs, LoadBool(reg, false, true)), LoadBool(reg, true, false));
      var n := |g.code|;
      g.(code := Patch(Patch(g.code, f, n, reg, n - 2), t, n, reg, n - 1), jpc := j.list)
    else
      var n := |fs.code|;
      fs.(code := Patch(Patch(fs.code, f, n, reg, NO_JUMP), t, n, reg, NO_JUMP))
  }

  /** `exp2reg` */
  ghost function Exp2Reg(fs: Func, e: Exp, reg: nat): Gen {
    var g := Discharge2Reg(fs, e, reg);
    var t := if g.e.k.KJmp? && |g.fs.code| > 0 then g.e.t + {|g.fs.code| - 1} else g.e.t;
    Gen(if t + g.e.f == {} then g.fs else CloseLists(g.fs, g.e.k.KJmp?, t, g.e.f, reg), Exp(KReg(reg), {}, {}))
  }

  /** `luaK_exp2nextreg` */
  ghost function Exp2NextReg(fs: Func, e: Exp): Gen {
    var g := DischargeVars(fs, e);
    var fs1 := FreeExp(g.fs, g.e);
    Exp2Reg(ReserveReg(fs1), g.e, fs1.freereg)
  }

  predicate HasJumps(e: Exp) { e.t + e.f != {} }

  /** `luaK_exp2anyreg` */
  ghost function Exp2AnyReg(fs: Func, e: Exp): Gen {
    var g := DischargeVars(fs, e);
    if g.e.k.KReg? && !HasJumps(g.e) then g
    else if g.e.k.KReg? && g.e.k.r >= g.fs.nactvar then Exp2Reg(g.fs, g.e, g.e.k.r)
    else Exp2NextReg(g.fs, g.e)
  }

  /** `luaK_exp2val` */
  ghost function Exp2Val(fs: Func, e: Exp): Gen {
    if HasJumps(e) then Exp2AnyReg(fs, e) else DischargeVars(fs, e)
  }

  function RegOf(e: Exp): nat { if e.k.KReg? then e.k.r else 0 }

  /** `luaK_exp2RK` */
  ghost function Exp2RK(fs: Func, e: Exp): Operanded {
    var g := Exp2Val(fs, e);
    match g.e.k
    case KNum(n) => Operanded(g.fs, g.e, Const(Num(n)))
    case KTrue => Operanded(g.fs, g.e, Const(Bool(true)))
    case KFalse => Operanded(g.fs, g.e, Const(Bool(false)))
    case _ => var h := Exp2AnyReg(g.fs, g.e); Operanded(h.fs, h.e, Reg(RegOf(h.e)))
  }

  // ---------- conditions ----------

  /** `invertjump` */
  function InvertJump(fs: Func): Func {
    var n := |fs.code|;
    if n >= 2 && fs.code[n - 2].Compare?
    then fs.(code := fs.code[n - 2 := fs.code[n - 2].(cond := !fs.code[n - 2].cond)])
    else fs
  }

  /** `jumponcond`; a final `not` is removed and the test inverted. */
  function JumpOnCond(fs: Func, e: Exp, cond: bool): Jumped {
    var n := |fs.code|;
    if e.k.KReloc? && n > 0 && fs.code[n - 1].Not?
    then CondJump(fs.(code := fs.code[..n - 1]), Test(fs.code[n - 1].b, !cond))
    else
      var g := Discharge2AnyReg(fs, e);
      CondJump(FreeExp(g.fs, g.e), TestSet(NO_REG, RegOf(g.e), cond))
  }

  /** The first half of `luaK_goiftrue` (`stay` true) and `luaK_goiffalse` (`stay` false): the new jump leaves
      when the truth of the expression is not `stay`. */
  function ConditionalJump(fs: Func, e: Exp, stay: bool): Jumped {
    match e.k
    case KTrue => if stay then Jumped(fs, {}) else Jump(fs)
    case KFalse => if stay then Jump(fs) else Jumped(fs, {})
    case KNum(_) => if stay then Jumped(fs, {}) else JumpOnCond(fs, e, true)
    case KJmp => Jumped(if stay then InvertJump(fs) else fs, if |fs.code| > 0 then {|fs.code| - 1} else {})
    case _ => JumpOnCond(fs, e, !stay)
  }

  /** `luaK_goiftrue` and `luaK_goiffalse`; the result is the list of the jumps that leave. */
  function GoIf(fs: Func, e: Exp, stay: bool): Jumped {
    var g := DischargeVars(fs, e);
    var j := ConditionalJump(g.fs, g.e, stay);
    Jumped(j.fs.(jpc := j.fs.jpc + (if stay then g.e.t else g.e.f)), (if stay then g.e.f else g.e.t) + j.list)
  }

  /** `codenot` */
  function CodeNot(fs: Func, e: Exp): Gen {
    var g := DischargeVars(fs, e);
    var h := match g.e.k
      case KFalse => Gen(g.fs, g.e.(k := KTrue))
      case KTrue => Gen(g.fs, g.e.(k := KFalse))
      case KNum(_) => Gen(g.fs, g.e.(k := KFalse))
      case KJmp => Gen(InvertJump(g.fs), g.e)
      case _ =>
        var d := Discharge2AnyReg(g.fs, g.e);
        Gen(Code(FreeExp(d.fs, d.e), Not(0, RegOf(d.e))), d.e.(k := KReloc));
    Gen(h.fs.(code := RemoveValues(RemoveValues(h.fs.code, h.e.t), h.e.f)), Exp(h.e.k, h.e.f, h.e.t))
  }

  /** `codecomp`; `>` and `>=` exchange their operands. */
  ghost function CodeComp(fs: Func, op: CmpOp, cond: bool, e1: Exp, e2: Exp): Gen {
    var a := Exp2RK(fs, e1);
    var b := Exp2RK(a.fs, e2);
    var fs1 := FreeExp(FreeExp(b.fs, b.e), a.e);
    var i := if !cond && op != OpEq then Compare(op, true, b.o, a.o) else Compare(op, cond, a.o, b.o);
    Gen(CondJump(fs1, i).fs, a.e.(k := KJmp))
  }

  /** The comparison cases of `luaK_posfix`. */
  ghost function CodeRel(fs: Func, op: RelOp, e1: Exp, e2: Exp): Gen {
    match op
    case EQ => CodeComp(fs, OpEq, true, e1, e2)
    case NE => CodeComp(fs, OpEq, false, e1, e2)
    case LT => CodeComp(fs, OpLt, true, e1, e2)
    case LE => CodeComp(fs, OpLe, true, e1, e2)
    case GT => CodeComp(fs, OpLt, false, e1, e2)
    case GE => CodeComp(fs, OpLe, false, e1, e2)
  }

  /** The calls that `subexpr` makes for an expression (lparser.c:827-853). */
  ghost function Compile(fs: Func, x: Expr): Gen
    decreases x
  {
    match x
    case Local(r) => Gen(fs, Exp(KLocal(r), {}, {}))
    case Upval(i) => Gen(fs, Exp(KUpval(i), {}, {}))
    case True => Gen(fs, Exp(KTrue, {}, {}))
    case False => Gen(fs, Exp(KFalse, {}, {}))
    case Number(n) => Gen(fs, Exp(KNum(n), {}, {}))
    case Paren(y) => var g := Compile(fs, y); DischargeVars(g.fs, g.e)
    case NotOf(y) => var g := Compile(fs, y); CodeNot(g.fs, g.e)
    case And(y, z) =>
      var g := Compile(fs, y);
      var j := GoIf(g.fs, g.e, true);
      var h := Compile(j.fs, z);
      var d := DischargeVars(h.fs, h.e);
      Gen(d.fs, d.e.(f := d.e.f + j.list))
    case Or(y, z) =>
      var g := Compile(fs, y);
      var j := GoIf(g.fs, g.e, false);
      var h := Compile(j.fs, z);
      var d := DischargeVars(h.fs, h.e);
      Gen(d.fs, d.e.(t := d.e.t + j.list))
    case Rel(op, y, z) =>
      var g := Compile(fs, y);
      var a := Exp2RK(g.fs, g.e);
      var h := Compile(a.fs, z);
      CodeRel(h.fs, op, a.e, h.e)
  }
}
