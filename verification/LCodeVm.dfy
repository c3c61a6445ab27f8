/**
  The target of the expression compiler: the instructions of lopcodes.h that operands, comparisons and
  logical operators use, and what `luaV_execute` (lvm.c) does with them.
  */
module LCodeVm {

  datatype Value = Nil | Bool(b: bool) | Num(n: int)

  /** The macro `l_isfalse`: only nil and false are false. */
  predicate IsFalse(v: Value) { v.Nil? || v == Bool(false) }

  /** Registers not mentioned hold nil. */
  type Regs = map<nat, Value>

  function Get(r: Regs, i: nat): Value { if i in r then r[i] else Nil }

  datatype CmpOp = OpEq | OpLt | OpLe

  /** What the code does not fix: the results of comparisons, which may be any function of the two values,
      and the values of the upvalues. */
  datatype Env = Env(cmp: (CmpOp, Value, Value) -> bool, up: nat -> Value)

  /** An operand of a comparison: a register or a constant (lopcodes.h, `RK`). */
  datatype RK = Reg(r: nat) | Const(v: Value)

  function Operand(r: Regs, o: RK): Value {
    match o
    case Reg(i) => Get(r, i)
    case Const(v) => v
  }

  /** The `A` argument of a TESTSET that has no destination yet. */
  const NO_REG: nat := 255
  const NO_JUMP: int := -1

  datatype Instr =
    | Move(a: nat, b: nat)
    | LoadK(a: nat, k: Value)
    | LoadBool(a: nat, value: bool, skip: bool)
    | GetUpval(a: nat, u: nat)
    | Not(a: nat, b: nat)
    | Jmp(sbx: int)
    | Compare(op: CmpOp, cond: bool, lhs: RK, rhs: RK)
    | Test(a: nat, c: bool)
    | TestSet(a: nat, b: nat, c: bool)

  /** `testTMode`: the instruction is followed by a jump that it controls. */
  predicate IsTest(i: Instr) { i.Compare? || i.Test? || i.TestSet? }

  /** Does the test take its jump?  (lvm.c:541-581) */
  predicate Taken(env: Env, i: Instr, r: Regs)
    requires IsTest(i)
  {
    match i
    case Compare(op, cond, lhs, rhs) => env.cmp(op, Operand(r, lhs), Operand(r, rhs)) == cond
    case Test(a, c) => IsFalse(Get(r, a)) != c
    case TestSet(_, b, c) => IsFalse(Get(r, b)) != c
  }

  /** Registers when a test takes its jump. */
  function AfterTest(i: Instr, r: Regs): Regs
    requires IsTest(i)
  {
    if i.TestSet? && i.a != NO_REG then r[i.a := Get(r, i.b)] else r
  }

  /** The effect of an instruction that is neither a test nor a jump. */
  function Effect(env: Env, i: Instr, r: Regs): Regs {
    match i
    case Move(a, b) => r[a := Get(r, b)]
    case LoadK(a, k) => r[a := k]
    case LoadBool(a, value, _) => r[a := Bool(value)]
    case GetUpval(a, u) => r[a := env.up(u)]
    case Not(a, b) => r[a := Bool(IsFalse(Get(r, b)))]
    case _ => r
  }

  /** Running a fragment: it falls off its end, or reaches a jump that has no target yet, or goes wrong. */
  datatype Outcome = Fall(regs: Regs) | Exit(jump: nat, regs: Regs) | Stuck

  predicate Controlled(code: seq<Instr>, j: nat)
    requires j < |code|
  {
    j > 0 && IsTest(code[j - 1])
  }

  /** A jump whose offset is NO_JUMP has no target yet.  A controlled jump is reached only through its test. */
  function Run(env: Env, code: seq<Instr>, pc: nat, r: Regs): Outcome
    decreases |code| - pc, 1
  {
    if pc == |code| then Fall(r)
    else if pc > |code| then Stuck
    else if IsTest(code[pc]) then
      if pc + 1 >= |code| || !code[pc + 1].Jmp? then Stuck
      else if Taken(env, code[pc], r) then Leave(env, code, pc + 1, AfterTest(code[pc], r))
      else Run(env, code, pc + 2, r)
    else if code[pc].Jmp? then
      if Controlled(code, pc) then Stuck else Leave(env, code, pc, r)
    else if code[pc].LoadBool? && code[pc].skip then Run(env, code, pc + 2, Effect(env, code[pc], r))
    else Run(env, code, pc + 1, Effect(env, code[pc], r))
  }

  /** Taking the jump at `j`. */
  function Leave(env: Env, code: seq<Instr>, j: nat, r: Regs): Outcome
    requires j < |code| && code[j].Jmp?
    decreases |code| - j, 0
  {
    if code[j].sbx == NO_JUMP then Exit(j, r)
    else if code[j].sbx < 0 then Stuck
    else Run(env, code, j + 1 + code[j].sbx, r)
  }

  lemma FallIsInside(env: Env, code: seq<Instr>, pc: nat, r: Regs)
    requires Run(env, code, pc, r).Fall?
    ensures pc <= |code|
  {
  }

  // ---------- the interpreter loop ----------

  /** Every jump has a target and every TESTSET a destination. */
  predicate Complete(code: seq<Instr>) {
    forall i | 0 <= i < |code| ::
      (code[i].Jmp? ==> code[i].sbx != NO_JUMP) && (code[i].TestSet? ==> code[i].a != NO_REG)
  }

  /** `luaV_execute` on these instructions (lvm.c:385-581): a loop over `pc` and the registers.  On code whose
      run falls off the end it computes what `Run` says. */
  method Execute(env: Env, code: seq<Instr>, start: nat, regs: Regs) returns (r: Regs)
    requires Complete(code) && Run(env, code, start, regs).Fall?
    ensures r == Run(env, code, start, regs).regs
  {
    var pc := start;
    r := regs;
    FallIsInside(env, code, start, regs);
    while pc < |code|
      invariant 0 <= pc <= |code|
      invariant Run(env, code, pc, r) == Run(env, code, start, regs)
      decreases |code| - pc
    {
      var i := code[pc];
      pc := pc + 1;
      match i {
      case Jmp(sbx) => pc := pc + sbx;
      case Compare(op, cond, lhs, rhs) =>
        if env.cmp(op, Operand(r, lhs), Operand(r, rhs)) == cond { pc := pc + code[pc].sbx; }
        pc := pc + 1;
      case Test(a, c) =>
        if IsFalse(Get(r, a)) != c { pc := pc + code[pc].sbx; }
        pc := pc + 1;
      case TestSet(a, b, c) =>
        if IsFalse(Get(r, b)) != c {
          r := r[a := Get(r, b)];
          pc := pc + code[pc].sbx;
        }
        pc := pc + 1;
      case LoadBool(a, value, skip) =>
        r := r[a := Bool(value)];
        if skip { pc := pc + 1; }
      case Move(a, b) => r := r[a := Get(r, b)];
      case LoadK(a, k) => r := r[a := k];
      case GetUpval(a, u) => r := r[a := env.up(u)];
      case Not(a, b) => r := r[a := Bool(IsFalse(Get(r, b)))];
      }
      FallIsInside(env, code, pc, r);
    }
  }
}
