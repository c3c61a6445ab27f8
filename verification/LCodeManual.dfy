/**
  The values of expressions as sections 2.5.2 and 2.5.3 of the Lua 5.1 Reference Manual give them, with every
  kind of value written out, and that this is what the compiler is proved against.
  */
module LCodeManual {
  import opened LCodeVm
  import opened LCodeGen

  /** Of all values only nil and false count as false; numbers count as true, 0 too.  `and` gives its first argument if
      that is nil or false, `or` if it is neither; `not` gives true or false.  `a ~= b` is the negation of `a == b`,
      `a > b` is `b < a` and `a >= b` is `b <= a`. */
  function Manual(env: Env, x: Expr, r: Regs): Value {
    match x
    case Local(i) => if i in r then r[i] else Nil
    case Upval(i) => env.up(i)
    case True => Bool(true)
    case False => Bool(false)
    case Number(n) => Num(n)
    case Paren(y) => Manual(env, y, r)
    case NotOf(y) =>
      (match Manual(env, y, r)
       case Nil => Bool(true)
       case Bool(b) => Bool(!b)
       case Num(_) => Bool(false))
    case And(y, z) =>
      (match Manual(env, y, r)
       case Nil => Nil
       case Bool(b) => if b then Manual(env, z, r) else Bool(false)
       case Num(_) => Manual(env, z, r))
    case Or(y, z) =>
      (match Manual(env, y, r)
       case Nil => Manual(env, z, r)
       case Bool(b) => if b then Bool(true) else Manual(env, z, r)
       case Num(n) => Num(n))
    case Rel(op, y, z) =>
      var v, w := Manual(env, y, r), Manual(env, z, r);
      match op
      case EQ => Bool(env.cmp(OpEq, v, w))
      case NE => Bool(!env.cmp(OpEq, v, w))
      case LT => Bool(env.cmp(OpLt, v, w))
      case LE => Bool(env.cmp(OpLe, v, w))
      case GT => Bool(env.cmp(OpLt, w, v))
      case GE => Bool(env.cmp(OpLe, w, v))
  }

  lemma {:induction false} EvalIsManual(env: Env, x: Expr, r: Regs)
    ensures Eval(env, x, r) == Manual(env, x, r)
  {
    match x {
      case Paren(y) => EvalIsManual(env, y, r);
      case NotOf(y) => EvalIsManual(env, y, r);
      case And(y, z) => EvalIsManual(env, y, r); EvalIsManual(env, z, r);
      case Or(y, z) => EvalIsManual(env, y, r); EvalIsManual(env, z, r);
      case Rel(_, y, z) => EvalIsManual(env, y, r); EvalIsManual(env, z, r);
      case _ =>
    }
  }

  /** What that says of the logical operators. */
  lemma LogicalOperators(env: Env, y: Expr, z: Expr, r: Regs)
    ensures var v := Eval(env, y, r);
      v == Nil || v == Bool(false) ==>
        Eval(env, Or(y, z), r) == Eval(env, z, r) && Eval(env, And(y, z), r) == v && Eval(env, NotOf(y), r) == Bool(true)
    ensures var v := Eval(env, y, r);
      v == Bool(true) || v.Num? ==>
        Eval(env, Or(y, z), r) == v && Eval(env, And(y, z), r) == Eval(env, z, r) && Eval(env, NotOf(y), r) == Bool(false)
  {
    EvalIsManual(env, Or(y, z), r);
    EvalIsManual(env, And(y, z), r);
    EvalIsManual(env, NotOf(y), r);
    EvalIsManual(env, y, r);
    EvalIsManual(env, z, r);
  }

  /** What the machine does with the four kinds of values: `not`, and the two tests, whose jump is taken if the truth of
      the value is `c`. */
  lemma InstructionsMean(env: Env, r: Regs, a: nat, b: nat, c: bool)
    ensures Get(r, b) == Nil || Get(r, b) == Bool(false) ==>
      && Get(Effect(env, Not(a, b), r), a) == Bool(true)
      && (Taken(env, Test(b, c), r) <==> !c) && (Taken(env, TestSet(a, b, c), r) <==> !c)
    ensures Get(r, b) == Bool(true) || Get(r, b).Num? ==>
      && Get(Effect(env, Not(a, b), r), a) == Bool(false)
      && (Taken(env, Test(b, c), r) <==> c) && (Taken(env, TestSet(a, b, c), r) <==> c)
    ensures Get(r, b) == if b in r then r[b] else Nil
  {
  }
}
