/**
  What the emitted code computes, said on the source: how a run through the code of an expression ends, and with
  which value.  A jump that leaves an expression may hold the value that its test has found.  An unconditional jump
  takes over the jumps that wait for the next instruction together with the values they hold (lcode.c:59-66), so
  that the value that is stored in the end may be another one than that of the expression.
  */
module LCodeWays {
  import opened LCodeVm
  import opened LCodeGen

  /** What is in hand after an expression: a literal, a variable in a register, an upvalue that has yet to be
      fetched, a value fetched into any register, the result of `not`, or that of a comparison. */
  datatype Form = TrueForm | FalseForm | NumForm | LocalForm | UpvalForm | FetchForm | NotForm | CompareForm

  function Fetched(f: Form): Form { if f.UpvalForm? then FetchForm else f }

  predicate Literal(f: Form) { f.TrueForm? || f.FalseForm? || f.NumForm? }

  function FormOf(x: Expr): Form {
    match x
    case Local(_) => LocalForm
    case Upval(_) => UpvalForm
    case True => TrueForm
    case False => FalseForm
    case Number(_) => NumForm
    case Paren(y) => Fetched(FormOf(y))
    case NotOf(y) =>
      (match FormOf(y)
       case FalseForm => TrueForm
       case TrueForm => FalseForm
       case NumForm => FalseForm
       case CompareForm => CompareForm
       case _ => NotForm)
    case And(_, z) => Fetched(FormOf(z))
    case Or(_, z) => Fetched(FormOf(z))
    case Rel(_, _, _) => CompareForm
  }

  /** Are there jumps that leave the expression when it is true (`b`), or when it is false? */
  predicate Leaves(x: Expr, b: bool) {
    match x
    case Paren(y) => Leaves(y, b)
    case NotOf(y) => Leaves(y, !b)
    case And(y, z) => Leaves(z, b) || (!b && (Leaves(y, false) || (!FormOf(y).TrueForm? && !FormOf(y).NumForm?)))
    case Or(y, z) => Leaves(z, b) || (b && (Leaves(y, true) || !FormOf(y).FalseForm?))
    case _ => false
  }

  /** What a jump holds: nothing, the value of the operand that it leaves, or that of an operand of another
      condition from which it was taken over. */
  datatype Held = Nothing | Own(v: Value) | Foreign(v: Value)

  function TakenOver(h: Held): Held { if h.Own? then Foreign(h.v) else h }

  /** How a run ends: with the value `v` in hand, where it may have arrived by a jump that holds something, or by a
      jump that leaves because the expression is true or false. */
  datatype Way = Arrives(h: Held, v: Value) | LeavesT(h: Held) | LeavesF(h: Held)

  /** After an instruction has been emitted a jump to it holds nothing any more. */
  function Settled(w: Way): Way { if w.Arrives? then w.(h := Nothing) else w }

  function Discharged(f: Form, w: Way): Way { if f.UpvalForm? then Settled(w) else w }

  function HeldValue(h: Held, b: bool): Value { if h.Nothing? then Bool(b) else h.v }

  /** The value that a register gets in the end. */
  function StoredBy(w: Way): Value {
    match w
    case Arrives(_, v) => v
    case LeavesT(h) => HeldValue(h, true)
    case LeavesF(h) => HeldValue(h, false)
  }

  /** The value is put in a register, or is `there` already. */
  function Gathered(there: bool, w: Way): Way { Arrives(if w.Arrives? && there then w.h else Nothing, StoredBy(w)) }

  /** Does the run go on after a condition, or leave? */
  datatype Turn = On(h: Held) | Off(h: Held)

  /** `luaK_goiftrue` (`stay`) and `luaK_goiffalse`. */
  function Turned(f: Form, stay: bool, w: Way): Turn {
    match w
    case LeavesT(h) => if stay then On(h) else Off(h)
    case LeavesF(h) => if stay then Off(h) else On(h)
    case Arrives(h, v) =>
      if f.TrueForm? then (if stay then On(h) else Off(TakenOver(h)))
      else if f.FalseForm? then (if stay then Off(TakenOver(h)) else On(h))
      else if f.NumForm? && stay then On(h)
      else if !IsFalse(v) == stay then On(Nothing)
      else Off(if f.NotForm? || f.CompareForm? then Nothing else Own(v))
  }

  /** `not`: the lists are exchanged and lose what they hold. */
  function NotWay(f: Form, w: Way): Way {
    match w
    case Arrives(h, v) => Arrives(if Literal(f) then h else Nothing, Bool(IsFalse(v)))
    case LeavesT(_) => LeavesF(Nothing)
    case LeavesF(_) => LeavesT(Nothing)
  }

  /** What a run holds after an operand of a comparison: a literal or a local variable needs no instruction. */
  function OperandHeld(y: Expr, w: Way): Held {
    if w.Arrives? && !Leaves(y, true) && !Leaves(y, false) && (Literal(FormOf(y)) || FormOf(y).LocalForm?) then w.h else Nothing
  }

  /** The way of a run through the code of `x`, reached with `h`. */
  function WayOf(env: Env, x: Expr, r: Regs, h: Held): Way {
    match x
    case Local(i) => Arrives(h, Get(r, i))
    case Upval(i) => Arrives(h, env.up(i))
    case True => Arrives(h, Bool(true))
    case False => Arrives(h, Bool(false))
    case Number(n) => Arrives(h, Num(n))
    case Paren(y) => Discharged(FormOf(y), WayOf(env, y, r, h))
    case NotOf(y) => NotWay(FormOf(y), WayOf(env, y, r, h))
    case And(y, z) =>
      (match Turned(FormOf(y), true, WayOf(env, y, r, h))
       case On(h') => Discharged(FormOf(z), WayOf(env, z, r, h'))
       case Off(h') => LeavesF(h'))
    case Or(y, z) =>
      (match Turned(FormOf(y), false, WayOf(env, y, r, h))
       case On(h') => Discharged(FormOf(z), WayOf(env, z, r, h'))
       case Off(h') => LeavesT(h'))
    case Rel(op, y, z) =>
      var w := WayOf(env, y, r, h);
      Arrives(Nothing, Bool(Truth(env, op, StoredBy(w), StoredBy(WayOf(env, z, r, OperandHeld(y, w))))))
  }

  /** The value that the emitted code leaves in the destination. */
  function Emitted(env: Env, x: Expr, r: Regs): Value { StoredBy(WayOf(env, x, r, Nothing)) }

  // ---------- when that is the value of the expression ----------

  /** The value that a jump has taken over from another condition is not the boolean that the jump stands for. */
  predicate Spoilt(w: Way) {
    match w
    case Arrives(_, _) => false
    case LeavesT(h) => h.Foreign? && h.v != Bool(true)
    case LeavesF(h) => h.Foreign? && h.v != Bool(false)
  }

  /** Every comparison that the run comes to is true or false as it is for the values of its operands. */
  predicate TrueComparisons(env: Env, x: Expr, r: Regs, h: Held) {
    match x
    case Paren(y) => TrueComparisons(env, y, r, h)
    case NotOf(y) => TrueComparisons(env, y, r, h)
    case And(y, z) =>
      TrueComparisons(env, y, r, h) &&
      (var t := Turned(FormOf(y), true, WayOf(env, y, r, h)); t.On? ==> TrueComparisons(env, z, r, t.h))
    case Or(y, z) =>
      TrueComparisons(env, y, r, h) &&
      (var t := Turned(FormOf(y), false, WayOf(env, y, r, h)); t.On? ==> TrueComparisons(env, z, r, t.h))
    case Rel(_, _, _) => WayOf(env, x, r, h).v == Eval(env, x, r)
    case _ => true
  }

  /** What a jump holds on a list for the truth `b` of a value `v`. */
  predicate Fits(h: Held, v: Value, b: bool) {
    !IsFalse(v) == b && if h.Own? then h.v == v else v == Bool(b)
  }

  /** The way of a run, compared to the value of the expression. */
  predicate Sound(w: Way, v: Value) {
    match w
    case Arrives(_, u) => u == v
    case LeavesT(h) => Fits(h, v, true)
    case LeavesF(h) => Fits(h, v, false)
  }

  /** The form of an expression in hand tells of its value. */
  predicate FormFits(f: Form, w: Way) {
    w.Arrives? ==>
      && (f.TrueForm? ==> w.v == Bool(true)) && (f.FalseForm? ==> w.v == Bool(false)) && (f.NumForm? ==> w.v.Num?)
      && (f.NotForm? || f.CompareForm? ==> w.v.Bool?)
  }

  lemma TurnedSound(f: Form, stay: bool, w: Way, v: Value)
    requires Sound(w, v) && FormFits(f, w)
    ensures var t := Turned(f, stay, w);
      if t.On? then !IsFalse(v) == stay else Fits(t.h, v, !stay)
  {
  }

  lemma LogicSound(env: Env, x: Expr, r: Regs, h: Held)
    requires (x.And? || x.Or?) && TrueComparisons(env, x, r, h)
    requires var w := WayOf(env, x.left, r, h); Sound(w, Eval(env, x.left, r)) && FormFits(FormOf(x.left), w)
    requires var t := Turned(FormOf(x.left), x.And?, WayOf(env, x.left, r, h));
      t.On? ==> var w := WayOf(env, x.right, r, t.h); Sound(w, Eval(env, x.right, r)) && FormFits(FormOf(x.right), w)
    ensures Sound(WayOf(env, x, r, h), Eval(env, x, r)) && FormFits(FormOf(x), WayOf(env, x, r, h))
  {
    TurnedSound(FormOf(x.left), x.And?, WayOf(env, x.left, r, h), Eval(env, x.left, r));
  }

  /** If comparisons are true to their operands, a run goes the way of the truth of the expression, and what it holds is
      the value of the expression unless it is foreign. */
  lemma {:induction false} WaySound(env: Env, x: Expr, r: Regs, h: Held)
    requires TrueComparisons(env, x, r, h)
    ensures Sound(WayOf(env, x, r, h), Eval(env, x, r)) && FormFits(FormOf(x), WayOf(env, x, r, h))
  {
    match x {
      case Paren(y) => WaySound(env, y, r, h);
      case NotOf(y) => WaySound(env, y, r, h);
      case And(y, z) =>
        WaySound(env, y, r, h);
        var t := Turned(FormOf(y), true, WayOf(env, y, r, h));
        if t.On? { WaySound(env, z, r, t.h); }
        LogicSound(env, x, r, h);
      case Or(y, z) =>
        WaySound(env, y, r, h);
        var t := Turned(FormOf(y), false, WayOf(env, y, r, h));
        if t.On? { WaySound(env, z, r, t.h); }
        LogicSound(env, x, r, h);
      case _ =>
    }
  }

  /** The emitted code computes the value of the expression exactly if the run does not leave through a jump that has
      taken over a value other than the boolean it stands for. */
  lemma EmittedIsRightIff(env: Env, x: Expr, r: Regs)
    requires TrueComparisons(env, x, r, Nothing)
    ensures Emitted(env, x, r) == Eval(env, x, r) <==> !Spoilt(WayOf(env, x, r, Nothing))
  {
    WaySound(env, x, r, Nothing);
  }

  /** As a condition the expression counts as what it is, whatever its jumps hold. */
  lemma ConditionSound(env: Env, x: Expr, r: Regs)
    requires TrueComparisons(env, x, r, Nothing)
    ensures Turned(FormOf(x), true, WayOf(env, x, r, Nothing)).On? <==> !IsFalse(Eval(env, x, r))
  {
    WaySound(env, x, r, Nothing);
    TurnedSound(FormOf(x), true, WayOf(env, x, r, Nothing), Eval(env, x, r));
  }

  // ---------- when comparisons come out right ----------

  /** No operand of a comparison that the run comes to is spoilt. */
  predicate CleanOperands(env: Env, x: Expr, r: Regs, h: Held) {
    match x
    case Paren(y) => CleanOperands(env, y, r, h)
    case NotOf(y) => CleanOperands(env, y, r, h)
    case And(y, z) =>
      CleanOperands(env, y, r, h) &&
      (var t := Turned(FormOf(y), true, WayOf(env, y, r, h)); t.On? ==> CleanOperands(env, z, r, t.h))
    case Or(y, z) =>
      CleanOperands(env, y, r, h) &&
      (var t := Turned(FormOf(y), false, WayOf(env, y, r, h)); t.On? ==> CleanOperands(env, z, r, t.h))
    case Rel(_, y, z) =>
      var w := WayOf(env, y, r, h);
      && CleanOperands(env, y, r, h) && !Spoilt(w)
      && CleanOperands(env, z, r, OperandHeld(y, w)) && !Spoilt(WayOf(env, z, r, OperandHeld(y, w)))
    case _ => true
  }

  lemma {:induction false} CleanIsTrue(env: Env, x: Expr, r: Regs, h: Held)
    requires CleanOperands(env, x, r, h)
    ensures TrueComparisons(env, x, r, h)
  {
    match x {
      case Paren(y) => CleanIsTrue(env, y, r, h);
      case NotOf(y) => CleanIsTrue(env, y, r, h);
      case And(y, z) =>
        CleanIsTrue(env, y, r, h);
        var t := Turned(FormOf(y), true, WayOf(env, y, r, h));
        if t.On? { CleanIsTrue(env, z, r, t.h); }
      case Or(y, z) =>
        CleanIsTrue(env, y, r, h);
        var t := Turned(FormOf(y), false, WayOf(env, y, r, h));
        if t.On? { CleanIsTrue(env, z, r, t.h); }
      case Rel(_, y, z) =>
        var h' := OperandHeld(y, WayOf(env, y, r, h));
        CleanIsTrue(env, y, r, h);
        CleanIsTrue(env, z, r, h');
        OperandSound(env, y, r, h);
        OperandSound(env, z, r, h');
      case _ =>
    }
  }

  lemma OperandSound(env: Env, y: Expr, r: Regs, h: Held)
    requires TrueComparisons(env, y, r, h) && !Spoilt(WayOf(env, y, r, h))
    ensures StoredBy(WayOf(env, y, r, h)) == Eval(env, y, r)
  {
    WaySound(env, y, r, h);
  }

  // ---------- expressions in which nothing is taken over ----------

  /** No `and` has a left operand that ends in a false literal, no `or` one that ends in a true literal: there are
      no unconditional jumps on conditions.  Expressions without literals are plain. */
  predicate Plain(x: Expr) {
    match x
    case Paren(y) => Plain(y)
    case NotOf(y) => Plain(y)
    case And(y, z) => Plain(y) && Plain(z) && !FormOf(y).FalseForm?
    case Or(y, z) => Plain(y) && Plain(z) && !FormOf(y).TrueForm?
    case Rel(_, y, z) => Plain(y) && Plain(z)
    case _ => true
  }

  /** In a plain expression no jump that leaves holds a foreign value, whatever the run holds when it arrives. */
  lemma {:induction false} PlainTakesNothing(env: Env, x: Expr, r: Regs, h: Held)
    requires Plain(x)
    ensures CleanOperands(env, x, r, h)
    ensures var w := WayOf(env, x, r, h); !w.Arrives? ==> !w.h.Foreign?
  {
    match x {
      case Paren(y) => PlainTakesNothing(env, y, r, h);
      case NotOf(y) => PlainTakesNothing(env, y, r, h);
      case And(y, z) =>
        PlainTakesNothing(env, y, r, h);
        var t := Turned(FormOf(y), true, WayOf(env, y, r, h));
        if t.On? { PlainTakesNothing(env, z, r, t.h); }
      case Or(y, z) =>
        PlainTakesNothing(env, y, r, h);
        var t := Turned(FormOf(y), false, WayOf(env, y, r, h));
        if t.On? { PlainTakesNothing(env, z, r, t.h); }
      case Rel(_, y, z) =>
        PlainTakesNothing(env, y, r, h);
        PlainTakesNothing(env, z, r, OperandHeld(y, WayOf(env, y, r, h)));
      case _ =>
    }
  }

  lemma PlainIsRight(env: Env, x: Expr, r: Regs)
    requires Plain(x)
    ensures Emitted(env, x, r) == Eval(env, x, r)
  {
    PlainTakesNothing(env, x, r, Nothing);
    CleanIsTrue(env, x, r, Nothing);
    EmittedIsRightIff(env, x, r);
  }

  /** The operands of comparisons are plain. */
  predicate PlainOperands(x: Expr) {
    match x
    case Paren(y) => PlainOperands(y)
    case NotOf(y) => PlainOperands(y)
    case And(y, z) => PlainOperands(y) && PlainOperands(z)
    case Or(y, z) => PlainOperands(y) && PlainOperands(z)
    case Rel(_, y, z) => Plain(y) && Plain(z)
    case _ => true
  }

  /** Then no operand is spoilt in any run. */
  lemma {:induction false} PlainOperandsAreClean(env: Env, x: Expr, r: Regs, h: Held)
    requires PlainOperands(x)
    ensures CleanOperands(env, x, r, h)
  {
    match x {
      case Paren(y) => PlainOperandsAreClean(env, y, r, h);
      case NotOf(y) => PlainOperandsAreClean(env, y, r, h);
      case And(y, z) =>
        PlainOperandsAreClean(env, y, r, h);
        var t := Turned(FormOf(y), true, WayOf(env, y, r, h));
        if t.On? { PlainOperandsAreClean(env, z, r, t.h); }
      case Or(y, z) =>
        PlainOperandsAreClean(env, y, r, h);
        var t := Turned(FormOf(y), false, WayOf(env, y, r, h));
        if t.On? { PlainOperandsAreClean(env, z, r, t.h); }
      case Rel(_, y, z) =>
        PlainTakesNothing(env, y, r, h);
        PlainTakesNothing(env, z, r, OperandHeld(y, WayOf(env, y, r, h)));
      case _ =>
    }
  }

  // ---------- the smallest expressions that go wrong ----------

  predicate Variable(x: Expr) { x.Local? || x.Upval? }

  function Logic(either: bool, y: Expr, z: Expr): Expr { if either then Or(y, z) else And(y, z) }

  function Constant(k: bool): Expr { if k then True else False }

  /** `(a and b) or (k q c)` if `p`, and `(a or b) and (k q c)` if not; `q` is the operator whose condition the literal
      `k` decides, so that the last part is `true or c` or `false and c`. */
  function Smallest(p: bool, k: bool, a: Expr, b: Expr, c: Expr): Expr {
    Logic(p, Paren(Logic(!p, a, b)), Paren(Logic(k, Constant(k), c)))
  }

  lemma LeftWay(env: Env, p: bool, a: Expr, b: Expr, r: Regs)
    requires Variable(a) && Variable(b)
    ensures var y, v, u := Logic(!p, a, b), Eval(env, a, r), Eval(env, b, r);
      && Turned(FormOf(Paren(y)), !p, WayOf(env, Paren(y), r, Nothing)) ==
         (if IsFalse(v) == p then On(Own(v)) else if IsFalse(u) == p then On(Nothing) else Off(Own(u)))
      && Eval(env, Paren(y), r) == if IsFalse(v) == p then v else u
  {
    assert WayOf(env, a, r, Nothing) == Arrives(Nothing, Eval(env, a, r));
    assert WayOf(env, b, r, Nothing) == Arrives(Nothing, Eval(env, b, r));
    var y, v := Logic(!p, a, b), Eval(env, a, r);
    assert !FormOf(a).NotForm? && !Literal(FormOf(a)) && !FormOf(a).CompareForm?;
    var w := WayOf(env, y, r, Nothing);
    assert w == (if IsFalse(v) == p then (if p then LeavesF(Own(v)) else LeavesT(Own(v))) else Arrives(Nothing, Eval(env, b, r)));
    assert WayOf(env, Paren(y), r, Nothing) == w;
    assert Eval(env, y, r) == if IsFalse(v) == p then v else Eval(env, b, r);
  }

  lemma RightWay(env: Env, k: bool, c: Expr, r: Regs, h: Held)
    ensures var z := Logic(k, Constant(k), c);
      && WayOf(env, Paren(z), r, h) == (if k then LeavesT(TakenOver(h)) else LeavesF(TakenOver(h)))
      && Eval(env, Paren(z), r) == Bool(k)
  {
    var z := Logic(k, Constant(k), c);
    assert WayOf(env, z, r, h) == (if k then LeavesT(TakenOver(h)) else LeavesF(TakenOver(h)));
    assert Eval(env, z, r) == Bool(k);
  }

  lemma SmallestWay(env: Env, p: bool, y: Expr, z: Expr, r: Regs)
    requires y.Paren? && z.Paren?
    ensures var t := Turned(FormOf(y), !p, WayOf(env, y, r, Nothing));
      && WayOf(env, Logic(p, y, z), r, Nothing) == (if t.On? then WayOf(env, z, r, t.h) else if p then LeavesT(t.h) else LeavesF(t.h))
      && Eval(env, Logic(p, y, z), r) == if IsFalse(Eval(env, y, r)) == p then Eval(env, z, r) else Eval(env, y, r)
  {
  }

  lemma SmallestIs(env: Env, p: bool, k: bool, a: Expr, b: Expr, c: Expr, r: Regs)
    ensures Smallest(p, k, a, b, c) == Logic(p, Paren(Logic(!p, a, b)), Paren(Logic(k, Constant(k), c)))
    ensures forall x :: Emitted(env, x, r) == StoredBy(WayOf(env, x, r, Nothing))
  {
    hide WayOf, Logic;
  }

  /** How the parts determine the outcome. */
  lemma PartsDecide(p: bool, k: bool, v: Value, u: Value, w: Way, yv: Value, zv: Value)
    requires var t := if IsFalse(v) == p then On(Own(v)) else if IsFalse(u) == p then On(Nothing) else Off(Own(u));
      && w == (if t.On? then (if k then LeavesT(TakenOver(t.h)) else LeavesF(TakenOver(t.h))) else if p then LeavesT(t.h) else LeavesF(t.h))
      && yv == (if IsFalse(v) == p then v else u) && zv == Bool(k)
    ensures var x := if IsFalse(yv) == p then zv else yv;
      && (StoredBy(w) != x <==> IsFalse(v) == p && v != Bool(k))
      && (StoredBy(w) != x ==> StoredBy(w) == v && x == Bool(k))
  {
  }

  /** For all variables `a` and `b` and every expression `c`, the code emitted for these four yields `a` in place of
      the literal exactly if `a` decides the first operator and is not itself the literal. */
  lemma SmallestIsWrongIff(env: Env, p: bool, k: bool, a: Expr, b: Expr, c: Expr, r: Regs)
    requires Variable(a) && Variable(b)
    ensures var x, v := Smallest(p, k, a, b, c), Eval(env, a, r);
      && (Emitted(env, x, r) != Eval(env, x, r) <==> IsFalse(v) == p && v != Bool(k))
      && (Emitted(env, x, r) != Eval(env, x, r) ==> Emitted(env, x, r) == v && Eval(env, x, r) == Bool(k))
  {
    hide *;
    SmallestIs(env, p, k, a, b, c, r);
    var y, z := Paren(Logic(!p, a, b)), Paren(Logic(k, Constant(k), c));
    LeftWay(env, p, a, b, r);
    var t := Turned(FormOf(y), !p, WayOf(env, y, r, Nothing));
    RightWay(env, k, c, r, if t.On? then t.h else Nothing);
    SmallestWay(env, p, y, z, r);
    PartsDecide(p, k, Eval(env, a, r), Eval(env, b, r), WayOf(env, Logic(p, y, z), r, Nothing), Eval(env, y, r), Eval(env, z, r));
  }
}
