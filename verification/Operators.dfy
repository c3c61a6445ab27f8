/**
  Operator precedence (lparser.c:765-853; section 2.5.6 of the Lua 5.1 Reference Manual): which trees a text may
  stand for, and what `subexpr` makes of it.
  */
module Operators {

  datatype BinOp = Add | Sub | Mul | Div | Mod | Pow | Concat | NE | EQ | LT | LE | GT | GE | And | Or

  datatype UnOp = Minus | Not | Len

  /** Tokens; the sign `-` stands for two operators. */
  datatype Token = Atom(n: nat) | MinusSign | NotSign | LenSign | Infix(op: BinOp) | OpenPar | ClosePar | Other

  /** `getunopr` */
  function UnOpOf(t: Token): (r: seq<UnOp>)
    ensures |r| <= 1
  {
    match t
    case NotSign => [Not]
    case MinusSign => [Minus]
    case LenSign => [Len]
    case _ => []
  }

  /** `getbinopr` */
  function BinOpOf(t: Token): (r: seq<BinOp>)
    ensures |r| <= 1
  {
    match t
    case MinusSign => [Sub]
    case Infix(op) => if op == Sub then [] else [op]
    case _ => []
  }

  function Sign(op: BinOp): Token { if op == Sub then MinusSign else Infix(op) }

  function UnSign(op: UnOp): Token { match op case Minus => MinusSign case Not => NotSign case Len => LenSign }

  /** `priority`, the left and the right one, and `UNARY_PRIORITY`. */
  function Left(op: BinOp): nat {
    match op
    case Add => 6 case Sub => 6 case Mul => 7 case Div => 7 case Mod => 7
    case Pow => 10 case Concat => 5
    case NE => 3 case EQ => 3 case LT => 3 case LE => 3 case GT => 3 case GE => 3
    case And => 2 case Or => 1
  }

  function Right(op: BinOp): nat {
    match op
    case Pow => 9 case Concat => 4
    case _ => Left(op)
  }

  const UNARY_PRIORITY: nat := 8

  // ---------- the manual's table ----------

  /** The level of an operator, from low to high: or; and; comparisons; ..; + and -; *, / and %; unary; ^. */
  function Level(op: BinOp): nat {
    match op
    case Or => 1
    case And => 2
    case LT => 3 case GT => 3 case LE => 3 case GE => 3 case NE => 3 case EQ => 3
    case Concat => 4
    case Add => 5 case Sub => 5
    case Mul => 6 case Div => 6 case Mod => 6
    case Pow => 8
  }

  const UNARY_LEVEL: nat := 7

  predicate RightAssociative(op: BinOp) { op == Concat || op == Pow }

  /** Between `op'` on the left and `op` on the right, an operand belongs to `op`. */
  predicate Tighter(op: BinOp, op': BinOp) {
    Level(op) > Level(op') || (Level(op) == Level(op') && RightAssociative(op))
  }

  predicate TighterThanUnary(op: BinOp) { Level(op) > UNARY_LEVEL }

  /** The priorities of the parser say what the manual says. */
  lemma PrioritiesAreTheManuals(op: BinOp, op': BinOp)
    ensures Left(op) > Right(op') <==> Tighter(op, op')
    ensures Left(op) > UNARY_PRIORITY <==> TighterThanUnary(op)
    ensures Left(op) > 0
  {
  }

  // ---------- trees ----------

  /** Expressions with their parentheses. */
  datatype Tree = Leaf(n: nat) | Paren(t: Tree) | Unary(u: UnOp, t: Tree) | Binary(op: BinOp, l: Tree, r: Tree)

  function Flatten(t: Tree): (s: seq<Token>)
    ensures |s| > 0
  {
    match t
    case Leaf(n) => [Atom(n)]
    case Paren(x) => [OpenPar] + Flatten(x) + [ClosePar]
    case Unary(u, x) => [UnSign(u)] + Flatten(x)
    case Binary(op, l, r) => Flatten(l) + [Sign(op)] + Flatten(r)
  }

  /** What stands to the left of an operand: nothing, a unary or a binary operator. */
  datatype Before = Nothing | AfterUnary | AfterBinary(op: BinOp)

  /** An operator after an operand takes it away from what stands before. */
  predicate Takes(op: BinOp, b: Before) {
    match b
    case Nothing => true
    case AfterUnary => TighterThanUnary(op)
    case AfterBinary(op') => Tighter(op, op')
  }

  /** The operand, standing after `b`, belongs together: its operators take their left operands away from `b`. */
  predicate Begins(t: Tree, b: Before) {
    t.Binary? ==> Takes(t.op, b) && Begins(t.l, b)
  }

  /** The operator `op` after the operand takes nothing away from the operators inside. */
  predicate Ends(t: Tree, op: BinOp) {
    match t
    case Unary(_, x) => !TighterThanUnary(op) && Ends(x, op)
    case Binary(op', _, r) => !Tighter(op, op') && Ends(r, op)
    case _ => true
  }

  /** The tree is what its text means: operands go to the operator that binds tighter, unless parentheses say
      otherwise. */
  predicate Meant(t: Tree) {
    match t
    case Leaf(_) => true
    case Paren(x) => Meant(x)
    case Unary(_, x) => Meant(x) && Begins(x, AfterUnary)
    case Binary(op, l, r) => Meant(l) && Meant(r) && Ends(l, op) && Begins(r, AfterBinary(op))
  }

  // ---------- parsing ----------

  /** A tree and the tokens after it, or a syntax error. */
  datatype Parsed = Ok(t: Tree, rest: seq<Token>) | Fail

  /** The limit that `subexpr` is given for an operand after `b`. */
  function Limit(b: Before): nat {
    match b
    case Nothing => 0
    case AfterUnary => UNARY_PRIORITY
    case AfterBinary(op) => Right(op)
  }

  function Next(s: seq<Token>): seq<BinOp> { if s == [] then [] else BinOpOf(s[0]) }

  /** `subexpr` */
  function Parse(s: seq<Token>, b: Before): (r: Parsed)
    ensures r.Ok? ==> |r.rest| < |s|
    decreases |s|, 1
  {
    if s == [] then Fail
    else if UnOpOf(s[0]) != [] then
      var x := Parse(s[1..], AfterUnary);
      if x.Fail? then Fail else Expand(Unary(UnOpOf(s[0])[0], x.t), x.rest, b)
    else
      var x := Simple(s);
      if x.Fail? then Fail else Expand(x.t, x.rest, b)
  }

  /** `simpleexp`, on constants and variables and on expressions in parentheses */
  function Simple(s: seq<Token>): (r: Parsed)
    requires s != []
    ensures r.Ok? ==> |r.rest| < |s|
    decreases |s|, 0
  {
    if s[0].Atom? then Ok(Leaf(s[0].n), s[1..])
    else if s[0].OpenPar? then
      var x := Parse(s[1..], Nothing);
      if x.Fail? || x.rest == [] || x.rest[0] != ClosePar then Fail else Ok(Paren(x.t), x.rest[1..])
    else Fail
  }

  /** The loop of `subexpr`: operators of a priority higher than the limit. */
  function Expand(v: Tree, s: seq<Token>, b: Before): (r: Parsed)
    ensures r.Ok? ==> |r.rest| <= |s|
    decreases |s|, 0
  {
    if Next(s) == [] || Left(Next(s)[0]) <= Limit(b) then Ok(v, s)
    else
      var op := Next(s)[0];
      var x := Parse(s[1..], AfterBinary(op));
      if x.Fail? then Fail else Expand(Binary(op, v, x.t), x.rest, b)
  }

  lemma TakesIsHigher(op: BinOp, b: Before)
    ensures Left(op) > Limit(b) <==> Takes(op, b)
  {
    PrioritiesAreTheManuals(op, if b.AfterBinary? then b.op else op);
  }

  /** Whatever comes next takes nothing away from the tree. */
  predicate EndsBefore(t: Tree, s: seq<Token>) { Next(s) != [] ==> Ends(t, Next(s)[0]) }

  predicate Stops(s: seq<Token>, b: Before) { Next(s) != [] ==> !Takes(Next(s)[0], b) }

  // ---------- completeness ----------

  /** The parser on a text that starts with a unary operator, an operand, or parentheses. */
  lemma ParseUnary(u: UnOp, s: seq<Token>, b: Before)
    ensures var x := Parse(s, AfterUnary);
      Parse([UnSign(u)] + s, b) == if x.Fail? then Fail else Expand(Unary(u, x.t), x.rest, b)
  {
    assert ([UnSign(u)] + s)[1..] == s;
    assert UnOpOf(UnSign(u)) == [u];
  }

  lemma ParseLeaf(n: nat, s: seq<Token>, b: Before)
    ensures Parse([Atom(n)] + s, b) == Expand(Leaf(n), s, b)
  {
    assert ([Atom(n)] + s)[1..] == s;
  }

  lemma ParseParen(x: Tree, s: seq<Token>, rest: seq<Token>, b: Before)
    requires Parse(s, Nothing) == Ok(x, [ClosePar] + rest)
    ensures Parse([OpenPar] + s, b) == Expand(Paren(x), rest, b)
  {
    assert ([OpenPar] + s)[1..] == s;
    assert ([ClosePar] + rest)[1..] == rest;
  }

  lemma ExpandStops(v: Tree, s: seq<Token>, b: Before)
    requires Stops(s, b)
    ensures Expand(v, s, b) == Ok(v, s)
  {
    if Next(s) != [] { TakesIsHigher(Next(s)[0], b); }
  }

  lemma ExpandTakes(v: Tree, op: BinOp, s: seq<Token>, b: Before)
    requires Takes(op, b)
    ensures var x := Parse(s, AfterBinary(op));
      Next([Sign(op)] + s) == [op]
      && Expand(v, [Sign(op)] + s, b) == if x.Fail? then Fail else Expand(Binary(op, v, x.t), x.rest, b)
  {
    TakesIsHigher(op, b);
    assert ([Sign(op)] + s)[1..] == s;
    assert BinOpOf(Sign(op)) == [op];
  }

  /** A tree that is meant is read as far as it goes. */
  lemma {:induction false} ReadsTree(t: Tree, rest: seq<Token>, b: Before)
    requires Meant(t) && Begins(t, b) && EndsBefore(t, rest)
    ensures Parse(Flatten(t) + rest, b) == Expand(t, rest, b)
    decreases t
  {
    hide Parse, Expand;
    match t {
      case Leaf(n) => ParseLeaf(n, rest, b);
      case Paren(x) =>
        var after := [ClosePar] + rest;
        assert Flatten(t) + rest == [OpenPar] + (Flatten(x) + after);
        InNothing(x);
        ReadsTree(x, after, Nothing);
        ExpandStops(x, after, Nothing);
        ParseParen(x, Flatten(x) + after, rest, b);
      case Unary(u, x) =>
        assert Flatten(t) + rest == [UnSign(u)] + (Flatten(x) + rest);
        ReadsTree(x, rest, AfterUnary);
        ExpandStops(x, rest, AfterUnary);
        ParseUnary(u, Flatten(x) + rest, b);
      case Binary(op, l, r) =>
        var after := Flatten(r) + rest;
        assert Flatten(t) + rest == Flatten(l) + ([Sign(op)] + after);
        ExpandTakes(l, op, after, b);
        ReadsTree(l, [Sign(op)] + after, b);
        ReadsTree(r, rest, AfterBinary(op));
        ExpandStops(r, rest, AfterBinary(op));
    }
  }

  lemma InNothing(t: Tree)
    ensures Begins(t, Nothing)
  {
    if t.Binary? { InNothing(t.l); }
  }

  /** COMPLETENESS.  The text of a tree that is meant is read as this tree, and nothing more is used. */
  lemma ParseComplete(t: Tree, rest: seq<Token>)
    requires Meant(t) && Next(rest) == []
    ensures Parse(Flatten(t) + rest, Nothing) == Ok(t, rest)
  {
    InNothing(t);
    ReadsTree(t, rest, Nothing);
  }

  // ---------- soundness ----------

  /** What is known of a tree that has been read. */
  ghost predicate Read(s: seq<Token>, b: Before, r: Parsed) {
    r.Ok? ==> s == Flatten(r.t) + r.rest && Meant(r.t) && Begins(r.t, b) && EndsBefore(r.t, r.rest) && Stops(r.rest, b)
  }

  lemma {:induction false} ParseSound(s: seq<Token>, b: Before)
    ensures Read(s, b, Parse(s, b))
    decreases |s|, 1
  {
    if s != [] {
      if UnOpOf(s[0]) != [] {
        var x := Parse(s[1..], AfterUnary);
        ParseSound(s[1..], AfterUnary);
        if x.Ok? {
          var v := Unary(UnOpOf(s[0])[0], x.t);
          assert s == [s[0]] + s[1..] == Flatten(v) + x.rest;
          ExpandSound(v, x.rest, b, s);
        }
      } else {
        var x := Simple(s);
        SimpleSound(s);
        if x.Ok? { ExpandSound(x.t, x.rest, b, s); }
      }
    }
  }

  lemma {:induction false} SimpleSound(s: seq<Token>)
    requires s != []
    ensures var r := Simple(s); r.Ok? ==> (r.t.Leaf? || r.t.Paren?) && s == Flatten(r.t) + r.rest && Meant(r.t)
    decreases |s|, 0
  {
    var r := Simple(s);
    if r.Ok? {
      assert s == [s[0]] + s[1..];
      if s[0].OpenPar? {
        var x := Parse(s[1..], Nothing);
        ParseSound(s[1..], Nothing);
        assert x.rest == [ClosePar] + x.rest[1..];
        assert s == [OpenPar] + (Flatten(x.t) + ([ClosePar] + r.rest));
        assert Flatten(r.t) + r.rest == [OpenPar] + (Flatten(x.t) + ([ClosePar] + r.rest));
      }
    }
  }

  lemma {:induction false} ExpandSound(v: Tree, s: seq<Token>, b: Before, all: seq<Token>)
    requires all == Flatten(v) + s && Meant(v) && Begins(v, b) && EndsBefore(v, s)
    ensures Read(all, b, Expand(v, s, b))
    decreases |s|, 0
  {
    if Next(s) == [] || Left(Next(s)[0]) <= Limit(b) {
      if Next(s) != [] { TakesIsHigher(Next(s)[0], b); }
    } else {
      var op := Next(s)[0];
      TakesIsHigher(op, b);
      var x := Parse(s[1..], AfterBinary(op));
      ParseSound(s[1..], AfterBinary(op));
      if x.Ok? {
        var w := Binary(op, v, x.t);
        assert s == [Sign(op)] + s[1..];
        assert all == Flatten(w) + x.rest;
        ExpandSound(w, x.rest, b, all);
      }
    }
  }

  /** A text has at most one meaning, which the parser finds; and what it finds is a meaning. */
  lemma ParseExact(s: seq<Token>, t: Tree)
    ensures Parse(s, Nothing) == Ok(t, []) <==> s == Flatten(t) && Meant(t)
  {
    if Parse(s, Nothing) == Ok(t, []) {
      ParseSound(s, Nothing);
      assert Flatten(t) + [] == Flatten(t);
    }
    if s == Flatten(t) && Meant(t) {
      ParseComplete(t, []);
      assert Flatten(t) + [] == s;
    }
  }

  // ---------- printing ----------

  /** Trees without parentheses. */
  predicate Bare(t: Tree) {
    match t
    case Leaf(_) => true
    case Paren(_) => false
    case Unary(_, x) => Bare(x)
    case Binary(_, l, r) => Bare(l) && Bare(r)
  }

  function Erase(t: Tree): Tree {
    match t
    case Leaf(_) => t
    case Paren(x) => Erase(x)
    case Unary(u, x) => Unary(u, Erase(x))
    case Binary(op, l, r) => Binary(op, Erase(l), Erase(r))
  }

  /** Parentheses where they are needed and nowhere else. */
  function AddParens(t: Tree): Tree {
    match t
    case Leaf(_) => t
    case Paren(x) => Paren(AddParens(x))
    case Unary(u, x) =>
      var y := AddParens(x);
      Unary(u, if Begins(y, AfterUnary) then y else Paren(y))
    case Binary(op, l, r) =>
      var a, b := AddParens(l), AddParens(r);
      Binary(op, if Ends(a, op) then a else Paren(a), if Begins(b, AfterBinary(op)) then b else Paren(b))
  }

  lemma {:induction false} AddParensMeant(t: Tree)
    ensures Meant(AddParens(t)) && (Bare(t) ==> Erase(AddParens(t)) == t)
  {
    match t {
      case Leaf(_) =>
      case Paren(x) => AddParensMeant(x);
      case Unary(_, x) => AddParensMeant(x);
      case Binary(_, l, r) => AddParensMeant(l); AddParensMeant(r);
    }
  }

  /** PRINTING AND PARSING.  Any operator tree is printed with parentheses where they are needed, and read back. */
  lemma PrintedIsParsed(t: Tree, rest: seq<Token>)
    requires Bare(t) && Next(rest) == []
    ensures var r := Parse(Flatten(AddParens(t)) + rest, Nothing); r.Ok? && Erase(r.t) == t && r.rest == rest
  {
    AddParensMeant(t);
    ParseComplete(AddParens(t), rest);
  }

  // ---------- the parser ----------

  /** The part of `LexState` that the expression parser uses: the tokens that have not been read. */
  class LexState {
    var tokens: seq<Token>

    constructor (s: seq<Token>)
      ensures tokens == s
    {
      tokens := s;
    }

    /** The current token; `Other` at the end of the stream. */
    function Current(): Token
      reads this
    {
      if tokens == [] then Other else tokens[0]
    }

    /** `luaX_next` */
    method NextToken()
      requires tokens != []
      modifies this
      ensures tokens == old(tokens)[1..]
    {
      tokens := tokens[1..];
    }

    /** `simpleexp` and the parenthesized case of `prefixexp`; no tree means a syntax error. */
    method SimpleExp() returns (v: seq<Tree>)
      modifies this
      ensures var r := if old(tokens) == [] then Fail else Simple(old(tokens));
        if r.Fail? then v == [] else v == [r.t] && tokens == r.rest
      decreases |tokens|, 0
    {
      match Current() {
        case Atom(n) =>
          NextToken();
          v := [Leaf(n)];
        case OpenPar =>
          NextToken();
          var x, _ := SubExpr(0, Nothing);
          if x == [] || Current() != ClosePar { return []; }
          NextToken();
          v := [Paren(x[0])];
        case _ =>
          v := [];
      }
    }

    /** `subexpr`: the operators in the expression have priorities higher than the limit; `op` is the first operator
        that was not treated. */
    method SubExpr(limit: nat, ghost b: Before) returns (v: seq<Tree>, op: seq<BinOp>)
      requires limit == Limit(b)
      modifies this
      ensures var r := Parse(old(tokens), b);
        if r.Fail? then v == [] else v == [r.t] && tokens == r.rest && op == Next(tokens)
      decreases |tokens|, 1
    {
      ghost var s := tokens;
      op := [];
      var uop := UnOpOf(Current());
      if uop != [] {
        NextToken();
        var x, _ := SubExpr(UNARY_PRIORITY, AfterUnary);
        if x == [] { return [], []; }
        v := [Unary(uop[0], x[0])];
      } else {
        v := SimpleExp();
        if v == [] { return [], []; }
      }
      op := BinOpOf(Current());
      while op != [] && Left(op[0]) > limit
        invariant |v| == 1 && op == Next(tokens) && |tokens| < |s|
        invariant Parse(s, b) == Expand(v[0], tokens, b)
        decreases |tokens|
      {
        NextToken();
        var v2, nextop := SubExpr(Right(op[0]), AfterBinary(op[0]));
        if v2 == [] { return [], []; }
        v := [Binary(op[0], v[0], v2[0])];
        op := nextop;
      }
    }
  }
}
