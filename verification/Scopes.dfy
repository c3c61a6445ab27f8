/**
  Lexical scope in the parser (lparser.c): active locals, blocks, and the upvalue descriptors through
  which nested functions reach the locals of the functions around them.
  */
module Scopes {

  type Name = string

  /** LUAI_MAXUPVALUES and LUAI_MAXVARS (luaconf.h) */
  const MAX_UPVALUES := 60
  const MAX_VARS := 200

  /** Where a new closure finds an upvalue: in a local of the enclosing function or in one of its upvalues. */
  datatype Desc = InLocal(info: nat) | InUpvalue(info: nat)

  /** BlockCnt: the number of active locals outside the block, and whether one inside has become an upvalue. */
  datatype Block = Block(nactvar: nat, upval: bool)

  /** FuncState; `names` are the names of its upvalues, `blocks` has the innermost block last. */
  datatype Func = Func(actvars: seq<Name>, upvalues: seq<Desc>, names: seq<Name>, blocks: seq<Block>)

  /** A declaration: a local of a function that is being compiled, by nesting level. */
  datatype Decl = Undeclared | At(level: nat, index: nat)

  datatype Var = Global | Local(index: nat) | Upvalue(index: nat) | TooManyUpvalues

  // ---------- what names mean ----------

  /** The last active local with a name: it hides the ones before it. */
  ghost predicate IsLast(s: seq<Name>, n: Name, i: int) {
    -1 <= i < |s| && (i >= 0 ==> s[i] == n) && forall j | i < j < |s| :: s[j] != n
  }

  /** The declaration that a name refers to, seen from function `level`: the last active local with
      that name in the innermost function that has one. */
  ghost predicate Refers(fs: seq<Func>, level: int, n: Name, d: Decl) {
    level < |fs| &&
    match d
    case Undeclared => forall l | 0 <= l <= level :: n !in fs[l].actvars
    case At(l, i) => l <= level && IsLast(fs[l].actvars, n, i) && forall m | l < m <= level :: n !in fs[m].actvars
  }

  /** Where the descriptors of an upvalue lead, outward. */
  function Follow(fs: seq<Func>, level: nat, u: nat): Decl
    requires level < |fs|
  {
    if level == 0 || u >= |fs[level].upvalues| then Undeclared
    else match fs[level].upvalues[u]
      case InLocal(i) => At(level - 1, i)
      case InUpvalue(i) => Follow(fs, level - 1, i)
  }

  /** The innermost block around local i, or -1. */
  function Owner(blocks: seq<Block>, i: nat): (b: int)
    ensures -1 <= b < |blocks|
    ensures b >= 0 ==> blocks[b].nactvar <= i
    ensures forall c | b < c < |blocks| :: blocks[c].nactvar > i
    decreases |blocks|
  {
    if blocks == [] then -1
    else if blocks[|blocks| - 1].nactvar <= i then |blocks| - 1
    else Owner(blocks[..|blocks| - 1], i)
  }

  // ---------- the invariant ----------

  predicate Fits(f: Func) {
    |f.names| == |f.upvalues| <= MAX_UPVALUES && |f.actvars| <= MAX_VARS
  }

  /** A descriptor names what its upvalue's name means in the enclosing function. */
  ghost predicate Describes(outer: Func, n: Name, d: Desc) {
    match d
    case InLocal(i) => IsLast(outer.actvars, n, i)
    case InUpvalue(i) => n !in outer.actvars && i < |outer.names| && outer.names[i] == n
  }

  predicate Distinct<T(==)>(s: seq<T>) {
    forall i, j | 0 <= i < j < |s| :: s[i] != s[j]
  }

  ghost predicate UpvaluesOk(fs: seq<Func>) {
    (forall l | 0 <= l < |fs| :: Fits(fs[l]) && Distinct(fs[l].names)) &&
    (|fs| > 0 ==> fs[0].names == []) &&
    (forall l, u | 1 <= l < |fs| && 0 <= u < |fs[l].names| :: Describes(fs[l - 1], fs[l].names[u], fs[l].upvalues[u]))
  }

  predicate Nested(f: Func) {
    (forall b | 0 <= b < |f.blocks| :: f.blocks[b].nactvar <= |f.actvars|) &&
    (forall b, c | 0 <= b < c < |f.blocks| :: f.blocks[b].nactvar <= f.blocks[c].nactvar)
  }

  /** One of these locals belongs to block b. */
  ghost predicate Declares(blocks: seq<Block>, locals: set<nat>, b: int) {
    exists i :: i in locals && Owner(blocks, i) == b
  }

  /** A block is flagged exactly if a closure has captured one of the locals it declares. */
  ghost predicate Flagged(f: Func, captured: set<nat>) {
    (forall i | i in captured :: i < |f.actvars|) &&
    (forall b | 0 <= b < |f.blocks| :: f.blocks[b].upval <==> Declares(f.blocks, captured, b))
  }

  ghost predicate BlocksOk(fs: seq<Func>, captured: seq<set<nat>>) {
    |captured| == |fs| && forall l | 0 <= l < |fs| :: Nested(fs[l]) && Flagged(fs[l], captured[l])
  }

  predicate Catches(captured: set<nat>, d: Desc) { d.InLocal? ==> d.info in captured }

  /** Every local that a descriptor of an open function refers to counts as captured. */
  ghost predicate Caught(fs: seq<Func>, captured: seq<set<nat>>) {
    |captured| == |fs| &&
    forall l, u | 1 <= l < |fs| && 0 <= u < |fs[l].upvalues| :: Catches(captured[l - 1], fs[l].upvalues[u])
  }

  // ---------- consequences ----------

  /** The block that declares a local which a nested function uses is flagged, so that leaving it closes the local. */
  lemma UsedIsFlagged(fs: seq<Func>, captured: seq<set<nat>>, level: nat, u: nat)
    requires BlocksOk(fs, captured) && Caught(fs, captured)
    requires 1 <= level < |fs| && u < |fs[level].upvalues| && fs[level].upvalues[u].InLocal?
    ensures var b := Owner(fs[level - 1].blocks, fs[level].upvalues[u].info);
            b >= 0 ==> fs[level - 1].blocks[b].upval
  {
    hide Owner;
    var i := fs[level].upvalues[u].info;
    assert Catches(captured[level - 1], fs[level].upvalues[u]);
    var f := fs[level - 1];
    assert Flagged(f, captured[level - 1]);
    assert Declares(f.blocks, captured[level - 1], Owner(f.blocks, i));
  }

  /** Following the descriptors of an upvalue outward ends at the declaration its name refers to. */
  lemma {:induction false} DescriptorsLeadToTheDeclaration(fs: seq<Func>, level: nat, u: nat)
    requires UpvaluesOk(fs) && level < |fs| && u < |fs[level].upvalues|
    ensures Follow(fs, level, u).At?
    ensures Refers(fs, level - 1, fs[level].names[u], Follow(fs, level, u))
  {
    var n := fs[level].names[u];
    assert level > 0;
    assert Describes(fs[level - 1], n, fs[level].upvalues[u]);
    match fs[level].upvalues[u]
    case InLocal(i) =>
    case InUpvalue(i) => DescriptorsLeadToTheDeclaration(fs, level - 1, i);
  }

  /** A name refers to one declaration. */
  lemma RefersToOne(fs: seq<Func>, level: int, n: Name, d: Decl, e: Decl)
    requires Refers(fs, level, n, d) && Refers(fs, level, n, e)
    ensures d == e
  {
  }

  /** No function has two upvalues with the same descriptor, nor two for the same declaration. */
  lemma DescriptorsNeverRepeat(fs: seq<Func>, level: nat, u: nat, v: nat)
    requires UpvaluesOk(fs) && level < |fs| && u < v < |fs[level].upvalues|
    ensures fs[level].upvalues[u] != fs[level].upvalues[v]
    ensures Follow(fs, level, u) != Follow(fs, level, v)
  {
    DescriptorsLeadToTheDeclaration(fs, level, u);
    DescriptorsLeadToTheDeclaration(fs, level, v);
    var d, e := Follow(fs, level, u), Follow(fs, level, v);
    assert fs[d.level].actvars[d.index] == fs[level].names[u];
    assert fs[e.level].actvars[e.index] == fs[level].names[v];
  }

  /** Two descriptors of one name are the same descriptor, so the search of indexupvalue by descriptor
      finds the upvalue of that name. */
  lemma OneDescriptor(outer: Func, n: Name, d: Desc, m: Name, e: Desc)
    requires Describes(outer, n, d) && Describes(outer, m, e) && Distinct(outer.names)
    ensures d == e <==> n == m
  {
    if n == m && d.InLocal? && e.InLocal? {
      assert outer.actvars[d.info] == n && outer.actvars[e.info] == n;
    }
  }

  // ---------- what resolving changes ----------

  function WithName(names: seq<Name>, n: Name): seq<Name> {
    if n in names then names else names + [n]
  }

  /** Same locals and blocks, except for the flags. */
  predicate SameScope(f: Func, g: Func) {
    g.actvars == f.actvars && |g.blocks| == |f.blocks| &&
    forall b | 0 <= b < |f.blocks| :: g.blocks[b].nactvar == f.blocks[b].nactvar
  }

  /** The functions between a declaration and its use have an upvalue for the name; nothing else changes. */
  ghost predicate Threaded(fs: seq<Func>, gs: seq<Func>, level: int, n: Name, d: Decl) {
    |gs| == |fs| &&
    forall l | 0 <= l < |fs| :: SameScope(fs[l], gs[l]) && fs[l].upvalues <= gs[l].upvalues &&
      gs[l].names == if d.At? && d.level < l <= level then WithName(fs[l].names, n) else fs[l].names
  }

  /** A function between a declaration and its use that has no room for one more upvalue. */
  ghost predicate NoRoom(fs: seq<Func>, level: int, n: Name, d: Decl) {
    d.At? && exists l | d.level < l <= level && l < |fs| :: n !in fs[l].names && |fs[l].names| == 60
  }

  predicate IsFrom(i: nat, n: nat) { i >= n }

  function Under(locals: set<nat>, n: nat): set<nat> {
    set i | i in locals && !IsFrom(i, n)
  }

  ghost predicate AnyFrom(locals: set<nat>, n: nat) {
    exists i :: i in locals && IsFrom(i, n)
  }

  function Capture(captured: seq<set<nat>>, d: Decl, level: int, base: bool): seq<set<nat>> {
    if d.At? && d.level < |captured| && (d.level < level || !base)
    then captured[d.level := captured[d.level] + {d.index}]
    else captured
  }

  // ---------- the invariant is kept ----------

  lemma {:induction false} OwnerByBounds(xs: seq<Block>, ys: seq<Block>, i: nat)
    requires |ys| == |xs| && forall b | 0 <= b < |xs| :: ys[b].nactvar == xs[b].nactvar
    ensures Owner(ys, i) == Owner(xs, i)
    decreases |xs|
  {
    if xs != [] && xs[|xs| - 1].nactvar > i {
      OwnerByBounds(xs[..|xs| - 1], ys[..|xs| - 1], i);
    }
  }

  lemma DeclaresOneMore(xs: seq<Block>, ys: seq<Block>, locals: set<nat>, v: nat, b: int)
    requires |ys| == |xs| && forall c | 0 <= c < |xs| :: ys[c].nactvar == xs[c].nactvar
    ensures Declares(ys, locals + {v}, b) <==> Declares(xs, locals, b) || b == Owner(xs, v)
  {
    if Declares(ys, locals + {v}, b) {
      var i :| i in locals + {v} && Owner(ys, i) == b;
      OwnerByBounds(xs, ys, i);
    }
    if Declares(xs, locals, b) {
      var i :| i in locals && Owner(xs, i) == b;
      OwnerByBounds(xs, ys, i);
      assert i in locals + {v};
    }
    if b == Owner(xs, v) {
      OwnerByBounds(xs, ys, v);
      assert v in locals + {v};
    }
  }

  lemma MarkKeeps(f: Func, g: Func, captured: set<nat>, v: nat)
    requires Nested(f) && Flagged(f, captured) && v < |f.actvars| && SameScope(f, g)
    requires forall b | 0 <= b < |f.blocks| :: g.blocks[b].upval == (f.blocks[b].upval || b == Owner(f.blocks, v))
    ensures Nested(g) && Flagged(g, captured + {v})
  {
    hide Declares, Owner;
    forall b | 0 <= b < |g.blocks| ensures g.blocks[b].upval <==> Declares(g.blocks, captured + {v}, b) {
      DeclaresOneMore(f.blocks, g.blocks, captured, v, b);
    }
  }

  lemma UpvaluesFramed(fs: seq<Func>, level: nat, g: Func)
    requires UpvaluesOk(fs) && level < |fs|
    requires g.actvars == fs[level].actvars && g.names == fs[level].names && g.upvalues == fs[level].upvalues
    ensures UpvaluesOk(fs[level := g])
  {
    var gs := fs[level := g];
    forall l, u | 1 <= l < |gs| && 0 <= u < |gs[l].names|
      ensures Describes(gs[l - 1], gs[l].names[u], gs[l].upvalues[u])
    {
      assert Describes(fs[l - 1], fs[l].names[u], fs[l].upvalues[u]);
    }
  }

  lemma AppendKeeps(fs: seq<Func>, level: nat, n: Name, d: Desc)
    requires UpvaluesOk(fs) && 1 <= level < |fs| && Describes(fs[level - 1], n, d)
    requires n !in fs[level].names && |fs[level].names| < MAX_UPVALUES
    ensures UpvaluesOk(fs[level := fs[level].(names := fs[level].names + [n], upvalues := fs[level].upvalues + [d])])
  {
    var g := fs[level].(names := fs[level].names + [n], upvalues := fs[level].upvalues + [d]);
    var gs := fs[level := g];
    forall l, u | 1 <= l < |gs| && 0 <= u < |gs[l].names|
      ensures Describes(gs[l - 1], gs[l].names[u], gs[l].upvalues[u])
    {
      if l == level && u == |fs[level].names| {
      } else {
        assert Describes(fs[l - 1], fs[l].names[u], fs[l].upvalues[u]);
      }
    }
  }

  lemma BlocksFramed(fs: seq<Func>, captured: seq<set<nat>>, level: nat, g: Func, c: set<nat>)
    requires BlocksOk(fs, captured) && level < |fs| && Nested(g) && Flagged(g, c)
    ensures BlocksOk(fs[level := g], captured[level := c])
  {
  }

  lemma CaughtFramed(fs: seq<Func>, captured: seq<set<nat>>, level: nat, g: Func, c: set<nat>)
    requires Caught(fs, captured) && level < |fs| && g.upvalues == fs[level].upvalues
    requires captured[level] <= c || level == |fs| - 1
    ensures Caught(fs[level := g], captured[level := c])
  {
  }

  lemma CaughtMore(fs: seq<Func>, captured: seq<set<nat>>, level: nat, g: Func, d: Desc)
    requires Caught(fs, captured) && 1 <= level < |fs| && g.upvalues == fs[level].upvalues + [d]
    requires Catches(captured[level - 1], d)
    ensures Caught(fs[level := g], captured)
  {
  }

  // ---------- one level further in ----------

  lemma NothingThreaded(fs: seq<Func>, level: int, n: Name)
    ensures Threaded(fs, fs, level, n, Undeclared)
  {
  }

  lemma LookedUp(fs: seq<Func>, level: nat, n: Name, v: int)
    requires level < |fs| && IsLast(fs[level].actvars, n, v)
    ensures v >= 0 ==> Refers(fs, level, n, At(level, v))
    ensures v == -1 ==> n !in fs[level].actvars
  {
  }

  lemma RefersUp(fs: seq<Func>, level: nat, n: Name, d: Decl)
    requires level < |fs| && n !in fs[level].actvars && Refers(fs, level - 1, n, d)
    ensures Refers(fs, level, n, d)
  {
  }

  lemma RoomUp(fs: seq<Func>, level: nat, n: Name, d: Decl)
    requires level < |fs| && (d.At? ==> d.level < level)
    ensures NoRoom(fs, level, n, d) <==>
            NoRoom(fs, level - 1, n, d) || (d.At? && n !in fs[level].names && |fs[level].names| == MAX_UPVALUES)
  {
  }

  /** The enclosing function's result is a descriptor for this one. */
  lemma Described(fs: seq<Func>, gs: seq<Func>, level: nat, n: Name, d: Decl, v: Var)
    requires 1 <= level < |gs| && (v.Local? || v.Upvalue?) && Denotes(gs, level - 1, n, d, v)
    requires Threaded(fs, gs, level - 1, n, d) && Refers(fs, level, n, d)
    ensures Describes(gs[level - 1], n, if v.Local? then InLocal(v.index) else InUpvalue(v.index))
  {
  }

  lemma ThreadedUp(fs: seq<Func>, gs: seq<Func>, hs: seq<Func>, level: nat, n: Name, d: Decl)
    requires 1 <= level < |gs| && d.At? && d.level < level && Threaded(fs, gs, level - 1, n, d)
    requires |hs| == |gs| && forall l | 0 <= l < |gs| && l != level :: hs[l] == gs[l]
    requires hs[level].actvars == gs[level].actvars && hs[level].blocks == gs[level].blocks
    requires hs[level].names == WithName(gs[level].names, n) && gs[level].upvalues <= hs[level].upvalues
    ensures Threaded(fs, hs, level, n, d)
  {
  }

  lemma ReachedTheDeclaration(fs: seq<Func>, gs: seq<Func>, level: nat, n: Name, d: Decl, u: nat)
    requires UpvaluesOk(gs) && 1 <= level < |gs| && Threaded(fs, gs, level, n, d) && Refers(fs, level, n, d)
    requires d.At? && d.level < level && u < |gs[level].upvalues| == |gs[level].names| && gs[level].names[u] == n
    ensures Follow(gs, level, u) == d
  {
    hide UpvaluesOk, Follow;
    DescriptorsLeadToTheDeclaration(gs, level, u);
    RefersToOne(gs, level - 1, n, d, Follow(gs, level, u));
  }

  /** What the result of resolving n means. */
  ghost predicate Denotes(fs: seq<Func>, level: int, n: Name, d: Decl, r: Var) {
    -1 <= level < |fs| &&
    match r
    case Global => d == Undeclared
    case Local(i) => level >= 0 && d == At(level, i) && IsLast(fs[level].actvars, n, i)
    case Upvalue(u) => d.At? && d.level < level && u < |fs[level].upvalues| == |fs[level].names| &&
      fs[level].names[u] == n && Follow(fs, level, u) == d
    case TooManyUpvalues => d.At?
  }

  // ---------- blocks and functions come and go ----------

  lemma TopFramed(fs: seq<Func>, g: Func)
    requires UpvaluesOk(fs) && |fs| > 0 && |g.actvars| <= MAX_VARS
    requires g.names == fs[|fs| - 1].names && g.upvalues == fs[|fs| - 1].upvalues
    ensures UpvaluesOk(fs[|fs| - 1 := g])
  {
    var gs := fs[|fs| - 1 := g];
    forall l, u | 1 <= l < |gs| && 0 <= u < |gs[l].names|
      ensures Describes(gs[l - 1], gs[l].names[u], gs[l].upvalues[u])
    {
      assert Describes(fs[l - 1], fs[l].names[u], fs[l].upvalues[u]);
    }
  }

  lemma OpenKeeps(fs: seq<Func>, captured: seq<set<nat>>)
    requires UpvaluesOk(fs) && BlocksOk(fs, captured)
    ensures UpvaluesOk(fs + [Func([], [], [], [])]) && BlocksOk(fs + [Func([], [], [], [])], captured + [{}])
  {
    var gs := fs + [Func([], [], [], [])];
    forall l, u | 1 <= l < |gs| && 0 <= u < |gs[l].names|
      ensures Describes(gs[l - 1], gs[l].names[u], gs[l].upvalues[u])
    {
      assert l < |fs|;
      assert Describes(fs[l - 1], fs[l].names[u], fs[l].upvalues[u]);
    }
  }

  lemma CloseKeeps(fs: seq<Func>, captured: seq<set<nat>>)
    requires UpvaluesOk(fs) && BlocksOk(fs, captured) && |fs| > 0
    ensures UpvaluesOk(fs[..|fs| - 1]) && BlocksOk(fs[..|fs| - 1], captured[..|fs| - 1])
  {
    var gs := fs[..|fs| - 1];
    forall l, u | 1 <= l < |gs| && 0 <= u < |gs[l].names|
      ensures Describes(gs[l - 1], gs[l].names[u], gs[l].upvalues[u])
    {
      assert Describes(fs[l - 1], fs[l].names[u], fs[l].upvalues[u]);
    }
  }

  lemma EnterKeeps(f: Func, captured: set<nat>)
    requires Nested(f) && Flagged(f, captured)
    ensures var g := f.(blocks := f.blocks + [Block(|f.actvars|, false)]); Nested(g) && Flagged(g, captured)
  {
    var ys := f.blocks + [Block(|f.actvars|, false)];
    forall i | i in captured ensures Owner(ys, i) == Owner(f.blocks, i) {
      assert ys[..|ys| - 1] == f.blocks;
    }
    forall b | 0 <= b < |ys| ensures ys[b].upval <==> Declares(ys, captured, b) {
      if b < |f.blocks| {
        DeclaresSame(f.blocks, ys, captured, b);
      }
    }
  }

  lemma DeclaresSame(xs: seq<Block>, ys: seq<Block>, locals: set<nat>, b: int)
    requires forall i | i in locals :: Owner(ys, i) == Owner(xs, i)
    ensures Declares(ys, locals, b) <==> Declares(xs, locals, b)
  {
    if Declares(ys, locals, b) {
      var i :| i in locals && Owner(ys, i) == b;
      assert Owner(xs, i) == b;
    }
    if Declares(xs, locals, b) {
      var i :| i in locals && Owner(xs, i) == b;
      assert Owner(ys, i) == b;
    }
  }

  lemma LeaveDeclares(xs: seq<Block>, captured: set<nat>, n: nat, b: nat)
    requires b < |xs| - 1 && xs[|xs| - 1].nactvar == n
    ensures Declares(xs[..|xs| - 1], Under(captured, n), b) <==> Declares(xs, captured, b)
  {
    var ys, rest := xs[..|xs| - 1], Under(captured, n);
    if Declares(xs, captured, b) {
      var i :| i in captured && Owner(xs, i) == b;
      assert i in rest && Owner(ys, i) == b;
    }
    if Declares(ys, rest, b) {
      var i :| i in rest && Owner(ys, i) == b;
      assert i in captured && Owner(xs, i) == b;
    }
  }

  lemma LeaveDeclaresLast(xs: seq<Block>, captured: set<nat>, n: nat)
    requires xs != [] && xs[|xs| - 1].nactvar == n
    ensures Declares(xs, captured, |xs| - 1) <==> AnyFrom(captured, n)
  {
    if Declares(xs, captured, |xs| - 1) {
      var i :| i in captured && Owner(xs, i) == |xs| - 1;
      assert IsFrom(i, n);
    }
    if AnyFrom(captured, n) {
      var i :| i in captured && IsFrom(i, n);
      assert Owner(xs, i) == |xs| - 1;
    }
  }

  lemma LeaveKeeps(f: Func, captured: set<nat>)
    requires Nested(f) && Flagged(f, captured) && f.blocks != []
    ensures var n := f.blocks[|f.blocks| - 1].nactvar;
            var g := f.(actvars := f.actvars[..n], blocks := f.blocks[..|f.blocks| - 1]);
            Nested(g) && Flagged(g, Under(captured, n)) &&
            (f.blocks[|f.blocks| - 1].upval <==> AnyFrom(captured, n))
  {
    hide Declares, Owner, AnyFrom;
    var n := f.blocks[|f.blocks| - 1].nactvar;
    LeaveDeclaresLast(f.blocks, captured, n);
    var ys := f.blocks[..|f.blocks| - 1];
    forall b | 0 <= b < |ys| ensures ys[b].upval <==> Declares(ys, Under(captured, n), b) {
      LeaveDeclares(f.blocks, captured, n, b);
    }
  }

  class LexState {
    var funcs: seq<Func>
    ghost var captured: seq<set<nat>>  // the active locals that closures have captured, by level

    ghost predicate Valid()
      reads this
    {
      |captured| == |funcs| && UpvaluesOk(funcs) && BlocksOk(funcs, captured) && Caught(funcs, captured)
    }

    constructor ()
      ensures Valid() && funcs == []
    {
      funcs := [];
      captured := [];
    }

    /** searchvar */
    method SearchVar(level: nat, n: Name) returns (i: int)
      requires level < |funcs|
      ensures IsLast(funcs[level].actvars, n, i)
    {
      var vars := funcs[level].actvars;
      i := |vars| - 1;
      while i >= 0
        invariant -1 <= i < |vars|
        invariant forall j | i < j < |vars| :: vars[j] != n
      {
        if vars[i] == n {
          return;
        }
        i := i - 1;
      }
    }

    /** markupval */
    method MarkUpval(level: nat, v: nat)
      requires Valid() && level < |funcs| && v < |funcs[level].actvars|
      modifies this
      ensures Valid() && captured == old(captured)[level := old(captured)[level] + {v}]
      ensures |funcs| == |old(funcs)| && forall l | 0 <= l < |funcs| && l != level :: funcs[l] == old(funcs)[l]
      ensures funcs[level] == old(funcs)[level].(blocks := funcs[level].blocks)
      ensures SameScope(old(funcs)[level], funcs[level])
    {
      hide UpvaluesOk, Describes, Declares, Flagged, Nested, Caught;
      var f := funcs[level];
      var b := |f.blocks| - 1;
      while b >= 0 && f.blocks[b].nactvar > v
        invariant -1 <= b < |f.blocks|
        invariant forall c | b < c < |f.blocks| :: f.blocks[c].nactvar > v
      {
        b := b - 1;
      }
      assert b == Owner(f.blocks, v);
      if b >= 0 {
        var g := f.(blocks := f.blocks[b := f.blocks[b].(upval := true)]);
        MarkKeeps(f, g, captured[level], v);
        UpvaluesFramed(funcs, level, g);
        BlocksFramed(funcs, captured, level, g, captured[level] + {v});
        CaughtFramed(funcs, captured, level, g, captured[level] + {v});
        funcs := funcs[level := g];
      } else {
        MarkKeeps(f, f, captured[level], v);
        BlocksFramed(funcs, captured, level, f, captured[level] + {v});
        CaughtFramed(funcs, captured, level, f, captured[level] + {v});
        assert funcs == funcs[level := f];
      }
      captured := captured[level := captured[level] + {v}];
    }

    /** indexupvalue: the number of the upvalue for n, or -1 if there is no room for one more. */
    method IndexUpvalue(level: nat, n: Name, d: Desc) returns (r: int)
      requires Valid() && 1 <= level < |funcs| && Describes(funcs[level - 1], n, d) && Catches(captured[level - 1], d)
      modifies this`funcs
      ensures Valid()
      ensures r == -1 <==> n !in old(funcs)[level].names && |old(funcs)[level].names| == MAX_UPVALUES
      ensures r == -1 ==> funcs == old(funcs)
      ensures r != -1 ==> 0 <= r < |funcs[level].names| == |funcs[level].upvalues| && funcs[level].names[r] == n && funcs[level].upvalues[r] == d
      ensures r != -1 ==>
                var f := old(funcs)[level];
                funcs == old(funcs)[level := f.(names := WithName(f.names, n),
                                                upvalues := if n in f.names then f.upvalues else f.upvalues + [d])]
    {
      hide Caught;
      var f := funcs[level];
      forall u | 0 <= u < |f.names| ensures f.upvalues[u] == d <==> f.names[u] == n {
        OneDescriptor(funcs[level - 1], f.names[u], f.upvalues[u], n, d);
      }
      var i := 0;
      while i < |f.upvalues|
        invariant 0 <= i <= |f.upvalues|
        invariant forall u | 0 <= u < i :: f.upvalues[u] != d
      {
        if f.upvalues[i] == d {
          assert funcs == funcs[level := f];
          return i;
        }
        i := i + 1;
      }
      if |f.upvalues| + 1 > MAX_UPVALUES {
        return -1;
      }
      AppendKeeps(funcs, level, n, d);
      var g := f.(names := f.names + [n], upvalues := f.upvalues + [d]);
      CaughtMore(funcs, captured, level, g, d);
      BlocksFramed(funcs, captured, level, g, captured[level]);
      assert captured == captured[level := captured[level]];
      funcs := funcs[level := g];
      return |f.upvalues|;
    }

    /** singlevaraux; level -1 stands for the end of the chain of functions. */
    method SingleVarAux(level: int, n: Name, base: bool) returns (r: Var, ghost d: Decl)
      requires Valid() && -1 <= level < |funcs|
      modifies this
      ensures Valid() && |funcs| == |old(funcs)|
      ensures Refers(old(funcs), level, n, d)
      ensures r.TooManyUpvalues? <==> NoRoom(old(funcs), level, n, d)
      ensures !r.TooManyUpvalues? ==>
                Threaded(old(funcs), funcs, level, n, d) && captured == Capture(old(captured), d, level, base)
      ensures Denotes(funcs, level, n, d, r)
      decreases level + 1
    {
      hide Declares, Owner, UpvaluesOk, BlocksOk, Flagged, Nested, Describes, IsLast, Caught;
      if level == -1 {
        NothingThreaded(funcs, level, n);
        return Global, Undeclared;
      }
      var v := SearchVar(level, n);
      LookedUp(funcs, level, n, v);
      if v >= 0 {
        if !base {
          MarkUpval(level, v);
        }
        return Local(v), At(level, v);
      }
      r, d := SingleVarAux(level - 1, n, false);
      RefersUp(old(funcs), level, n, d);
      RoomUp(old(funcs), level, n, d);
      if r.Global? || r.TooManyUpvalues? {
        return;
      }
      r := Reach(level, n, d, r, old(funcs));
    }

    /** The rest of singlevaraux when the name was found further out. */
    method Reach(level: nat, n: Name, ghost d: Decl, v: Var, ghost fs: seq<Func>) returns (r: Var)
      requires Valid() && 1 <= level < |funcs| && (v.Local? || v.Upvalue?)
      requires n !in funcs[level].actvars && Threaded(fs, funcs, level - 1, n, d) && Denotes(funcs, level - 1, n, d, v)
      requires Refers(fs, level, n, d) && (v.Local? ==> v.index in captured[level - 1])
      modifies this`funcs
      ensures Valid()
      ensures r.TooManyUpvalues? <==> n !in fs[level].names && |fs[level].names| == MAX_UPVALUES
      ensures !r.TooManyUpvalues? ==> Threaded(fs, funcs, level, n, d)
      ensures Denotes(funcs, level, n, d, r)
      ensures |funcs| == |old(funcs)| && (r.Upvalue? || r.TooManyUpvalues?)
    {
      hide Declares, Owner, UpvaluesOk, BlocksOk, Flagged, Nested, Refers, Follow, Caught;
      Described(fs, funcs, level, n, d, v);
      var u := IndexUpvalue(level, n, if v.Local? then InLocal(v.index) else InUpvalue(v.index));
      if u == -1 {
        return TooManyUpvalues;
      }
      ThreadedUp(fs, old(funcs), funcs, level, n, d);
      ReachedTheDeclaration(fs, funcs, level, n, d, u);
      return Upvalue(u);
    }

    /** singlevar */
    method SingleVar(n: Name) returns (r: Var, ghost d: Decl)
      requires Valid() && |funcs| > 0
      modifies this
      ensures Valid() && |funcs| == |old(funcs)|
      ensures Refers(old(funcs), |funcs| - 1, n, d)
      ensures r.TooManyUpvalues? <==> NoRoom(old(funcs), |funcs| - 1, n, d)
      ensures !r.TooManyUpvalues? ==>
                Threaded(old(funcs), funcs, |funcs| - 1, n, d) && captured == Capture(old(captured), d, |funcs| - 1, true)
      ensures Denotes(funcs, |funcs| - 1, n, d, r)
    {
      r, d := SingleVarAux(|funcs| - 1, n, true);
    }

    /** open_func */
    method OpenFunc()
      requires Valid()
      modifies this
      ensures Valid() && funcs == old(funcs) + [Func([], [], [], [])] && captured == old(captured) + [{}]
    {
      OpenKeeps(funcs, captured);
      funcs := funcs + [Func([], [], [], [])];
      captured := captured + [{}];
    }

    /** close_func; the descriptors are what pushclosure emits after OP_CLOSURE. */
    method CloseFunc() returns (upvalues: seq<Desc>)
      requires Valid() && |funcs| > 0 && funcs[|funcs| - 1].blocks == []
      modifies this
      ensures Valid() && funcs == old(funcs[..|funcs| - 1]) && captured == old(captured[..|funcs| - 1])
      ensures upvalues == old(funcs[|funcs| - 1].upvalues)
      ensures |old(funcs)| == 1 ==> upvalues == []
    {
      upvalues := funcs[|funcs| - 1].upvalues;
      CloseKeeps(funcs, captured);
      captured := captured[..|funcs| - 1];
      funcs := funcs[..|funcs| - 1];
    }

    /** new_localvar for each name, then adjustlocalvars; false if there are too many. */
    method DeclareLocals(names: seq<Name>) returns (ok: bool)
      requires Valid() && |funcs| > 0
      modifies this`funcs
      ensures Valid()
      ensures ok <==> old(|funcs[|funcs| - 1].actvars|) + |names| <= 200
      ensures !ok ==> funcs == old(funcs)
      ensures ok ==>
                var f := old(funcs[|funcs| - 1]);
                funcs == old(funcs)[old(|funcs|) - 1 := f.(actvars := f.actvars + names)]
    {
      hide Caught;
      var f := funcs[|funcs| - 1];
      if |f.actvars| + |names| > MAX_VARS {
        return false;
      }
      var g := f.(actvars := f.actvars + names);
      TopFramed(funcs, g);
      BlocksFramed(funcs, captured, |funcs| - 1, g, captured[|funcs| - 1]);
      CaughtFramed(funcs, captured, |funcs| - 1, g, captured[|funcs| - 1]);
      assert captured == captured[|funcs| - 1 := captured[|funcs| - 1]];
      funcs := funcs[|funcs| - 1 := g];
      return true;
    }

    /** enterblock */
    method EnterBlock()
      requires Valid() && |funcs| > 0
      modifies this`funcs
      ensures Valid()
      ensures var f := old(funcs[|funcs| - 1]);
              funcs == old(funcs)[old(|funcs|) - 1 := f.(blocks := f.blocks + [Block(|f.actvars|, false)])]
    {
      hide Caught;
      var f := funcs[|funcs| - 1];
      var g := f.(blocks := f.blocks + [Block(|f.actvars|, false)]);
      TopFramed(funcs, g);
      EnterKeeps(f, captured[|funcs| - 1]);
      BlocksFramed(funcs, captured, |funcs| - 1, g, captured[|funcs| - 1]);
      CaughtFramed(funcs, captured, |funcs| - 1, g, captured[|funcs| - 1]);
      assert captured == captured[|funcs| - 1 := captured[|funcs| - 1]];
      funcs := funcs[|funcs| - 1 := g];
    }

    /** leaveblock: `close` says whether OP_CLOSE is emitted, for the registers from nactvar on. */
    method LeaveBlock() returns (close: bool)
      requires Valid() && |funcs| > 0 && funcs[|funcs| - 1].blocks != []
      modifies this
      ensures Valid()
      ensures var f := old(funcs[|funcs| - 1]);
              var n := f.blocks[|f.blocks| - 1].nactvar;
              n <= |f.actvars| &&
              funcs == old(funcs)[old(|funcs|) - 1 := f.(actvars := f.actvars[..n], blocks := f.blocks[..|f.blocks| - 1])] &&
              captured == old(captured)[old(|funcs|) - 1 := Under(old(captured[|funcs| - 1]), n)] &&
              (close <==> AnyFrom(old(captured[|funcs| - 1]), n))
    {
      hide Caught;
      var f := funcs[|funcs| - 1];
      var bl := f.blocks[|f.blocks| - 1];
      LeaveKeeps(f, captured[|funcs| - 1]);
      var g := f.(actvars := f.actvars[..bl.nactvar], blocks := f.blocks[..|f.blocks| - 1]);
      ghost var c := Under(captured[|funcs| - 1], bl.nactvar);
      TopFramed(funcs, g);
      BlocksFramed(funcs, captured, |funcs| - 1, g, c);
      CaughtFramed(funcs, captured, |funcs| - 1, g, c);
      captured := captured[|funcs| - 1 := c];
      funcs := funcs[|funcs| - 1 := g];
      return bl.upval;
    }
  }
}
