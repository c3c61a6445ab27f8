/**
  The heap and the collector state of lgc.c and lgc.h, as values.

  A `Gc` is a snapshot of the fields of `global_State` that the collector uses,
  together with the heap graph they describe.  Object sizes, weak tables and
  finalizers are abstracted away.
  */
module GcState {

  type Ref = nat

  /** A TValue: either not collectable (nil, booleans, numbers, light userdata) or a reference. */
  datatype Value = Plain | Obj(ref: Ref)

  datatype Object =
    | Str(text: string)
    | Udata(metatable: Value, env: Value)
    | Func(fields: seq<Value>)
    | Table(fields: seq<Value>)
    | Proto(fields: seq<Value>)
      /** An open upvalue: its value lives in a stack slot of `thread`. */
    | OpenUpval(thread: Ref, slot: nat)
      /** A closed upvalue owns its value. */
    | ClosedUpval(value: Value)
    | Thread(globals: Value, stack: seq<Value>, openupval: seq<Ref>)

  /** The bits of `marked` that matter here: WHITE0BIT, WHITE1BIT, BLACKBIT and FIXEDBIT. */
  datatype Mark = Mark(white0: bool, white1: bool, black: bool, fixed: bool)

  datatype Phase = Pause | Propagate | SweepString | Sweep | Finalize

  /** `currentwhite` is false for WHITE0 and true for WHITE1. `held` are references that exist only in
      local variables of running C code between two points at which the collector may run. */
  datatype Gc = Gc(
    heap: map<Ref, Object>,
    marked: map<Ref, Mark>,
    currentwhite: bool,
    phase: Phase,
    gray: seq<Ref>,
    grayagain: seq<Ref>,
    rootgc: seq<Ref>,
    sweepgc: nat,
    hash: string -> nat,
    strt: seq<seq<Ref>>,
    sweepstrgc: nat,
    uvhead: seq<Ref>,
    mainthread: Ref,
    running: Ref,
    registry: Value,
    mt: seq<Value>,
    held: set<Ref>,
    next: Ref)

  // ---------- mark bits ----------

  predicate IsWhite(m: Mark) { m.white0 || m.white1 }

  predicate IsBlack(m: Mark) { m.black }

  predicate IsGray(m: Mark) { !IsBlack(m) && !IsWhite(m) }

  /** Does `m` carry the white that is not the current one? */
  predicate IsDead(currentwhite: bool, m: Mark) { if currentwhite then m.white0 else m.white1 }

  predicate IsCurrentWhite(currentwhite: bool, m: Mark) { m.white0 == !currentwhite && m.white1 == currentwhite && !m.black }

  function White2Gray(m: Mark): Mark { m.(white0 := false, white1 := false) }

  function Gray2Black(m: Mark): Mark { m.(black := true) }

  function Black2Gray(m: Mark): Mark { m.(black := false) }

  function MakeWhite(currentwhite: bool, m: Mark): Mark { Mark(!currentwhite, currentwhite, false, m.fixed) }

  function ChangeWhite(m: Mark): Mark { m.(white0 := !m.white0, white1 := !m.white1) }

  /** The sweep's survival test: `(marked ^ WHITEBITS) & deadmask`, where `deadmask` is
      `otherwhite(g)` and always contains FIXEDBIT. */
  predicate Survives(currentwhite: bool, m: Mark) { !IsDead(currentwhite, m) || m.fixed }

  // ---------- colours of objects ----------

  predicate White(g: Gc, o: Ref) { o in g.marked && IsWhite(g.marked[o]) }

  predicate Seen(g: Gc, o: Ref) { o in g.marked && !IsWhite(g.marked[o]) }

  predicate Gray(g: Gc, o: Ref) { o in g.marked && IsGray(g.marked[o]) }

  predicate Black(g: Gc, o: Ref) { o in g.marked && IsBlack(g.marked[o]) }

  predicate Dead(g: Gc, o: Ref) { o in g.marked && IsDead(g.currentwhite, g.marked[o]) }

  predicate CurrentWhite(g: Gc, o: Ref) { o in g.marked && IsCurrentWhite(g.currentwhite, g.marked[o]) }

  predicate Fixed(g: Gc, o: Ref) { o in g.marked && g.marked[o].fixed }

  /** Kinds of objects that go through the gray list. */
  predicate Listed(x: Object) { x.Func? || x.Table? || x.Proto? || x.Thread? }

  ghost function Whites(g: Gc): set<Ref> { set o | o in g.marked && IsWhite(g.marked[o]) }

  // ---------- the heap graph ----------

  predicate OnStack(h: map<Ref, Object>, t: Ref, slot: nat) {
    t in h && h[t].Thread? && slot < |h[t].stack|
  }

  /** The values an object holds, in the order the collector visits them. */
  function Content(h: map<Ref, Object>, o: Ref): seq<Value>
    requires o in h
  {
    match h[o]
    case Str(_) => []
    case Udata(mt, env) => [mt, env]
    case Func(fields) => fields
    case Table(fields) => fields
    case Proto(fields) => fields
    case OpenUpval(t, slot) => if OnStack(h, t, slot) then [h[t].stack[slot]] else []
    case ClosedUpval(v) => [v]
    case Thread(globals, stack, _) => [globals] + stack
  }

  ghost predicate Points(h: map<Ref, Object>, o: Ref, c: Ref) {
    o in h && Obj(c) in Content(h, o)
  }

  ghost predicate IsRoot(g: Gc, o: Ref) {
    o == g.mainthread || o == g.running || g.registry == Obj(o) || Obj(o) in g.mt || o in g.held
  }

  ghost predicate IsPath(g: Gc, p: seq<Ref>) {
    |p| > 0 && IsRoot(g, p[0]) && forall i :: 0 <= i < |p| - 1 ==> Points(g.heap, p[i], p[i + 1])
  }

  ghost predicate Reachable(g: Gc, o: Ref) {
    exists p: seq<Ref> :: IsPath(g, p) && p[|p| - 1] == o
  }

  ghost predicate ClosedUnder(h: map<Ref, Object>, s: set<Ref>) {
    forall o, c :: o in s && Points(h, o, c) ==> c in s
  }

  /** A set that holds the roots and is closed under references holds everything reachable. */
  lemma {:induction false} PathStaysInside(g: Gc, s: set<Ref>, p: seq<Ref>)
    requires forall o :: IsRoot(g, o) ==> o in s
    requires ClosedUnder(g.heap, s)
    requires IsPath(g, p)
    ensures p[|p| - 1] in s
    decreases |p|
  {
    if |p| > 1 {
      var q := p[..|p| - 1];
      PathStaysInside(g, s, q);
      assert Points(g.heap, q[|q| - 1], p[|p| - 1]) by { assert Points(g.heap, p[|p| - 2], p[|p| - 2 + 1]); }
    }
  }

  lemma ReachableStaysInside(g: Gc, s: set<Ref>)
    requires forall o :: IsRoot(g, o) ==> o in s
    requires ClosedUnder(g.heap, s)
    ensures forall o :: Reachable(g, o) ==> o in s
  {
    forall o | Reachable(g, o) ensures o in s {
      var p :| IsPath(g, p) && p[|p| - 1] == o;
      PathStaysInside(g, s, p);
    }
  }

  lemma RootIsReachable(g: Gc, o: Ref)
    requires IsRoot(g, o)
    ensures Reachable(g, o)
  {
    assert IsPath(g, [o]);
  }

  lemma PointeeIsReachable(g: Gc, o: Ref, c: Ref)
    requires Reachable(g, o) && Points(g.heap, o, c)
    ensures Reachable(g, c)
  {
    var p :| IsPath(g, p) && p[|p| - 1] == o;
    var q := p + [c];
    forall i | 0 <= i < |q| - 1 ensures Points(g.heap, q[i], q[i + 1]) {
      if i < |p| - 1 { assert Points(g.heap, p[i], p[i + 1]); }
    }
    assert IsPath(g, q);
  }

  // ---------- cardinality of the white set ----------

  lemma WhitesShrink(g: Gc, g': Gc)
    requires Whites(g') <= Whites(g)
    ensures |Whites(g')| <= |Whites(g)|
  {
    assert Whites(g) == Whites(g') + (Whites(g) - Whites(g'));
  }

  lemma WhitesDrop(g: Gc, g': Gc, o: Ref)
    requires White(g, o) && !White(g', o)
    requires Whites(g') <= Whites(g)
    ensures Whites(g') <= Whites(g) - {o}
    ensures |Whites(g')| < |Whites(g)|
  {
    assert Whites(g') <= Whites(g) - {o};
    assert Whites(g) - {o} == Whites(g') + ((Whites(g) - {o}) - Whites(g'));
  }
}
