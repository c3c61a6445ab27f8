/**
  What the missed barrier of `lua_setupvalue` costs: a value that is stored in an upvalue which is black already is
  kept or freed as if the upvalue held nothing.
  */
module GcMissedValue {
  import opened GcState
  import opened GcMark
  import opened GcPropagate
  import opened GcInvariant
  import opened GcUpval
  import opened GcSweep
  import opened GcCollector
  import opened GcFullCycle
  import opened GcMutator
  import opened GcSetUpvalue
  import opened GcCycle

  /** The same state with another value in the upvalue `u`. */
  ghost function Holding(g: Gc, u: Ref, v: Value): Gc { WithObject(g, u, ClosedUpval(v)) }

  ghost predicate IsClosed(g: Gc, u: Ref) { g.marked.Keys == g.heap.Keys && u in g.heap && g.heap[u].ClosedUpval? }

  /** The sweep will not free the upvalue. */
  ghost predicate Safe(g: Gc, u: Ref) { IsClosed(g, u) && !Dead(g, u) }

  // ---------- marking does not look at a black upvalue ----------

  /** The object `o` has been marked with `u` left alone. */
  ghost predicate Alone(g: Gc, r: Gc, u: Ref) { u in g.marked && u in r.marked && r.marked[u] == g.marked[u] && (u in r.gray ==> u in g.gray) }

  lemma {:induction false} ReallyMarkHolding(g: Gc, u: Ref, v: Value, o: Ref)
    requires IsClosed(g, u) && !White(g, u) && White(g, o)
    ensures ReallyMark(Holding(g, u, v), o) == Holding(ReallyMark(g, o), u, v) && Alone(g, ReallyMark(g, o), u)
    decreases |Whites(g)|, 1
  {
    match g.heap[o]
    case Udata(_, _) => UdataHolding(g, u, v, o);
    case ClosedUpval(_) => ClosedHolding(g, u, v, o);
    case OpenUpval(_, _) => OpenHolding(g, u, v, o);
    case _ => LeafHolding(g, u, v, o);
  }

  lemma LeafHolding(g: Gc, u: Ref, v: Value, o: Ref)
    requires IsClosed(g, u) && !White(g, u) && White(g, o) && (g.heap[o].Str? || Listed(g.heap[o]))
    ensures ReallyMark(Holding(g, u, v), o) == Holding(ReallyMark(g, o), u, v) && Alone(g, ReallyMark(g, o), u)
  {
    hide ReallyMark, Whites;
    var h := Holding(g, u, v);
    LeafIs(g, o);
    assert h.heap[o] == g.heap[o];
    LeafIs(h, o);
  }

  lemma LeafIs(g: Gc, o: Ref)
    requires g.marked.Keys <= g.heap.Keys && White(g, o) && (g.heap[o].Str? || Listed(g.heap[o]))
    ensures ReallyMark(g, o) ==
            g.(marked := g.marked[o := White2Gray(g.marked[o])], gray := if g.heap[o].Str? then g.gray else [o] + g.gray)
  {}

  lemma {:induction false} UdataHolding(g: Gc, u: Ref, v: Value, o: Ref)
    requires IsClosed(g, u) && !White(g, u) && White(g, o) && g.heap[o].Udata?
    ensures ReallyMark(Holding(g, u, v), o) == Holding(ReallyMark(g, o), u, v) && Alone(g, ReallyMark(g, o), u)
    decreases |Whites(g)|, 0
  {
    hide ReallyMark, MarkValue;
    var h := Holding(g, u, v);
    var g2 := g.(marked := g.marked[o := Gray2Black(White2Gray(g.marked[o]))]);
    UdataUnfolds(g, g2, o);
    UdataUnfolds(h, Holding(g2, u, v), o);
    Recoloured(g, g2, o);
    MarkValueHolding(g2, u, v, g.heap[o].metatable);
    var g3 := MarkValue(g2, g.heap[o].metatable);
    WhitesShrink(g2, g3);
    MarkValueHolding(g3, u, v, g.heap[o].env);
  }

  lemma Recoloured(g: Gc, r: Gc, o: Ref)
    requires White(g, o) && o in r.marked && r == g.(marked := g.marked[o := r.marked[o]]) && !IsWhite(r.marked[o])
    ensures |Whites(r)| < |Whites(g)|
  {
    WhitesDrop(g, r, o);
  }

  lemma {:induction false} ClosedHolding(g: Gc, u: Ref, v: Value, o: Ref)
    requires IsClosed(g, u) && !White(g, u) && White(g, o) && g.heap[o].ClosedUpval?
    ensures ReallyMark(Holding(g, u, v), o) == Holding(ReallyMark(g, o), u, v) && Alone(g, ReallyMark(g, o), u)
    decreases |Whites(g)|, 0
  {
    var g1 := g.(marked := g.marked[o := White2Gray(g.marked[o])]);
    Recoloured(g, g1, o);
    var w := g.heap[o].value;
    MarkValueHolding(g1, u, v, w);
    var r := MarkValue(g1, w).(marked := MarkValue(g1, w).marked[o := Gray2Black(MarkValue(g1, w).marked[o])]);
    assert ReallyMark(g, o) == r;
    assert ReallyMark(Holding(g, u, v), o) == Holding(r, u, v);
    hide MarkValue, ReallyMark, Whites;
  }

  lemma {:induction false} OpenHolding(g: Gc, u: Ref, v: Value, o: Ref)
    requires IsClosed(g, u) && !White(g, u) && White(g, o) && g.heap[o].OpenUpval?
    ensures ReallyMark(Holding(g, u, v), o) == Holding(ReallyMark(g, o), u, v) && Alone(g, ReallyMark(g, o), u)
    decreases |Whites(g)|, 0
  {
    var g1 := g.(marked := g.marked[o := White2Gray(g.marked[o])]);
    Recoloured(g, g1, o);
    var t, slot := g.heap[o].thread, g.heap[o].slot;
    assert OnStack(Holding(g, u, v).heap, t, slot) == OnStack(g.heap, t, slot);
    if OnStack(g.heap, t, slot) {
      MarkValueHolding(g1, u, v, g.heap[t].stack[slot]);
      assert ReallyMark(g, o) == MarkValue(g1, g.heap[t].stack[slot]);
    }
    hide MarkValue, Whites;
  }

  lemma {:induction false} MarkValueHolding(g: Gc, u: Ref, v: Value, w: Value)
    requires IsClosed(g, u) && !White(g, u)
    ensures MarkValue(Holding(g, u, v), w) == Holding(MarkValue(g, w), u, v) && Alone(g, MarkValue(g, w), u)
    decreases |Whites(g)|, 2
  {
    if w.Obj? && White(g, w.ref) { ReallyMarkHolding(g, u, v, w.ref); }
  }

  lemma {:induction false} MarkAllHolding(g: Gc, u: Ref, v: Value, vs: seq<Value>)
    requires IsClosed(g, u) && !White(g, u)
    ensures MarkAll(Holding(g, u, v), vs) == Holding(MarkAll(g, vs), u, v) && Alone(g, MarkAll(g, vs), u)
    decreases |vs|
  {
    hide MarkValue;
    if vs != [] {
      MarkValueHolding(g, u, v, vs[0]);
      MarkAllHolding(MarkValue(g, vs[0]), u, v, vs[1..]);
    }
  }

  /** The upvalue is black and on no gray list. */
  ghost predicate Hidden(g: Gc, u: Ref) { IsClosed(g, u) && Black(g, u) && !White(g, u) && u !in g.gray && u !in g.grayagain }

  lemma ContentHolding(g: Gc, u: Ref, v: Value, o: Ref)
    requires IsClosed(g, u) && o in g.heap && o != u
    ensures Content(Holding(g, u, v).heap, o) == Content(g.heap, o)
  {
    assert forall t, slot :: OnStack(Holding(g, u, v).heap, t, slot) == OnStack(g.heap, t, slot);
  }

  lemma PropagateHolding(g: Gc, u: Ref, v: Value)
    requires Hidden(g, u) && g.gray != [] && g.gray[0] in g.heap
    ensures PropagateMark(Holding(g, u, v)) == Holding(PropagateMark(g), u, v) && Hidden(PropagateMark(g), u)
  {
    hide MarkAll, Content;
    var o := g.gray[0];
    assert o in g.gray && o != u;
    ContentHolding(g, u, v, o);
    TakeHolding(g, u, v);
    hide TakeGray;
    MarkAllHidden(TakeGray(g), u, v, Content(g.heap, o));
  }

  lemma TakeHolding(g: Gc, u: Ref, v: Value)
    requires Hidden(g, u) && g.gray != [] && g.gray[0] in g.heap
    ensures TakeGray(Holding(g, u, v)) == Holding(TakeGray(g), u, v) && Hidden(TakeGray(g), u) && TakeGray(g).heap == g.heap
  {
    assert g.gray[0] in g.gray;
  }

  lemma {:induction false} PropagateAllHolding(g: Gc, u: Ref, v: Value)
    requires Hidden(g, u)
    ensures PropagateAll(Holding(g, u, v)) == Holding(PropagateAll(g), u, v) && Hidden(PropagateAll(g), u)
    decreases Measure(g)
  {
    hide PropagateMark, Hidden;
    HiddenParts(g, u);
    if g.gray != [] && g.gray[0] in g.heap {
      PropagateHolding(g, u, v);
      PropagateAllHolding(PropagateMark(g), u, v);
    }
  }

  lemma HiddenParts(g: Gc, u: Ref)
    requires Hidden(g, u)
    ensures IsClosed(g, u) && !White(g, u) && !Gray(g, u)
  {}

  lemma MarkAllHidden(g: Gc, u: Ref, v: Value, vs: seq<Value>)
    requires Hidden(g, u)
    ensures MarkAll(Holding(g, u, v), vs) == Holding(MarkAll(g, vs), u, v) && Hidden(MarkAll(g, vs), u)
  {
    hide MarkAll;
    MarkAllHolding(g, u, v, vs);
  }

  lemma {:induction false} RemarkHolding(g: Gc, u: Ref, v: Value, us: seq<Ref>)
    requires Hidden(g, u)
    ensures RemarkUpvals(Holding(g, u, v), us) == Holding(RemarkUpvals(g, us), u, v) && Hidden(RemarkUpvals(g, us), u)
    decreases |us|
  {
    hide MarkAll, Content, Hidden;
    HiddenParts(g, u);
    if us != [] {
      if Gray(g, us[0]) {
        ContentHolding(g, u, v, us[0]);
        MarkAllHidden(g, u, v, Content(g.heap, us[0]));
        RemarkHolding(MarkAll(g, Content(g.heap, us[0])), u, v, us[1..]);
      } else {
        RemarkHolding(g, u, v, us[1..]);
      }
    }
  }

  lemma RootsHolding(g: Gc, u: Ref, v: Value)
    requires Hidden(g, u)
    ensures RootPass(Holding(g, u, v)) == Holding(RootPass(g), u, v) && Hidden(RootPass(g), u)
  {
    hide MarkAll, PropagateAll, MarkValue;
    var g1 := MarkValue(g, Obj(g.running));
    MarkValueHolding(g, u, v, Obj(g.running));
    MarkAllHidden(g1, u, v, g.mt);
    PropagateAllHolding(MarkAll(g1, g.mt), u, v);
  }

  lemma AgainHolding(g: Gc, u: Ref, v: Value)
    requires Hidden(g, u)
    ensures AgainPass(Holding(g, u, v)) == Holding(AgainPass(g), u, v) && Hidden(AgainPass(g), u)
  {
    hide PropagateAll;
    PropagateAllHolding(g.(gray := g.grayagain, grayagain := []), u, v);
  }

  lemma FlipHolding(g: Gc, u: Ref, v: Value)
    requires Hidden(g, u)
    ensures g.marked.Keys == g.heap.Keys
    ensures Atomic(Holding(g, u, v)) == Holding(Atomic(g), u, v) && Safe(Atomic(g), u)
  {
    hide RemarkUpvals, PropagateAll, RootPass, AgainPass, Hidden;
    HiddenParts(g, u);
    RemarkHolding(g, u, v, g.uvhead);
    var a := RemarkUpvals(g, g.uvhead);
    PropagateAllHolding(a, u, v);
    var b := RemarkPass(g);
    RootsHolding(b, u, v);
    AgainHolding(RootPass(b), u, v);
    HiddenParts(AtomicMark(g), u);
  }

  // ---------- nor does the sweep ----------

  lemma BucketHolding(g: Gc, u: Ref, v: Value)
    requires Safe(g, u) && g.sweepstrgc < |g.strt|
    ensures SweepBucket(Holding(g, u, v)) == Holding(SweepBucket(g), u, v) && Safe(SweepBucket(g), u)
  {
    var xs := g.strt[g.sweepstrgc];
    SameSweep(g, u, v, xs);
    hide Keep, Doomed, SweepMarks;
    MapLess(g.heap, u, ClosedUpval(v), Doomed(g, xs));
  }

  lemma MapLess(h: map<Ref, Object>, u: Ref, x: Object, d: set<Ref>)
    requires u !in d
    ensures h[u := x] - d == (h - d)[u := x]
  {}

  lemma MapSwap(h: map<Ref, Object>, u: Ref, x: Object, t: Ref, y: Object)
    requires u != t
    ensures h[u := x][t := y] == h[t := y][u := x]
  {}

  lemma UnlinkedHolding(g: Gc, u: Ref, v: Value, t: Ref)
    requires IsClosed(g, u) && HasOpen(g, t, 0)
    ensures HasOpen(Holding(g, u, v), t, 0) && Unlinked(Holding(g, u, v), t) == Holding(Unlinked(g, t), u, v)
    ensures g.heap[t].openupval[0] != u && u != t
  {
    hide Keep;
  }

  lemma HasOpenHolding(g: Gc, u: Ref, v: Value, t: Ref, level: int)
    requires IsClosed(g, u)
    ensures HasOpen(Holding(g, u, v), t, level) == HasOpen(g, t, level)
  {}

  lemma LinkHolding(g: Gc, u: Ref, v: Value, w: Ref)
    requires Safe(g, u) && w in g.heap && g.heap[w].ClosedUpval? && w != u && !g.phase.Propagate?
    ensures LinkUpval(Holding(g, u, v), w) == Holding(LinkUpval(g, w), u, v)
    ensures Safe(LinkUpval(g, w), u) && LinkUpval(g, w).phase == g.phase
  {
    LinkQuiet(g, w);
    LinkQuiet(Holding(g, u, v), w);
    hide LinkUpval;
  }

  lemma CloseOneHolding(g: Gc, u: Ref, v: Value, t: Ref)
    requires Safe(g, u) && HasOpen(g, t, 0) && !g.phase.Propagate?
    ensures HasOpen(Holding(g, u, v), t, 0)
    ensures CloseOne(Holding(g, u, v), t) == Holding(CloseOne(g, t), u, v)
    ensures Safe(CloseOne(g, t), u) && CloseOne(g, t).phase == g.phase
  {
    var w := g.heap[t].openupval[0];
    var h := Holding(g, u, v);
    UnlinkedHolding(g, u, v, t);
    var g1 := Unlinked(g, t);
    if Dead(g, w) {
      MapLess(g1.heap, u, ClosedUpval(v), {w});
    } else {
      var x := ClosedUpval(g.heap[t].stack[g.heap[w].slot]);
      var g2 := g1.(heap := g1.heap[w := x]);
      assert Holding(g1, u, v).heap[w := x] == g2.heap[u := ClosedUpval(v)];
      hide LinkUpval, Unlinked;
      LinkHolding(g2, u, v, w);
      assert CloseOne(g, t) == LinkUpval(g2, w);
      assert CloseOne(h, t) == LinkUpval(Holding(g2, u, v), w);
    }
  }

  lemma {:induction false} CloseHolding(g: Gc, u: Ref, v: Value, t: Ref)
    requires Safe(g, u) && !g.phase.Propagate?
    ensures CloseUpvals(Holding(g, u, v), t, 0) == Holding(CloseUpvals(g, t, 0), u, v) && Safe(CloseUpvals(g, t, 0), u)
    decreases if t in g.heap && g.heap[t].Thread? then |g.heap[t].openupval| else 0
  {
    hide CloseOne;
    HasOpenHolding(g, u, v, t, 0);
    if HasOpen(g, t, 0) {
      CloseOneShape(g, t);
      CloseOneHolding(g, u, v, t);
      CloseHolding(CloseOne(g, t), u, v, t);
    }
  }

  /** The sweep of a list looks at marks only. */
  lemma SameSweep(g: Gc, u: Ref, v: Value, xs: seq<Ref>)
    requires Safe(g, u)
    ensures Doomed(Holding(g, u, v), xs) == Doomed(g, xs) && SweepMarks(Holding(g, u, v), xs) == SweepMarks(g, xs)
    ensures u !in Doomed(g, xs) && u in SweepMarks(g, xs) && !IsDead(g.currentwhite, SweepMarks(g, xs)[u])
    ensures SweepMarks(g, xs).Keys == g.heap.Keys - Doomed(g, xs)
  {}

  lemma SweepOpenHolding(g: Gc, u: Ref, v: Value, t: Ref)
    requires Safe(g, u) && t in g.heap && g.heap[t].Thread? && t !in Doomed(g, g.heap[t].openupval)
    ensures SweepOpen(Holding(g, u, v), t) == Holding(SweepOpen(g, t), u, v) && Safe(SweepOpen(g, t), u)
    ensures SweepOpen(g, t).phase == g.phase && t in SweepOpen(g, t).heap
  {
    var us := g.heap[t].openupval;
    SameSweep(g, u, v, us);
    hide Keep, Doomed, SweepMarks;
    var d := Doomed(g, us);
    var y := g.heap[t].(openupval := Keep(us, d));
    MapLess(g.heap[t := y], u, ClosedUpval(v), d);
    MapSwap(g.heap, u, ClosedUpval(v), t, y);
  }

  lemma FreeHolding(g: Gc, u: Ref, v: Value, o: Ref)
    requires Safe(g, u) && o in g.heap && o != u && !g.phase.Propagate?
    ensures FreeObject(Holding(g, u, v), o) == Holding(FreeObject(g, o), u, v) && Safe(FreeObject(g, o), u)
  {
    hide CloseUpvals;
    var g1 := Unlink(g, o);
    assert Unlink(Holding(g, u, v), o) == Holding(g1, u, v);
    CloseHolding(g1, u, v, o);
    var g2 := if g.heap[o].Thread? then CloseUpvals(g1, o, 0) else g1;
    MapLess(g2.heap, u, ClosedUpval(v), {o});
  }

  /** The object at the sweep pointer, after its open upvalues have been swept if it is a thread. */
  ghost function Opened(g: Gc, o: Ref): Gc
    requires o in g.heap
  {
    if g.heap[o].Thread? then SweepOpen(g, o) else g
  }

  lemma OpenedHolding(g: Gc, u: Ref, v: Value, o: Ref)
    requires Safe(g, u) && o in g.heap && (g.heap[o].Thread? ==> o !in Doomed(g, g.heap[o].openupval)) && !g.phase.Propagate?
    ensures o in Holding(g, u, v).heap && Opened(Holding(g, u, v), o) == Holding(Opened(g, o), u, v)
    ensures Safe(Opened(g, o), u) && o in Opened(g, o).heap && !Opened(g, o).phase.Propagate?
  {
    hide SweepOpen, Doomed, Dead;
    if g.heap[o].Thread? { SweepOpenHolding(g, u, v, o); }
  }

  lemma OneSwept(g: Gc)
    requires CanSweep(g)
    ensures var o := g.rootgc[g.sweepgc];
      && o in g.heap && (g.heap[o].Thread? ==> o !in Doomed(g, g.heap[o].openupval))
      && var g1 := Opened(g, o);
      && o in g1.heap && g1.marked.Keys == g1.heap.Keys
      && SweepOne(g) ==
         if Survives(g1.currentwhite, g1.marked[o])
         then g1.(marked := g1.marked[o := MakeWhite(g1.currentwhite, g1.marked[o])], sweepgc := g1.sweepgc + 1)
         else FreeObject(g1, o)
  {
    hide FreeObject;
  }

  lemma WhitenHolding(g: Gc, u: Ref, o: Ref, n: nat)
    requires Safe(g, u) && o in g.marked
    ensures Safe(g.(marked := g.marked[o := MakeWhite(g.currentwhite, g.marked[o])], sweepgc := n), u)
  {}

  lemma SweepOneHolding(g: Gc, u: Ref, v: Value)
    requires Safe(g, u) && CanSweep(g) && !g.phase.Propagate?
    ensures CanSweep(Holding(g, u, v)) && SweepOne(Holding(g, u, v)) == Holding(SweepOne(g), u, v) && Safe(SweepOne(g), u)
  {
    hide FreeObject, SweepOpen, SweepOne, Doomed, Opened;
    var o := g.rootgc[g.sweepgc];
    CanSweepHolding(g, u, v);
    OneSwept(g);
    OneSwept(Holding(g, u, v));
    OpenedHolding(g, u, v, o);
    var g1 := Opened(g, o);
    if Survives(g1.currentwhite, g1.marked[o]) { WhitenHolding(g1, u, o, g1.sweepgc + 1); } else { FreeHolding(g1, u, v, o); }
  }

  lemma {:induction false} SweepManyHolding(g: Gc, u: Ref, v: Value, count: nat)
    requires Safe(g, u) && g.phase.Sweep?
    ensures SweepMany(Holding(g, u, v), count) == Holding(SweepMany(g, count), u, v) && Safe(SweepMany(g, count), u)
    decreases count
  {
    hide SweepOne, Safe;
    CanSweepHolding(g, u, v);
    if count > 0 && CanSweep(g) {
      SweepOneHolding(g, u, v);
      SweepOnePhase(g);
      SweepManyHolding(SweepOne(g), u, v, count - 1);
    }
  }

  lemma CanSweepHolding(g: Gc, u: Ref, v: Value)
    requires Safe(g, u)
    ensures CanSweep(Holding(g, u, v)) == CanSweep(g)
  {}

  // ---------- the rest of the cycle ----------

  /** The upvalue has been passed by in this cycle. */
  ghost predicate Passed(g: Gc, u: Ref) {
    if g.phase.Propagate? then Hidden(g, u) else Safe(g, u)
  }

  lemma StepHolding(g: Gc, u: Ref, v: Value)
    requires Inv(g) && Passed(g, u) && !g.phase.Pause?
    ensures g.marked.Keys == g.heap.Keys
    ensures SingleStep(Holding(g, u, v)) == Holding(SingleStep(g), u, v) && Passed(SingleStep(g), u)
  {
    hide Inv, PropagateMark, Atomic, SweepBucket, SweepMany, Hidden, Safe;
    InvParts(g);
    PassedThere(g, u);
    var g0 := Release(g);
    assert Release(Holding(g, u, v)) == Holding(g0, u, v);
    ReleasePassed(g, u);
    match g.phase
    case Propagate =>
      if g.gray != [] && g.gray[0] in g.heap { PropagateHolding(g0, u, v); } else { FlipHolding(g0, u, v); AtomicPhase(g0); }
    case SweepString =>
      BucketHolding(g0, u, v);
      BucketPhases(g0);
    case Sweep =>
      SweepManyHolding(g0, u, v, GCSWEEPMAX);
      SweepManyPhase(g0, GCSWEEPMAX);
      PhasePassed(SweepMany(g0, GCSWEEPMAX), u, Finalize);
    case Finalize =>
      PhasePassed(g0, u, Pause);
  }

  lemma ReleasePassed(g: Gc, u: Ref)
    requires Passed(g, u)
    ensures Passed(Release(g), u)
  {}

  lemma PhasePassed(g: Gc, u: Ref, p: Phase)
    requires Safe(g, u) && !p.Propagate?
    ensures Passed(g.(phase := p), u)
  {}

  /** The steps that are left in a cycle. */
  ghost function CycleLength(g: Gc): nat
    requires Inv(g)
    decreases PhaseRank(g.phase), StepsLeft(g)
  {
    hide Inv, SingleStep, StepsLeft, KeepsReachable;
    if g.phase.Pause? then 0
    else
      StepsLeftNat(g);
      SingleStepKeeps(g);
      SingleStepProgress(g);
      SweepDoesNotSkip(g);
      1 + CycleLength(SingleStep(g))
  }

  lemma {:induction false} CycleHolding(g: Gc, u: Ref, v: Value)
    requires Inv(g) && Passed(g, u)
    ensures Steps(Holding(g, u, v), CycleLength(g)) == Holding(StepUntil(g, Pause), u, v) && u in StepUntil(g, Pause).heap
    decreases PhaseRank(g.phase), StepsLeft(g)
  {
    hide Inv, SingleStep, StepsLeft, KeepsReachable, Passed, Steps;
    if g.phase.Pause? {
      PassedThere(g, u);
      NoSteps(Holding(g, u, v));
    } else {
      StepsLeftNat(g);
      SingleStepKeeps(g);
      SingleStepProgress(g);
      SweepDoesNotSkip(g);
      StepHolding(g, u, v);
      PassedThere(g, u);
      StepsAdd(Holding(g, u, v), Holding(SingleStep(g), u, v), CycleLength(g));
      CycleHolding(SingleStep(g), u, v);
    }
  }

  lemma PassedThere(g: Gc, u: Ref)
    requires Passed(g, u)
    ensures IsClosed(g, u) && Holding(g, u, Plain).marked.Keys == Holding(g, u, Plain).heap.Keys
  {}

  lemma NoSteps(g: Gc)
    ensures Steps(g, 0) == g
  {}

  // ---------- the missed barrier ----------

  /** The same call with a value that needs no barrier. */
  ghost function WithNil(g: Gc, cl: Ref, u: Ref): Gc
    requires g.marked.Keys == g.heap.Keys && cl in g.heap && IsUpval(g, u)
  {
    Release(ApiSetUpvalue(g, cl, u, Plain))
  }

  /** A black upvalue is closed and on no gray list. */
  lemma BlackIsHidden(g: Gc, u: Ref)
    requires Inv(g) && g.phase.Propagate? && IsUpval(g, u) && Black(g, u)
    ensures Hidden(g, u)
  {
    BlackIsClosed(g, u);
    hide LiveClosed, StringTable, OpenUpvals, RootList, BlackClosed, GrayPending, NoDead, NoDup;
    InvParts(g);
    assert forall o :: o in g.gray || o in g.grayagain ==> Gray(g, o);
  }

  /** The store, with any value. */
  lemma StoredInHidden(g: Gc, cl: Ref, u: Ref, v: Value)
    requires Hidden(g, u) && cl in g.heap && IsUpval(g, u) && (v.Obj? ==> !Black(g, cl))
    ensures ApiSetUpvalue(g, cl, u, v) == Holding(g, u, v) && Hidden(Holding(g, u, v), u)
  {
    hide BarrierForward;
  }

  lemma MissedIsHidden(g: Gc, cl: Ref, u: Ref, v: Value)
    requires Inv(g) && cl in g.heap && g.heap[cl].Func? && IsUpval(g, u) && MissedBarrier(g, cl, u, v)
    ensures g.marked.Keys == g.heap.Keys
    ensures var b := WithNil(g, cl, u);
      && Inv(b) && Hidden(b, u) && Release(ApiSetUpvalue(g, cl, u, v)) == Holding(b, u, v)
      && b.phase.Propagate? && b.held == {} && b.heap.Keys == g.heap.Keys
  {
    hide Inv, ApiSetUpvalue, Hidden;
    InvParts(g);
    BlackIsHidden(g, u);
    HiddenParts(g, u);
    ClosedStoreKeeps(g, cl, u, Plain);
    ReleaseKeeps(ApiSetUpvalue(g, cl, u, Plain));
    StoredInHidden(g, cl, u, Plain);
    StoredInHidden(g, cl, u, v);
    ReleasePassed(Holding(g, u, Plain), u);
    assert Holding(Release(Holding(g, u, Plain)), u, v) == Release(Holding(g, u, v)) by { HoldingTwice(g, u, v); }
  }

  lemma HoldingTwice(g: Gc, u: Ref, v: Value)
    ensures Holding(Release(Holding(g, u, Plain)), u, v) == Release(Holding(g, u, v))
  {
    assert g.heap[u := ClosedUpval(Plain)][u := ClosedUpval(v)] == g.heap[u := ClosedUpval(v)];
  }

  lemma LiveIsThere(g: Gc, o: Ref)
    requires LiveRef(g, o)
    ensures o in g.heap
  {}

  /** A value that misses the barrier is freed by the end of the cycle, if the collector goes on alone, if and only if
      neither the roots nor the objects marked so far lead to it when the upvalue holds nil in its place. */
  lemma MissedValueIsFreedIff(g: Gc, cl: Ref, u: Ref, v: Ref)
    requires Inv(g) && cl in g.heap && g.heap[cl].Func? && IsUpval(g, u) && LiveRef(g, v) && MissedBarrier(g, cl, u, Obj(v))
    ensures g.marked.Keys == g.heap.Keys
    ensures var b := WithNil(g, cl, u);
      && Inv(b)
      && var r := Steps(Release(ApiSetUpvalue(g, cl, u, Obj(v))), CycleLength(b));
      && r.phase.Pause? && u in r.heap && r.heap[u] == ClosedUpval(Obj(v))
      && (v !in r.heap <==> !Reachable(Anchored(b), v) && !Fixed(b, v))
  {
    hide Inv, ApiSetUpvalue, Reachable, Steps, CycleLength, Hidden, LiveRef;
    InvParts(g);
    MissedIsHidden(g, cl, u, Obj(v));
    LiveIsThere(g, v);
    var b := WithNil(g, cl, u);
    CycleHolding(b, u, Obj(v));
    CycleCollectsExactly(b);
  }
}
