/**
  What the rest of a cycle frees when the mark phase is under way and the collector goes on alone: everything to
  which neither the roots nor the objects marked so far lead, and nothing else.
  */
module GcCycle {
  import opened GcState
  import opened GcMark
  import opened GcPropagate
  import opened GcInvariant
  import opened GcUpval
  import opened GcSweep
  import opened GcCollector
  import opened GcFullCycle

  /** The state in which the objects marked so far count as roots. */
  ghost function Anchored(g: Gc): Gc { g.(held := set o | o in g.marked && Seen(g, o)) }

  lemma AnchoredClosed(g: Gc)
    requires Inv(g) && g.phase.Propagate? && g.held == {}
    ensures LiveClosed(Anchored(g)) && forall o :: Seen(g, o) ==> IsRoot(Anchored(g), o)
  {
    hide StringTable, OpenUpvals, RootList, TriColour, Colours;
    var r := Anchored(g);
    PropagateHasNoDead(g);
    forall o | IsRoot(r, o) ensures LiveRef(r, o) {
      if o !in r.held { assert IsRoot(g, o) && LiveRef(g, o); }
    }
    forall o, c | LiveRef(r, o) && Points(r.heap, o, c) ensures LiveRef(r, c) { assert LiveRef(g, o) && LiveRef(g, c); }
  }

  /** What is left during the sweep. */
  ghost predicate Sweeping(live: set<Ref>, g: Gc) {
    (forall o :: o in live ==> LiveRef(g, o)) && forall o :: o in g.heap ==> o in live || Fixed(g, o) || Dead(g, o)
  }

  /** `g` is a state of the same cycle, in which `live` is what will be left besides the fixed objects. */
  ghost predicate Collecting(s: Gc, live: set<Ref>, g: Gc) {
    && g.running == s.running && g.mt == s.mt && g.mainthread == s.mainthread && g.registry == s.registry && g.held == {}
    && (forall o :: Fixed(s, o) <==> Fixed(g, o))
    && g.heap.Keys <= s.heap.Keys
    && match g.phase
       case Propagate => g.heap == s.heap && Within(g, live) && forall o :: Seen(s, o) ==> Seen(g, o)
       case SweepString => Sweeping(live, g)
       case Sweep => Sweeping(live, g)
       case _ => (forall o :: o in live ==> o in g.heap) && forall o :: o in g.heap ==> o in live || Fixed(g, o)
  }

  lemma StartCollecting(g: Gc)
    requires Inv(g) && g.phase.Propagate? && g.held == {}
    ensures Collecting(g, LiveSet(Anchored(g)), g)
  {
    AnchoredClosed(g);
    hide Inv, LiveClosed, LiveSet;
    LiveSetClosed(Anchored(g));
    InvParts(g);
    LiveSetInside(Anchored(g));
  }

  lemma LiveSetInside(s: Gc)
    ensures LiveSet(s) <= s.heap.Keys
  {
    hide Reachable;
  }

  lemma MarkCollects(s: Gc, live: set<Ref>, g: Gc)
    requires Inv(g) && Collecting(s, live, g) && g.phase.Propagate? && g.gray != []
    ensures g.gray[0] in g.heap && Collecting(s, live, PropagateMark(g))
  {
    hide StringTable, OpenUpvals, RootList, TriColour, Colours, LiveClosed, ClosedUnder, PropagateMark;
    PropagateStepKeeps(g);
    PropagateMarkKeeps(g, live);
    assert forall o :: Fixed(g, o) <==> Fixed(PropagateMark(g), o);
  }

  lemma AnchorRoots(s: Gc, live: set<Ref>)
    requires Inv(s) && s.phase.Propagate? && s.held == {} && live == LiveSet(Anchored(s))
    ensures s.running in live && forall v :: v in s.mt && v.Obj? ==> v.ref in live
  {
    AnchoredClosed(s);
    hide Inv, LiveClosed, LiveSet;
    LiveSetClosed(Anchored(s));
    assert IsRoot(Anchored(s), s.running);
    forall v | v in s.mt && v.Obj? ensures v.ref in live { assert IsRoot(Anchored(s), v.ref); }
  }

  /** Marked objects are not dead after the flip. */
  lemma MarkedSurvives(g: Gc)
    requires Inv(g) && g.phase.Propagate? && g.held == {}
    ensures forall o :: Seen(g, o) ==> LiveRef(Atomic(g), o)
  {
    hide StringTable, OpenUpvals, RootList, TriColour, Colours, AtomicMark;
    PropagateHasNoDead(g);
    WholeHeapWithin(g);
    RootsInHeap(g);
    UvheadComplete(g);
    AtomicMarkFinishes(g, g.heap.Keys);
  }

  lemma FlipCollects(s: Gc, live: set<Ref>, g: Gc)
    requires Inv(s) && s.phase.Propagate? && s.held == {} && live == LiveSet(Anchored(s))
    requires Inv(g) && Collecting(s, live, g) && g.phase.Propagate?
    ensures g.marked.Keys == g.heap.Keys && Collecting(s, live, Atomic(g))
  {
    hide StringTable, OpenUpvals, RootList, TriColour, Colours, ClosedUnder, Atomic, LiveSet, Points;
    var r := Atomic(g);
    InvParts(g);
    AnchorRoots(s, live);
    AtomicKeeps(g, live);
    AtomicSame(g);
    MarkedSurvives(g);
    AnchoredClosed(s);
    LiveAfterFlip(s, r);
  }

  lemma LiveAfterFlip(s: Gc, r: Gc)
    requires LiveClosed(r) && r.heap == s.heap && LiveClosed(Anchored(s)) && s.held == {}
    requires r.running == s.running && r.mt == s.mt && r.mainthread == s.mainthread && r.registry == s.registry
    requires forall o :: Seen(s, o) ==> LiveRef(r, o)
    ensures forall o :: o in LiveSet(Anchored(s)) ==> LiveRef(r, o)
  {
    var k := set o | o in r.heap && LiveRef(r, o);
    var a := Anchored(s);
    forall o | IsRoot(a, o) ensures o in k {
      if o !in a.held { assert IsRoot(r, o) && LiveRef(r, o); }
    }
    assert ClosedUnder(a.heap, k) by {
      forall o, c | o in k && Points(a.heap, o, c) ensures c in k { assert LiveRef(r, o) && LiveRef(r, c); }
    }
    ReachableStaysInside(a, k);
  }

  /** A part of the sweep. */
  lemma SweepKeepsLive(live: set<Ref>, g: Gc, r: Gc)
    requires Inv(g) && Inv(r) && Sweeping(live, g) && Preserves(g, r) && DeadStays(g, r)
    ensures Sweeping(live, r)
  {
    InvLive(g); InvLive(r);
    DeadShrinking(live, g, r);
    PreservesSame(g, r);
    hide Inv, LiveClosed, DeadStays, Dead, Basics, LiveRef, Preserves, Fixed;
  }

  lemma SweepCollects(s: Gc, live: set<Ref>, g: Gc, r: Gc)
    requires Inv(g) && Inv(r) && Collecting(s, live, g) && (g.phase.SweepString? || g.phase.Sweep?)
    requires Preserves(g, r) && DeadStays(g, r) && (r.phase.SweepString? || r.phase.Sweep?)
    ensures Collecting(s, live, r)
  {
    hide Inv, DeadStays, Preserves, Fixed, Sweeping;
    SweepKeepsLive(live, g, r);
    PreservesSame(g, r);
  }

  lemma PreservesSame(g: Gc, r: Gc)
    requires Preserves(g, r)
    ensures r.mainthread == g.mainthread && r.running == g.running && r.registry == g.registry && r.mt == g.mt && r.held == g.held
    ensures r.heap.Keys <= g.heap.Keys
    ensures forall o :: LiveRef(g, o) ==> LiveRef(r, o)
    ensures forall o :: Fixed(g, o) <==> Fixed(r, o)
  {
    hide Fixed, LiveRef;
    assert forall o :: o in r.heap.Keys ==> o in g.heap.Keys;
  }

  lemma SweptCollects(s: Gc, live: set<Ref>, g: Gc)
    requires Inv(g) && Collecting(s, live, g) && g.phase.Sweep? && g.sweepgc >= |g.rootgc|
    ensures Collecting(s, live, g.(phase := Finalize))
  {
    SweptAll(g);
    hide Inv;
    assert forall o :: Fixed(g, o) <==> Fixed(g.(phase := Finalize), o);
  }

  lemma StepCollects(s: Gc, live: set<Ref>, g: Gc)
    requires Inv(s) && s.phase.Propagate? && s.held == {} && live == LiveSet(Anchored(s))
    requires Inv(g) && Collecting(s, live, g) && !g.phase.Pause?
    ensures g.marked.Keys == g.heap.Keys && Collecting(s, live, SingleStep(g))
  {
    hide Inv, PropagateMark, Atomic, SweepBucket, SweepMany, Preserves, DeadStays, LiveSet;
    InvParts(g);
    assert Release(g) == g;
    match g.phase
    case Propagate =>
      if g.gray != [] { MarkCollects(s, live, g); } else { FlipCollects(s, live, g); }
    case SweepString =>
      SweepBucketKeeps(g);
      BucketPhases(g);
      SweepCollects(s, live, g, SweepBucket(g));
    case Sweep =>
      var r := SweepMany(g, GCSWEEPMAX);
      SweepManyKeeps(g, GCSWEEPMAX);
      SweepManyPhase(g, GCSWEEPMAX);
      SweepCollects(s, live, g, r);
      if r.sweepgc >= |r.rootgc| { SweptCollects(s, live, r); }
    case Finalize =>
      PauseCollects(s, live, g);
  }

  lemma BucketPhases(g: Gc)
    requires g.sweepstrgc < |g.strt|
    ensures SweepBucket(g).phase.SweepString? || SweepBucket(g).phase.Sweep?
  {}

  lemma PauseCollects(s: Gc, live: set<Ref>, g: Gc)
    requires Collecting(s, live, g) && g.phase.Finalize?
    ensures Collecting(s, live, g.(phase := Pause))
  {
    assert forall o :: Fixed(g, o) <==> Fixed(g.(phase := Pause), o);
  }

  lemma {:induction false} UntilPauseCollects(s: Gc, live: set<Ref>, g: Gc)
    requires Inv(s) && s.phase.Propagate? && s.held == {} && live == LiveSet(Anchored(s))
    requires Inv(g) && Collecting(s, live, g)
    ensures Collecting(s, live, StepUntil(g, Pause))
    decreases PhaseRank(g.phase), StepsLeft(g)
  {
    hide Inv, SingleStep, StepsLeft, KeepsReachable, Collecting, LiveSet;
    if g.phase != Pause {
      StepsLeftNat(g);
      SingleStepKeeps(g);
      SingleStepProgress(g);
      SweepDoesNotSkip(g);
      StepCollects(s, live, g);
      UntilPauseCollects(s, live, SingleStep(g));
    }
  }

  /** A cycle that is under way leaves what the roots and the objects marked so far lead to, and the fixed objects. */
  lemma CycleCollectsExactly(g: Gc)
    requires Inv(g) && g.phase.Propagate? && g.held == {}
    ensures var r := StepUntil(g, Pause);
      forall o :: o in r.heap <==> o in g.heap && (Reachable(Anchored(g), o) || Fixed(g, o))
  {
    var r := StepUntil(g, Pause);
    StartCollecting(g);
    hide Inv, Reachable;
    UntilPauseCollects(g, LiveSet(Anchored(g)), g);
    InvParts(r);
    AnchoredInside(g);
  }

  lemma AnchoredInside(g: Gc)
    requires Inv(g) && g.phase.Propagate? && g.held == {}
    ensures forall o :: Reachable(Anchored(g), o) <==> o in LiveSet(Anchored(g))
  {
    AnchoredClosed(g);
    hide Inv, LiveClosed, Reachable;
    LiveSetClosed(Anchored(g));
  }
}
