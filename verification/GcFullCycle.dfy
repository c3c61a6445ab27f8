/**
  `luaC_fullgc` (lgc.c:636-659): from any state it ends, and what is left is exactly what was reachable
  or fixed, all in the current white.
  */
module GcFullCycle {
  import opened GcState
  import opened GcMark
  import opened GcPropagate
  import opened GcInvariant
  import opened GcUpval
  import opened GcSweep
  import opened GcCollector

  lemma StepsLeftNat(g: Gc)
    requires Inv(g)
    ensures StepsLeft(g) >= 0
  {
    hide StringTable, OpenUpvals, RootList, Colours, LiveClosed, TriColour, StringsSwept;
  }

  /** The loops of `luaC_fullgc`: single steps until a phase is reached. */
  ghost function StepUntil(g: Gc, goal: Phase): (r: Gc)
    requires Inv(g) && (goal.Pause? || (goal.Finalize? && !g.phase.Pause?))
    ensures Inv(r) && r.phase == goal
    decreases PhaseRank(g.phase), StepsLeft(g)
  {
    hide Inv, SingleStep, StepsLeft, KeepsReachable;
    if g.phase == goal then g
    else
      StepsLeftNat(g);
      SingleStepKeeps(g);
      SingleStepProgress(g);
      SweepDoesNotSkip(g);
      StepUntil(SingleStep(g), goal)
  }

  /** Steps of the collector with nothing of the program in between. */
  ghost function Steps(g: Gc, n: nat): Gc
    decreases n
  {
    if n == 0 || g.marked.Keys != g.heap.Keys then g else Steps(SingleStep(g), n - 1)
  }

  lemma StepsAdd(g: Gc, r: Gc, n: nat)
    requires n > 0 && g.marked.Keys == g.heap.Keys && SingleStep(g) == r
    ensures Steps(g, n) == Steps(r, n - 1)
  {}

  lemma SweepDoesNotSkip(g: Gc)
    requires g.marked.Keys == g.heap.Keys
    ensures SingleStep(g).phase.Pause? ==> g.phase.Finalize?
  {
    hide PropagateMark, Atomic, SweepBucket, SweepMany, MarkRoot;
    if g.phase.Sweep? { SweepManyPhase(Release(g), GCSWEEPMAX); }
    if g.phase.Propagate? { AtomicPhase(Release(g)); }
    if g.phase.SweepString? && g.sweepstrgc < |g.strt| { BucketPhase(Release(g)); }
  }

  lemma BucketPhase(g: Gc)
    requires g.sweepstrgc < |g.strt|
    ensures !SweepBucket(g).phase.Pause?
  {}

  lemma {:induction false} SweepManyPhase(g: Gc, count: nat)
    requires g.phase.Sweep?
    ensures SweepMany(g, count).phase.Sweep?
    decreases count
  {
    if count > 0 && CanSweep(g) {
      SweepOnePhase(g);
      SweepManyPhase(SweepOne(g), count - 1);
    }
  }

  lemma SweepOnePhase(g: Gc)
    requires CanSweep(g)
    ensures SweepOne(g).phase == g.phase
  {
    hide FreeObject, Doomed;
    var o := g.rootgc[g.sweepgc];
    var g1 := if g.heap[o].Thread? then SweepOpen(g, o) else g;
    if !Survives(g1.currentwhite, g1.marked[o]) {
      FreePhase(g1, o);
    }
  }

  /** `luaC_fullgc` starts by sweeping everything back to white if a mark phase was under way. */
  ghost function ResetSweep(g: Gc): Gc {
    if g.phase.Pause? || g.phase.Propagate?
    then g.(sweepstrgc := 0, sweepgc := 0, gray := [], grayagain := [], phase := SweepString)
    else g
  }

  lemma ResetKeeps(g: Gc)
    requires Inv(g)
    ensures Inv(ResetSweep(g)) && !ResetSweep(g).phase.Pause?
  {
    hide StringTable, OpenUpvals, RootList, TriColour, Colours;
    var r := ResetSweep(g);
    SameLists(g, r);
    assert LiveClosed(r) by {
      forall o | IsRoot(r, o) ensures LiveRef(r, o) { assert IsRoot(g, o) && LiveRef(g, o); }
      forall o, c | LiveRef(r, o) && Points(r.heap, o, c) ensures LiveRef(r, c) { assert LiveRef(g, o) && LiveRef(g, c); }
    }
    TableNotEmpty(g);
  }

  ghost function FullGc(g: Gc): (r: Gc)
    requires Inv(g)
    ensures Inv(r) && r.phase == Pause
  {
    hide Inv, ResetSweep, MarkRoot;
    ReleaseKeeps(g);
    ResetKeeps(Release(g));
    var g2 := StepUntil(ResetSweep(Release(g)), Finalize);
    InvParts(g2);
    MarkRootStepKeeps(g2);
    StepUntil(MarkRoot(g2), Pause)
  }

  // ---------- what a full collection leaves ----------

  ghost function LiveSet(s: Gc): set<Ref> { set o | o in s.heap && Reachable(s, o) }

  /** `g` is a later state than `s` with nothing of the mutator in between. */
  ghost predicate Follows(s: Gc, g: Gc) {
    && g.mainthread == s.mainthread && g.running == s.running && g.registry == s.registry && g.mt == s.mt && g.held == s.held
    && g.heap.Keys <= s.heap.Keys
    && (forall o :: o in LiveSet(s) ==> o in g.heap && Content(g.heap, o) == Content(s.heap, o))
    && (forall o :: Fixed(s, o) <==> Fixed(g, o))
  }

  lemma LiveSetClosed(s: Gc)
    requires LiveClosed(s)
    ensures ClosedUnder(s.heap, LiveSet(s))
    ensures forall o :: IsRoot(s, o) ==> o in LiveSet(s)
    ensures forall o :: Reachable(s, o) <==> o in LiveSet(s)
  {
    ReachableIsLive(s);
    forall o, c | o in LiveSet(s) && Points(s.heap, o, c) ensures c in LiveSet(s) {
      PointeeIsReachable(s, o, c);
    }
    forall o | IsRoot(s, o) ensures o in LiveSet(s) { RootIsReachable(s, o); }
  }

  /** In the later state the objects that were reachable are closed under references and not dead. */
  lemma LiveSetStays(s: Gc, g: Gc)
    requires LiveClosed(s) && LiveClosed(g) && Follows(s, g)
    ensures ClosedUnder(g.heap, LiveSet(s))
    ensures forall o :: IsRoot(g, o) ==> o in LiveSet(s)
    ensures forall o :: o in LiveSet(s) ==> LiveRef(g, o)
  {
    LiveSetClosed(s);
    var live := LiveSet(s);
    forall o, c | o in live && Points(g.heap, o, c) ensures c in live {
      assert Points(s.heap, o, c);
    }
    forall o | IsRoot(g, o) ensures o in live { assert IsRoot(s, o); }
    var k := set o | o in live && LiveRef(g, o);
    assert ClosedUnder(s.heap, k) by {
      forall o, c | o in k && Points(s.heap, o, c) ensures c in k {
        assert Points(g.heap, o, c) && LiveRef(g, o);
        assert LiveRef(g, c);
      }
    }
    forall o | IsRoot(s, o) ensures o in k { assert IsRoot(g, o) && LiveRef(g, o); }
    ReachableStaysInside(s, k);
  }

  lemma FollowsByPreserving(s: Gc, g: Gc, r: Gc)
    requires LiveClosed(s) && LiveClosed(g) && Follows(s, g) && Preserves(g, r)
    ensures Follows(s, r)
  {
    LiveSetStays(s, g);
    forall o | o in LiveSet(s) ensures o in r.heap && Content(r.heap, o) == Content(s.heap, o) {
      assert LiveRef(g, o);
    }
    forall o | o in r.heap.Keys ensures o in s.heap.Keys { assert o in g.heap; }
  }

  lemma FollowsSameHeap(s: Gc, g: Gc, r: Gc)
    requires Follows(s, g) && r.heap == g.heap && r.held == g.held
    requires r.mainthread == g.mainthread && r.running == g.running && r.registry == g.registry && r.mt == g.mt
    requires forall o :: Fixed(g, o) <==> Fixed(r, o)
    ensures Follows(s, r)
  {}

  /** In each phase of the second half of a full collection, what may still be freed is dead. */
  ghost predicate Shrinking(s: Gc, g: Gc) {
    match g.phase
    case Propagate => Within(g, LiveSet(s))
    case SweepString => forall o :: o in g.heap ==> o in LiveSet(s) || Fixed(g, o) || Dead(g, o)
    case Sweep => forall o :: o in g.heap ==> o in LiveSet(s) || Fixed(g, o) || Dead(g, o)
    case Finalize => forall o :: o in g.heap ==> o in LiveSet(s) || Fixed(g, o)
    case Pause => forall o :: o in g.heap ==> o in LiveSet(s) || Fixed(g, o)
  }

  lemma OnlyMarksFollows(s: Gc, g: Gc, r: Gc)
    requires Follows(s, g) && OnlyMarks(g, r) && Basics(g) && Basics(r)
    ensures Follows(s, r)
  {
    assert forall o :: Fixed(g, o) <==> Fixed(r, o);
    FollowsSameHeap(s, g, r);
  }

  lemma DeadShrinking(live: set<Ref>, g: Gc, r: Gc)
    requires Basics(g) && Basics(r) && Preserves(g, r) && DeadStays(g, r)
    requires forall o :: o in g.heap ==> o in live || Fixed(g, o) || Dead(g, o)
    ensures forall o :: o in r.heap ==> o in live || Fixed(r, o) || Dead(r, o)
  {
    forall o | o in r.heap ensures o in live || Fixed(r, o) || Dead(r, o) {
      if o !in live && !Fixed(r, o) {
        assert o in g.heap && !Fixed(g, o) && Dead(g, o);
        assert !Survives(g.currentwhite, g.marked[o]);
      }
    }
  }

  lemma InvLive(g: Gc)
    requires Inv(g)
    ensures LiveClosed(g) && Basics(g)
  {}

  lemma PropagateShrinks(s: Gc, g: Gc)
    requires Inv(s) && Inv(g) && g.held == {} && Follows(s, g) && Shrinking(s, g) && g.phase.Propagate?
    requires g.gray != []
    ensures g.gray[0] in g.heap
    ensures Follows(s, PropagateMark(g)) && Shrinking(s, PropagateMark(g)) && PropagateMark(g).phase.Propagate?
  {
    hide StringTable, OpenUpvals, RootList, TriColour, Colours, LiveClosed, Follows, ClosedUnder, PropagateMark;
    PropagateStepKeeps(g);
    PropagateMarkKeeps(g, LiveSet(s));
    OnlyMarksFollows(s, g, PropagateMark(g));
  }

  lemma AtomicShrinks(s: Gc, g: Gc)
    requires Inv(s) && Inv(g) && g.held == {} && Follows(s, g) && Shrinking(s, g) && g.phase.Propagate?
    ensures Follows(s, Atomic(g)) && Shrinking(s, Atomic(g))
  {
    hide StringTable, OpenUpvals, RootList, TriColour, Colours, ClosedUnder, Atomic, LiveClosed, Follows;
    LiveRoots(s, g);
    AtomicKeeps(g, LiveSet(s));
    AtomicSame(g);
    FollowsSameHeap(s, g, Atomic(g));
  }

  lemma AtomicSame(g: Gc)
    requires g.marked.Keys == g.heap.Keys
    ensures var r := Atomic(g);
            && r.held == g.held && r.mainthread == g.mainthread && r.running == g.running
            && r.registry == g.registry && r.mt == g.mt
  {
    hide AtomicMark;
  }

  lemma LiveRoots(s: Gc, g: Gc)
    requires LiveClosed(s) && LiveClosed(g) && Follows(s, g)
    ensures g.running in LiveSet(s) && g.mainthread in LiveSet(s)
    ensures g.registry.Obj? ==> g.registry.ref in LiveSet(s)
    ensures forall v :: v in g.mt && v.Obj? ==> v.ref in LiveSet(s)
  {
    hide Follows;
    LiveSetStays(s, g);
    assert IsRoot(g, g.running) && IsRoot(g, g.mainthread);
    if g.registry.Obj? { assert IsRoot(g, g.registry.ref); }
    forall v | v in g.mt && v.Obj? ensures v.ref in LiveSet(s) { assert IsRoot(g, v.ref); }
  }

  lemma SweepShrinks(s: Gc, g: Gc)
    requires Inv(s) && Inv(g) && g.held == {} && Follows(s, g) && Shrinking(s, g) && g.phase.Sweep?
    ensures var r := SingleStep(g); Follows(s, r) && Shrinking(s, r)
  {
    hide Inv, Follows, Preserves, DeadStays, SweepMany, Basics, LiveClosed, Dead, LiveSet,
         MarkRoot, PropagateMark, Atomic, SweepBucket;
    InvLive(s); InvLive(g);
    var r := SweepMany(g, GCSWEEPMAX);
    assert Release(g) == g;
    SweepManyKeeps(g, GCSWEEPMAX);
    InvLive(r);
    FollowsByPreserving(s, g, r);
    DeadShrinking(LiveSet(s), g, r);
    if r.sweepgc >= |r.rootgc| {
      SweptAll(r);
      FollowsSameHeap(s, r, r.(phase := Finalize));
      assert forall o :: Fixed(r, o) <==> Fixed(r.(phase := Finalize), o);
    }
  }

  lemma SweptAll(g: Gc)
    requires Inv(g) && g.phase.Sweep? && g.sweepgc >= |g.rootgc|
    ensures forall o :: !Dead(g, o)
  {
    hide StringTable, OpenUpvals, RootList, Colours, LiveClosed, PhaseOk;
    EverythingSwept(g);
    NoneDead(g);
  }

  lemma BucketShrinks(s: Gc, g: Gc)
    requires Inv(s) && Inv(g) && g.held == {} && Follows(s, g) && Shrinking(s, g) && g.phase.SweepString?
    ensures var r := SingleStep(g); Follows(s, r) && Shrinking(s, r)
  {
    hide Inv, Follows, Preserves, DeadStays, Basics, LiveClosed, SweepMarks, Doomed, Keep, Fixed, Dead, LiveSet,
         MarkRoot, PropagateMark, Atomic, SweepMany;
    InvLive(s); InvLive(g); InvParts(g);
    var r := SweepBucket(g);
    assert Release(g) == g;
    SweepBucketKeeps(g);
    InvLive(r);
    FollowsByPreserving(s, g, r);
    DeadShrinking(LiveSet(s), g, r);
  }

  lemma SingleStepShrinks(s: Gc, g: Gc)
    requires Inv(s) && Inv(g) && g.held == {} && Follows(s, g) && Shrinking(s, g) && !g.phase.Pause?
    ensures g.marked.Keys == g.heap.Keys
    ensures var r := SingleStep(g); Follows(s, r) && Shrinking(s, r)
  {
    hide Inv, Follows, Shrinking, PropagateMark, Atomic, SweepBucket, SweepMany, MarkRoot;
    InvParts(g);
    assert Release(g) == g;
    match g.phase
    case Propagate =>
      if g.gray != [] { PropagateShrinks(s, g); } else { AtomicShrinks(s, g); }
    case SweepString => BucketShrinks(s, g);
    case Sweep => SweepShrinks(s, g);
    case Finalize => FinalizeShrinks(s, g);
  }

  lemma FinalizeShrinks(s: Gc, g: Gc)
    requires Follows(s, g) && Shrinking(s, g) && g.phase.Finalize?
    ensures Follows(s, g.(phase := Pause)) && Shrinking(s, g.(phase := Pause))
  {
    var r := g.(phase := Pause);
    assert forall o :: Fixed(g, o) <==> Fixed(r, o);
    FollowsSameHeap(s, g, r);
  }

  lemma StepReleases(g: Gc)
    requires g.marked.Keys == g.heap.Keys
    requires Inv(g)
    ensures SingleStep(g).held == {}
  {
    hide Inv, PropagateMark, SweepMany, MarkRoot, Atomic;
    var g0 := Release(g);
    ReleaseKeeps(g);
    match g.phase
    case Sweep => SweepManyKeeps(g0, GCSWEEPMAX);
    case Propagate => AtomicSame(g0);
    case SweepString => InvParts(g);
    case _ =>
  }

  lemma {:induction false} UntilPauseShrinks(s: Gc, g: Gc)
    requires Inv(s) && Inv(g) && g.held == {} && Follows(s, g) && Shrinking(s, g)
    ensures var r := StepUntil(g, Pause); Follows(s, r) && Shrinking(s, r)
    decreases PhaseRank(g.phase), StepsLeft(g)
  {
    hide Inv, SingleStep, StepsLeft, KeepsReachable, Follows, Shrinking;
    if g.phase != Pause {
      StepsLeftNat(g);
      SingleStepKeeps(g);
      SingleStepProgress(g);
      SweepDoesNotSkip(g);
      SingleStepShrinks(s, g);
      StepReleases(g);
      UntilPauseShrinks(s, SingleStep(g));
    }
  }

  /** A sweep in progress loses nothing that was reachable. */
  lemma SweepFollows(s: Gc, g: Gc)
    requires Inv(s) && Inv(g) && g.held == {} && Follows(s, g) && (g.phase.SweepString? || g.phase.Sweep?)
    ensures g.marked.Keys == g.heap.Keys
    ensures var r := SingleStep(g); Follows(s, r) && (r.phase.SweepString? || r.phase.Sweep? || r.phase.Finalize?)
  {
    hide Inv, Follows, Preserves, DeadStays, SweepMany;
    InvLive(s); InvLive(g); InvParts(g);
    assert Release(g) == g;
    if g.phase.Sweep? {
      var r := SweepMany(g, GCSWEEPMAX);
      SweepManyKeeps(g, GCSWEEPMAX);
      FollowsByPreserving(s, g, r);
      FollowsPhase(s, r, Finalize);
    } else {
      SweepBucketKeeps(g);
      FollowsByPreserving(s, g, SweepBucket(g));
    }
  }

  lemma FollowsPhase(s: Gc, g: Gc, p: Phase)
    requires Follows(s, g)
    ensures Follows(s, g.(phase := p))
  {
    assert forall o :: Fixed(g, o) <==> Fixed(g.(phase := p), o);
    FollowsSameHeap(s, g, g.(phase := p));
  }

  lemma {:induction false} UntilFinalizeFollows(s: Gc, g: Gc)
    requires Inv(s) && Inv(g) && g.held == {} && Follows(s, g)
    requires g.phase.SweepString? || g.phase.Sweep? || g.phase.Finalize?
    ensures var r := StepUntil(g, Finalize); Follows(s, r) && r.held == {}
    decreases PhaseRank(g.phase), StepsLeft(g)
  {
    hide Inv, SingleStep, StepsLeft, KeepsReachable, Follows;
    if g.phase != Finalize {
      StepsLeftNat(g);
      SingleStepKeeps(g);
      SingleStepProgress(g);
      SweepDoesNotSkip(g);
      SweepFollows(s, g);
      StepReleases(g);
      UntilFinalizeFollows(s, SingleStep(g));
    }
  }

  lemma ResetFollows(g: Gc)
    requires Inv(g)
    ensures Follows(g, ResetSweep(g)) && ResetSweep(g).held == g.held
    ensures ResetSweep(g).phase.SweepString? || ResetSweep(g).phase.Sweep? || ResetSweep(g).phase.Finalize?
  {
    hide Inv;
    assert Follows(g, g);
    assert forall o :: Fixed(g, o) <==> Fixed(ResetSweep(g), o);
    FollowsSameHeap(g, g, ResetSweep(g));
  }

  lemma WhiteWithin(s: Gc, g: Gc)
    requires Inv(s) && Inv(g) && Follows(s, g) && AllCurrentWhite(g)
    ensures Within(g, LiveSet(s))
  {
    hide StringTable, OpenUpvals, RootList, Colours, LiveClosed, PhaseOk;
    LiveSetStays(s, g);
  }

  /** Marking the roots again after the sweep, as `luaC_fullgc` does. */
  lemma RestartShrinks(s: Gc, g: Gc)
    requires Inv(s) && Inv(g) && g.held == {} && Follows(s, g) && g.phase.Finalize?
    ensures g.marked.Keys == g.heap.Keys
    ensures var r := MarkRoot(g); Inv(r) && r.held == {} && Follows(s, r) && Shrinking(s, r)
  {
    hide Follows, MarkRoot, Shape, LiveClosed, PhaseOk, Within, TriColour;
    InvParts(g); InvLive(g); InvLive(s);
    WhiteWithin(s, g);
    LiveRoots(s, g);
    MarkRootStepKeeps(g);
    MarkRootKeeps(g, LiveSet(s));
    InvLive(MarkRoot(g));
    OnlyMarksFollows(s, g, MarkRoot(g));
  }

  lemma FullGcShrinks(g: Gc)
    requires Inv(g)
    ensures Inv(Release(g)) && Follows(Release(g), FullGc(g)) && Shrinking(Release(g), FullGc(g))
  {
    hide Inv, Follows, Shrinking, ResetSweep, MarkRoot, Reachable;
    var s := Release(g);
    ReleaseKeeps(g);
    ResetKeeps(s);
    ResetFollows(s);
    UntilFinalizeFollows(s, ResetSweep(s));
    var g2 := StepUntil(ResetSweep(s), Finalize);
    RestartShrinks(s, g2);
    UntilPauseShrinks(s, MarkRoot(g2));
  }

  /** What is left after a full collection is what was reachable, and the fixed objects. */
  lemma FullGcCollectsExactly(g: Gc)
    requires Inv(g)
    ensures var s, r := Release(g), FullGc(g);
            && Inv(r) && r.phase.Pause? && AllCurrentWhite(r)
            && (forall o :: o in r.heap <==> o in g.heap && (Reachable(s, o) || Fixed(g, o)))
            && (forall o :: Reachable(s, o) ==> o in g.heap && Content(r.heap, o) == Content(g.heap, o))
  {
    hide Inv, Follows, Shrinking, Reachable, FullGc;
    var s, r := Release(g), FullGc(g);
    FullGcShrinks(g);
    InvParts(r);
    ExactlyLive(s, r);
    assert forall o :: Fixed(s, o) <==> Fixed(g, o);
  }

  lemma ExactlyLive(s: Gc, r: Gc)
    requires Inv(s) && Basics(r) && Follows(s, r) && Shrinking(s, r) && r.phase.Pause?
    ensures forall o :: o in r.heap <==> o in s.heap && (Reachable(s, o) || Fixed(s, o))
    ensures forall o :: Reachable(s, o) ==> o in s.heap && o in r.heap && Content(r.heap, o) == Content(s.heap, o)
  {
    hide Inv, Reachable;
    InvLive(s);
    LiveSetClosed(s);
  }
}
