/**
  `singlestep` and `luaC_fullgc` (lgc.c:556-607, 636-659): every step keeps the invariant and everything
  reachable; a full collection ends, frees everything else and whitens the rest.
  */
module GcCollector {
  import opened GcState
  import opened GcMark
  import opened GcPropagate
  import opened GcInvariant
  import opened GcUpval
  import opened GcSweep

  const GCSWEEPMAX: nat := 40

  /** References in C locals are not protected across a collector step. */
  ghost function Release(g: Gc): Gc { g.(held := {}) }

  /** `singlestep` (lgc.c:556-607), without finalizers and cost accounting. */
  ghost function SingleStep(g: Gc): Gc
    requires g.marked.Keys == g.heap.Keys
  {
    var g0 := Release(g);
    match g.phase
    case Pause => MarkRoot(g0)
    case Propagate => if g.gray != [] && g.gray[0] in g.heap then PropagateMark(g0) else Atomic(g0)
    case SweepString => if g.sweepstrgc < |g.strt| then SweepBucket(g0) else g0
    case Sweep =>
      var g1 := SweepMany(g0, GCSWEEPMAX);
      if g1.sweepgc >= |g1.rootgc| then g1.(phase := Finalize) else g1
    case Finalize => g0.(phase := Pause)
  }

  lemma ReleaseKeeps(g: Gc)
    requires Inv(g)
    ensures Inv(Release(g))
    ensures forall o :: Reachable(Release(g), o) ==> LiveRef(g, o)
  {
    hide StringTable, OpenUpvals, RootList, Colours, TriColour;
    var r := Release(g);
    assert StringTable(r) && OpenUpvals(r) && RootList(r) && Colours(r) by { SameLists(g, r); }
    assert LiveClosed(r) by {
      forall o | IsRoot(r, o) ensures LiveRef(r, o) { assert IsRoot(g, o) && LiveRef(g, o); }
      forall o, c | LiveRef(r, o) && Points(r.heap, o, c) ensures LiveRef(r, c) { assert LiveRef(g, o) && LiveRef(g, c); }
    }
    assert PhaseOk(r) by { SamePhase(g, r); }
    ReachableIsLive(r);
    assert forall o :: LiveRef(r, o) ==> LiveRef(g, o);
  }

  lemma SameLists(g: Gc, r: Gc)
    requires StringTable(g) && OpenUpvals(g) && RootList(g) && Colours(g)
    requires r.heap == g.heap && r.strt == g.strt && r.hash == g.hash && r.uvhead == g.uvhead && r.rootgc == g.rootgc
    requires r.marked == g.marked
    ensures StringTable(r) && OpenUpvals(r) && RootList(r) && Colours(r)
  {
    StringTableFrame(g, r);
    OpenUpvalsFrame(g, r);
  }

  lemma SamePhase(g: Gc, r: Gc)
    requires PhaseOk(g)
    requires r == g.(held := r.held)
    ensures PhaseOk(r)
  {
    assert forall o :: CurrentWhite(g, o) <==> CurrentWhite(r, o);
    if g.phase.Propagate? {
      assert forall o :: ChildrenSeen(g, o) <==> ChildrenSeen(r, o);
      assert forall o :: Black(g, o) <==> Black(r, o);
      assert forall o :: Gray(g, o) <==> Gray(r, o);
    }
    if g.phase.Sweep? {
      forall i | 0 <= i < r.sweepgc ensures Swept(r, r.rootgc[i]) { assert Swept(g, g.rootgc[i]); }
    }
  }

  // ---------- marking steps ----------

  /** In the mark phase only marks and gray lists change. */
  ghost predicate OnlyMarks(g: Gc, r: Gc) {
    && r == g.(marked := r.marked, gray := r.gray, grayagain := r.grayagain, phase := r.phase)
    && SeenGrows(g, r)
  }

  lemma MarkStepKeeps(g: Gc, r: Gc)
    requires Inv(g) && OnlyMarks(g, r) && TriColour(r) && r.phase.Propagate?
    requires Seen(r, g.mainthread) && (g.registry.Obj? ==> Seen(r, g.registry.ref))
    requires forall o :: !Dead(g, o)
    ensures Inv(r)
  {
    hide StringTable, OpenUpvals, RootList, TriColour, Colours;
    TriColourColours(r);
    StringTableFrame(g, r);
    OpenUpvalsFrame(g, r);
    assert RootList(r) by { RootListSame(g, r); }
    assert forall o :: LiveRef(r, o) <==> LiveRef(g, o);
    assert LiveClosed(r) by {
      forall o | IsRoot(r, o) ensures LiveRef(r, o) { assert IsRoot(g, o) && LiveRef(g, o); }
      forall o, c | LiveRef(r, o) && Points(r.heap, o, c) ensures LiveRef(r, c) { assert LiveRef(g, o) && LiveRef(g, c); }
    }
  }

  lemma WholeHeapWithin(g: Gc)
    requires Basics(g) && LiveClosed(g) && forall o :: !Dead(g, o)
    ensures Within(g, g.heap.Keys)
  {
    forall o, c | o in g.heap.Keys && Points(g.heap, o, c) ensures c in g.heap.Keys {
      assert LiveRef(g, o) && LiveRef(g, c);
    }
  }

  lemma RootsInHeap(g: Gc)
    requires LiveClosed(g)
    ensures g.running in g.heap && g.mainthread in g.heap
    ensures g.registry.Obj? ==> g.registry.ref in g.heap
    ensures forall v :: v in g.mt && v.Obj? ==> v.ref in g.heap
  {
    assert IsRoot(g, g.running) && LiveRef(g, g.running);
    assert IsRoot(g, g.mainthread) && LiveRef(g, g.mainthread);
    if g.registry.Obj? { assert IsRoot(g, g.registry.ref) && LiveRef(g, g.registry.ref); }
    forall v | v in g.mt && v.Obj? ensures v.ref in g.heap { assert IsRoot(g, v.ref) && LiveRef(g, v.ref); }
  }

  lemma PropagateStepKeeps(g: Gc)
    requires Inv(g) && g.phase.Propagate? && g.gray != []
    ensures g.gray[0] in g.heap && Inv(PropagateMark(g)) && OnlyMarks(g, PropagateMark(g))
  {
    hide StringTable, OpenUpvals, RootList, TriColour, Colours;
    TriColourColours(g);
    WholeHeapWithin(g);
    PropagateMarkKeeps(g, g.heap.Keys);
    MarkStepKeeps(g, PropagateMark(g));
  }

  lemma AllWhiteTriColour(g: Gc)
    requires Basics(g) && AllCurrentWhite(g) && g.gray == [] && g.grayagain == []
    ensures TriColour(g) && forall o :: !Dead(g, o)
  {}

  lemma MarkRootKeeps(g: Gc, live: set<Ref>)
    requires Basics(g) && AllCurrentWhite(g) && Within(g, live)
    requires g.mainthread in live && (g.registry.Obj? ==> g.registry.ref in live)
    requires forall v :: v in g.mt && v.Obj? ==> v.ref in live
    ensures var r := MarkRoot(g);
            && TriColour(r) && Within(r, live) && OnlyMarks(g, r) && r.phase == Propagate
            && Seen(r, g.mainthread) && (g.registry.Obj? ==> Seen(r, g.registry.ref))
  {
    hide TriColour, ClosedUnder, MarkAll, Content;
    var g0 := g.(gray := [], grayagain := []);
    AllWhiteTriColour(g0);
    assert Within(g0, live) by { SameWithin(g, g0, live); }
    MainGlobals(g, live);
    MarkRootsKeeps(g0, RootValues(g), live);
    var g4 := MarkAll(g0, RootValues(g));
    assert RootValues(g)[0] == Obj(g.mainthread) && RootValues(g)[2] == g.registry;
    OtherPhase(g4, MarkRoot(g), live);
  }

  lemma MainGlobals(g: Gc, live: set<Ref>)
    requires Within(g, live) && g.mainthread in live && g.mainthread in g.heap && g.heap[g.mainthread].Thread?
    ensures g.heap[g.mainthread].globals.Obj? ==> g.heap[g.mainthread].globals.ref in live
  {
    var globals := g.heap[g.mainthread].globals;
    if globals.Obj? {
      assert Content(g.heap, g.mainthread)[0] == globals;
      assert Points(g.heap, g.mainthread, globals.ref);
      ChildInside(g, g.mainthread, globals.ref, live);
    }
  }

  lemma ChildInside(g: Gc, o: Ref, c: Ref, live: set<Ref>)
    requires Within(g, live) && o in live && Points(g.heap, o, c)
    ensures c in live
  {}

  lemma SameWithin(g: Gc, r: Gc, live: set<Ref>)
    requires Within(g, live) && r.heap == g.heap && r.marked == g.marked
    ensures Within(r, live)
  {
    hide ClosedUnder;
    forall o | Seen(r, o) ensures o in live { assert Seen(g, o); }
  }

  lemma OtherPhase(g: Gc, r: Gc, live: set<Ref>)
    requires TriColour(g) && Within(g, live) && r == g.(phase := r.phase, held := r.held)
    ensures TriColour(r) && Within(r, live)
  {
    assert forall o :: ChildrenSeen(g, o) <==> ChildrenSeen(r, o);
    assert forall o :: Black(g, o) <==> Black(r, o);
    assert forall o :: Gray(g, o) <==> Gray(r, o);
    SameWithin(g, r, live);
  }

  lemma MarkRootStepKeeps(g: Gc)
    requires Inv(g) && AllCurrentWhite(g)
    ensures Inv(MarkRoot(g)) && OnlyMarks(g, MarkRoot(g))
  {
    hide StringTable, OpenUpvals, RootList, TriColour, Colours;
    NoneDead(g);
    WholeHeapWithin(g);
    RootsInHeap(g);
    MarkRootKeeps(g, g.heap.Keys);
    MarkStepKeeps(g, MarkRoot(g));
  }

  lemma NoneDead(g: Gc)
    requires AllCurrentWhite(g)
    ensures forall o :: !Dead(g, o)
  {}

  // ---------- the flip ----------

  lemma FlippedLiveClosed(a: Gc, r: Gc)
    requires a.marked.Keys == a.heap.Keys && NoDead(a) && SeenClosed(a) && a.held == {}
    requires r == a.(currentwhite := !a.currentwhite, sweepstrgc := 0, sweepgc := 0, phase := SweepString)
    requires Seen(a, a.mainthread) && Seen(a, a.running) && (a.registry.Obj? ==> Seen(a, a.registry.ref))
    requires forall v :: v in a.mt && v.Obj? ==> Seen(a, v.ref)
    ensures LiveClosed(r)
    ensures forall o :: o in a.marked ==> (Dead(r, o) <==> White(a, o))
  {
    assert forall o :: LiveRef(r, o) <==> Seen(a, o);
    forall o | IsRoot(r, o) ensures LiveRef(r, o) {}
    forall o, c | LiveRef(r, o) && Points(r.heap, o, c) ensures LiveRef(r, c) {
      assert ChildrenSeen(a, o);
    }
  }

  lemma AtomicKeeps(g: Gc, live: set<Ref>)
    requires Inv(g) && g.phase.Propagate? && g.held == {} && Within(g, live)
    requires g.running in live && forall v :: v in g.mt && v.Obj? ==> v.ref in live
    ensures Inv(Atomic(g)) && Atomic(g).heap == g.heap && Atomic(g).phase == SweepString
    ensures forall o :: o in g.heap ==> o in live || Dead(Atomic(g), o)
    ensures forall o :: Fixed(g, o) <==> Fixed(Atomic(g), o)
  {
    hide StringTable, OpenUpvals, RootList, GrayLists, NoDead, BlackClosed, GrayPending, ClosedUnder, SeenClosed, Colours, AtomicMark;
    var a, r := AtomicMark(g), Atomic(g);
    UvheadComplete(g);
    AtomicMarkFinishes(g, live);
    FlippedLiveClosed(a, r);
    StringTableFrame(g, r);
    OpenUpvalsFrame(g, r);
    assert RootList(r) by { RootListSame(g, r); }
    BlackColours(a);
    assert Colours(r) by { FlippedColours(a, r); }
    assert |r.strt| > 0 by { TableNotEmpty(g); }
    assert forall o :: Fixed(g, o) <==> Fixed(a, o);
  }

  lemma TableNotEmpty(g: Gc)
    requires StringTable(g)
    ensures |g.strt| > 0
  {}

  lemma FlippedColours(a: Gc, r: Gc)
    requires Colours(a) && r.marked == a.marked && r.heap == a.heap
    ensures Colours(r)
  {}

  lemma BlackColours(a: Gc)
    requires NoDead(a) && BlackClosed(a, {})
    ensures Colours(a)
  {
    forall o | o in a.marked && o in a.heap ensures !(a.heap[o].OpenUpval? && a.marked[o].black) {
      if a.marked[o].black { assert Black(a, o); }
    }
  }

  lemma UvheadComplete(g: Gc)
    requires OpenUpvals(g)
    ensures forall o :: o in g.heap && g.heap[o].OpenUpval? ==> o in g.uvhead
  {
    forall o | o in g.heap && g.heap[o].OpenUpval? ensures o in g.uvhead {
      assert UpvalOf(g.heap, o).At?;
    }
  }

  // ---------- sweeping steps ----------

  lemma EverythingSwept(g: Gc)
    requires Shape(g) && PhaseOk(g) && g.phase.Sweep? && g.sweepgc >= |g.rootgc|
    ensures AllCurrentWhite(g)
  {
    hide Colours;
    forall o | o in g.marked ensures IsCurrentWhite(g.currentwhite, g.marked[o]) {
      if TextOf(g.heap, o).Some? {
        assert o in g.strt[Bucket(g, TextOf(g.heap, o).value)];
        assert CurrentWhite(g, o);
      } else if UpvalOf(g.heap, o).At? {
        var t := UpvalOf(g.heap, o).thread;
        assert o in ListOf(g.heap, t).value;
        assert Rooted(g.heap, t);
        var i :| 0 <= i < |g.rootgc| && g.rootgc[i] == t;
        assert Swept(g, g.rootgc[i]);
      } else {
        assert Rooted(g.heap, o);
        var i :| 0 <= i < |g.rootgc| && g.rootgc[i] == o;
        assert Swept(g, g.rootgc[i]);
      }
    }
  }

  lemma PhaseChangeKeeps(g: Gc, p: Phase)
    requires Inv(g) && AllCurrentWhite(g) && (p == Finalize || p == Pause)
    ensures Inv(g.(phase := p))
  {
    hide StringTable, OpenUpvals, RootList, Colours;
    var r := g.(phase := p);
    SameLists(g, r);
    assert LiveClosed(r) by {
      forall o | IsRoot(r, o) ensures LiveRef(r, o) { assert IsRoot(g, o) && LiveRef(g, o); }
      forall o, c | LiveRef(r, o) && Points(r.heap, o, c) ensures LiveRef(r, c) { assert LiveRef(g, o) && LiveRef(g, c); }
    }
  }

  lemma FinishSweepKeeps(g: Gc)
    requires Inv(g) && g.phase.Sweep? && g.sweepgc >= |g.rootgc|
    ensures Inv(g.(phase := Finalize))
  {
    hide StringTable, OpenUpvals, RootList, Colours, LiveClosed, PhaseOk;
    EverythingSwept(g);
    PhaseChangeKeeps(g, Finalize);
  }

  // ---------- the safety theorem for one step ----------

  /** Whatever was reachable, apart from what only C locals held, is still there with the same content. */
  ghost predicate KeepsReachable(g: Gc, r: Gc) {
    forall o :: Reachable(Release(g), o) ==> o in g.heap && o in r.heap && Content(r.heap, o) == Content(g.heap, o)
  }

  lemma PreservesReachable(g: Gc, r: Gc)
    requires Inv(g) && Preserves(Release(g), r)
    ensures KeepsReachable(g, r)
  {
    hide Inv;
    ReleaseKeeps(g);
    forall o | Reachable(Release(g), o) ensures o in g.heap && o in r.heap && Content(r.heap, o) == Content(g.heap, o) {
      assert LiveRef(g, o);
      assert LiveRef(Release(g), o);
    }
  }

  lemma SameHeapReachable(g: Gc, r: Gc)
    requires Inv(g) && r.heap == g.heap
    ensures KeepsReachable(g, r)
  {
    hide Inv;
    ReleaseKeeps(g);
  }

  lemma InvParts(g: Gc)
    requires Inv(g)
    ensures Basics(g) && g.marked.Keys == g.heap.Keys
    ensures g.phase.SweepString? ==> g.sweepstrgc < |g.strt|
    ensures g.phase.Pause? || g.phase.Finalize? ==> AllCurrentWhite(g)
  {}

  /** No collector step breaks the invariant or loses a reachable object. */
  lemma SingleStepKeeps(g: Gc)
    requires Inv(g)
    ensures g.marked.Keys == g.heap.Keys
    ensures Inv(SingleStep(g)) && KeepsReachable(g, SingleStep(g))
  {
    hide Inv, Preserves, KeepsReachable, PropagateMark, Atomic, SweepBucket, SweepMany, MarkRoot, OnlyMarks;
    InvParts(g);
    var g0 := Release(g);
    ReleaseKeeps(g);
    InvParts(g0);
    match g.phase
    case Pause =>
      MarkRootStepKeeps(g0);
      SameHeapReachable(g, MarkRoot(g0));
    case Propagate =>
      if g.gray != [] {
        PropagateStepKeeps(g0);
        SameHeapReachable(g, PropagateMark(g0));
      } else {
        AtomicStepKeeps(g0);
        SameHeapReachable(g, Atomic(g0));
      }
    case SweepString =>
      SweepBucketKeeps(g0);
      PreservesReachable(g, SweepBucket(g0));
    case Sweep =>
      SweepManyKeeps(g0, GCSWEEPMAX);
      var g1 := SweepMany(g0, GCSWEEPMAX);
      PreservesReachable(g, g1);
      if g1.sweepgc >= |g1.rootgc| {
        FinishSweepKeeps(g1);
        SamePreserves(g, g1, g1.(phase := Finalize));
      }
    case Finalize =>
      PhaseChangeKeeps(g0, Pause);
      SameHeapReachable(g, g0.(phase := Pause));
  }

  lemma SamePreserves(g: Gc, r: Gc, s: Gc)
    requires KeepsReachable(g, r) && s.heap == r.heap
    ensures KeepsReachable(g, s)
  {}

  lemma AtomicStepKeeps(g: Gc)
    requires Inv(g) && g.phase.Propagate? && g.held == {}
    ensures Inv(Atomic(g)) && Atomic(g).heap == g.heap
  {
    hide StringTable, OpenUpvals, RootList, TriColour, Colours, Atomic;
    PropagateHasNoDead(g);
    WholeHeapWithin(g);
    RootsInHeap(g);
    AtomicKeeps(g, g.heap.Keys);
  }

  lemma PropagateHasNoDead(g: Gc)
    requires PhaseOk(g) && g.phase.Propagate?
    ensures forall o :: !Dead(g, o)
  {
    hide BlackClosed, GrayPending, GrayLists;
    TriColourColours(g);
  }

  // ---------- a full collection ----------

  /** Progress towards the end of the sweep or of the mark phase. */
  ghost function StepsLeft(g: Gc): int {
    match g.phase
    case Pause => 0
    case Propagate => Measure(g)
    case SweepString => |g.strt| - g.sweepstrgc
    case Sweep => Pending(g)
    case Finalize => 0
  }

  ghost function PhaseRank(p: Phase): nat {
    match p
    case Propagate => 4
    case SweepString => 3
    case Sweep => 2
    case Finalize => 1
    case Pause => 0
  }

  /** Every step but the first of a cycle gets closer to its end. */
  lemma SingleStepProgress(g: Gc)
    requires Inv(g) && !g.phase.Pause?
    ensures g.marked.Keys == g.heap.Keys
    ensures var r := SingleStep(g);
            || PhaseRank(r.phase) < PhaseRank(g.phase)
            || (r.phase == g.phase && StepsLeft(r) < StepsLeft(g))
  {
    hide Inv, Preserves, KeepsReachable, PropagateMark, Atomic, SweepMany, MarkRoot, Pending, Measure, PhaseOk;
    InvParts(g);
    var g0 := Release(g);
    ReleaseKeeps(g);
    match g.phase
    case Propagate =>
      if g.gray != [] && g.gray[0] in g.heap {
        ReleaseSame(g);
      } else {
        AtomicPhase(g0);
      }
    case SweepString =>
    case Sweep =>
      SweepManyKeeps(g0, GCSWEEPMAX);
      ReleaseSame(g);
    case Finalize =>
  }

  lemma AtomicPhase(g: Gc)
    requires g.marked.Keys == g.heap.Keys
    ensures Atomic(g).phase == SweepString
  {
    hide AtomicMark;
  }

  lemma ReleaseSame(g: Gc)
    ensures Measure(Release(g)) == Measure(g) && Pending(Release(g)) == Pending(g)
  {
    assert Whites(Release(g)) == Whites(g);
  }
}
