/**
  What a closure reads: in every run, an upvalue holds the value last written to its variable, through
  the upvalue or in its stack slot, while it is open and after `luaF_close` has moved it off the stack.
  */
module GcLastWrite {
  import opened GcState
  import opened GcMark
  import opened GcPropagate
  import opened GcInvariant
  import opened GcUpval
  import opened GcSweep
  import opened GcCollector
  import opened GcFullCycle
  import opened GcMutator
  import opened GcIntern
  import opened GcFindUpval
  import opened GcRuns

  ghost predicate IsVar(h: map<Ref, Object>, u: Ref) { u in h && (h[u].OpenUpval? || h[u].ClosedUpval?) }

  /** The value that an event writes to the variable of upvalue `u`, if it writes to it at all. */
  ghost function Written(g: Gc, e: Event, u: Ref): Option<Value> {
    if !Enabled(g, e) then None
    else match e
      case UpvalSet(w, v) => if w == u then Some(v) else None
      case FieldSet(o, _, v) => if o == u then Some(v) else None
      case StackSet(t, i, v) => if UpvalOf(g.heap, u) == At(t, i) then Some(v) else None
      case _ => None
  }

  // ---------- upvalues stay upvalues ----------

  /** Objects may go, but no upvalue turns into anything else. */
  ghost predicate VarsKept(h: map<Ref, Object>, h': map<Ref, Object>) {
    forall o :: o in h' ==> o in h && (IsVar(h, o) ==> IsVar(h', o))
  }

  lemma CloseOneVars(g: Gc, t: Ref)
    requires g.marked.Keys == g.heap.Keys && HasOpen(g, t, 0)
    ensures VarsKept(g.heap, CloseOne(g, t).heap)
  {
    hide CloseOne, Detached, Content, Rooted, TextOf;
    CloseOneDetaches(g, t);
    CloseOneClosed(g, t);
  }

  lemma {:induction false} CloseVars(g: Gc, t: Ref, level: nat)
    requires g.marked.Keys == g.heap.Keys
    ensures VarsKept(g.heap, CloseUpvals(g, t, level).heap)
    decreases if t in g.heap && g.heap[t].Thread? then |g.heap[t].openupval| else 0
  {
    hide CloseOne;
    if HasOpen(g, t, level) {
      CloseOneShape(g, t);
      CloseOneVars(g, t);
      CloseVars(CloseOne(g, t), t, level);
    }
  }

  lemma FreeVars(g: Gc, o: Ref)
    requires g.marked.Keys == g.heap.Keys && o in g.heap
    ensures VarsKept(g.heap, FreeObject(g, o).heap)
  {
    hide CloseUpvals, Keep;
    CloseVars(Unlink(g, o), o, 0);
  }

  lemma SweepOneVars(g: Gc)
    requires CanSweep(g)
    ensures VarsKept(g.heap, SweepOne(g).heap)
  {
    hide FreeObject, Doomed, Keep, Survives;
    var o := g.rootgc[g.sweepgc];
    var g1 := if g.heap[o].Thread? then SweepOpen(g, o) else g;
    if !Survives(g1.currentwhite, g1.marked[o]) { FreeVars(g1, o); }
  }

  lemma {:induction false} SweepManyVars(g: Gc, count: nat)
    ensures VarsKept(g.heap, SweepMany(g, count).heap)
    decreases count
  {
    hide SweepOne;
    if count > 0 && CanSweep(g) {
      SweepOneVars(g);
      SweepManyVars(SweepOne(g), count - 1);
    }
  }

  lemma StepVars(g: Gc)
    requires g.marked.Keys == g.heap.Keys
    ensures VarsKept(g.heap, SingleStep(g).heap)
  {
    hide SweepMany, AtomicMark, Doomed, Keep, MarkAll;
    SweepManyVars(Release(g), GCSWEEPMAX);
  }

  lemma {:induction false} UntilVars(g: Gc, goal: Phase)
    requires Inv(g) && (goal.Pause? || (goal.Finalize? && !g.phase.Pause?))
    ensures VarsKept(g.heap, StepUntil(g, goal).heap)
    decreases PhaseRank(g.phase), StepsLeft(g)
  {
    hide Inv, SingleStep, StepsLeft, KeepsReachable;
    if g.phase != goal {
      StepsLeftNat(g);
      SingleStepKeeps(g);
      SingleStepProgress(g);
      SweepDoesNotSkip(g);
      StepVars(g);
      UntilVars(SingleStep(g), goal);
    }
  }

  lemma FullGcVars(g: Gc)
    requires Inv(g)
    ensures VarsKept(g.heap, FullGc(g).heap)
  {
    hide Inv, StepUntil, Reachable, LiveRef;
    ReleaseKeeps(g);
    ResetKeeps(Release(g));
    UntilVars(ResetSweep(Release(g)), Finalize);
    var g2 := StepUntil(ResetSweep(Release(g)), Finalize);
    InvParts(g2);
    MarkRootStepKeeps(g2);
    UntilVars(MarkRoot(g2), Pause);
  }

  // ---------- one event ----------

  /** Upvalue `u` holds `vs` in `h`. */
  ghost predicate Holds(h: map<Ref, Object>, u: Ref, vs: seq<Value>) { IsVar(h, u) && Content(h, u) == vs }

  /** An upvalue holds exactly one value. */
  lemma OneValue(g: Gc, u: Ref)
    requires OpenUpvals(g) && IsVar(g.heap, u)
    ensures |Content(g.heap, u)| == 1
    ensures g.heap[u].OpenUpval? ==> OpenFor(g.heap, u, g.heap[u].thread)
  {
    if g.heap[u].OpenUpval? {
      assert UpvalOf(g.heap, u).At?;
      assert OpenFor(g.heap, u, UpvalOf(g.heap, u).thread);
    }
  }

  lemma CreateHolds(g: Gc, k: nat, x: Object, u: Ref)
    requires Inv(g) && k <= |g.rootgc| && InRootList(x) && IsVar(g.heap, u)
    ensures Holds(NewObject(g, k, x).heap, u, Content(g.heap, u))
  {
    hide StringTable, OpenUpvals, RootList, Colours, LiveClosed, PhaseOk, Content;
    FreshRef(g);
    GrownContent(g, g.next, x, NewObject(g, k, x));
  }

  lemma NewStringHolds(g: Gc, text: string, u: Ref)
    requires Inv(g) && |g.strt| > 0 && IsVar(g.heap, u)
    ensures Holds(NewString(g, text).heap, u, Content(g.heap, u))
  {
    hide StringTable, OpenUpvals, RootList, Colours, LiveClosed, PhaseOk, Content;
    FreshRef(g);
    GrownContent(g, g.next, Str(text), NewString(g, text));
  }

  lemma InternHolds(g: Gc, text: string, u: Ref)
    requires Inv(g) && IsVar(g.heap, u)
    ensures g.marked.Keys == g.heap.Keys && |g.strt| > 0 && Holds(Intern(g, text).heap, u, Content(g.heap, u))
  {
    hide Inv, Interned, NewString, Resurrect, Content;
    InvParts(g);
    InvTable(g);
    if Interned(g, text) {
      InternedInHeap(g, text);
      ResurrectHeap(g, StringNamed(g, text));
    } else {
      NewStringHolds(g, text, u);
    }
  }

  lemma FieldStoreHeap(g: Gc, o: Ref, i: nat, v: Value)
    requires g.marked.Keys == g.heap.Keys && o in g.heap && !g.heap[o].Table? && Storable(g.heap[o], i)
    ensures FieldStore(g, o, i, v).heap == WithObject(g, o, SetField(g.heap[o], i, v)).heap
  {
    hide BarrierForward;
    var g1 := WithObject(g, o, SetField(g.heap[o], i, v));
    if v.Obj? && White(g, v.ref) && Black(g, o) { BarrierHeap(g1, o, v.ref); }
  }

  /** A store changes the variable of the upvalue it is made in, and no other one. */
  lemma FieldHolds(g: Gc, o: Ref, i: nat, v: Value, u: Ref)
    requires o in g.heap && Storable(g.heap[o], i) && IsVar(g.heap, u)
    ensures Holds(WithObject(g, o, SetField(g.heap[o], i, v)).heap, u, if o == u then [v] else Content(g.heap, u))
  {
    FieldHeap(g, o, i, v);
    FieldOthers(g, o, i, v);
  }

  lemma FieldStoreHolds(g: Gc, o: Ref, i: nat, v: Value, u: Ref)
    requires g.marked.Keys == g.heap.Keys && o in g.heap && !g.heap[o].Table? && Storable(g.heap[o], i) && IsVar(g.heap, u)
    ensures Holds(FieldStore(g, o, i, v).heap, u, if o == u then [v] else Content(g.heap, u))
  {
    hide FieldStore, SetField, Content;
    FieldStoreHeap(g, o, i, v);
    FieldHolds(g, o, i, v, u);
  }

  lemma TableStoreHolds(g: Gc, t: Ref, i: nat, v: Value, u: Ref)
    requires g.marked.Keys == g.heap.Keys && t in g.heap && g.heap[t].Table? && Storable(g.heap[t], i) && IsVar(g.heap, u)
    ensures Holds(TableStore(g, t, i, v).heap, u, Content(g.heap, u))
  {
    hide SetField, Content;
    FieldHolds(g, t, i, v, u);
  }

  /** A write to a stack changes the variable of the open upvalue of that slot. */
  lemma StackStoreHolds(g: Gc, t: Ref, i: nat, v: Value, u: Ref)
    requires OpenUpvals(g) && IsThread(g, t) && i <= |g.heap[t].stack| && IsVar(g.heap, u)
    ensures Holds(StackStore(g, t, i, v).heap, u, if UpvalOf(g.heap, u) == At(t, i) then [v] else Content(g.heap, u))
  {
    OneValue(g, u);
    hide OpenUpvals;
  }

  lemma StackCutHolds(g: Gc, t: Ref, n: nat, u: Ref)
    requires OpenUpvals(g) && IsThread(g, t) && n <= |g.heap[t].stack| && IsVar(g.heap, u)
    requires forall w :: OpenFor(g.heap, w, t) ==> SlotOf(g.heap, w) < n
    ensures Holds(StackCut(g, t, n).heap, u, Content(g.heap, u))
  {
    OneValue(g, u);
    hide OpenUpvals;
  }

  lemma SetUpvalHolds(g: Gc, w: Ref, v: Value, u: Ref)
    requires Inv(g) && IsUpval(g, w) && IsVar(g.heap, u)
    ensures g.marked.Keys == g.heap.Keys && Holds(SetUpval(g, w, v).heap, u, if w == u then [v] else Content(g.heap, u))
  {
    InvParts(g);
    hide Inv, FieldStore, StackStore, Content;
    if g.heap[w].ClosedUpval? {
      FieldStoreHolds(g, w, 0, v, u);
    } else {
      InvUpvals(g);
      StackStoreHolds(g, g.heap[w].thread, g.heap[w].slot, v, u);
      if UpvalOf(g.heap, u) == UpvalOf(g.heap, w) { OneUpvalPerSlot(g, u, w); }
    }
  }

  /** An assignment to an upvalue, open or closed, is read back through it, and no other variable changes. */
  lemma UpvalReadsWrite(g: Gc, u: Ref, v: Value)
    requires Inv(g) && IsUpval(g, u)
    ensures g.marked.Keys == g.heap.Keys && Holds(SetUpval(g, u, v).heap, u, [v])
    ensures forall w :: IsVar(g.heap, w) && w != u ==> Holds(SetUpval(g, u, v).heap, w, Content(g.heap, w))
  {
    hide Inv, SetUpval, Content, Holds;
    SetUpvalHolds(g, u, v, u);
    forall w | IsVar(g.heap, w) && w != u ensures Holds(SetUpval(g, u, v).heap, w, Content(g.heap, w)) {
      SetUpvalHolds(g, u, v, w);
    }
  }

  lemma InvUpvals(g: Gc)
    requires Inv(g)
    ensures OpenUpvals(g)
  {}

  lemma CaptureHolds(g: Gc, t: Ref, slot: nat, u: Ref)
    requires Inv(g) && IsThread(g, t) && slot < |g.heap[t].stack| && Reachable(g, t) && IsVar(g.heap, u)
    ensures g.marked.Keys == g.heap.Keys && (HasUpval(g, t, slot) ==> UpvalAt(g, t, slot) in g.marked)
    ensures Holds(FindUpval(g, t, slot).heap, u, Content(g.heap, u))
  {
    hide Inv, HasUpval, NewUpval, Resurrect, Content, Reachable, UpvalAt, OpenUpvals, Basics;
    InvParts(g);
    InvUpvals(g);
    CaptureReady(g, t, slot);
    if HasUpval(g, t, slot) {
      ResurrectHeap(g, UpvalAt(g, t, slot));
    } else {
      FreshRef(g);
      NewUpvalHeap(g, t, slot);
      NewUpvalContent(g, t, slot);
    }
  }

  lemma CloseHolds(g: Gc, t: Ref, level: nat, u: Ref)
    requires Inv(g) && IsThread(g, t) && LiveRef(g, u) && IsVar(g.heap, u)
    ensures g.marked.Keys == g.heap.Keys && Holds(CloseUpvals(g, t, level).heap, u, Content(g.heap, u))
  {
    hide Inv, CloseUpvals, Content, DeadStays;
    InvParts(g);
    CloseKeeps(g, t, level);
    CloseVars(g, t, level);
    assert LiveRef(CloseUpvals(g, t, level), u);
  }

  lemma StepHolds(g: Gc, u: Ref)
    requires Inv(g) && Reachable(Release(g), u) && IsVar(g.heap, u)
    ensures g.marked.Keys == g.heap.Keys && Holds(SingleStep(g).heap, u, Content(g.heap, u))
  {
    hide Inv, SingleStep, Content, Reachable;
    SingleStepKeeps(g);
    StepVars(g);
  }

  lemma FullGcHolds(g: Gc, u: Ref)
    requires Inv(g) && Reachable(Release(g), u) && IsVar(g.heap, u)
    ensures Holds(FullGc(g).heap, u, Content(g.heap, u))
  {
    hide Inv, FullGc, Content, Reachable, Fixed, AllCurrentWhite;
    FullGcCollectsExactly(g);
    FullGcVars(g);
  }

  ghost function After(g: Gc, e: Event, u: Ref): seq<Value>
    requires u in g.heap
  {
    if Written(g, e, u).Some? then [Written(g, e, u).value] else Content(g.heap, u)
  }

  /** One event: an upvalue that the program can reach holds what the event writes to its variable, and
      otherwise what it held before. */
  lemma EventHolds(g: Gc, e: Event, u: Ref)
    requires Inv(g) && IsVar(g.heap, u) && Protected(g, e, u)
    ensures Holds(Apply(g, e).heap, u, After(g, e, u))
  {
    hide Inv, Reachable, HasUpval, LiveClosed, LiveRef, NewObject, Intern, TableStore, FieldStore, StackStore, StackCut,
         FindUpval, SetUpval, CloseUpvals, ResizeStrings, SingleStep, FullGc, OpenFor, SlotOf, Holds, UpvalOf, OpenUpvals;
    InvParts(g);
    InvTable(g);
    InvLiveClosed(g);
    InvUpvals(g);
    if !Enabled(g, e) {
      SameHolds(g, Apply(g, e), u);
    } else {
      match e
      case Create(x) => MainIsListed(g); CreateHolds(g, LinkPosition(g, x), x, u);
      case Newlstr(text) => InternHolds(g, text, u);
      case TableSet(t, i, v) => TableStoreHolds(g, t, i, v, u);
      case FieldSet(o, i, v) => FieldStoreHolds(g, o, i, v, u);
      case StackSet(t, i, v) => StackStoreHolds(g, t, i, v, u);
      case StackPop(t, n) => StackCutHolds(g, t, n, u);
      case Capture(t, slot) => CaptureHolds(g, t, slot, u);
      case UpvalSet(w, v) => SetUpvalHolds(g, w, v, u);
      case CloseFrom(t, level) => CloseHolds(g, t, level, u);
      case CollectorStep => StepHolds(g, u);
      case CollectAll => FullGcHolds(g, u);
      case ResizeTable(size) => ResizeHeap(g, size); SameHolds(g, ResizeStrings(g, size), u);
      case _ => SameHolds(g, Apply(g, e), u);
    }
  }

  lemma SameHolds(g: Gc, r: Gc, u: Ref)
    requires r.heap == g.heap && IsVar(g.heap, u)
    ensures Holds(r.heap, u, Content(g.heap, u))
  {}

  lemma ResizeHeap(g: Gc, size: nat)
    requires size > 0
    ensures ResizeStrings(g, size).heap == g.heap
  {}

  // ---------- runs ----------

  /** The program can reach `u` at every point of the run. */
  ghost predicate StaysReachable(g: Gc, events: seq<Event>, u: Ref)
    requires Inv(g)
    decreases |events|
  {
    hide Inv, Apply;
    events == [] || (Protected(g, events[0], u) &&
      (ApplyKeeps(g, events[0]); StaysReachable(Apply(g, events[0]), events[1..], u)))
  }

  /** The value last written to the variable of `u` in a run, or `v` if nothing was written to it. */
  ghost function LastWritten(g: Gc, events: seq<Event>, u: Ref, v: Value): Value
    requires Inv(g)
    decreases |events|
  {
    hide Inv, Apply, Written;
    if events == [] then v
    else
      ApplyKeeps(g, events[0]);
      var w := Written(g, events[0], u);
      LastWritten(Apply(g, events[0]), events[1..], u, if w.Some? then w.value else v)
  }

  /** After any run, an upvalue holds the value last written to its variable. */
  lemma {:induction false} RunHolds(g: Gc, events: seq<Event>, u: Ref, v: Value)
    requires Inv(g) && Holds(g.heap, u, [v]) && StaysReachable(g, events, u)
    ensures Holds(Run(g, events).heap, u, [LastWritten(g, events, u, v)])
    decreases |events|
  {
    hide Inv, Apply, Written, Protected, Content;
    if events != [] {
      var e := events[0];
      ApplyKeeps(g, e);
      EventHolds(g, e, u);
      RunHolds(Apply(g, e), events[1..], u, if Written(g, e, u).Some? then Written(g, e, u).value else v);
    }
  }

  /** An open upvalue holds what is in its stack slot. */
  lemma OpenHolds(g: Gc, t: Ref, slot: nat, u: Ref)
    requires OpenUpvals(g) && UpvalOf(g.heap, u) == At(t, slot)
    ensures IsThread(g, t) && slot < |g.heap[t].stack| && Holds(g.heap, u, [g.heap[t].stack[slot]])
  {
    assert OpenFor(g.heap, u, t);
  }

  /** Every closure that has captured a local variable reads the last value written to it: let `u` be the open
      upvalue of a slot at some point of a run.  As long as the program can reach `u`, it holds the value last
      written to that variable, whatever captures, closes, stack changes and collections happen. */
  lemma ClosureReadsLastWrite(hash: string -> nat, before: seq<Event>, t: Ref, slot: nat, u: Ref, events: seq<Event>)
    ensures Inv(Initial(hash))
    ensures var g := Run(Initial(hash), before);
            UpvalOf(g.heap, u) == At(t, slot) && StaysReachable(g, events, u) ==>
              && IsThread(g, t) && slot < |g.heap[t].stack|
              && Holds(Run(g, events).heap, u, [LastWritten(g, events, u, g.heap[t].stack[slot])])
  {
    hide Inv, Run, Initial, StaysReachable, LastWritten, UpvalOf, OpenUpvals, Holds;
    InitialInv(hash);
    var g := Run(Initial(hash), before);
    if UpvalOf(g.heap, u) == At(t, slot) && StaysReachable(g, events, u) {
      InvUpvals(g);
      OpenHolds(g, t, slot, u);
      RunHolds(g, events, u, g.heap[t].stack[slot]);
    }
  }
}
