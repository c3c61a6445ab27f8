/**
  `lua_setupvalue` (lapi.c:1071-1086) runs the barrier on the closure although the value is stored in an
  upvalue that other closures may share.  This is exactly when the tri-colour invariant is lost.
  */
module GcSetUpvalue {
  import opened GcState
  import opened GcMark
  import opened GcPropagate
  import opened GcInvariant
  import opened GcUpval
  import opened GcCollector
  import opened GcMutator

  /** Store `v` in upvalue `u` of closure `cl`, in its stack slot if it is open; the barrier looks at `cl`. */
  ghost function ApiSetUpvalue(g: Gc, cl: Ref, u: Ref, v: Value): Gc
    requires g.marked.Keys == g.heap.Keys && cl in g.heap && IsUpval(g, u)
  {
    var g1 := if g.heap[u].ClosedUpval? then WithObject(g, u, ClosedUpval(v))
              else StackStore(g, g.heap[u].thread, g.heap[u].slot, v);
    if v.Obj? && White(g, v.ref) && Black(g, cl) then BarrierForward(g1, cl, v.ref) else g1
  }

  /** The case the barrier misses: marking is under way, the upvalue is black, the value is white and the
      closure through which the store is made is not black. */
  ghost predicate MissedBarrier(g: Gc, cl: Ref, u: Ref, v: Value) {
    g.phase.Propagate? && Black(g, u) && v.Obj? && White(g, v.ref) && !Black(g, cl)
  }

  lemma MissedBreaks(g: Gc, cl: Ref, u: Ref, v: Value)
    requires Inv(g) && cl in g.heap && u in g.heap && g.heap[u].ClosedUpval? && MissedBarrier(g, cl, u, v)
    ensures g.marked.Keys == g.heap.Keys && !Inv(ApiSetUpvalue(g, cl, u, v))
  {
    InvParts(g);
    hide Shape, LiveClosed, GrayLists, GrayPending, NoDead;
    var r := ApiSetUpvalue(g, cl, u, v);
    assert Content(r.heap, u) == [v];
    assert Points(r.heap, u, v.ref) && !Seen(r, v.ref);
    assert !ChildrenSeen(r, u) && Black(r, u);
  }

  lemma StoreIsSetField(g: Gc, u: Ref, v: Value)
    requires u in g.heap && g.heap[u].ClosedUpval?
    ensures Storable(g.heap[u], 0) && SetField(g.heap[u], 0, v) == ClosedUpval(v)
  {}

  /** The barrier on a black closure, after a store that may have left a black upvalue with a white value. */
  lemma ClosureBarrierKeeps(g: Gc, g1: Gc, cl: Ref, u: Ref, v: Ref)
    requires Inv(g) && cl in g.heap && u in g.heap && g.heap[u].ClosedUpval? && g.heap[cl].Func?
    requires LiveRef(g, v) && White(g, v) && Black(g, cl)
    requires g1 == WithObject(g, u, ClosedUpval(Obj(v))) && g1.marked.Keys == g1.heap.Keys
    ensures Inv(BarrierForward(g1, cl, v))
  {
    hide Shape, LiveClosed, PhaseOk, AlmostTriColour, TriColour, BarrierForward, SetField, ReallyMark;
    StoreIsSetField(g, u, Obj(v));
    StoreReady(g, u, 0, Obj(v));
    if g.phase.Propagate? {
      MarkUpvalueValue(g1, u, v);
      assert BarrierForward(g1, cl, v) == ReallyMark(g1, v) by { ForwardMarks(g1, cl, v); }
    } else {
      var r := BarrierForward(g1, cl, v);
      assert Inv(r) by { SweepBarrierKeeps(g1, cl, v); }
    }
  }

  lemma ForwardMarks(g: Gc, o: Ref, v: Ref)
    requires g.marked.Keys == g.heap.Keys && o in g.marked && White(g, v) && g.phase.Propagate?
    ensures BarrierForward(g, o, v) == ReallyMark(g, v)
  {}

  lemma SweepBarrierKeeps(g: Gc, o: Ref, v: Ref)
    requires Shape(g) && LiveClosed(g) && PhaseOk(g) && !g.phase.Propagate? && Black(g, o) && White(g, v) && LiveRef(g, v)
    requires o in g.heap && g.heap[o].Func?
    ensures g.marked.Keys == g.heap.Keys && Inv(BarrierForward(g, o, v))
  {
    hide Shape, LiveClosed, PhaseOk, BarrierForward;
    ShapeKeysOf(g);
    BarrierForwardKeeps(g, o, v);
  }

  lemma ShapeKeysOf(g: Gc)
    requires Shape(g)
    ensures g.marked.Keys == g.heap.Keys
  {}

  lemma MarkUpvalueValue(g: Gc, u: Ref, v: Ref)
    requires Shape(g) && LiveClosed(g) && g.phase.Propagate? && AlmostTriColour(g, u)
    requires White(g, v) && LiveRef(g, v) && u in g.heap && g.heap[u].ClosedUpval?
    requires g.heap[u] == ClosedUpval(Obj(v))
    ensures g.marked.Keys == g.heap.Keys && Inv(ReallyMark(g, v))
  {
    hide Shape, LiveClosed, AlmostTriColour, ReallyMark;
    ShapeKeysOf(g);
    if Black(g, u) {
      assert forall c :: Points(g.heap, u, c) ==> c == v;
      MarkBarrierKeeps(g, u, v);
    } else {
      AlmostIsFull(g, u);
      MarkExtraKeeps(g, v);
    }
  }

  lemma AlmostIsFull(g: Gc, u: Ref)
    requires AlmostTriColour(g, u) && !Black(g, u)
    ensures TriColour(g) && Seen(g, g.mainthread) && (g.registry.Obj? ==> Seen(g, g.registry.ref))
  {}

  /** Marking any live white object early does no harm. */
  lemma MarkExtraKeeps(g: Gc, v: Ref)
    requires Shape(g) && LiveClosed(g) && g.phase.Propagate? && TriColour(g) && White(g, v) && LiveRef(g, v)
    requires Seen(g, g.mainthread) && (g.registry.Obj? ==> Seen(g, g.registry.ref))
    ensures g.marked.Keys == g.heap.Keys && Inv(ReallyMark(g, v))
  {
    hide StringTable, OpenUpvals, RootList, Colours, LiveClosed, TriColour, Marking, ReallyMark, Within;
    TriColourColours(g);
    WholeHeapWithin(g);
    TriColourReady(g, g.heap.Keys);
    ReallyMarkKeeps(g, v, g.heap.Keys);
    var r := ReallyMark(g, v);
    MarkingKeepsTriColour(g, r, g.heap.Keys);
    MarkingGrows(g, r);
    TriColourColours(r);
    assert forall x :: Fixed(g, x) <==> Fixed(r, x);
    MarksFrame(g, r);
  }

  lemma ClosedStoreKeeps(g: Gc, cl: Ref, u: Ref, v: Value)
    requires Inv(g) && cl in g.heap && g.heap[cl].Func? && u in g.heap && g.heap[u].ClosedUpval?
    requires v.Obj? ==> LiveRef(g, v.ref)
    requires !MissedBarrier(g, cl, u, v)
    ensures g.marked.Keys == g.heap.Keys && Inv(ApiSetUpvalue(g, cl, u, v))
  {
    hide Shape, LiveClosed, PhaseOk, AlmostTriColour, TriColour, BarrierForward, SetField;
    InvParts(g);
    var g1 := WithObject(g, u, ClosedUpval(v));
    StoreIsSetField(g, u, v);
    StoreReady(g, u, 0, v);
    if v.Obj? && White(g, v.ref) && Black(g, cl) { ClosureBarrierKeeps(g, g1, cl, u, v.ref); }
  }

  /** A barrier that is not needed does no harm. */
  lemma ExtraBarrierKeeps(g: Gc, cl: Ref, v: Ref)
    requires Inv(g) && cl in g.heap && g.heap[cl].Func? && Black(g, cl) && White(g, v) && LiveRef(g, v)
    ensures g.marked.Keys == g.heap.Keys && Inv(BarrierForward(g, cl, v))
  {
    hide Shape, LiveClosed, TriColour, BarrierForward, ReallyMark;
    ShapeKeysOf(g);
    if g.phase.Propagate? {
      ForwardMarks(g, cl, v);
      MarkExtraKeeps(g, v);
    } else {
      SweepBarrierKeeps(g, cl, v);
    }
  }

  lemma OpenStoreKeeps(g: Gc, cl: Ref, u: Ref, v: Value)
    requires Inv(g) && cl in g.heap && g.heap[cl].Func? && IsUpval(g, u) && g.heap[u].OpenUpval?
    requires v.Obj? ==> LiveRef(g, v.ref)
    ensures g.marked.Keys == g.heap.Keys && Inv(ApiSetUpvalue(g, cl, u, v))
  {
    hide Inv, BarrierForward;
    InvParts(g);
    var g1 := StackStore(g, g.heap[u].thread, g.heap[u].slot, v);
    StackStoreKeeps(g, g.heap[u].thread, g.heap[u].slot, v);
    if v.Obj? && White(g, v.ref) && Black(g, cl) { ExtraBarrierKeeps(g1, cl, v.ref); }
  }

  lemma BlackIsClosed(g: Gc, u: Ref)
    requires Inv(g) && IsUpval(g, u) && Black(g, u)
    ensures g.heap[u].ClosedUpval?
  {
    hide StringTable, OpenUpvals, RootList, LiveClosed, PhaseOk;
  }

  /** `lua_setupvalue` on any upvalue of a Lua closure, open or closed, keeps the collector's invariant unless,
      and only unless, the barrier is missed. */
  lemma SetUpvalueIsSafeIff(g: Gc, cl: Ref, u: Ref, v: Value)
    requires Inv(g) && cl in g.heap && g.heap[cl].Func? && IsUpval(g, u)
    requires v.Obj? ==> LiveRef(g, v.ref)
    ensures g.marked.Keys == g.heap.Keys
    ensures Inv(ApiSetUpvalue(g, cl, u, v)) <==> !MissedBarrier(g, cl, u, v)
  {
    hide Inv, MissedBarrier, ApiSetUpvalue;
    InvParts(g);
    if MissedBarrier(g, cl, u, v) { MissedIsBlack(g, cl, u, v); BlackIsClosed(g, u); MissedBreaks(g, cl, u, v); }
    else if g.heap[u].ClosedUpval? { ClosedStoreKeeps(g, cl, u, v); }
    else { OpenStoreKeeps(g, cl, u, v); }
  }

  lemma MissedIsBlack(g: Gc, cl: Ref, u: Ref, v: Value)
    requires MissedBarrier(g, cl, u, v)
    ensures Black(g, u)
  {}
}
