/**
  What the running program does to the heap between collector steps: allocation, string interning,
  barriered stores, unbarriered stack writes, and open upvalues.  Each keeps the collector's invariant.
  */
module GcMutator {
  import opened GcState
  import opened GcMark
  import opened GcPropagate
  import opened GcInvariant
  import opened GcUpval
  import opened GcSweep
  import opened GcCollector

  function LuaCWhite(currentwhite: bool): Mark { Mark(!currentwhite, currentwhite, false, false) }

  // ---------- stores ----------

  /** The fields of an object as one sequence, and the object with one of them replaced or added. */
  function FieldCount(x: Object): nat {
    match x
    case Udata(_, _) => 2
    case Func(fields) => |fields|
    case Table(fields) => |fields|
    case Proto(fields) => |fields|
    case ClosedUpval(_) => 1
    case _ => 0
  }

  function SetAt(s: seq<Value>, i: nat, v: Value): seq<Value>
    requires i <= |s|
  {
    if i == |s| then s + [v] else s[i := v]
  }

  function SetField(x: Object, i: nat, v: Value): Object
    requires Storable(x, i)
  {
    match x
    case Udata(mt, env) => if i == 0 then Udata(v, env) else Udata(mt, v)
    case Func(fields) => Func(SetAt(fields, i, v))
    case Table(fields) => Table(SetAt(fields, i, v))
    case Proto(fields) => Proto(SetAt(fields, i, v))
    case ClosedUpval(_) => ClosedUpval(v)
    case _ => x
  }

  predicate Storable(x: Object, i: nat) {
    i < FieldCount(x) || (i == FieldCount(x) && (x.Table? || x.Func? || x.Proto?))
  }

  /** `luaC_barrierback` (lgc.c:675-683). */
  ghost function BarrierBack(g: Gc, t: Ref): Gc
    requires t in g.marked
  {
    g.(marked := g.marked[t := Black2Gray(g.marked[t])], grayagain := [t] + g.grayagain)
  }

  /** `luaC_barrierf` (lgc.c:662-672). */
  ghost function BarrierForward(g: Gc, o: Ref, v: Ref): Gc
    requires g.marked.Keys == g.heap.Keys && o in g.marked && White(g, v)
  {
    if g.phase.Propagate? then ReallyMark(g, v)
    else g.(marked := g.marked[o := MakeWhite(g.currentwhite, g.marked[o])])
  }

  ghost function WithObject(g: Gc, o: Ref, x: Object): Gc { g.(heap := g.heap[o := x]) }

  /** A store into a table followed by `luaC_barriert`. */
  ghost function TableStore(g: Gc, t: Ref, i: nat, v: Value): Gc
    requires g.marked.Keys == g.heap.Keys && t in g.heap && g.heap[t].Table? && Storable(g.heap[t], i)
  {
    var g1 := WithObject(g, t, SetField(g.heap[t], i, v));
    if v.Obj? && White(g, v.ref) && Black(g, t) then BarrierBack(g1, t) else g1
  }

  /** A store into any other object followed by `luaC_barrier`. */
  ghost function FieldStore(g: Gc, o: Ref, i: nat, v: Value): Gc
    requires g.marked.Keys == g.heap.Keys && o in g.heap && !g.heap[o].Table? && Storable(g.heap[o], i)
  {
    var g1 := WithObject(g, o, SetField(g.heap[o], i, v));
    if v.Obj? && White(g, v.ref) && Black(g, o) then BarrierForward(g1, o, v.ref) else g1
  }

  /** Writes to a thread's stack have no barrier. */
  ghost function StackStore(g: Gc, t: Ref, i: nat, v: Value): Gc
    requires t in g.heap && g.heap[t].Thread? && i <= |g.heap[t].stack|
  {
    WithObject(g, t, g.heap[t].(stack := SetAt(g.heap[t].stack, i, v)))
  }

  /** Popping the stack; the slots given up must not have open upvalues (they are closed first). */
  ghost function StackCut(g: Gc, t: Ref, n: nat): Gc
    requires t in g.heap && g.heap[t].Thread? && n <= |g.heap[t].stack|
  {
    WithObject(g, t, g.heap[t].(stack := g.heap[t].stack[..n]))
  }

  // ---------- updates that keep the structure ----------

  /** Objects keep their kinds and their places in the lists; new references are to live objects. */
  ghost predicate Updated(g: Gc, r: Gc) {
    && r == g.(heap := r.heap) && r.heap.Keys == g.heap.Keys
    && (forall o :: o in g.heap ==> SameKind(g.heap[o], r.heap[o]))
    && (forall o :: TextOf(r.heap, o) == TextOf(g.heap, o))
    && (forall o :: UpvalOf(r.heap, o) == UpvalOf(g.heap, o))
    && (forall o :: ListOf(r.heap, o) == ListOf(g.heap, o))
    && (forall u, t :: OpenFor(g.heap, u, t) ==> OpenFor(r.heap, u, t))
    && (forall o, c :: LiveRef(g, o) && Points(r.heap, o, c) ==> Points(g.heap, o, c) || LiveRef(g, c))
  }

  lemma UpdatedOpenUpvals(g: Gc, r: Gc)
    requires OpenUpvals(g) && Updated(g, r)
    ensures OpenUpvals(r)
  {
    hide UpvalOf, ListOf, Depth, Points, TextOf, SameKind;
    assert forall u :: SlotOf(r.heap, u) == SlotOf(g.heap, u);
    forall t | ListOf(r.heap, t).Some? ensures OpenList(r.heap, t, ListOf(r.heap, t).value) {
      assert OpenList(g.heap, t, ListOf(g.heap, t).value);
    }
  }

  lemma UpdatedShape(g: Gc, r: Gc)
    requires Inv(g) && Updated(g, r)
    ensures Shape(r) && LiveClosed(r)
  {
    hide StringTable, OpenUpvals, UpvalOf, ListOf, Depth, TextOf, PhaseOk, OpenFor;
    StringTableFrame(g, r);
    UpdatedOpenUpvals(g, r);
    assert RootList(r) by {
      assert forall o :: Rooted(r.heap, o) <==> Rooted(g.heap, o);
    }
    assert forall o :: LiveRef(r, o) <==> LiveRef(g, o);
    assert LiveClosed(r) by {
      forall o | IsRoot(r, o) ensures LiveRef(r, o) { assert IsRoot(g, o) && LiveRef(g, o); }
      forall o, c | LiveRef(r, o) && Points(r.heap, o, c) ensures LiveRef(r, c) {
        assert LiveRef(g, o);
        if Points(g.heap, o, c) { assert LiveRef(g, c); }
      }
    }
  }

  /** Outside the mark phase, colours alone decide. */
  lemma UpdatedPhase(g: Gc, r: Gc)
    requires PhaseOk(g) && Updated(g, r) && !g.phase.Propagate?
    ensures PhaseOk(r)
  {
    hide UpvalOf, Depth, TextOf, OpenFor, ListOf;
    assert forall o :: CurrentWhite(r, o) <==> CurrentWhite(g, o);
    if g.phase.Sweep? {
      forall i | 0 <= i < r.sweepgc ensures Swept(r, r.rootgc[i]) { assert Swept(g, g.rootgc[i]); }
    }
  }

  /** In the mark phase, objects that did not change stay closed if they are black. */
  lemma UpdatedTriColour(g: Gc, r: Gc, except: set<Ref>)
    requires TriColour(g) && Updated(g, r)
    requires forall o, c :: Black(g, o) && o !in except && Points(r.heap, o, c) ==> Points(g.heap, o, c) || Seen(g, c)
    ensures GrayLists(r) && NoDead(r) && BlackClosed(r, except) && GrayPending(r)
  {
    hide UpvalOf, Depth, TextOf, OpenFor, ListOf;
    forall o | Black(r, o) && o !in except
      ensures o in r.heap && !r.heap[o].Thread? && !r.heap[o].Str? && !r.heap[o].OpenUpval? && ChildrenSeen(r, o)
    {
      assert Black(g, o) && ChildrenSeen(g, o);
      forall c | Points(r.heap, o, c) ensures Seen(r, c) {
        if Points(g.heap, o, c) { assert Seen(g, c); }
      }
    }
    forall o | Gray(r, o)
      ensures o in r.heap && !r.heap[o].Udata? && !r.heap[o].ClosedUpval? && (Listed(r.heap[o]) ==> o in r.gray || o in r.grayagain)
    {
      assert Gray(g, o);
    }
    forall o | o in r.gray || o in r.grayagain ensures o in r.heap && Listed(r.heap[o]) && Gray(r, o) {
      assert Gray(g, o);
    }
  }

  // ---------- the particular updates ----------

  lemma FieldHeap(g: Gc, o: Ref, i: nat, v: Value)
    requires o in g.heap && Storable(g.heap[o], i)
    ensures var h := WithObject(g, o, SetField(g.heap[o], i, v)).heap;
            && SameKind(g.heap[o], h[o])
            && (forall x :: TextOf(h, x) == TextOf(g.heap, x))
            && (forall x :: UpvalOf(h, x) == UpvalOf(g.heap, x))
            && (forall x :: ListOf(h, x) == ListOf(g.heap, x))
            && (forall x :: Depth(h, x) == Depth(g.heap, x))
            && (forall t, slot :: OnStack(h, t, slot) <==> OnStack(g.heap, t, slot))
  {}

  lemma FieldOthers(g: Gc, o: Ref, i: nat, v: Value)
    requires o in g.heap && Storable(g.heap[o], i)
    ensures forall x :: x in g.heap && x != o ==>
              Content(WithObject(g, o, SetField(g.heap[o], i, v)).heap, x) == Content(g.heap, x)
  {
    FieldHeap(g, o, i, v);
  }

  lemma FieldUpdate(g: Gc, o: Ref, i: nat, v: Value)
    requires g.marked.Keys == g.heap.Keys && o in g.heap && Storable(g.heap[o], i)
    requires v.Obj? ==> LiveRef(g, v.ref)
    ensures var r := WithObject(g, o, SetField(g.heap[o], i, v));
            && Updated(g, r)
            && (forall x, c :: Points(r.heap, x, c) ==> Points(g.heap, x, c) || (x == o && v == Obj(c)))
  {
    var r := WithObject(g, o, SetField(g.heap[o], i, v));
    FieldHeap(g, o, i, v);
    FieldOthers(g, o, i, v);
    hide TextOf, UpvalOf, ListOf, Depth, SetField, Storable;
    forall x, c | Points(r.heap, x, c) ensures Points(g.heap, x, c) || (x == o && v == Obj(c)) {
      if x == o { FieldContent(g, o, i, v, c); }
    }
  }

  lemma FieldContent(g: Gc, o: Ref, i: nat, v: Value, c: Ref)
    requires o in g.heap && Storable(g.heap[o], i)
    requires Points(WithObject(g, o, SetField(g.heap[o], i, v)).heap, o, c)
    ensures Points(g.heap, o, c) || v == Obj(c)
  {
    var r := WithObject(g, o, SetField(g.heap[o], i, v));
    var before, after := Content(g.heap, o), Content(r.heap, o);
    var k :| 0 <= k < |after| && after[k] == Obj(c);
    if k != i { assert before[k] == after[k]; assert Obj(c) in before; }
  }

  lemma StackUpdate(g: Gc, t: Ref, stack: seq<Value>, v: Value)
    requires g.marked.Keys == g.heap.Keys && t in g.heap && g.heap[t].Thread?
    requires v.Obj? ==> LiveRef(g, v.ref)
    requires forall k :: 0 <= k < |stack| ==> (k < |g.heap[t].stack| && stack[k] == g.heap[t].stack[k]) || stack[k] == v
    requires forall u :: OpenFor(g.heap, u, t) ==> SlotOf(g.heap, u) < |stack|
    ensures var r := WithObject(g, t, g.heap[t].(stack := stack));
            && Updated(g, r)
            && (forall x :: x in g.heap && x != t && !g.heap[x].OpenUpval? ==> Content(r.heap, x) == Content(g.heap, x))
  {
    var r := WithObject(g, t, g.heap[t].(stack := stack));
    assert forall y, slot :: y != t ==> (OnStack(r.heap, y, slot) <==> OnStack(g.heap, y, slot));
    forall u, y | OpenFor(g.heap, u, y) ensures OpenFor(r.heap, u, y) {}
    forall x, c | Points(r.heap, x, c) ensures Points(g.heap, x, c) || v == Obj(c) {
      StackContent(g, t, stack, v, x, c);
    }
  }

  lemma StackContent(g: Gc, t: Ref, stack: seq<Value>, v: Value, x: Ref, c: Ref)
    requires t in g.heap && g.heap[t].Thread?
    requires forall k :: 0 <= k < |stack| ==> (k < |g.heap[t].stack| && stack[k] == g.heap[t].stack[k]) || stack[k] == v
    requires Points(WithObject(g, t, g.heap[t].(stack := stack)).heap, x, c)
    ensures Points(g.heap, x, c) || v == Obj(c)
  {
    var r := WithObject(g, t, g.heap[t].(stack := stack));
    if x == t {
      var after := [g.heap[t].globals] + stack;
      assert Content(r.heap, t) == after;
      var k :| 0 <= k < |after| && after[k] == Obj(c);
      var before := [g.heap[t].globals] + g.heap[t].stack;
      assert Content(g.heap, t) == before;
      if stack != [] && k > 0 && stack[k - 1] != v { assert before[k] == after[k]; }
      if k == 0 { assert before[0] == after[0]; }
    } else if g.heap[x].OpenUpval? && g.heap[x].thread == t {
      var slot := g.heap[x].slot;
      if slot < |stack| && stack[slot] != v {
        assert OnStack(g.heap, t, slot);
        assert Content(g.heap, x) == [g.heap[t].stack[slot]];
      }
    } else {
      assert forall y, slot :: y != t ==> (OnStack(r.heap, y, slot) <==> OnStack(g.heap, y, slot));
    }
  }

  // ---------- stores keep the invariant ----------

  /** The mark phase while one black object may point to a white one. */
  ghost predicate AlmostTriColour(g: Gc, o: Ref) {
    && g.marked.Keys == g.heap.Keys
    && GrayLists(g) && NoDead(g) && BlackClosed(g, {o}) && GrayPending(g)
    && Seen(g, g.mainthread) && (g.registry.Obj? ==> Seen(g, g.registry.ref))
  }

  lemma MarksFrame(g: Gc, r: Gc)
    requires Shape(g) && LiveClosed(g) && Colours(r)
    requires r == g.(marked := r.marked, gray := r.gray, grayagain := r.grayagain)
    requires r.marked.Keys == g.marked.Keys
    requires forall o :: Fixed(r, o) <==> Fixed(g, o)
    requires forall o :: Dead(r, o) <==> Dead(g, o)
    ensures Shape(r) && LiveClosed(r)
  {
    hide StringTable, OpenUpvals, RootList, Colours;
    StringTableFrame(g, r);
    OpenUpvalsFrame(g, r);
    RootListSame(g, r);
    assert forall o :: o in r.marked && r.marked[o].fixed ==> Fixed(g, o);
    assert forall o :: LiveRef(r, o) <==> LiveRef(g, o);
    assert LiveClosed(r) by {
      forall o | IsRoot(r, o) ensures LiveRef(r, o) { assert IsRoot(g, o) && LiveRef(g, o); }
      forall o, c | LiveRef(r, o) && Points(r.heap, o, c) ensures LiveRef(r, c) { assert LiveRef(g, o) && LiveRef(g, c); }
    }
  }

  /** A change of mark of one live object that is not swept yet. */
  lemma OneMarkPhase(g: Gc, r: Gc, o: Ref)
    requires PhaseOk(g) && !g.phase.Propagate? && !CurrentWhite(g, o) && o in g.marked
    requires o in r.marked && r == g.(marked := g.marked[o := r.marked[o]], grayagain := r.grayagain)
    ensures PhaseOk(r)
  {
    assert forall x :: CurrentWhite(g, x) ==> CurrentWhite(r, x);
    if g.phase.Sweep? {
      forall i | 0 <= i < r.sweepgc ensures Swept(r, r.rootgc[i]) { assert Swept(g, g.rootgc[i]); }
    }
  }

  lemma BarrierBackTriColour(g: Gc, t: Ref)
    requires AlmostTriColour(g, t) && Black(g, t) && t in g.heap && g.heap[t].Table?
    ensures TriColour(BarrierBack(g, t))
    ensures forall o :: Seen(g, o) <==> Seen(BarrierBack(g, t), o)
  {
    var r := BarrierBack(g, t);
    assert !White(g, t);
    assert forall o :: Seen(g, o) <==> Seen(r, o);
    assert t !in g.gray && t !in g.grayagain by { BlackNotListed(g, t); }
    AppendAgain(g, t, r);
    forall o | o in r.gray || o in r.grayagain ensures o in r.heap && Listed(r.heap[o]) && Gray(r, o) {
      if o != t { assert Gray(g, o); }
    }
    forall o | Black(r, o)
      ensures o in r.heap && !r.heap[o].Thread? && !r.heap[o].Str? && !r.heap[o].OpenUpval? && ChildrenSeen(r, o)
    {
      assert o != t && Black(g, o) && ChildrenSeen(g, o);
      forall c | Points(r.heap, o, c) ensures Seen(r, c) { assert Seen(g, c); }
    }
    forall o | Gray(r, o)
      ensures o in r.heap && !r.heap[o].Udata? && !r.heap[o].ClosedUpval? && (Listed(r.heap[o]) ==> o in r.gray || o in r.grayagain)
    {
      if o != t { assert Gray(g, o); }
    }
  }

  lemma BlackNotListed(g: Gc, t: Ref)
    requires GrayLists(g) && Black(g, t)
    ensures t !in g.gray && t !in g.grayagain
  {
    assert forall o :: o in g.gray || o in g.grayagain ==> Gray(g, o);
  }

  lemma AppendAgain(g: Gc, t: Ref, r: Gc)
    requires GrayLists(g) && t !in g.gray && t !in g.grayagain
    requires r.gray == g.gray && r.grayagain == [t] + g.grayagain
    ensures NoDup(r.gray + r.grayagain)
  {
    var old', new', k := g.gray + g.grayagain, r.gray + r.grayagain, |g.gray|;
    assert t !in old';
    forall i, j | 0 <= i < j < |new'| ensures new'[i] != new'[j] {
      var i' := if i < k then i else i - 1;
      var j' := if j < k then j else j - 1;
      if i != k { assert new'[i] == old'[i']; }
      if j != k { assert new'[j] == old'[j']; }
    }
  }

  lemma BarrierBackKeeps(g: Gc, t: Ref)
    requires Shape(g) && LiveClosed(g) && Black(g, t) && t in g.heap && g.heap[t].Table?
    requires if g.phase.Propagate? then AlmostTriColour(g, t) else PhaseOk(g)
    ensures Inv(BarrierBack(g, t))
  {
    var r := BarrierBack(g, t);
    hide StringTable, OpenUpvals, RootList, LiveClosed, PhaseOk, AlmostTriColour, TriColour;
    assert Colours(r);
    assert forall o :: Dead(r, o) <==> Dead(g, o);
    MarksFrame(g, r);
    if g.phase.Propagate? {
      BarrierBackTriColour(g, t);
      MarkPhaseOk(g, t, r);
    } else {
      OneMarkPhase(g, r, t);
    }
  }

  lemma MarkPhaseOk(g: Gc, o: Ref, r: Gc)
    requires AlmostTriColour(g, o) && TriColour(r) && r.phase.Propagate?
    requires r.mainthread == g.mainthread && r.registry == g.registry
    requires forall x :: Seen(g, x) ==> Seen(r, x)
    ensures PhaseOk(r)
  {}

  lemma BarrierForwardKeeps(g: Gc, o: Ref, v: Ref)
    requires Shape(g) && LiveClosed(g) && Black(g, o) && White(g, v) && LiveRef(g, v) && o in g.heap
    requires if g.phase.Propagate? then AlmostTriColour(g, o) else PhaseOk(g)
    requires !g.heap[o].Thread? && !g.heap[o].Str? && !g.heap[o].OpenUpval?
    requires g.phase.Propagate? ==> forall c :: Points(g.heap, o, c) ==> Seen(g, c) || c == v
    ensures Inv(BarrierForward(g, o, v))
  {
    if g.phase.Propagate? {
      MarkBarrierKeeps(g, o, v);
    } else {
      var r := BarrierForward(g, o, v);
      hide StringTable, OpenUpvals, RootList, LiveClosed, PhaseOk;
      assert Colours(r);
      assert !Dead(g, o);
      assert forall x :: Dead(r, x) <==> Dead(g, x);
      MarksFrame(g, r);
      OneMarkPhase(g, r, o);
    }
  }

  lemma AlmostHasNoDead(g: Gc, o: Ref)
    requires AlmostTriColour(g, o)
    ensures forall x :: !Dead(g, x)
  {
    hide BlackClosed, GrayPending, GrayLists;
  }

  lemma AlmostReady(g: Gc, o: Ref, live: set<Ref>)
    requires AlmostTriColour(g, o) && Within(g, live)
    ensures MarkReady(g, live)
  {
    hide BlackClosed, GrayPending, ClosedUnder;
  }

  lemma MarkBarrierKeeps(g: Gc, o: Ref, v: Ref)
    requires Shape(g) && LiveClosed(g) && g.phase.Propagate? && AlmostTriColour(g, o)
    requires Black(g, o) && White(g, v) && LiveRef(g, v) && o in g.heap
    requires !g.heap[o].Thread? && !g.heap[o].Str? && !g.heap[o].OpenUpval?
    requires forall c :: Points(g.heap, o, c) ==> Seen(g, c) || c == v
    ensures Inv(ReallyMark(g, v))
  {
    var r := ReallyMark(g, v);
    AlmostHasNoDead(g, o);
    WholeHeapWithin(g);
    AlmostReady(g, o, g.heap.Keys);
    hide StringTable, OpenUpvals, RootList, LiveClosed, Marking, GrayLists, GrayPending, ReallyMark, ClosedUnder, Colours;
    ReallyMarkKeeps(g, v, g.heap.Keys);
    MarkingKeepsNoDead(g, r);
    MarkingKeepsBlack(g, r, {o});
    MarkingKeepsGray(g, r);
    MarkingGrows(g, r);
    assert Seen(r, v) by { MarkedIsSeen(g, v); }
    assert ChildrenSeen(r, o);
    assert BlackClosed(r, {}) by { BlackClosedOne(r, o); }
    assert TriColour(r);
    TriColourColours(r);
    assert forall x :: Fixed(g, x) <==> Fixed(r, x);
    MarksFrame(g, r);
  }

  lemma MarkedIsSeen(g: Gc, v: Ref)
    requires g.marked.Keys <= g.heap.Keys && White(g, v)
    ensures Seen(ReallyMark(g, v), v)
  {
    assert v !in Whites(ReallyMark(g, v));
  }

  lemma BlackClosedOne(r: Gc, o: Ref)
    requires BlackClosed(r, {o}) && ChildrenSeen(r, o) && o in r.heap
    requires !r.heap[o].Thread? && !r.heap[o].Str? && !r.heap[o].OpenUpval?
    ensures BlackClosed(r, {})
  {}

  /** An update of one object leaves the mark phase intact except for that object. */
  lemma UpdateAlmost(g: Gc, r: Gc, o: Ref, v: Value)
    requires PhaseOk(g) && g.phase.Propagate? && Updated(g, r)
    requires forall x, c :: Black(g, x) && Points(r.heap, x, c) ==> Points(g.heap, x, c) || (x == o && v == Obj(c))
    ensures AlmostTriColour(r, o)
    ensures Black(g, o) ==> forall c :: Points(r.heap, o, c) ==> Seen(r, c) || v == Obj(c)
    ensures (v.Obj? ==> !White(g, v.ref) || !Black(g, o)) && (v.Obj? ==> v.ref in g.marked) ==> TriColour(r)
  {
    hide Updated, GrayLists, GrayPending, NoDead;
    assert r == g.(heap := r.heap) && r.heap.Keys == g.heap.Keys by { UpdatedKeys(g, r); }
    UpdatedTriColour(g, r, {o});
    assert forall x :: Seen(g, x) <==> Seen(r, x);
    if Black(g, o) {
      assert ChildrenSeen(g, o);
      forall c | Points(r.heap, o, c) ensures Seen(r, c) || v == Obj(c) {
        if Points(g.heap, o, c) { assert Seen(g, c); }
      }
    }
    if (v.Obj? ==> !White(g, v.ref) || !Black(g, o)) && (v.Obj? ==> v.ref in g.marked) {
      UpdatedTriColour(g, r, {});
    }
  }

  lemma UpdatedKeys(g: Gc, r: Gc)
    requires Updated(g, r)
    ensures r == g.(heap := r.heap) && r.heap.Keys == g.heap.Keys && forall o :: o in g.heap ==> SameKind(g.heap[o], r.heap[o])
  {}

  lemma TableStoreKeeps(g: Gc, t: Ref, i: nat, v: Value)
    requires Inv(g) && t in g.heap && g.heap[t].Table? && Storable(g.heap[t], i)
    requires v.Obj? ==> LiveRef(g, v.ref)
    ensures g.marked.Keys == g.heap.Keys && Inv(TableStore(g, t, i, v))
  {
    hide Shape, LiveClosed, PhaseOk, Updated, AlmostTriColour, TriColour, BarrierBack, SetField;
    InvParts(g);
    var g1 := WithObject(g, t, SetField(g.heap[t], i, v));
    StoreReady(g, t, i, v);
    assert Black(g1, t) <==> Black(g, t);
    if v.Obj? && White(g, v.ref) && Black(g, t) { BarrierBackKeeps(g1, t); }
  }

  /** The state between a store and its barrier. */
  lemma StoreReady(g: Gc, o: Ref, i: nat, v: Value)
    requires Inv(g) && o in g.heap && Storable(g.heap[o], i)
    requires v.Obj? ==> LiveRef(g, v.ref)
    ensures var g1 := WithObject(g, o, SetField(g.heap[o], i, v));
            && Shape(g1) && LiveClosed(g1)
            && g1.heap.Keys == g.heap.Keys && SameKind(g.heap[o], g1.heap[o])
            && (if g.phase.Propagate? then AlmostTriColour(g1, o) else PhaseOk(g1))
            && (g.phase.Propagate? && Black(g, o) ==> forall c :: Points(g1.heap, o, c) ==> Seen(g1, c) || v == Obj(c))
            && (!(v.Obj? && White(g, v.ref) && Black(g, o)) ==> PhaseOk(g1))
            && (v.Obj? ==> LiveRef(g1, v.ref))
  {
    InvParts(g);
    var g1 := WithObject(g, o, SetField(g.heap[o], i, v));
    FieldUpdate(g, o, i, v);
    UpdatedKeys(g, g1);
    UpdatedShape(g, g1);
    hide Shape, LiveClosed, Updated, AlmostTriColour, TriColour, Storable, SetField;
    if g.phase.Propagate? {
      UpdateAlmost(g, g1, o, v);
      if !(v.Obj? && White(g, v.ref) && Black(g, o)) {
        AlmostSeen(g1, o);
      }
    } else {
      UpdatedPhase(g, g1);
    }
  }

  lemma AlmostSeen(g: Gc, o: Ref)
    requires AlmostTriColour(g, o)
    ensures Seen(g, g.mainthread) && (g.registry.Obj? ==> Seen(g, g.registry.ref))
  {}

  lemma FieldStoreKeeps(g: Gc, o: Ref, i: nat, v: Value)
    requires Inv(g) && o in g.heap && !g.heap[o].Table? && Storable(g.heap[o], i)
    requires v.Obj? ==> LiveRef(g, v.ref)
    ensures g.marked.Keys == g.heap.Keys && Inv(FieldStore(g, o, i, v))
  {
    hide Shape, LiveClosed, PhaseOk, Updated, AlmostTriColour, TriColour, BarrierForward, SetField;
    InvParts(g);
    var g1 := WithObject(g, o, SetField(g.heap[o], i, v));
    StoreReady(g, o, i, v);
    assert Black(g1, o) <==> Black(g, o);
    if v.Obj? && White(g, v.ref) && Black(g, o) { BarrierForwardKeeps(g1, o, v.ref); }
  }

  // ---------- the stack ----------

  lemma NoBlackStack(g: Gc)
    requires PhaseOk(g) && g.phase.Propagate?
    ensures forall x :: Black(g, x) ==> x in g.heap && !g.heap[x].Thread? && !g.heap[x].OpenUpval?
  {
    hide GrayLists, GrayPending, NoDead;
  }

  lemma StackChangeKeeps(g: Gc, t: Ref, stack: seq<Value>, v: Value)
    requires Inv(g) && t in g.heap && g.heap[t].Thread?
    requires v.Obj? ==> LiveRef(g, v.ref)
    requires forall k :: 0 <= k < |stack| ==> (k < |g.heap[t].stack| && stack[k] == g.heap[t].stack[k]) || stack[k] == v
    requires forall u :: OpenFor(g.heap, u, t) ==> SlotOf(g.heap, u) < |stack|
    ensures Inv(WithObject(g, t, g.heap[t].(stack := stack)))
  {
    var r := WithObject(g, t, g.heap[t].(stack := stack));
    InvParts(g);
    StackUpdate(g, t, stack, v);
    UpdatedShape(g, r);
    hide Shape, LiveClosed, Updated, TriColour, OpenFor;
    if g.phase.Propagate? {
      NoBlackStack(g);
      assert forall x, c :: Black(g, x) && Points(r.heap, x, c) ==> Points(g.heap, x, c);
      UpdatedStackTriColour(g, r);
    } else {
      UpdatedPhase(g, r);
    }
  }

  lemma UpdatedStackTriColour(g: Gc, r: Gc)
    requires PhaseOk(g) && g.phase.Propagate? && Updated(g, r)
    requires forall x, c :: Black(g, x) && Points(r.heap, x, c) ==> Points(g.heap, x, c)
    ensures PhaseOk(r)
  {
    UpdatedKeys(g, r);
    hide Updated, GrayLists, BlackClosed, GrayPending, NoDead;
    UpdatedTriColour(g, r, {});
  }

  lemma SlotsBelow(g: Gc, t: Ref)
    requires t in g.heap && g.heap[t].Thread?
    ensures forall u :: OpenFor(g.heap, u, t) ==> SlotOf(g.heap, u) < |g.heap[t].stack|
  {}

  lemma StackStoreKeeps(g: Gc, t: Ref, i: nat, v: Value)
    requires Inv(g) && t in g.heap && g.heap[t].Thread? && i <= |g.heap[t].stack|
    requires v.Obj? ==> LiveRef(g, v.ref)
    ensures Inv(StackStore(g, t, i, v))
  {
    hide Inv, OpenFor, SlotOf;
    SlotsBelow(g, t);
    StackChangeKeeps(g, t, SetAt(g.heap[t].stack, i, v), v);
  }

  lemma StackCutKeeps(g: Gc, t: Ref, n: nat)
    requires Inv(g) && t in g.heap && g.heap[t].Thread? && n <= |g.heap[t].stack|
    requires forall u :: OpenFor(g.heap, u, t) ==> SlotOf(g.heap, u) < n
    ensures Inv(StackCut(g, t, n))
  {
    hide Inv, OpenFor, SlotOf;
    StackChangeKeeps(g, t, g.heap[t].stack[..n], Plain);
  }

  // ---------- writing through an upvalue (OP_SETUPVAL, lvm.c:447-452) ----------

  ghost predicate IsUpval(g: Gc, u: Ref) {
    u in g.heap && (g.heap[u].ClosedUpval? || (g.heap[u].OpenUpval? && OnStack(g.heap, g.heap[u].thread, g.heap[u].slot)))
  }

  ghost function SetUpval(g: Gc, u: Ref, v: Value): Gc
    requires g.marked.Keys == g.heap.Keys && IsUpval(g, u)
  {
    if g.heap[u].ClosedUpval? then FieldStore(g, u, 0, v) else StackStore(g, g.heap[u].thread, g.heap[u].slot, v)
  }

  lemma SetUpvalKeeps(g: Gc, u: Ref, v: Value)
    requires Inv(g) && IsUpval(g, u) && (v.Obj? ==> LiveRef(g, v.ref))
    ensures g.marked.Keys == g.heap.Keys && Inv(SetUpval(g, u, v))
  {
    hide Inv, FieldStore;
    InvParts(g);
    if g.heap[u].ClosedUpval? { FieldStoreKeeps(g, u, 0, v); }
    else { StackStoreKeeps(g, g.heap[u].thread, g.heap[u].slot, v); }
  }

  // ---------- allocation ----------

  /** `luaC_link` (lgc.c:686-692), and `luaS_newudata` (lstring.c:96-110) which links after the main thread. */
  ghost function NewObject(g: Gc, k: nat, x: Object): Gc
    requires k <= |g.rootgc|
  {
    var o := g.next;
    InsertRoot(g, k, o).(heap := g.heap[o := x], marked := g.marked[o := LuaCWhite(g.currentwhite)],
                         held := g.held + {o}, next := o + 1)
  }

  /** Objects that are linked into `rootgc` when they are created. */
  ghost predicate Creatable(g: Gc, x: Object) {
    && InRootList(x) && (x.Thread? ==> x.openupval == [])
    && forall c :: Obj(c) in OwnContent(x) ==> LiveRef(g, c)
  }

  ghost function OwnContent(x: Object): seq<Value> {
    match x
    case Str(_) => []
    case Udata(mt, env) => [mt, env]
    case Func(fields) => fields
    case Table(fields) => fields
    case Proto(fields) => fields
    case OpenUpval(t, slot) => []
    case ClosedUpval(v) => [v]
    case Thread(globals, stack, _) => [globals] + stack
  }

  /** A new white object, wherever it is linked. */
  ghost predicate Grown(g: Gc, o: Ref, x: Object, r: Gc) {
    && o == g.next && r.next == o + 1
    && r.heap == g.heap[o := x] && r.marked == g.marked[o := LuaCWhite(g.currentwhite)]
    && r.held == g.held + {o}
    && r.mainthread == g.mainthread && r.running == g.running && r.registry == g.registry && r.mt == g.mt
    && r.currentwhite == g.currentwhite && r.phase == g.phase && r.gray == g.gray && r.grayagain == g.grayagain
    && r.hash == g.hash
  }

  lemma FreshRef(g: Gc)
    requires Basics(g)
    ensures g.next !in g.heap && g.next !in g.marked
  {}

  lemma NoThreadFresh(g: Gc, t: Ref)
    requires OpenUpvals(g) && t !in g.heap
    ensures forall u :: UpvalOf(g.heap, u).At? ==> UpvalOf(g.heap, u).thread != t
  {}

  lemma GrownContent(g: Gc, o: Ref, x: Object, r: Gc)
    requires Grown(g, o, x, r) && o !in g.heap && OpenUpvals(g)
    requires !x.OpenUpval?
    ensures forall y :: y in g.heap ==> Content(r.heap, y) == Content(g.heap, y)
    ensures Content(r.heap, o) == OwnContent(x)
  {
    NoThreadFresh(g, o);
    assert forall t, slot :: t != o ==> (OnStack(r.heap, t, slot) <==> OnStack(g.heap, t, slot));
    forall y | y in g.heap ensures Content(r.heap, y) == Content(g.heap, y) {
      if g.heap[y].OpenUpval? { assert UpvalOf(g.heap, y).At?; }
    }
  }

  lemma GrownLive(g: Gc, o: Ref, x: Object, r: Gc)
    requires Basics(g) && LiveClosed(g) && Grown(g, o, x, r)
    requires forall y :: y in g.heap ==> Content(r.heap, y) == Content(g.heap, y)
    requires forall c :: Points(r.heap, o, c) ==> LiveRef(g, c)
    ensures LiveClosed(r) && LiveRef(r, o)
    ensures forall y :: LiveRef(g, y) ==> LiveRef(r, y)
  {
    FreshRef(g);
    assert forall y :: y != o ==> (LiveRef(r, y) <==> LiveRef(g, y));
    forall y | IsRoot(r, y) ensures LiveRef(r, y) {
      if y != o { assert IsRoot(g, y) && LiveRef(g, y); }
    }
    forall y, c | LiveRef(r, y) && Points(r.heap, y, c) ensures LiveRef(r, c) {
      if y != o { assert LiveRef(g, y) && Points(g.heap, y, c) && LiveRef(g, c); } else { assert LiveRef(g, c); }
      assert c != o;
    }
  }

  lemma GrownTriColour(g: Gc, o: Ref, x: Object, r: Gc)
    requires TriColour(g) && Grown(g, o, x, r) && o !in g.heap
    requires forall y :: y in g.heap ==> Content(r.heap, y) == Content(g.heap, y)
    ensures TriColour(r) && forall y :: Seen(g, y) ==> Seen(r, y)
  {
    assert forall y :: y != o ==> (Seen(g, y) <==> Seen(r, y));
    forall y | Black(r, y)
      ensures y in r.heap && !r.heap[y].Thread? && !r.heap[y].Str? && !r.heap[y].OpenUpval? && ChildrenSeen(r, y)
    {
      assert Black(g, y) && ChildrenSeen(g, y);
      forall c | Points(r.heap, y, c) ensures Seen(r, c) { assert Points(g.heap, y, c) && Seen(g, c); }
    }
    forall y | Gray(r, y)
      ensures y in r.heap && !r.heap[y].Udata? && !r.heap[y].ClosedUpval? && (Listed(r.heap[y]) ==> y in r.gray || y in r.grayagain)
    {
      assert Gray(g, y);
    }
    forall y | y in r.gray || y in r.grayagain ensures y in r.heap && Listed(r.heap[y]) && Gray(r, y) { assert Gray(g, y); }
  }

  lemma GrownBasics(g: Gc, o: Ref, x: Object, r: Gc)
    requires Basics(g) && Colours(g) && Grown(g, o, x, r)
    ensures Basics(r) && Colours(r)
  {
    FreshRef(g);
  }

  lemma InsertNoDup(xs: seq<Ref>, k: nat, o: Ref)
    requires NoDup(xs) && o !in xs && k <= |xs|
    ensures NoDup(xs[..k] + [o] + xs[k..])
    ensures forall x :: x in xs[..k] + [o] + xs[k..] <==> x == o || x in xs
  {
    var ys := xs[..k] + [o] + xs[k..];
    forall i, j | 0 <= i < j < |ys| ensures ys[i] != ys[j] {
      assert ys[i] == (if i < k then xs[i] else if i == k then o else xs[i - 1]);
      assert ys[j] == (if j < k then xs[j] else if j == k then o else xs[j - 1]);
    }
    forall x | x in xs ensures x in ys {
      var i :| 0 <= i < |xs| && xs[i] == x;
      assert ys[if i < k then i else i + 1] == x;
    }
  }

  lemma NewObjectHeap(g: Gc, x: Object)
    requires g.next !in g.heap && InRootList(x) && (x.Thread? ==> x.openupval == [])
    ensures var h, o := g.heap[g.next := x], g.next;
            && (forall y :: TextOf(h, y) == TextOf(g.heap, y))
            && (forall y :: UpvalOf(h, y) == UpvalOf(g.heap, y))
            && (forall y :: ListOf(h, y) == (if y == o && x.Thread? then Some([]) else ListOf(g.heap, y)))
            && (forall y :: y != o ==> Depth(h, y) == Depth(g.heap, y))
            && (forall y :: Rooted(h, y) <==> Rooted(g.heap, y) || y == o)
  {}

  lemma NewObjectOpenUpvals(g: Gc, r: Gc, o: Ref)
    requires OpenUpvals(g) && r.uvhead == g.uvhead && o !in g.heap
    requires forall y :: UpvalOf(r.heap, y) == UpvalOf(g.heap, y)
    requires forall y :: y != o ==> ListOf(r.heap, y) == ListOf(g.heap, y) && Depth(r.heap, y) == Depth(g.heap, y)
    requires ListOf(r.heap, o).Some? ==> ListOf(r.heap, o).value == []
    ensures OpenUpvals(r)
  {
    NoThreadFresh(g, o);
    hide UpvalOf, ListOf, Depth;
    assert forall u, t :: OpenFor(g.heap, u, t) ==> OpenFor(r.heap, u, t);
    assert forall u :: SlotOf(r.heap, u) == SlotOf(g.heap, u);
    forall t | ListOf(r.heap, t).Some? ensures OpenList(r.heap, t, ListOf(r.heap, t).value) {
      if t != o { assert OpenList(g.heap, t, ListOf(g.heap, t).value); }
    }
  }

  lemma NewObjectPhase(g: Gc, k: nat, x: Object)
    requires Shape(g) && PhaseOk(g) && k <= |g.rootgc| && InRootList(x) && (x.Thread? ==> x.openupval == [])
    requires forall y :: y in g.heap ==> Content(NewObject(g, k, x).heap, y) == Content(g.heap, y)
    ensures PhaseOk(NewObject(g, k, x))
  {
    hide TextOf, UpvalOf, ListOf, Depth, Rooted, OpenUpvals, StringTable, RootList, TriColour, Colours, Swept, Content;
    var r, o := NewObject(g, k, x), g.next;
    FreshRef(g);
    assert forall y :: CurrentWhite(g, y) ==> CurrentWhite(r, y);
    match g.phase
    case Propagate => GrownTriColour(g, o, x, r);
    case Sweep =>
      forall i | 0 <= i < r.sweepgc ensures Swept(r, r.rootgc[i]) { NewObjectSwept(g, k, x, i); }
    case _ =>
  }

  lemma NewObjectSwept(g: Gc, k: nat, x: Object, i: nat)
    requires Basics(g) && k <= |g.rootgc| && InRootList(x) && (x.Thread? ==> x.openupval == [])
    requires g.sweepgc <= |g.rootgc| && forall j :: 0 <= j < g.sweepgc ==> Swept(g, g.rootgc[j])
    requires i < NewObject(g, k, x).sweepgc
    ensures Swept(NewObject(g, k, x), NewObject(g, k, x).rootgc[i])
  {
    FreshRef(g);
    NewObjectHeap(g, x);
    hide TextOf, UpvalOf, ListOf, Depth, Rooted;
    var r, o := NewObject(g, k, x), g.next;
    assert forall y :: CurrentWhite(g, y) ==> CurrentWhite(r, y);
    if i < k { assert Swept(g, g.rootgc[i]); }
    else if i > k { assert r.rootgc[i] == g.rootgc[i - 1] && Swept(g, g.rootgc[i - 1]); }
    else { FreshList(r, o, x); }
  }

  lemma FreshList(r: Gc, o: Ref, x: Object)
    requires o in r.heap && r.heap[o] == x && (x.Thread? ==> x.openupval == [])
    ensures ListOf(r.heap, o).Some? ==> ListOf(r.heap, o).value == []
  {}

  lemma NewObjectKeeps(g: Gc, k: nat, x: Object)
    requires Inv(g) && k <= |g.rootgc| && Creatable(g, x)
    ensures Inv(NewObject(g, k, x))
  {
    var r, o := NewObject(g, k, x), g.next;
    FreshRef(g);
    NewObjectHeap(g, x);
    GrownContent(g, o, x, r);
    hide StringTable, OpenUpvals, TextOf, UpvalOf, ListOf, Depth, Rooted, LiveClosed, PhaseOk, Colours;
    NewObjectPhase(g, k, x);
    GrownLive(g, o, x, r);
    GrownBasics(g, o, x, r);
    StringTableFrame(g, r);
    NewObjectOpenUpvals(g, r, o) by { FreshList(r, o, x); }
    assert o !in g.rootgc by { NotRootedFresh(g, o); }
    InsertNoDup(g.rootgc, k, o);
  }

  lemma NotRootedFresh(g: Gc, o: Ref)
    requires RootList(g) && o !in g.heap
    ensures o !in g.rootgc
  {}
}
