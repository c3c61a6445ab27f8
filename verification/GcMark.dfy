/**
  The mark phase of lgc.c as functions on collector states, and what marking keeps.
  */
module GcMark {
  import opened GcState

  ghost function Measure(g: Gc): nat { 2 * |Whites(g)| + |g.gray| }

  /** `reallymarkobject` (lgc.c:69-112). */
  ghost function ReallyMark(g: Gc, o: Ref): (r: Gc)
    requires g.marked.Keys <= g.heap.Keys && White(g, o)
    ensures r == g.(marked := r.marked, gray := r.gray)
    ensures r.marked.Keys == g.marked.Keys
    ensures Whites(r) <= Whites(g) - {o}
    ensures Measure(r) < Measure(g)
    decreases |Whites(g)|, 0
  {
    var g1 := g.(marked := g.marked[o := White2Gray(g.marked[o])]);
    WhitesDrop(g, g1, o);
    match g.heap[o]
    case Str(_) => g1
    case Udata(mt, env) =>
      var g2 := g1.(marked := g1.marked[o := Gray2Black(g1.marked[o])]);
      WhitesDrop(g, g2, o);
      var g3 := MarkValue(g2, mt);
      WhitesShrink(g2, g3);
      var g4 := MarkValue(g3, env);
      g4
    case ClosedUpval(v) =>
      var g2 := MarkValue(g1, v);
      var g3 := g2.(marked := g2.marked[o := Gray2Black(g2.marked[o])]);
      WhitesShrink(g2, g3);
      g3
    case OpenUpval(t, slot) =>
      if OnStack(g.heap, t, slot) then MarkValue(g1, g.heap[t].stack[slot]) else g1
    case _ => g1.(gray := [o] + g1.gray)
  }

  /** The macro `markvalue` (lgc.c:52-53). */
  ghost function MarkValue(g: Gc, v: Value): (r: Gc)
    requires g.marked.Keys <= g.heap.Keys
    ensures r == g.(marked := r.marked, gray := r.gray)
    ensures r.marked.Keys == g.marked.Keys
    ensures Whites(r) <= Whites(g)
    ensures v.Obj? ==> v.ref !in Whites(r)
    ensures Measure(r) <= Measure(g)
    decreases |Whites(g)|, 1
  {
    if v.Obj? && White(g, v.ref) then ReallyMark(g, v.ref) else g
  }

  /** The loops of `traversetable`, `traverseclosure`, `traverseproto` and `traversestack`. */
  ghost function MarkAll(g: Gc, vs: seq<Value>): (r: Gc)
    requires g.marked.Keys <= g.heap.Keys
    ensures r == g.(marked := r.marked, gray := r.gray)
    ensures r.marked.Keys == g.marked.Keys
    ensures Whites(r) <= Whites(g)
    ensures Measure(r) <= Measure(g)
    decreases |vs|
  {
    if vs == [] then g else MarkAll(MarkValue(g, vs[0]), vs[1..])
  }

  // ---------- what marking keeps ----------

  ghost predicate NoDup<T(!new)>(s: seq<T>) {
    forall i, j :: 0 <= i < j < |s| ==> s[i] != s[j]
  }

  /** The gray lists hold distinct gray objects of the kinds that are traversed later. */
  ghost predicate GrayLists(g: Gc) {
    && (forall o :: o in g.gray || o in g.grayagain ==> o in g.heap && Listed(g.heap[o]) && Gray(g, o))
    && NoDup(g.gray + g.grayagain)
  }

  /** `live` is a closed part of the heap to which marking has been confined. */
  ghost predicate Within(g: Gc, live: set<Ref>) {
    && live <= g.heap.Keys == g.marked.Keys
    && ClosedUnder(g.heap, live)
    && forall o :: Seen(g, o) ==> o in live
  }

  ghost predicate ChildrenSeen(g: Gc, o: Ref) {
    forall c :: Points(g.heap, o, c) ==> Seen(g, c)
  }

  /** How `reallymarkobject` leaves an object it has just visited. */
  ghost predicate Visited(g: Gc, o: Ref)
    requires o in g.heap
  {
    match g.heap[o]
    case Str(_) => Gray(g, o)
    case Udata(_, _) => Black(g, o) && ChildrenSeen(g, o)
    case ClosedUpval(_) => Black(g, o) && ChildrenSeen(g, o)
    case OpenUpval(_, _) => Gray(g, o) && ChildrenSeen(g, o)
    case _ => Gray(g, o) && o in g.gray
  }

  /** No object has both a white bit and the black bit. */
  ghost predicate Coloured(g: Gc) {
    forall o :: o in g.marked ==> !(IsWhite(g.marked[o]) && IsBlack(g.marked[o]))
  }

  /** Marking only turns white objects into visited ones and only adds to the gray list. */
  ghost predicate Marking(g: Gc, r: Gc)
    requires g.marked.Keys <= g.heap.Keys
  {
    && r == g.(marked := r.marked, gray := r.gray)
    && r.marked.Keys == g.marked.Keys
    && (forall o :: Seen(g, o) ==> r.marked[o] == g.marked[o])
    && (forall o :: White(r, o) ==> r.marked[o] == g.marked[o])
    && (forall o :: o in g.marked ==> r.marked[o].fixed == g.marked[o].fixed)
    && (forall o :: o in g.gray ==> o in r.gray)
    && (forall o :: White(g, o) && Seen(r, o) ==> Visited(r, o))
  }

  lemma VisitedStays(g: Gc, r: Gc, o: Ref)
    requires g.marked.Keys <= g.heap.Keys && Marking(g, r)
    requires o in g.heap && Seen(g, o) && Visited(g, o)
    ensures Visited(r, o)
  {
    if ChildrenSeen(g, o) {
      forall c | Points(r.heap, o, c) ensures Seen(r, c) {
        assert Seen(g, c);
      }
    }
  }

  lemma MarkingReflexive(g: Gc)
    requires g.marked.Keys <= g.heap.Keys
    ensures Marking(g, g)
  {}

  lemma MarkingTransitive(g: Gc, r: Gc, s: Gc)
    requires g.marked.Keys <= g.heap.Keys
    requires Marking(g, r) && Marking(r, s)
    ensures Marking(g, s)
  {
    forall o | White(g, o) && Seen(s, o) ensures Visited(s, o) {
      if Seen(r, o) { VisitedStays(r, s, o); }
    }
    forall o | Seen(g, o) ensures s.marked[o] == g.marked[o] {
      assert Seen(r, o);
    }
    forall o | White(s, o) ensures s.marked[o] == g.marked[o] {
      assert White(r, o);
    }
  }

  ghost predicate MarkReady(g: Gc, live: set<Ref>) {
    Within(g, live) && GrayLists(g) && Coloured(g)
  }

  /** The object under visit changes colour first and its content is marked afterwards. */
  lemma MarkOneThenRest(g: Gc, g1: Gc, r: Gc, o: Ref, live: set<Ref>)
    requires MarkReady(g, live) && o in live && White(g, o)
    requires o in g1.marked && g1 == g.(marked := g.marked[o := g1.marked[o]])
    requires !IsWhite(g1.marked[o]) && g1.marked[o].fixed == g.marked[o].fixed
    requires Marking(g1, r) && Visited(r, o)
    ensures Marking(g, r)
  {
    forall x | Seen(g, x) ensures r.marked[x] == g.marked[x] {
      assert Seen(g1, x);
    }
    forall x | White(g, x) && Seen(r, x) ensures Visited(r, x) {
      if x != o { assert White(g1, x); }
    }
    forall x | White(r, x) ensures r.marked[x] == g.marked[x] {
      assert Seen(g1, o);
      assert White(g1, x);
    }
  }

  /** Taking the white off an object that is not on a gray list. */
  lemma RecolourKeeps(g: Gc, g1: Gc, o: Ref, live: set<Ref>)
    requires MarkReady(g, live) && o in live && White(g, o)
    requires o in g1.marked && g1 == g.(marked := g.marked[o := g1.marked[o]])
    requires !IsWhite(g1.marked[o])
    ensures MarkReady(g1, live) && Seen(g1, o)
    ensures Whites(g1) <= Whites(g) - {o} && |Whites(g1)| < |Whites(g)|
  {
    WhitesDrop(g, g1, o);
    forall x | x in g1.gray || x in g1.grayagain ensures x in g1.heap && Listed(g1.heap[x]) && Gray(g1, x) {
      assert Gray(g, x);
    }
  }

  lemma {:induction false} ReallyMarkKeeps(g: Gc, o: Ref, live: set<Ref>)
    requires MarkReady(g, live) && o in live && White(g, o)
    ensures Marking(g, ReallyMark(g, o)) && MarkReady(ReallyMark(g, o), live)
    decreases |Whites(g)|, 0
  {
    hide Marking, GrayLists, ClosedUnder;
    var g1 := g.(marked := g.marked[o := White2Gray(g.marked[o])]);
    RecolourKeeps(g, g1, o, live);
    match g.heap[o]
    case Str(_) =>
      MarkingReflexive(g1);
      MarkOneThenRest(g, g1, g1, o, live);
    case Udata(_, _) =>
      MarkUdataKeeps(g, o, live);
    case ClosedUpval(v) =>
      MarkChildKeeps(g1, o, v, live);
      BlackenLast(g, g1, MarkValue(g1, v), ReallyMark(g, o), o, live);
    case OpenUpval(t, slot) =>
      if OnStack(g.heap, t, slot) {
        MarkChildKeeps(g1, o, g.heap[t].stack[slot], live);
        SeenStays(g1, ReallyMark(g, o), o);
      } else {
        MarkingReflexive(g1);
      }
      MarkOneThenRest(g, g1, ReallyMark(g, o), o, live);
    case _ =>
      PushKeeps(g, g1, ReallyMark(g, o), o, live);
  }

  lemma SeenStays(g: Gc, r: Gc, o: Ref)
    requires g.marked.Keys <= g.heap.Keys && Marking(g, r)
    requires Seen(g, o)
    ensures Seen(r, o) && r.marked[o] == g.marked[o] && r.heap == g.heap
  {}

  lemma UdataUnfolds(g: Gc, g2: Gc, o: Ref)
    requires g.marked.Keys <= g.heap.Keys && White(g, o) && g.heap[o].Udata?
    requires g2 == g.(marked := g.marked[o := Gray2Black(White2Gray(g.marked[o]))])
    ensures ReallyMark(g, o) == MarkValue(MarkValue(g2, g.heap[o].metatable), g.heap[o].env)
  {
    var m := g.marked[o := White2Gray(g.marked[o])];
    assert m[o := Gray2Black(m[o])] == g2.marked;
    assert g2 == g.(marked := m).(marked := m[o := Gray2Black(m[o])]);
  }

  lemma MarkUdataKeeps(g: Gc, o: Ref, live: set<Ref>)
    requires MarkReady(g, live) && o in live && White(g, o) && g.heap[o].Udata?
    ensures Marking(g, ReallyMark(g, o)) && MarkReady(ReallyMark(g, o), live)
    decreases |Whites(g)|, 0, 0
  {
    hide Marking, GrayLists, ClosedUnder, Coloured, ReallyMark, MarkValue;
    var mt, env := g.heap[o].metatable, g.heap[o].env;
    var g2 := g.(marked := g.marked[o := Gray2Black(White2Gray(g.marked[o]))]);
    RecolourKeeps(g, g2, o, live);
    UdataUnfolds(g, g2, o);
    MarkChildKeeps(g2, o, mt, live);
    var g3 := MarkValue(g2, mt);
    WhitesShrink(g2, g3);
    SeenStays(g2, g3, o);
    MarkChildKeeps(g3, o, env, live);
    var r := MarkValue(g3, env);
    SeenStays(g3, r, o);
    MarkingTransitive(g2, g3, r);
    assert Content(r.heap, o) == [mt, env];
    if mt.Obj? { SeenStays(g3, r, mt.ref); }
    assert ChildrenSeen(r, o);
    MarkOneThenRest(g, g2, r, o, live);
  }

  lemma PushLists(g: Gc, g1: Gc, r: Gc, o: Ref)
    requires GrayLists(g) && GrayLists(g1) && White(g, o) && o in g.heap && Listed(g.heap[o])
    requires g1 == g.(marked := g.marked[o := White2Gray(g.marked[o])])
    requires r == g1.(gray := [o] + g1.gray) && !IsBlack(g.marked[o])
    ensures GrayLists(r)
  {
    assert forall x :: x in g.gray + g.grayagain ==> Gray(g, x);
    assert o !in g.gray + g.grayagain;
    assert r.gray + r.grayagain == [o] + (g.gray + g.grayagain);
    assert NoDup(r.gray + r.grayagain);
    forall x | x in r.gray || x in r.grayagain ensures x in r.heap && Listed(r.heap[x]) && Gray(r, x) {
      if x != o { assert Gray(g1, x); }
    }
  }

  lemma PushKeeps(g: Gc, g1: Gc, r: Gc, o: Ref, live: set<Ref>)
    requires MarkReady(g, live) && o in live && White(g, o) && Listed(g.heap[o])
    requires g1 == g.(marked := g.marked[o := White2Gray(g.marked[o])])
    requires MarkReady(g1, live)
    requires r == g1.(gray := [o] + g1.gray)
    ensures Marking(g, r) && MarkReady(r, live) && Seen(r, o)
  {
    hide GrayLists, ClosedUnder;
    PushLists(g, g1, r, o);
    assert forall x :: x in g.gray ==> x in r.gray;
    assert forall x :: Seen(r, x) <==> Seen(g1, x);
  }

  lemma BlackenLast(g: Gc, g1: Gc, g2: Gc, r: Gc, o: Ref, live: set<Ref>)
    requires MarkReady(g, live) && o in live && White(g, o) && g.heap[o].ClosedUpval?
    requires g1 == g.(marked := g.marked[o := White2Gray(g.marked[o])])
    requires Marking(g1, g2) && MarkReady(g2, live)
    requires r == g2.(marked := g2.marked[o := Gray2Black(g2.marked[o])])
    requires ChildrenSeen(r, o)
    ensures Marking(g, r) && MarkReady(r, live) && Seen(r, o)
  {
    assert Seen(g1, o);
    forall x | White(g, x) && Seen(r, x) ensures Visited(r, x) {
      if x != o {
        assert White(g1, x) && Seen(g2, x);
        assert Visited(g2, x);
        if ChildrenSeen(g2, x) {
          forall c | Points(r.heap, x, c) ensures Seen(r, c) { assert Seen(g2, c); }
        }
      }
    }
    forall x | Seen(g, x) ensures r.marked[x] == g.marked[x] {
      assert Seen(g1, x);
    }
  }

  /** Marking one value held by an object that has already been visited. */
  lemma {:induction false} MarkChildKeeps(g: Gc, o: Ref, v: Value, live: set<Ref>)
    requires MarkReady(g, live) && o in live && v in Content(g.heap, o)
    ensures var r := MarkValue(g, v); Marking(g, r) && MarkReady(r, live) && (v.Obj? ==> Seen(r, v.ref))
    decreases |Whites(g)|, 2
  {
    if v.Obj? {
      assert Points(g.heap, o, v.ref);
      MarkValueKeeps(g, v, live);
    }
  }

  lemma {:induction false} MarkValueKeeps(g: Gc, v: Value, live: set<Ref>)
    requires MarkReady(g, live) && (v.Obj? ==> v.ref in live)
    ensures var r := MarkValue(g, v); Marking(g, r) && MarkReady(r, live) && (v.Obj? ==> Seen(r, v.ref))
    decreases |Whites(g)|, 1
  {
    if v.Obj? && White(g, v.ref) {
      ReallyMarkKeeps(g, v.ref, live);
    }
  }

  lemma {:induction false} MarkAllKeeps(g: Gc, vs: seq<Value>, live: set<Ref>)
    requires MarkReady(g, live) && (forall v :: v in vs && v.Obj? ==> v.ref in live)
    ensures var r := MarkAll(g, vs);
            Marking(g, r) && MarkReady(r, live) && (forall v :: v in vs && v.Obj? ==> Seen(r, v.ref))
    decreases |vs|
  {
    if vs != [] {
      var g1 := MarkValue(g, vs[0]);
      MarkValueKeeps(g, vs[0], live);
      MarkAllKeeps(g1, vs[1..], live);
      var r := MarkAll(g, vs);
      MarkingTransitive(g, g1, r);
      forall v | v in vs && v.Obj? ensures Seen(r, v.ref) {
        if v == vs[0] { assert Seen(g1, v.ref); } else { assert v in vs[1..]; }
      }
    }
  }
}
