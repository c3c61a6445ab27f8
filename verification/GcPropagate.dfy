/**
  `propagatemark`, `propagateall`, `markroot` and `atomic` of lgc.c, the tri-colour invariant they
  keep, and what holds of the heap when the mark phase ends.
  */
module GcPropagate {
  import opened GcState
  import opened GcMark

  /** `propagatemark` (lgc.c:277-320): threads stay gray and move to `grayagain`. */
  ghost function PropagateMark(g: Gc): (r: Gc)
    requires g.marked.Keys == g.heap.Keys && g.gray != [] && g.gray[0] in g.heap
    ensures r == g.(marked := r.marked, gray := r.gray, grayagain := r.grayagain)
    ensures r.marked.Keys == g.marked.Keys
    ensures Measure(r) < Measure(g)
  {
    WhitesShrink(g, TakeGray(g));
    MarkAll(TakeGray(g), Content(g.heap, g.gray[0]))
  }

  /** The state in which the content of the first gray object is about to be marked. */
  ghost function TakeGray(g: Gc): Gc
    requires g.marked.Keys == g.heap.Keys && g.gray != [] && g.gray[0] in g.heap
  {
    var o := g.gray[0];
    if g.heap[o].Thread? then g.(gray := g.gray[1..], grayagain := [o] + g.grayagain)
    else g.(gray := g.gray[1..], marked := g.marked[o := Gray2Black(g.marked[o])])
  }

  /** `propagateall` (lgc.c:323-327).  A gray list that left the heap would be a corrupted list; the
      invariant below excludes it. */
  ghost function PropagateAll(g: Gc): (r: Gc)
    requires g.marked.Keys == g.heap.Keys
    ensures r == g.(marked := r.marked, gray := r.gray, grayagain := r.grayagain)
    ensures r.marked.Keys == g.marked.Keys
    decreases Measure(g)
  {
    if g.gray == [] || g.gray[0] !in g.heap then g else PropagateAll(PropagateMark(g))
  }

  /** `remarkupvals` (lgc.c:515-522). */
  ghost function RemarkUpvals(g: Gc, us: seq<Ref>): (r: Gc)
    requires g.marked.Keys == g.heap.Keys
    ensures r == g.(marked := r.marked, gray := r.gray)
    ensures r.marked.Keys == g.marked.Keys
    decreases |us|
  {
    if us == [] then g
    else if Gray(g, us[0]) then RemarkUpvals(MarkAll(g, Content(g.heap, us[0])), us[1..])
    else RemarkUpvals(g, us[1..])
  }

  /** What `markroot` marks, in order: the main thread, its globals, the registry, the basic metatables. */
  ghost function RootValues(g: Gc): seq<Value> {
    var globals := if g.mainthread in g.heap && g.heap[g.mainthread].Thread? then g.heap[g.mainthread].globals else Plain;
    [Obj(g.mainthread), globals, g.registry] + g.mt
  }

  /** `markroot` (lgc.c:501-512). */
  ghost function MarkRoot(g: Gc): (r: Gc)
    requires g.marked.Keys == g.heap.Keys
    ensures r == g.(marked := r.marked, gray := r.gray, grayagain := [], phase := Propagate)
    ensures r.marked.Keys == g.marked.Keys
  {
    MarkAll(g.(gray := [], grayagain := []), RootValues(g)).(phase := Propagate)
  }

  // `atomic` (lgc.c:525-553) without weak tables and finalizers: three propagations, then the flip.

  ghost function RemarkPass(g: Gc): (r: Gc)
    requires g.marked.Keys == g.heap.Keys
    ensures r == g.(marked := r.marked, gray := r.gray, grayagain := r.grayagain)
    ensures r.marked.Keys == g.marked.Keys
  {
    PropagateAll(RemarkUpvals(g, g.uvhead))
  }

  ghost function RootPass(g: Gc): (r: Gc)
    requires g.marked.Keys == g.heap.Keys
    ensures r == g.(marked := r.marked, gray := r.gray, grayagain := r.grayagain)
    ensures r.marked.Keys == g.marked.Keys
  {
    PropagateAll(MarkAll(MarkValue(g, Obj(g.running)), g.mt))
  }

  ghost function AgainPass(g: Gc): (r: Gc)
    requires g.marked.Keys == g.heap.Keys
    ensures r == g.(marked := r.marked, gray := r.gray, grayagain := r.grayagain)
    ensures r.marked.Keys == g.marked.Keys
  {
    PropagateAll(g.(gray := g.grayagain, grayagain := []))
  }

  ghost function AtomicMark(g: Gc): (r: Gc)
    requires g.marked.Keys == g.heap.Keys
    ensures r == g.(marked := r.marked, gray := r.gray, grayagain := r.grayagain)
    ensures r.marked.Keys == g.marked.Keys
  {
    AgainPass(RootPass(RemarkPass(g)))
  }

  ghost function Atomic(g: Gc): (r: Gc)
    requires g.marked.Keys == g.heap.Keys
  {
    AtomicMark(g).(currentwhite := !g.currentwhite, sweepstrgc := 0, sweepgc := 0, phase := SweepString)
  }

  // ---------- the tri-colour invariant ----------

  ghost predicate NoDead(g: Gc) {
    forall o :: o in g.marked && IsWhite(g.marked[o]) ==> IsCurrentWhite(g.currentwhite, g.marked[o])
  }

  /** No black object points to a white one, and threads, strings and open upvalues are never black. */
  ghost predicate BlackClosed(g: Gc, except: set<Ref>) {
    forall o :: Black(g, o) && o !in except ==>
      && o in g.heap && !g.heap[o].Thread? && !g.heap[o].Str? && !g.heap[o].OpenUpval?
      && ChildrenSeen(g, o)
  }

  /** Every gray object that has content still to be traversed is on a gray list. */
  ghost predicate GrayPending(g: Gc) {
    forall o :: Gray(g, o) ==>
      && o in g.heap && !g.heap[o].Udata? && !g.heap[o].ClosedUpval?
      && (Listed(g.heap[o]) ==> o in g.gray || o in g.grayagain)
  }

  ghost predicate TriColour(g: Gc) {
    && g.marked.Keys == g.heap.Keys
    && GrayLists(g) && NoDead(g) && BlackClosed(g, {}) && GrayPending(g)
  }

  lemma TriColourReady(g: Gc, live: set<Ref>)
    requires TriColour(g) && Within(g, live)
    ensures MarkReady(g, live)
  {
    hide GrayLists, BlackClosed, GrayPending, ClosedUnder;
  }

  lemma MarkingKeepsNoDead(g: Gc, r: Gc)
    requires g.marked.Keys == g.heap.Keys && Marking(g, r) && NoDead(g)
    ensures NoDead(r)
  {
    hide Visited;
    forall o | o in r.marked && IsWhite(r.marked[o]) ensures IsCurrentWhite(r.currentwhite, r.marked[o]) {
      assert White(r, o);
    }
  }

  lemma ChildrenSeenStays(g: Gc, r: Gc, o: Ref)
    requires g.marked.Keys == g.heap.Keys && Marking(g, r) && ChildrenSeen(g, o)
    ensures ChildrenSeen(r, o)
  {
    hide Visited;
    forall c | Points(r.heap, o, c) ensures Seen(r, c) {
      assert Seen(g, c);
    }
  }

  lemma MarkingKeepsBlack(g: Gc, r: Gc, except: set<Ref>)
    requires g.marked.Keys == g.heap.Keys && Marking(g, r)
    requires NoDead(g) && NoDead(r) && BlackClosed(g, except)
    ensures BlackClosed(r, except)
  {
    forall o | Black(r, o) && o !in except
      ensures o in r.heap && !r.heap[o].Thread? && !r.heap[o].Str? && !r.heap[o].OpenUpval? && ChildrenSeen(r, o)
    {
      if Seen(g, o) {
        assert Black(g, o);
        ChildrenSeenStays(g, r, o);
      } else {
        assert White(g, o) && Seen(r, o);
        assert Visited(r, o);
      }
    }
  }

  lemma MarkingKeepsGray(g: Gc, r: Gc)
    requires g.marked.Keys == g.heap.Keys && Marking(g, r) && GrayPending(g)
    ensures GrayPending(r)
  {
    forall o | Gray(r, o)
      ensures o in r.heap && !r.heap[o].Udata? && !r.heap[o].ClosedUpval?
      ensures Listed(r.heap[o]) ==> o in r.gray || o in r.grayagain
    {
      if Seen(g, o) {
        assert Gray(g, o);
      } else {
        assert White(g, o) && Seen(r, o);
        assert Visited(r, o);
      }
    }
  }

  lemma MarkingKeepsTriColour(g: Gc, r: Gc, live: set<Ref>)
    requires TriColour(g) && Marking(g, r) && MarkReady(r, live)
    ensures TriColour(r)
  {
    hide Marking, Visited, GrayLists, BlackClosed, GrayPending, ClosedUnder;
    MarkingKeepsNoDead(g, r);
    MarkingKeepsBlack(g, r, {});
    MarkingKeepsGray(g, r);
    MarkingGrows(g, r);
  }

  // ---------- what holds towards the end of the mark phase ----------

  ghost predicate UpvalsDone(g: Gc) {
    forall o :: Gray(g, o) && o in g.heap && g.heap[o].OpenUpval? ==> ChildrenSeen(g, o)
  }

  ghost predicate AgainDone(g: Gc) {
    forall o :: o in g.grayagain ==> o in g.heap && g.heap[o].Thread? && ChildrenSeen(g, o)
  }

  ghost predicate SeenGrows(g: Gc, r: Gc) {
    && r.marked.Keys == g.marked.Keys
    && (forall o :: Seen(g, o) ==> Seen(r, o))
    && (forall o :: o in g.marked ==> r.marked[o].fixed == g.marked[o].fixed)
  }

  lemma MarkingKeepsUpvals(g: Gc, r: Gc)
    requires g.marked.Keys == g.heap.Keys && Marking(g, r) && UpvalsDone(g)
    ensures UpvalsDone(r)
  {
    forall o | Gray(r, o) && o in r.heap && r.heap[o].OpenUpval? ensures ChildrenSeen(r, o) {
      if Seen(g, o) {
        assert Gray(g, o);
        ChildrenSeenStays(g, r, o);
      } else {
        assert White(g, o) && Seen(r, o);
        assert Visited(r, o);
      }
    }
  }

  lemma MarkingKeepsAgain(g: Gc, r: Gc)
    requires g.marked.Keys == g.heap.Keys && Marking(g, r) && AgainDone(g)
    ensures AgainDone(r)
  {
    hide Visited;
    forall o | o in r.grayagain ensures o in r.heap && r.heap[o].Thread? && ChildrenSeen(r, o) {
      ChildrenSeenStays(g, r, o);
    }
  }

  lemma MarkingGrows(g: Gc, r: Gc)
    requires g.marked.Keys == g.heap.Keys && Marking(g, r)
    ensures SeenGrows(g, r)
  {
    hide Visited;
  }

  lemma ContentLive(g: Gc, o: Ref, live: set<Ref>)
    requires Within(g, live) && o in live
    ensures forall v :: v in Content(g.heap, o) && v.Obj? ==> v.ref in live
  {
    forall v | v in Content(g.heap, o) && v.Obj? ensures v.ref in live {
      assert Points(g.heap, o, v.ref);
    }
  }

  lemma PopGray(g: Gc, g1: Gc)
    requires GrayLists(g) && g.gray != []
    requires g1.gray == g.gray[1..] && g1.grayagain == g.grayagain
    ensures NoDup(g1.gray + g1.grayagain) && g.gray[0] !in g1.gray + g1.grayagain
  {
    var all := g.gray + g.grayagain;
    assert g1.gray + g1.grayagain == all[1..];
    assert forall i :: 0 < i < |all| ==> all[0] != all[i];
  }

  lemma MoveGray(g: Gc, g1: Gc)
    requires GrayLists(g) && g.gray != []
    requires g1.gray == g.gray[1..] && g1.grayagain == [g.gray[0]] + g.grayagain
    ensures NoDup(g1.gray + g1.grayagain)
  {
    var all, k := g.gray + g.grayagain, |g1.gray|;
    assert all[0] == g.gray[0];
    forall i, j | 0 <= i < j < |g1.gray + g1.grayagain|
      ensures (g1.gray + g1.grayagain)[i] != (g1.gray + g1.grayagain)[j]
    {
      var i' := if i < k then i + 1 else if i == k then 0 else i;
      var j' := if j < k then j + 1 else if j == k then 0 else j;
      assert (g1.gray + g1.grayagain)[i] == all[i'];
      assert (g1.gray + g1.grayagain)[j] == all[j'];
      assert i' != j';
    }
  }

  /** `g1` is `g` with the first gray object taken off its list and turned black. */
  ghost predicate Blackens(g: Gc, g1: Gc) {
    && g.marked.Keys == g.heap.Keys && g.gray != [] && g.gray[0] in g.heap && Gray(g, g.gray[0]) && Listed(g.heap[g.gray[0]])
    && g1 == g.(gray := g.gray[1..], marked := g.marked[g.gray[0] := Gray2Black(g.marked[g.gray[0]])])
  }

  lemma BlackensSeen(g: Gc, g1: Gc)
    requires Blackens(g, g1)
    ensures SeenGrows(g, g1) && forall x :: Seen(g1, x) <==> Seen(g, x)
    ensures forall x :: ChildrenSeen(g1, x) <==> ChildrenSeen(g, x)
    ensures forall x :: Gray(g1, x) <==> Gray(g, x) && x != g.gray[0]
  {
  }

  lemma PopLists(g: Gc, g1: Gc)
    requires Blackens(g, g1) && GrayLists(g)
    ensures GrayLists(g1)
  {
    PopGray(g, g1);
    BlackensSeen(g, g1);
    hide NoDup;
    assert forall x :: x in g1.gray || x in g1.grayagain ==> x in g1.gray + g1.grayagain;
  }

  lemma PopBlack(g: Gc, g1: Gc)
    requires Blackens(g, g1) && BlackClosed(g, {})
    ensures BlackClosed(g1, {g.gray[0]})
  {
    BlackensSeen(g, g1);
    hide ChildrenSeen;
    forall x | Black(g1, x) && x != g.gray[0]
      ensures x in g1.heap && !g1.heap[x].Thread? && !g1.heap[x].Str? && !g1.heap[x].OpenUpval? && ChildrenSeen(g1, x)
    {
      assert Black(g, x) && ChildrenSeen(g, x);
    }
  }

  lemma PopPending(g: Gc, g1: Gc)
    requires Blackens(g, g1) && GrayPending(g)
    ensures GrayPending(g1)
  {
    BlackensSeen(g, g1);
    hide Gray;
    forall x | Gray(g1, x)
      ensures x in g1.heap && !g1.heap[x].Udata? && !g1.heap[x].ClosedUpval?
      ensures Listed(g1.heap[x]) ==> x in g1.gray || x in g1.grayagain
    {
      assert x != g.gray[0] && Gray(g, x);
    }
  }

  lemma PopKeeps(g: Gc, g1: Gc, live: set<Ref>)
    requires TriColour(g) && Within(g, live) && g.gray != [] && g.gray[0] in g.heap && !g.heap[g.gray[0]].Thread?
    requires g1 == g.(gray := g.gray[1..], marked := g.marked[g.gray[0] := Gray2Black(g.marked[g.gray[0]])])
    ensures MarkReady(g1, live) && NoDead(g1) && BlackClosed(g1, {g.gray[0]}) && GrayPending(g1) && SeenGrows(g, g1)
    ensures UpvalsDone(g) ==> UpvalsDone(g1)
    ensures AgainDone(g) ==> AgainDone(g1)
  {
    hide ClosedUnder, GrayPending, BlackClosed, ChildrenSeen, NoDup;
    assert Blackens(g, g1) by { assert g.gray[0] in g.gray; }
    PopLists(g, g1);
    PopBlack(g, g1);
    PopPending(g, g1);
    BlackensSeen(g, g1);
  }

  lemma MoveKeeps(g: Gc, g1: Gc, live: set<Ref>)
    requires TriColour(g) && Within(g, live) && g.gray != [] && g.gray[0] in g.heap && g.heap[g.gray[0]].Thread?
    requires g1 == g.(gray := g.gray[1..], grayagain := [g.gray[0]] + g.grayagain)
    ensures TriColour(g1) && Within(g1, live) && SeenGrows(g, g1)
    ensures UpvalsDone(g) ==> UpvalsDone(g1)
  {
    hide ClosedUnder;
    MoveGray(g, g1);
    assert forall x :: x in g.gray || x in g.grayagain <==> x in g1.gray || x in g1.grayagain;
    assert forall x :: Black(g, x) <==> Black(g1, x);
    assert forall x :: Gray(g, x) <==> Gray(g1, x);
    assert forall x :: ChildrenSeen(g, x) <==> ChildrenSeen(g1, x);
  }

  lemma BlackClosedAll(r: Gc, o: Ref)
    requires BlackClosed(r, {o}) && ChildrenSeen(r, o)
    requires o in r.heap && Listed(r.heap[o]) && !r.heap[o].Thread?
    ensures BlackClosed(r, {})
  {}

  lemma MoveKeepsAgain(g: Gc, g1: Gc, r: Gc)
    requires g.marked.Keys == g.heap.Keys && g.gray != [] && g.gray[0] in g.heap && g.heap[g.gray[0]].Thread?
    requires g1 == g.(gray := g.gray[1..], grayagain := [g.gray[0]] + g.grayagain)
    requires AgainDone(g) && Marking(g1, r) && ChildrenSeen(r, g.gray[0])
    ensures AgainDone(r)
  {
    hide Visited;
    forall o | o in r.grayagain ensures o in r.heap && r.heap[o].Thread? && ChildrenSeen(r, o) {
      if o != g.gray[0] {
        assert o in g.grayagain && ChildrenSeen(g, o);
        assert ChildrenSeen(g1, o) by { forall c | Points(g1.heap, o, c) ensures Seen(g1, c) { assert Seen(g, c); } }
        ChildrenSeenStays(g1, r, o);
      }
    }
  }

  lemma PropagateThreadKeeps(g: Gc, g1: Gc, r: Gc, live: set<Ref>)
    requires TriColour(g) && Within(g, live) && g.gray != [] && g.gray[0] in g.heap && g.heap[g.gray[0]].Thread?
    requires g1 == g.(gray := g.gray[1..], grayagain := [g.gray[0]] + g.grayagain)
    requires g.gray[0] in live
    requires r == MarkAll(g1, Content(g.heap, g.gray[0]))
    ensures TriColour(r) && Within(r, live) && SeenGrows(g, r)
    ensures UpvalsDone(g) ==> UpvalsDone(r)
    ensures AgainDone(g) ==> AgainDone(r)
  {
    hide Marking, Visited, GrayLists, BlackClosed, GrayPending, ClosedUnder, UpvalsDone, AgainDone, MarkAll;
    var o := g.gray[0];
    ContentLive(g, o, live);
    MoveKeeps(g, g1, live);
    TriColourReady(g1, live);
    MarkAllKeeps(g1, Content(g.heap, o), live);
    MarkingKeepsTriColour(g1, r, live);
    MarkingGrows(g1, r);
    if UpvalsDone(g) { MarkingKeepsUpvals(g1, r); }
    if AgainDone(g) { MoveKeepsAgain(g, g1, r); }
  }

  lemma PropagateOtherKeeps(g: Gc, g1: Gc, r: Gc, live: set<Ref>)
    requires TriColour(g) && Within(g, live) && g.gray != [] && g.gray[0] in g.heap && !g.heap[g.gray[0]].Thread?
    requires g1 == g.(gray := g.gray[1..], marked := g.marked[g.gray[0] := Gray2Black(g.marked[g.gray[0]])])
    requires g.gray[0] in live && Listed(g.heap[g.gray[0]])
    requires r == MarkAll(g1, Content(g.heap, g.gray[0]))
    ensures TriColour(r) && Within(r, live) && SeenGrows(g, r)
    ensures UpvalsDone(g) ==> UpvalsDone(r)
    ensures AgainDone(g) ==> AgainDone(r)
  {
    hide Marking, Visited, GrayLists, BlackClosed, GrayPending, ClosedUnder, UpvalsDone, AgainDone, MarkAll;
    var o := g.gray[0];
    ContentLive(g, o, live);
    PopKeeps(g, g1, live);
    MarkAllKeeps(g1, Content(g.heap, o), live);
    MarkingKeepsNoDead(g1, r);
    MarkingKeepsBlack(g1, r, {o});
    MarkingKeepsGray(g1, r);
    MarkingGrows(g1, r);
    assert ChildrenSeen(r, o);
    BlackClosedAll(r, o);
    if UpvalsDone(g) { MarkingKeepsUpvals(g1, r); }
    if AgainDone(g) { MarkingKeepsAgain(g1, r); }
  }

  lemma GrayHead(g: Gc, live: set<Ref>)
    requires TriColour(g) && Within(g, live) && g.gray != []
    ensures g.gray[0] in g.heap && Listed(g.heap[g.gray[0]]) && g.gray[0] in live
  {
    hide BlackClosed, GrayPending, ClosedUnder;
    assert g.gray[0] in g.gray && Gray(g, g.gray[0]);
    assert Seen(g, g.gray[0]);
  }

  lemma PropagateMarkKeeps(g: Gc, live: set<Ref>)
    requires TriColour(g) && Within(g, live) && g.gray != []
    ensures g.gray[0] in g.heap
    ensures TriColour(PropagateMark(g)) && Within(PropagateMark(g), live) && SeenGrows(g, PropagateMark(g))
    ensures UpvalsDone(g) ==> UpvalsDone(PropagateMark(g))
    ensures AgainDone(g) ==> AgainDone(PropagateMark(g))
  {
    hide GrayLists, NoDead, BlackClosed, GrayPending, ClosedUnder, UpvalsDone, AgainDone, MarkAll;
    GrayHead(g, live);
    var o := g.gray[0];
    if g.heap[o].Thread? {
      PropagateThreadKeeps(g, g.(gray := g.gray[1..], grayagain := [o] + g.grayagain), PropagateMark(g), live);
    } else {
      PropagateOtherKeeps(g, g.(gray := g.gray[1..], marked := g.marked[o := Gray2Black(g.marked[o])]), PropagateMark(g), live);
    }
  }

  lemma {:induction false} PropagateAllKeeps(g: Gc, live: set<Ref>)
    requires TriColour(g) && Within(g, live)
    ensures var r := PropagateAll(g); TriColour(r) && Within(r, live) && SeenGrows(g, r) && r.gray == []
    ensures UpvalsDone(g) ==> UpvalsDone(PropagateAll(g))
    ensures AgainDone(g) ==> AgainDone(PropagateAll(g))
    decreases Measure(g)
  {
    hide GrayLists, NoDead, BlackClosed, GrayPending, ClosedUnder, UpvalsDone, AgainDone;
    if g.gray != [] {
      PropagateMarkKeeps(g, live);
      PropagateAllKeeps(PropagateMark(g), live);
    }
  }

  lemma {:induction false} RemarkKeeps(g: Gc, us: seq<Ref>, live: set<Ref>)
    requires TriColour(g) && Within(g, live)
    ensures var r := RemarkUpvals(g, us); TriColour(r) && Within(r, live) && SeenGrows(g, r)
    ensures forall o :: o in us && Gray(RemarkUpvals(g, us), o) && Gray(g, o) ==> ChildrenSeen(RemarkUpvals(g, us), o)
    ensures Marking(g, RemarkUpvals(g, us))
    decreases |us|
  {
    hide GrayLists, NoDead, BlackClosed, GrayPending, ClosedUnder, Marking, Visited;
    var r := RemarkUpvals(g, us);
    if us == [] {
      MarkingReflexive(g);
    } else if !Gray(g, us[0]) {
      RemarkKeeps(g, us[1..], live);
      assert forall o :: o in us ==> o == us[0] || o in us[1..];
    } else {
      assert Seen(g, us[0]);
      ContentLive(g, us[0], live);
      TriColourReady(g, live);
      MarkAllKeeps(g, Content(g.heap, us[0]), live);
      var g1 := MarkAll(g, Content(g.heap, us[0]));
      MarkingKeepsTriColour(g, g1, live);
      MarkingGrows(g, g1);
      assert ChildrenSeen(g1, us[0]);
      RemarkKeeps(g1, us[1..], live);
      MarkingTransitive(g, g1, r);
      ChildrenSeenStays(g1, r, us[0]);
      forall o | o in us && Gray(r, o) && Gray(g, o) ensures ChildrenSeen(r, o) {
        if o != us[0] {
          assert o in us[1..];
          SeenStays(g, g1, o);
          SeenStays(g1, r, o);
        }
      }
    }
  }

  lemma RemarkFinishesUpvals(g: Gc, live: set<Ref>)
    requires TriColour(g) && Within(g, live)
    requires forall o :: o in g.heap && g.heap[o].OpenUpval? ==> o in g.uvhead
    ensures UpvalsDone(RemarkUpvals(g, g.uvhead))
  {
    RemarkKeeps(g, g.uvhead, live);
    var r := RemarkUpvals(g, g.uvhead);
    forall o | Gray(r, o) && o in r.heap && r.heap[o].OpenUpval? ensures ChildrenSeen(r, o) {
      if !Gray(g, o) {
        assert White(g, o) by { if Seen(g, o) { SeenStays(g, r, o); } }
        assert Visited(r, o);
      }
    }
  }

  lemma MarkRootsKeeps(g: Gc, vs: seq<Value>, live: set<Ref>)
    requires TriColour(g) && Within(g, live)
    requires forall v :: v in vs && v.Obj? ==> v.ref in live
    ensures var r := MarkAll(g, vs);
            TriColour(r) && Within(r, live) && SeenGrows(g, r) && (forall v :: v in vs && v.Obj? ==> Seen(r, v.ref))
    ensures UpvalsDone(g) ==> UpvalsDone(MarkAll(g, vs))
  {
    hide GrayLists, NoDead, BlackClosed, GrayPending, ClosedUnder, Marking, Visited;
    TriColourReady(g, live);
    MarkAllKeeps(g, vs, live);
    MarkingKeepsTriColour(g, MarkAll(g, vs), live);
    MarkingGrows(g, MarkAll(g, vs));
    if UpvalsDone(g) { MarkingKeepsUpvals(g, MarkAll(g, vs)); }
  }

  /** The last pass starts from `grayagain` (lgc.c:540-541). */
  lemma AgainBecomesGray(g: Gc, r: Gc, live: set<Ref>)
    requires TriColour(g) && Within(g, live) && g.gray == [] && UpvalsDone(g)
    requires r == g.(gray := g.grayagain, grayagain := [])
    ensures TriColour(r) && Within(r, live) && SeenGrows(g, r) && UpvalsDone(r) && AgainDone(r)
  {
    hide ClosedUnder;
    assert r.gray + r.grayagain == g.gray + g.grayagain;
    assert forall x :: Black(g, x) <==> Black(r, x);
    assert forall x :: Gray(g, x) <==> Gray(r, x);
    assert forall x :: ChildrenSeen(g, x) <==> ChildrenSeen(r, x);
  }

  /** Everything marked points only to marked objects. */
  ghost predicate SeenClosed(g: Gc) {
    forall o :: Seen(g, o) ==> ChildrenSeen(g, o)
  }

  lemma FinishedMeansClosed(g: Gc)
    requires TriColour(g) && g.gray == [] && UpvalsDone(g) && AgainDone(g)
    ensures SeenClosed(g)
  {
    forall o | Seen(g, o) ensures ChildrenSeen(g, o) {
      if !Black(g, o) {
        assert Gray(g, o);
        if g.heap[o].OpenUpval? {} else if Listed(g.heap[o]) {
          assert o in g.grayagain;
        }
      }
    }
  }

  lemma RemarkPassFinishes(g: Gc, live: set<Ref>)
    requires TriColour(g) && Within(g, live)
    requires forall o :: o in g.heap && g.heap[o].OpenUpval? ==> o in g.uvhead
    ensures var r := RemarkPass(g); TriColour(r) && Within(r, live) && SeenGrows(g, r) && UpvalsDone(r)
  {
    hide GrayLists, NoDead, BlackClosed, GrayPending, ClosedUnder, Marking, UpvalsDone;
    RemarkKeeps(g, g.uvhead, live);
    RemarkFinishesUpvals(g, live);
    PropagateAllKeeps(RemarkUpvals(g, g.uvhead), live);
  }

  lemma RootPassFinishes(g: Gc, live: set<Ref>)
    requires TriColour(g) && Within(g, live) && UpvalsDone(g)
    requires g.running in live && forall v :: v in g.mt && v.Obj? ==> v.ref in live
    ensures var r := RootPass(g);
            && TriColour(r) && Within(r, live) && SeenGrows(g, r) && UpvalsDone(r) && r.gray == []
            && Seen(r, g.running) && (forall v :: v in g.mt && v.Obj? ==> Seen(r, v.ref))
  {
    hide TriColour, ClosedUnder, UpvalsDone, PropagateAll, MarkAll, MarkValue;
    var a := MarkValue(g, Obj(g.running));
    MarkRunning(g, live);
    MarkRootsKeeps(a, g.mt, live);
    PropagateAllKeeps(MarkAll(a, g.mt), live);
  }

  lemma MarkRunning(g: Gc, live: set<Ref>)
    requires TriColour(g) && Within(g, live) && UpvalsDone(g) && g.running in live
    ensures var a := MarkValue(g, Obj(g.running));
            && TriColour(a) && Within(a, live) && SeenGrows(g, a) && UpvalsDone(a)
            && Seen(a, g.running) && a.running == g.running && a.mt == g.mt
  {
    hide TriColour, ClosedUnder, UpvalsDone, MarkValue;
    var one := [Obj(g.running)];
    assert Obj(g.running) in one && one[1..] == [];
    MarkRootsKeeps(g, one, live);
  }

  lemma AgainPassFinishes(g: Gc, live: set<Ref>)
    requires TriColour(g) && Within(g, live) && UpvalsDone(g) && g.gray == []
    ensures var r := AgainPass(g); TriColour(r) && SeenClosed(r) && Within(r, live) && SeenGrows(g, r)
  {
    hide GrayLists, NoDead, BlackClosed, GrayPending, ClosedUnder, UpvalsDone, AgainDone;
    var a := g.(gray := g.grayagain, grayagain := []);
    AgainBecomesGray(g, a, live);
    PropagateAllKeeps(a, live);
    FinishedMeansClosed(PropagateAll(a));
  }

  /** When the mark phase ends, the marked objects are closed under references and contain the roots
      that `atomic` re-marks. */
  lemma AtomicMarkFinishes(g: Gc, live: set<Ref>)
    requires TriColour(g) && Within(g, live)
    requires forall o :: o in g.heap && g.heap[o].OpenUpval? ==> o in g.uvhead
    requires g.running in live && forall v :: v in g.mt && v.Obj? ==> v.ref in live
    ensures var r := AtomicMark(g);
            && SeenClosed(r) && NoDead(r) && Within(r, live) && SeenGrows(g, r)
            && BlackClosed(r, {}) && GrayPending(r)
            && Seen(r, g.running) && (forall v :: v in g.mt && v.Obj? ==> Seen(r, v.ref))
  {
    hide GrayLists, NoDead, BlackClosed, GrayPending, ClosedUnder, UpvalsDone, AgainDone, RemarkPass, RootPass, AgainPass;
    RemarkPassFinishes(g, live);
    var a := RemarkPass(g);
    RootPassFinishes(a, live);
    var b := RootPass(a);
    AgainPassFinishes(b, live);
  }
}
