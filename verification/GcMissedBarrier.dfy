/**
  A run of the program in which `lua_setupvalue` misses the barrier and the collector frees a table that a
  closure can still reach.  The lemmas follow the run state by state.
  */
module GcMissedBarrier {
  import opened GcState
  import opened GcMark
  import opened GcPropagate
  import opened GcInvariant
  import opened GcUpval
  import opened GcSweep
  import opened GcCollector
  import opened GcFullCycle
  import opened GcMutator
  import opened GcFindUpval
  import opened GcSetUpvalue
  import opened GcRuns
  import opened GcLastWrite

  type Hash = string -> nat

  const WHITE := Mark(true, false, false, false)
  const GRAY := Mark(false, false, false, false)
  const BLACK := Mark(false, false, true, false)

  /** Two closures capture the local variable in slot 0 of the main thread, which then goes out of scope.  The
      first is kept in the registry, the second on the stack, and a new table is pushed. */
  ghost function Program(): seq<Event> {
    [Capture(0, 0), Create(Func([Obj(3)])), Create(Func([Obj(3)])), TableSet(2, 0, Obj(4)), StackSet(0, 1, Obj(5)),
     CloseFrom(0, 0), Create(Table([])), StackSet(0, 2, Obj(6))]
  }

  /** Three steps of the collector mark the roots, the registry and the first closure with the shared upvalue. */
  ghost function Setup(): seq<Event> { Program() + [CollectorStep, CollectorStep, CollectorStep] }

  // ---------- the states of the program ----------

  ghost function State(hash: Hash, heap: map<Ref, Object>, marked: map<Ref, Mark>, rootgc: seq<Ref>, uvhead: seq<Ref>,
      held: set<Ref>, next: Ref): Gc
  {
    Gc(heap := heap, marked := marked, currentwhite := false, phase := Pause, gray := [], grayagain := [],
       rootgc := rootgc, sweepgc := 0, hash := hash, strt := seq(32, _ => []), sweepstrgc := 0,
       uvhead := uvhead, mainthread := 0, running := 0, registry := Obj(2),
       mt := seq(9, _ => Plain), held := held, next := next)
  }

  const MAIN := Mark(true, false, false, true)

  ghost function Captured(hash: Hash): Gc {
    State(hash, map[0 := Thread(Obj(1), [Plain], [3]), 1 := Table([]), 2 := Table([]), 3 := OpenUpval(0, 0)],
          map[0 := MAIN, 1 := WHITE, 2 := WHITE, 3 := WHITE], [2, 1, 0], [3], {3}, 4)
  }

  ghost function OneClosure(hash: Hash): Gc {
    State(hash, map[0 := Thread(Obj(1), [Plain], [3]), 1 := Table([]), 2 := Table([]), 3 := OpenUpval(0, 0), 4 := Func([Obj(3)])],
          map[0 := MAIN, 1 := WHITE, 2 := WHITE, 3 := WHITE, 4 := WHITE], [4, 2, 1, 0], [3], {3, 4}, 5)
  }

  ghost function TwoClosures(hash: Hash): Gc {
    State(hash, map[0 := Thread(Obj(1), [Plain], [3]), 1 := Table([]), 2 := Table([]), 3 := OpenUpval(0, 0),
                    4 := Func([Obj(3)]), 5 := Func([Obj(3)])],
          map[0 := MAIN, 1 := WHITE, 2 := WHITE, 3 := WHITE, 4 := WHITE, 5 := WHITE], [5, 4, 2, 1, 0], [3], {3, 4, 5}, 6)
  }

  ghost function Registered(hash: Hash): Gc {
    State(hash, map[0 := Thread(Obj(1), [Plain], [3]), 1 := Table([]), 2 := Table([Obj(4)]), 3 := OpenUpval(0, 0),
                    4 := Func([Obj(3)]), 5 := Func([Obj(3)])],
          map[0 := MAIN, 1 := WHITE, 2 := WHITE, 3 := WHITE, 4 := WHITE, 5 := WHITE], [5, 4, 2, 1, 0], [3], {3, 4, 5}, 6)
  }

  ghost function Pushed(hash: Hash): Gc {
    State(hash, map[0 := Thread(Obj(1), [Plain, Obj(5)], [3]), 1 := Table([]), 2 := Table([Obj(4)]), 3 := OpenUpval(0, 0),
                    4 := Func([Obj(3)]), 5 := Func([Obj(3)])],
          map[0 := MAIN, 1 := WHITE, 2 := WHITE, 3 := WHITE, 4 := WHITE, 5 := WHITE], [5, 4, 2, 1, 0], [3], {3, 4, 5}, 6)
  }

  ghost function Closed(hash: Hash): Gc {
    State(hash, map[0 := Thread(Obj(1), [Plain, Obj(5)], []), 1 := Table([]), 2 := Table([Obj(4)]), 3 := ClosedUpval(Plain),
                    4 := Func([Obj(3)]), 5 := Func([Obj(3)])],
          map[0 := MAIN, 1 := WHITE, 2 := WHITE, 3 := WHITE, 4 := WHITE, 5 := WHITE], [3, 5, 4, 2, 1, 0], [], {3, 4, 5}, 6)
  }

  ghost function TableMade(hash: Hash): Gc {
    State(hash, map[0 := Thread(Obj(1), [Plain, Obj(5)], []), 1 := Table([]), 2 := Table([Obj(4)]), 3 := ClosedUpval(Plain),
                    4 := Func([Obj(3)]), 5 := Func([Obj(3)]), 6 := Table([])],
          map[0 := MAIN, 1 := WHITE, 2 := WHITE, 3 := WHITE, 4 := WHITE, 5 := WHITE, 6 := WHITE],
          [6, 3, 5, 4, 2, 1, 0], [], {3, 4, 5, 6}, 7)
  }

  ghost function Objects(stack: seq<Value>, upval: Value): map<Ref, Object> {
    map[0 := Thread(Obj(1), stack, []), 1 := Table([]), 2 := Table([Obj(4)]), 3 := ClosedUpval(upval),
        4 := Func([Obj(3)]), 5 := Func([Obj(3)]), 6 := Table([])]
  }

  ghost function Ready(hash: Hash, held: set<Ref>): Gc {
    State(hash, Objects([Plain, Obj(5), Obj(6)], Plain),
          map[0 := MAIN, 1 := WHITE, 2 := WHITE, 3 := WHITE, 4 := WHITE, 5 := WHITE, 6 := WHITE],
          [6, 3, 5, 4, 2, 1, 0], [], held, 7)
  }

  lemma FirstUpval(g: Gc, t: Ref, slot: nat)
    requires IsThread(g, t) && g.heap[t].openupval == []
    ensures !HasUpval(g, t, slot)
    ensures NewUpval(g, t, slot) ==
            g.(heap := g.heap[t := g.heap[t].(openupval := [g.next])][g.next := OpenUpval(t, slot)],
               marked := g.marked[g.next := LuaCWhite(g.currentwhite)],
               uvhead := [g.next] + g.uvhead, held := g.held + {g.next}, next := g.next + 1)
  {
    var us: seq<Ref> := [];
    assert us[..0] + [g.next] + us[0..] == [g.next];
  }

  lemma CaptureStep(hash: Hash)
    requires Inv(Initial(hash))
    ensures Apply(Initial(hash), Capture(0, 0)) == Captured(hash)
  {
    hide Inv, HasUpval, NewUpval;
    var g, r := Initial(hash), Captured(hash);
    RootIsReachable(g, 0);
    assert Enabled(g, Capture(0, 0));
    CaptureReady(g, 0, 0);
    FirstUpval(g, 0, 0);
    assert FindUpval(g, 0, 0).heap == r.heap;
    assert FindUpval(g, 0, 0).marked == r.marked;
  }

  lemma FirstClosureStep(hash: Hash)
    requires Inv(Captured(hash))
    ensures Apply(Captured(hash), Create(Func([Obj(3)]))) == OneClosure(hash)
  {
    hide Inv;
    var g, r := Captured(hash), OneClosure(hash);
    RootIsReachable(g, 3);
    assert Enabled(g, Create(Func([Obj(3)])));
    var a := NewObject(g, 0, Func([Obj(3)]));
    assert a.heap == r.heap;
    assert a.marked == r.marked;
  }

  lemma SecondClosureStep(hash: Hash)
    requires Inv(OneClosure(hash))
    ensures Apply(OneClosure(hash), Create(Func([Obj(3)]))) == TwoClosures(hash)
  {
    hide Inv;
    var g, r := OneClosure(hash), TwoClosures(hash);
    RootIsReachable(g, 3);
    assert Enabled(g, Create(Func([Obj(3)])));
    var a := NewObject(g, 0, Func([Obj(3)]));
    assert a.heap == r.heap;
    assert a.marked == r.marked;
  }

  lemma RegisterStep(hash: Hash)
    requires Inv(TwoClosures(hash))
    ensures Apply(TwoClosures(hash), TableSet(2, 0, Obj(4))) == Registered(hash)
  {
    hide Inv;
    var g, r := TwoClosures(hash), Registered(hash);
    RootIsReachable(g, 2);
    RootIsReachable(g, 4);
    assert Enabled(g, TableSet(2, 0, Obj(4)));
    assert SetAt([], 0, Obj(4)) == [Obj(4)];
    assert TableStore(g, 2, 0, Obj(4)).heap == r.heap;
  }

  lemma PushStep(hash: Hash)
    requires Inv(Registered(hash))
    ensures Apply(Registered(hash), StackSet(0, 1, Obj(5))) == Pushed(hash)
  {
    hide Inv;
    var g, r := Registered(hash), Pushed(hash);
    RootIsReachable(g, 0);
    RootIsReachable(g, 5);
    assert Enabled(g, StackSet(0, 1, Obj(5)));
    assert SetAt([Plain], 1, Obj(5)) == [Plain, Obj(5)];
    assert StackStore(g, 0, 1, Obj(5)).heap == r.heap;
  }

  lemma CloseOnce(hash: Hash)
    ensures var g := Pushed(hash); g.marked.Keys == g.heap.Keys && HasOpen(g, 0, 0) && CloseOne(g, 0) == Closed(hash)
  {
    var g, r := Pushed(hash), Closed(hash);
    var g2 := g.(heap := r.heap, uvhead := []);
    var us: seq<Ref> := [3];
    assert us[1..] == [] && Keep(us, {3}) == [];
    var g1 := Unlinked(g, 0);
    assert g1.heap[3 := ClosedUpval(Plain)] == r.heap;
    LinkQuiet(g2, 3);
    assert [3] + g.rootgc == r.rootgc;
    hide LinkUpval, Keep;
    assert CloseOne(g, 0) == LinkUpval(g2, 3);
  }

  lemma CloseStep(hash: Hash)
    requires Inv(Pushed(hash))
    ensures Apply(Pushed(hash), CloseFrom(0, 0)) == Closed(hash)
  {
    hide Inv, CloseOne;
    var g, r := Pushed(hash), Closed(hash);
    RootIsReachable(g, 0);
    assert Enabled(g, CloseFrom(0, 0));
    CloseOnce(hash);
    assert !HasOpen(r, 0, 0) && CloseUpvals(r, 0, 0) == r;
    assert CloseUpvals(g, 0, 0) == CloseUpvals(CloseOne(g, 0), 0, 0);
  }

  lemma TableStep(hash: Hash)
    requires Inv(Closed(hash))
    ensures Apply(Closed(hash), Create(Table([]))) == TableMade(hash)
  {
    hide Inv;
    var g, r := Closed(hash), TableMade(hash);
    assert Enabled(g, Create(Table([])));
    var a := NewObject(g, 0, Table([]));
    assert a.heap == r.heap;
    assert a.marked == r.marked;
  }

  lemma ReadyStep(hash: Hash)
    requires Inv(TableMade(hash))
    ensures Apply(TableMade(hash), StackSet(0, 2, Obj(6))) == Ready(hash, {3, 4, 5, 6})
  {
    hide Inv;
    var g, r := TableMade(hash), Ready(hash, {3, 4, 5, 6});
    RootIsReachable(g, 0);
    RootIsReachable(g, 6);
    assert Enabled(g, StackSet(0, 2, Obj(6)));
    assert SetAt([Plain, Obj(5)], 2, Obj(6)) == [Plain, Obj(5), Obj(6)];
    assert StackStore(g, 0, 2, Obj(6)).heap == r.heap;
  }

  // ---------- the steps of the collector ----------

  const PUSHED: seq<Value> := [Plain, Obj(5), Obj(6)]
  const POPPED: seq<Value> := [Plain, Obj(5)]
  const MAINGRAY := Mark(false, false, false, true)

  /** The colours of the objects while marking; table 6 stays white throughout. */
  ghost function Marks(globals: Mark, registry: Mark, upval: Mark, first: Mark, second: Mark): map<Ref, Mark> {
    map[0 := MAINGRAY, 1 := globals, 2 := registry, 3 := upval, 4 := first, 5 := second, 6 := WHITE]
  }

  ghost function Marking(hash: Hash, stack: seq<Value>, upval: Value, marks: map<Ref, Mark>, gray: seq<Ref>, again: seq<Ref>): Gc {
    State(hash, Objects(stack, upval), marks, [6, 3, 5, 4, 2, 1, 0], [], {}, 7).(phase := Propagate, gray := gray, grayagain := again)
  }

  ghost function RootsMarked(hash: Hash): Gc {
    Marking(hash, PUSHED, Plain, Marks(GRAY, GRAY, WHITE, WHITE, WHITE), [2, 1, 0], [])
  }

  ghost function RegistryMarked(hash: Hash): Gc {
    Marking(hash, PUSHED, Plain, Marks(GRAY, BLACK, WHITE, GRAY, WHITE), [4, 1, 0], [])
  }

  ghost function UpvalueMarked(hash: Hash): Gc {
    Marking(hash, PUSHED, Plain, Marks(GRAY, BLACK, BLACK, BLACK, WHITE), [1, 0], [])
  }

  ghost function Stored(hash: Hash): Gc {
    Marking(hash, POPPED, Obj(6), Marks(GRAY, BLACK, BLACK, BLACK, WHITE), [1, 0], [])
  }

  ghost function GlobalsMarked(hash: Hash): Gc {
    Marking(hash, POPPED, Obj(6), Marks(BLACK, BLACK, BLACK, BLACK, WHITE), [0], [])
  }

  ghost function ThreadMarked(hash: Hash): Gc {
    Marking(hash, POPPED, Obj(6), Marks(BLACK, BLACK, BLACK, BLACK, GRAY), [5], [0])
  }

  ghost function AllMarked(hash: Hash): Gc {
    Marking(hash, POPPED, Obj(6), Marks(BLACK, BLACK, BLACK, BLACK, BLACK), [], [0])
  }

  /** Values that refer to no white object change nothing. */
  lemma {:induction false} NothingToMark(g: Gc, vs: seq<Value>)
    requires g.marked.Keys <= g.heap.Keys && forall v :: v in vs && v.Obj? ==> !White(g, v.ref)
    ensures MarkAll(g, vs) == g
    decreases |vs|
  {
    if vs != [] {
      assert MarkValue(g, vs[0]) == g by { assert vs[0] in vs; }
      NothingToMark(g, vs[1..]);
    }
  }

  /** A white object of a kind that is traversed later goes on the gray list. */
  lemma MarkListed(g: Gc, vs: seq<Value>, o: Ref)
    requires g.marked.Keys <= g.heap.Keys && |vs| > 0 && vs[0] == Obj(o) && White(g, o) && Listed(g.heap[o])
    ensures MarkAll(g, vs) == MarkAll(g.(marked := g.marked[o := White2Gray(g.marked[o])], gray := [o] + g.gray), vs[1..])
  {
    var r := g.(marked := g.marked[o := White2Gray(g.marked[o])], gray := [o] + g.gray);
    assert ReallyMark(g, o) == r;
    assert MarkValue(g, vs[0]) == r;
  }

  /** The same for a single value, with the state after it given. */
  lemma MarkOne(g: Gc, o: Ref, r: Gc)
    requires g.marked.Keys <= g.heap.Keys && White(g, o) && Listed(g.heap[o])
    requires r.marked == g.marked[o := White2Gray(g.marked[o])] && r.gray == [o] + g.gray
    requires r == g.(marked := r.marked, gray := r.gray)
    ensures MarkAll(g, [Obj(o)]) == r
  {
    hide ReallyMark;
    MarkListed(g, [Obj(o)], o);
    NothingToMark(r, []);
    assert [Obj(o)][1..] == [];
  }

  lemma RootsOf(hash: Hash)
    ensures RootValues(Ready(hash, {})) == [Obj(0), Obj(1), Obj(2)] + seq(9, _ => Plain)
  {}

  lemma ThreeRoots(g: Gc, vs: seq<Value>)
    requires g.marked.Keys == g.heap.Keys && g.gray == [] && forall v :: v in vs ==> v == Plain
    requires White(g, 0) && White(g, 1) && White(g, 2)
    requires Listed(g.heap[0]) && Listed(g.heap[1]) && Listed(g.heap[2])
    ensures MarkAll(g, [Obj(0), Obj(1), Obj(2)] + vs) ==
            g.(marked := g.marked[0 := White2Gray(g.marked[0])][1 := White2Gray(g.marked[1])][2 := White2Gray(g.marked[2])],
               gray := [2, 1, 0])
  {
    hide MarkAll, Content, White2Gray, Listed, Whites;
    var g0 := g.(marked := g.marked[0 := White2Gray(g.marked[0])], gray := [0] + g.gray);
    var g1 := g0.(marked := g0.marked[1 := White2Gray(g.marked[1])], gray := [1] + g0.gray);
    var g2 := g1.(marked := g1.marked[2 := White2Gray(g.marked[2])], gray := [2] + g1.gray);
    var ws := [Obj(0), Obj(1), Obj(2)] + vs;
    assert ws[1..] == [Obj(1), Obj(2)] + vs && ws[1..][1..] == [Obj(2)] + vs && ws[1..][1..][1..] == vs;
    MarkListed(g, ws, 0);
    MarkListed(g0, ws[1..], 1);
    MarkListed(g1, ws[1..][1..], 2);
    NothingToMark(g2, vs);
    assert g2.gray == [2, 1, 0];
  }

  lemma RootsStep(hash: Hash)
    ensures Ready(hash, {}).marked.Keys == Ready(hash, {}).heap.Keys
    ensures MarkRoot(Ready(hash, {})) == RootsMarked(hash)
  {
    hide MarkAll, RootValues, Content;
    var g := Ready(hash, {});
    var vs := seq(9, _ => Plain);
    RootsOf(hash);
    ThreeRoots(g, vs);
    assert MarkRoot(g).marked == Marks(GRAY, GRAY, WHITE, WHITE, WHITE);
  }

  /** The registry leads to the first closure. */
  lemma RegistryStep(hash: Hash)
    ensures var g := RootsMarked(hash);
            && g.marked.Keys == g.heap.Keys
            && PropagateMark(g) == RegistryMarked(hash)
  {
    hide MarkAll, Whites;
    var g := RootsMarked(hash);
    var a := Marking(hash, PUSHED, Plain, Marks(GRAY, BLACK, WHITE, WHITE, WHITE), [1, 0], []);
    var b := RegistryMarked(hash);
    assert TakeGray(g) == a by { assert g.gray[1..] == a.gray; assert TakeGray(g).marked == a.marked; }
    assert [4] + a.gray == b.gray && a.marked[4 := GRAY] == b.marked;
    MarkOne(a, 4, b);
  }

  /** The first closure leads to the shared upvalue, which turns black at once. */
  lemma ClosureStep(hash: Hash)
    ensures var g := RegistryMarked(hash);
            && g.marked.Keys == g.heap.Keys
            && PropagateMark(g) == UpvalueMarked(hash)
  {
    hide MarkAll, Whites;
    var g := RegistryMarked(hash);
    var a := Marking(hash, PUSHED, Plain, Marks(GRAY, BLACK, WHITE, BLACK, WHITE), [1, 0], []);
    var b := UpvalueMarked(hash);
    assert TakeGray(g) == a by { assert g.gray[1..] == a.gray; assert TakeGray(g).marked == a.marked; }
    assert a.marked[3 := BLACK] == b.marked;
    MarkUpvalue(a, 3, b);
  }

  lemma MarkUpvalue(g: Gc, u: Ref, r: Gc)
    requires g.marked.Keys <= g.heap.Keys && White(g, u) && g.heap[u] == ClosedUpval(Plain)
    requires r.marked == g.marked[u := Gray2Black(White2Gray(g.marked[u]))] && r == g.(marked := r.marked)
    ensures MarkAll(g, [Obj(u)]) == r
  {
    var m := g.marked[u := White2Gray(g.marked[u])];
    assert m[u := Gray2Black(m[u])] == r.marked;
    assert MarkValue(g.(marked := m), Plain) == g.(marked := m);
    assert ReallyMark(g, u) == r;
    assert MarkValue(g, Obj(u)) == r && [Obj(u)][1..] == [];
    hide ReallyMark, MarkValue;
    NothingToMark(r, []);
  }

  // ---------- the store ----------

  lemma Missed(hash: Hash)
    ensures UpvalueMarked(hash).marked.Keys == UpvalueMarked(hash).heap.Keys && MissedBarrier(UpvalueMarked(hash), 5, 3, Obj(6))
  {}

  lemma UpvalStored(hash: Hash)
    ensures Objects(PUSHED, Plain)[3 := ClosedUpval(Obj(6))] == Objects(PUSHED, Obj(6))
    ensures Objects(PUSHED, Obj(6))[0 := Thread(Obj(1), POPPED, [])] == Objects(POPPED, Obj(6))
    ensures PUSHED[..2] == POPPED
  {}

  /** The barrier does nothing. */
  lemma MissedStore(hash: Hash)
    ensures var g := UpvalueMarked(hash);
            && MissedBarrier(g, 5, 3, Obj(6))
            && g.marked.Keys == g.heap.Keys && 5 in g.heap && IsUpval(g, 3)
            && ApiSetUpvalue(g, 5, 3, Obj(6)) == g.(heap := Objects(PUSHED, Obj(6)))
            && StackCut(g.(heap := Objects(PUSHED, Obj(6))), 0, 2) == Stored(hash)
  {
    hide BarrierForward, Marks;
    UpvalStored(hash);
    Missed(hash);
  }

  // ---------- the rest of the cycle ----------

  lemma GlobalsStep(hash: Hash)
    ensures var g := Stored(hash);
            && g.marked.Keys == g.heap.Keys
            && PropagateMark(g) == GlobalsMarked(hash)
  {
    hide MarkAll, Whites;
    var g := Stored(hash);
    var a := GlobalsMarked(hash);
    assert TakeGray(g) == a by { assert g.gray[1..] == a.gray; assert TakeGray(g).marked == a.marked; }
    NothingToMark(a, []);
  }

  lemma StackContent(hash: Hash)
    ensures var a := Marking(hash, POPPED, Obj(6), Marks(BLACK, BLACK, BLACK, BLACK, WHITE), [], [0]);
            && a.marked.Keys == a.heap.Keys
            && MarkAll(a, [Obj(1), Plain] + [Obj(5)]) ==
               ThreadMarked(hash)
  {
    hide MarkAll, Whites, Content;
    var a := Marking(hash, POPPED, Obj(6), Marks(BLACK, BLACK, BLACK, BLACK, WHITE), [], [0]);
    var b := ThreadMarked(hash);
    MarkAllSplit(a, [Obj(1), Plain], [Obj(5)]);
    NothingToMark(a, [Obj(1), Plain]);
    assert [5] + a.gray == b.gray && a.marked[5 := GRAY] == b.marked;
    MarkOne(a, 5, b);
  }

  /** The stack leads to the second closure. */
  lemma ThreadStep(hash: Hash)
    ensures var g := GlobalsMarked(hash);
            && g.marked.Keys == g.heap.Keys
            && PropagateMark(g) == ThreadMarked(hash)
  {
    hide MarkAll, Whites;
    var g := GlobalsMarked(hash);
    var a := Marking(hash, POPPED, Obj(6), Marks(BLACK, BLACK, BLACK, BLACK, WHITE), [], [0]);
    assert TakeGray(g) == a by { assert g.gray[1..] == a.gray; assert [0] + g.grayagain == a.grayagain; }
    StackContent(hash);
    assert Content(g.heap, 0) == [Obj(1), Plain] + [Obj(5)];
  }

  lemma {:induction false} MarkAllSplit(g: Gc, vs: seq<Value>, ws: seq<Value>)
    requires g.marked.Keys <= g.heap.Keys
    ensures MarkAll(g, vs + ws) == MarkAll(MarkAll(g, vs), ws)
    decreases |vs|
  {
    if vs == [] {
      assert vs + ws == ws;
    } else {
      assert (vs + ws)[1..] == vs[1..] + ws;
      MarkAllSplit(MarkValue(g, vs[0]), vs[1..], ws);
    }
  }

  /** The second closure leads to the upvalue, but that is black already and its value is not looked at again. */
  lemma SecondStep(hash: Hash)
    ensures var g := ThreadMarked(hash);
            && g.marked.Keys == g.heap.Keys
            && PropagateMark(g) == AllMarked(hash)
  {
    hide MarkAll, Whites;
    var g := ThreadMarked(hash);
    var a := AllMarked(hash);
    assert TakeGray(g) == a by { assert g.gray[1..] == a.gray; assert TakeGray(g).marked == a.marked; }
    NothingToMark(a, [Obj(3)]);
  }

  /** The thread is traversed once more before the flip, and finds nothing white. */
  lemma AgainStep(hash: Hash)
    ensures var g := AllMarked(hash); g.marked.Keys == g.heap.Keys && AgainPass(g) == g
  {
    hide MarkAll, Whites;
    var g := AllMarked(hash);
    var a := g.(gray := [0], grayagain := []);
    assert TakeGray(a) == g by { assert a.gray[1..] == []; assert [0] + a.grayagain == [0]; }
    assert Content(g.heap, 0) == [Obj(1), Plain, Obj(5)];
    NothingToMark(g, [Obj(1), Plain, Obj(5)]);
    assert PropagateMark(a) == g;
    assert PropagateAll(a) == PropagateAll(g);
  }

  lemma NothingGray(g: Gc)
    requires g.marked.Keys == g.heap.Keys && g.gray == [] && g.uvhead == [] && !White(g, g.running)
    requires forall v :: v in g.mt ==> v == Plain
    ensures RemarkPass(g) == g && RootPass(g) == g
  {
    hide MarkAll, Content;
    NothingToMark(g, g.mt);
  }

  lemma FlipStep(hash: Hash)
    ensures AllMarked(hash).marked.Keys == AllMarked(hash).heap.Keys
    ensures Atomic(AllMarked(hash)) == Flipped(hash, 0)
  {
    hide AgainPass, MarkAll, RemarkPass, RootPass, Objects;
    AgainStep(hash);
    NothingGray(AllMarked(hash));
  }

  /** After the flip, with `k` buckets of the string table swept. */
  ghost function Flipped(hash: Hash, k: nat): Gc {
    AllMarked(hash).(currentwhite := true, sweepstrgc := k, phase := if k >= 32 then Sweep else SweepString)
  }

  lemma BucketStep(hash: Hash, k: nat)
    requires k < 32
    ensures var g := Flipped(hash, k); g.marked.Keys == g.heap.Keys && SingleStep(g) == Flipped(hash, k + 1)
  {
    hide Marks, Objects, AgainPass;
    var g := Flipped(hash, k);
    AgainStep(hash);
    assert g.strt[k] == [] && Doomed(g, []) == {} && Keep([], {}) == [];
    assert SweepMarks(g, []) == g.marked;
    assert g.heap - {} == g.heap && g.strt[k := []] == g.strt;
  }

  lemma {:induction false} BucketSteps(hash: Hash, k: nat)
    requires k <= 32
    ensures Steps(Flipped(hash, k), 32 - k) == Flipped(hash, 32)
    decreases 32 - k
  {
    hide Flipped, SingleStep;
    if k < 32 {
      BucketStep(hash, k);
      BucketSteps(hash, k + 1);
    }
  }

  /** The table is the first element of `rootgc`, and the sweep frees it. */
  lemma FreeStep(hash: Hash)
    ensures var g := Flipped(hash, 32);
            && g.marked.Keys == g.heap.Keys && CanSweep(g) && 6 in g.heap && 6 !in SweepOne(g).heap && 6 !in SingleStep(g).heap
  {
    hide SweepMany;
    var g := Flipped(hash, 32);
    assert 6 !in SweepOne(g).heap;
    hide SweepOne;
    SweepManyVars(SweepOne(g), GCSWEEPMAX - 1);
    assert Release(g) == g;
    assert SweepMany(g, GCSWEEPMAX) == SweepMany(SweepOne(g), GCSWEEPMAX - 1) by { SweepManyUnfolds(g, GCSWEEPMAX); }
  }

  // ---------- the whole run ----------

  lemma RunFrom(g: Gc, events: seq<Event>, k: nat, r: Gc)
    requires Inv(g) && k < |events| && Apply(g, events[k]) == r
    ensures Inv(r) && Run(g, events[k..]) == Run(r, events[k + 1..])
  {
    hide Inv, Apply;
    ApplyKeeps(g, events[k]);
    assert events[k..][1..] == events[k + 1..];
  }

  /** The program runs up to the point where the table is on the stack. */
  lemma ProgramRuns(hash: Hash)
    ensures Inv(Initial(hash)) && Inv(Ready(hash, {3, 4, 5, 6}))
    ensures Run(Initial(hash), Setup()) == Run(Ready(hash, {3, 4, 5, 6}), Setup()[8..])
  {
    hide Inv, Apply, Ready, TableMade, Closed, Pushed, Registered, TwoClosures, OneClosure, Captured, Initial, Run;
    var p := Setup();
    assert p[0..] == p;
    InitialInv(hash);
    CaptureStep(hash);       RunFrom(Initial(hash), p, 0, Captured(hash));
    FirstClosureStep(hash);  RunFrom(Captured(hash), p, 1, OneClosure(hash));
    SecondClosureStep(hash); RunFrom(OneClosure(hash), p, 2, TwoClosures(hash));
    RegisterStep(hash);      RunFrom(TwoClosures(hash), p, 3, Registered(hash));
    PushStep(hash);          RunFrom(Registered(hash), p, 4, Pushed(hash));
    CloseStep(hash);         RunFrom(Pushed(hash), p, 5, Closed(hash));
    TableStep(hash);         RunFrom(Closed(hash), p, 6, TableMade(hash));
    ReadyStep(hash);         RunFrom(TableMade(hash), p, 7, Ready(hash, {3, 4, 5, 6}));
  }

  lemma FirstSteps(hash: Hash)
    requires Inv(Ready(hash, {3, 4, 5, 6}))
    ensures Apply(Ready(hash, {3, 4, 5, 6}), CollectorStep) == RootsMarked(hash)
    ensures Inv(RootsMarked(hash)) ==> Apply(RootsMarked(hash), CollectorStep) == RegistryMarked(hash)
    ensures Inv(RegistryMarked(hash)) ==> Apply(RegistryMarked(hash), CollectorStep) == UpvalueMarked(hash)
  {
    hide Inv, MarkRoot, PropagateMark, Objects, Marks;
    assert Release(Ready(hash, {3, 4, 5, 6})) == Ready(hash, {});
    RootsStep(hash);
    RegistryStep(hash);
    ClosureStep(hash);
  }

  lemma SetupRuns(hash: Hash)
    ensures Inv(Initial(hash)) && Run(Initial(hash), Setup()) == UpvalueMarked(hash)
  {
    hide Inv, Apply, Ready, RootsMarked, RegistryMarked, UpvalueMarked, Run, Initial;
    var p := Setup();
    ProgramRuns(hash);
    FirstSteps(hash);
    RunFrom(Ready(hash, {3, 4, 5, 6}), p, 8, RootsMarked(hash));
    RunFrom(RootsMarked(hash), p, 9, RegistryMarked(hash));
    RunFrom(RegistryMarked(hash), p, 10, UpvalueMarked(hash));
    NoMoreEvents(UpvalueMarked(hash));
    assert p[11..] == [];
  }

  lemma NoMoreEvents(g: Gc)
    requires Inv(g)
    ensures Run(g, []) == g
  {}

  // ---------- the store and what follows ----------

  lemma StepsEnd(hash: Hash)
    ensures Steps(Stored(hash), 36) == Flipped(hash, 32)
  {
    hide SingleStep, Stored, GlobalsMarked, ThreadMarked, AllMarked, Flipped;
    MarkingSteps(hash);
    StepsAdd(Stored(hash), GlobalsMarked(hash), 36);
    StepsAdd(GlobalsMarked(hash), ThreadMarked(hash), 35);
    StepsAdd(ThreadMarked(hash), AllMarked(hash), 34);
    StepsAdd(AllMarked(hash), Flipped(hash, 0), 33);
    BucketSteps(hash, 0);
  }

  lemma GrayStep(g: Gc, r: Gc)
    requires g.marked.Keys == g.heap.Keys && g.phase.Propagate? && g.held == {} && g.gray != [] && g.gray[0] in g.heap
    requires PropagateMark(g) == r
    ensures SingleStep(g) == r
  {
    hide PropagateMark;
    assert Release(g) == g;
  }

  lemma LastStep(g: Gc)
    requires g.marked.Keys == g.heap.Keys && g.phase.Propagate? && g.held == {} && g.gray == []
    ensures SingleStep(g) == Atomic(g)
  {
    hide Atomic;
    assert Release(g) == g;
  }

  lemma MarkingSteps(hash: Hash)
    ensures var g := Stored(hash); g.marked.Keys == g.heap.Keys && SingleStep(g) == GlobalsMarked(hash)
    ensures var g := GlobalsMarked(hash); g.marked.Keys == g.heap.Keys && SingleStep(g) == ThreadMarked(hash)
    ensures var g := ThreadMarked(hash); g.marked.Keys == g.heap.Keys && SingleStep(g) == AllMarked(hash)
    ensures var g := AllMarked(hash); g.marked.Keys == g.heap.Keys && SingleStep(g) == Flipped(hash, 0)
  {
    hide PropagateMark, Atomic, SingleStep, Marks;
    GlobalsStep(hash); GrayStep(Stored(hash), GlobalsMarked(hash));
    ThreadStep(hash);  GrayStep(GlobalsMarked(hash), ThreadMarked(hash));
    SecondStep(hash);  GrayStep(ThreadMarked(hash), AllMarked(hash));
    FlipStep(hash);    LastStep(AllMarked(hash));
  }

  /** The registry leads to the first closure, its upvalue and the table. */
  lemma TableIsReachable(hash: Hash)
    ensures Reachable(Flipped(hash, 32), 6) && Release(Flipped(hash, 32)) == Flipped(hash, 32)
  {
    var g := Flipped(hash, 32);
    assert Content(g.heap, 2)[0] == Obj(4) && Content(g.heap, 4)[0] == Obj(3) && Content(g.heap, 3)[0] == Obj(6);
    hide Content;
    RootIsReachable(g, 2);
    hide Reachable;
    PointeeIsReachable(g, 2, 4);
    PointeeIsReachable(g, 4, 3);
    PointeeIsReachable(g, 3, 6);
  }

  lemma BeforeTheStore(hash: Hash)
    ensures var g := UpvalueMarked(hash);
            5 in g.heap && 3 in g.heap && g.heap[5] == Func([Obj(3)]) && g.heap[3] == ClosedUpval(Plain) && Reachable(g, 5) && Reachable(g, 6)
  {
    var g := UpvalueMarked(hash);
    assert Content(g.heap, 0)[2] == Obj(5) && Content(g.heap, 0)[3] == Obj(6);
    hide Content;
    RootIsReachable(g, 0);
    hide Reachable;
    PointeeIsReachable(g, 0, 5);
    PointeeIsReachable(g, 0, 6);
  }

  /** A program runs into the missed barrier: in the state after `Setup`, closure 5 and table 6 are on the stack
      and `lua_setupvalue` stores the table in the closure's upvalue 3 and pops it.  The collector goes on, and
      after 36 steps the next one frees the table although the registry leads to it. */
  lemma SetUpvalueFreesReachable(hash: Hash)
    ensures Inv(Initial(hash))
    ensures var g := Run(Initial(hash), Setup());
            && Inv(g) && g.marked.Keys == g.heap.Keys
            && 5 in g.heap && 3 in g.heap && g.heap[5] == Func([Obj(3)]) && g.heap[3] == ClosedUpval(Plain)
            && Reachable(g, 5) && Reachable(g, 6) && MissedBarrier(g, 5, 3, Obj(6))
            && IsUpval(g, 3) && var a := ApiSetUpvalue(g, 5, 3, Obj(6));
            && 0 in a.heap && a.heap[0].Thread? && |a.heap[0].stack| == 3
            && var r := Steps(StackCut(a, 0, 2), 36);
            r.marked.Keys == r.heap.Keys && Reachable(Release(r), 6) && 6 in r.heap && 6 !in SingleStep(r).heap
  {
    hide Inv, Initial, Run, Setup, UpvalueMarked, Stored, Flipped, ApiSetUpvalue, MissedBarrier, StackCut, SingleStep, Steps,
         Reachable, CanSweep, SweepOne;
    SetupRuns(hash);
    MissedStore(hash);
    BeforeTheStore(hash);
    StepsEnd(hash);
    TableIsReachable(hash);
    FreeStep(hash);
  }
}
