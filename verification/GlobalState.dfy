/**
  The collector as it is written: a `global_State` whose fields are updated in place by loops over gray
  lists, buckets and the `rootgc` list.  Each method does what the function of the same step says.
  */
module GlobalStates {
  import opened GcState
  import opened GcMark
  import opened GcPropagate
  import opened GcInvariant
  import opened GcUpval
  import opened GcSweep
  import opened GcCollector
  import opened GcFullCycle
  import opened GcMutator
  import opened GcIntern
  import opened GcFindUpval
  import opened GcRuns
  import Stores = GcStores

  class GlobalState {
    var heap: map<Ref, Object>
    var marked: map<Ref, Mark>
    var currentwhite: bool
    var gcstate: Phase
    var gray: seq<Ref>
    var grayagain: seq<Ref>
    var rootgc: seq<Ref>
    var sweepgc: nat
    const hash: string -> nat
    var strt: seq<seq<Ref>>
    var sweepstrgc: nat
    var uvhead: seq<Ref>
    const mainthread: Ref
    var running: Ref
    var registry: Value
    var mt: seq<Value>
    ghost var held: set<Ref>
    var next: Ref

    ghost function S(): Gc
      reads this
    {
      Gc(heap, marked, currentwhite, gcstate, gray, grayagain, rootgc, sweepgc, hash, strt, sweepstrgc, uvhead,
         mainthread, running, registry, mt, held, next)
    }

    ghost predicate Valid()
      reads this
    {
      Inv(S())
    }

    constructor (hash: string -> nat)
      ensures Valid() && S() == Initial(hash)
    {
      heap := map[0 := Thread(Obj(1), [Plain], []), 1 := Table([]), 2 := Table([])];
      marked := map[0 := Mark(true, false, false, true), 1 := LuaCWhite(false), 2 := LuaCWhite(false)];
      currentwhite, gcstate := false, Pause;
      gray, grayagain, rootgc, sweepgc := [], [], [2, 1, 0], 0;
      this.hash, strt, sweepstrgc := hash, seq(32, _ => []), 0;
      uvhead, mainthread, running, registry := [], 0, 0, Obj(2);
      mt, held, next := seq(9, _ => Plain), {}, 3;
      new;
      InitialInv(hash);
    }

    // ---------- marking ----------

    /** `reallymarkobject` (lgc.c:69-112). */
    method ReallyMarkObject(o: Ref)
      requires marked.Keys <= heap.Keys && White(S(), o)
      modifies this`marked, this`gray
      ensures S() == ReallyMark(old(S()), o)
      decreases |Whites(S())|, 0
    {
      ghost var g := S();
      marked := marked[o := White2Gray(marked[o])];
      WhitesDrop(g, S(), o);
      match heap[o]
      case Str(_) =>
      case Udata(mt, env) =>
        marked := marked[o := Gray2Black(marked[o])];
        WhitesDrop(g, S(), o);
        ghost var g2 := S();
        MarkOneValue(mt);
        WhitesShrink(g2, S());
        MarkOneValue(env);
      case ClosedUpval(v) =>
        MarkOneValue(v);
        marked := marked[o := Gray2Black(marked[o])];
      case OpenUpval(t, slot) =>
        if OnStack(heap, t, slot) { MarkOneValue(heap[t].stack[slot]); }
      case _ =>
        gray := [o] + gray;
    }

    /** The macro `markvalue` (lgc.c:52-53). */
    method MarkOneValue(v: Value)
      requires marked.Keys <= heap.Keys
      modifies this`marked, this`gray
      ensures S() == MarkValue(old(S()), v)
      decreases |Whites(S())|, 1
    {
      if v.Obj? && v.ref in marked && IsWhite(marked[v.ref]) { ReallyMarkObject(v.ref); }
    }

    /** The loops that mark every value an object holds. */
    method MarkEach(vs: seq<Value>)
      requires marked.Keys == heap.Keys
      modifies this`marked, this`gray
      ensures S() == MarkAll(old(S()), vs)
    {
      var i := 0;
      while i < |vs|
        invariant i <= |vs| && marked.Keys == heap.Keys
        invariant MarkAll(S(), vs[i..]) == MarkAll(old(S()), vs)
      {
        assert vs[i..][1..] == vs[i + 1..];
        MarkOneValue(vs[i]);
        i := i + 1;
      }
    }

    /** `propagatemark` (lgc.c:277-320). */
    method PropagateOne()
      requires marked.Keys == heap.Keys && gray != [] && Gray(S(), gray[0])
      modifies this`marked, this`gray, this`grayagain
      ensures S() == PropagateMark(old(S()))
    {
      hide MarkAll, Measure;
      var o := gray[0];
      marked := marked[o := Gray2Black(marked[o])];
      gray := gray[1..];
      if heap[o].Thread? {
        grayagain := [o] + grayagain;
        marked := marked[o := Black2Gray(marked[o])];
        assert marked == old(marked);
      }
      assert S() == TakeGray(old(S()));
      MarkEach(Content(heap, o));
    }

    /** `propagateall` (lgc.c:323-327). */
    method PropagateGray()
      requires TriColour(S()) && Within(S(), heap.Keys)
      modifies this`marked, this`gray, this`grayagain
      ensures S() == PropagateAll(old(S()))
    {
      while gray != []
        invariant TriColour(S()) && Within(S(), heap.Keys)
        invariant PropagateAll(S()) == PropagateAll(old(S()))
        decreases Measure(S())
      {
        hide GrayLists, NoDead, BlackClosed, GrayPending, ClosedUnder;
        PropagateMarkKeeps(S(), heap.Keys);
        GrayHeadIsGray(S());
        PropagateOne();
      }
    }

    /** `remarkupvals` (lgc.c:515-522). */
    method RemarkOpen()
      requires marked.Keys == heap.Keys && forall u :: u in uvhead ==> u in heap
      modifies this`marked, this`gray
      ensures S() == RemarkUpvals(old(S()), old(uvhead))
    {
      var i := 0;
      while i < |uvhead|
        invariant i <= |uvhead| && marked.Keys == heap.Keys
        invariant RemarkUpvals(S(), uvhead[i..]) == RemarkUpvals(old(S()), old(uvhead))
      {
        assert uvhead[i..][1..] == uvhead[i + 1..];
        if IsGray(marked[uvhead[i]]) { MarkEach(Content(heap, uvhead[i])); }
        i := i + 1;
      }
    }

    /** `markroot` (lgc.c:501-512). */
    method MarkRoots()
      requires marked.Keys == heap.Keys && mainthread in heap && heap[mainthread].Thread?
      modifies this`marked, this`gray, this`grayagain, this`gcstate
      ensures S() == MarkRoot(old(S()))
    {
      hide MarkAll;
      ghost var g := S();
      assert RootValues(g) == [Obj(mainthread), heap[mainthread].globals, registry] + mt;
      hide RootValues;
      gray, grayagain := [], [];
      assert S() == g.(gray := [], grayagain := []);
      MarkEach([Obj(mainthread), heap[mainthread].globals, registry] + mt);
      gcstate := Propagate;
    }

    // `atomic` (lgc.c:525-553): the three propagations and the flip.

    method RemarkAndPropagate()
      requires marked.Keys == heap.Keys && forall u :: u in uvhead ==> u in heap
      requires var a := RemarkUpvals(S(), uvhead); TriColour(a) && Within(a, heap.Keys)
      modifies this`marked, this`gray, this`grayagain
      ensures S() == RemarkPass(old(S()))
    {
      hide TriColour, Within, RemarkUpvals, PropagateAll;
      RemarkOpen();
      PropagateGray();
    }

    method RootsAndPropagate()
      requires marked.Keys == heap.Keys
      requires var b := MarkAll(MarkValue(S(), Obj(running)), mt); TriColour(b) && Within(b, heap.Keys)
      modifies this`marked, this`gray, this`grayagain
      ensures S() == RootPass(old(S()))
    {
      hide TriColour, Within, MarkAll, MarkValue, PropagateAll;
      MarkOneValue(Obj(running));
      MarkEach(mt);
      PropagateGray();
    }

    method AgainAndPropagate()
      requires marked.Keys == heap.Keys
      requires var c := S().(gray := grayagain, grayagain := []); TriColour(c) && Within(c, heap.Keys)
      modifies this`marked, this`gray, this`grayagain
      ensures S() == AgainPass(old(S()))
    {
      hide TriColour, Within, PropagateAll;
      ghost var g := S();
      gray, grayagain := grayagain, [];
      assert S() == g.(gray := g.grayagain, grayagain := []);
      PropagateGray();
    }

    method AtomicStep()
      requires Valid() && gcstate.Propagate? && held == {}
      modifies this`marked, this`gray, this`grayagain, this`currentwhite, this`sweepstrgc, this`sweepgc, this`gcstate
      ensures S() == Atomic(old(S()))
    {
      hide Inv, TriColour, Within, RemarkUpvals, PropagateAll, MarkAll, MarkValue, RemarkPass, RootPass, AgainPass, Atomic;
      ghost var g := S();
      InvParts(g);
      RemarkReady(g);
      RemarkAndPropagate();
      ghost var a := S();
      RootsReady(g, a);
      RootsAndPropagate();
      ghost var b := S();
      AgainReady(g, a, b);
      AgainAndPropagate();
      AtomicUnfolds(g, a, b, S());
      FlipWhite();
    }

    method FlipWhite()
      modifies this`currentwhite, this`sweepstrgc, this`sweepgc, this`gcstate
      ensures S() == old(S()).(currentwhite := !old(currentwhite), sweepstrgc := 0, sweepgc := 0, phase := SweepString)
    {
      currentwhite := !currentwhite;
      sweepstrgc, sweepgc, gcstate := 0, 0, SweepString;
    }

    // ---------- sweeping ----------

    /** The body of `sweeplist` for one element other than a thread (lgc.c:414-425). */
    method SweepElement(curr: Ref) returns (alive: bool)
      requires curr in marked && curr in heap
      modifies this`heap, this`marked, this`uvhead
      ensures alive == Survives(currentwhite, old(marked)[curr])
      ensures alive ==> heap == old(heap) && uvhead == old(uvhead)
                        && marked == old(marked)[curr := MakeWhite(currentwhite, old(marked)[curr])]
      ensures !alive ==> heap == old(heap) - {curr} && marked == old(marked) - {curr}
                         && uvhead == if old(heap)[curr].OpenUpval? then Keep(old(uvhead), {curr}) else old(uvhead)
    {
      alive := Survives(currentwhite, marked[curr]);
      if alive {
        marked := marked[curr := MakeWhite(currentwhite, marked[curr])];
      } else {
        if heap[curr].OpenUpval? { uvhead := Keep(uvhead, {curr}); }
        heap, marked := heap - {curr}, marked - {curr};
      }
    }

    /** `sweepwholelist` on a bucket or on the open upvalues of a thread (lgc.c:404-428). */
    method SweepWholeList(xs: seq<Ref>) returns (kept: seq<Ref>)
      requires marked.Keys == heap.Keys && NoDup(xs) && forall x :: x in xs ==> x in heap
      requires forall x :: x in xs ==> (x in uvhead <==> heap[x].OpenUpval?)
      modifies this`heap, this`marked, this`uvhead
      ensures var d := Doomed(old(S()), xs);
              && heap == old(heap) - d && marked == SweepMarks(old(S()), xs) && uvhead == Keep(old(uvhead), d)
              && kept == Keep(xs, d)
    {
      hide Doomed, SweepMarks, Keep, Survives, NoDup;
      ghost var g := S();
      kept := [];
      var i := 0;
      SweepNone(g, xs);
      while i < |xs|
        invariant i <= |xs|
        invariant heap == g.heap - Doomed(g, xs[..i]) && marked == SweepMarks(g, xs[..i])
        invariant uvhead == Keep(g.uvhead, Doomed(g, xs[..i])) && kept == Keep(xs[..i], Doomed(g, xs))
      {
        ghost var before := heap;
        SweepNextMarks(g, xs, i);
        SweepNextKept(g, xs, i);
        var alive := SweepElement(xs[i]);
        if alive { kept := kept + [xs[i]]; }
        i := i + 1;
      }
      assert xs[..i] == xs;
    }

    /** GCSsweepstring in `singlestep` (lgc.c:572-581). */
    method SweepStringBucket()
      requires Valid() && gcstate.SweepString?
      modifies this`heap, this`marked, this`uvhead, this`strt, this`sweepstrgc, this`gcstate
      ensures old(sweepstrgc) < |old(strt)| && S() == SweepBucket(old(S()))
    {
      hide Inv, Doomed, SweepMarks, Keep, SweepBucket;
      ghost var g := S();
      InvParts(g);
      BucketReady(g);
      BucketUnfolds(g);
      var kept := SweepWholeList(strt[sweepstrgc]);
      strt := strt[sweepstrgc := kept];
      sweepstrgc := sweepstrgc + 1;
      if sweepstrgc >= |strt| { gcstate := Sweep; }
    }

    // ---------- upvalues ----------

    /** `luaC_linkupval` (lgc.c:695-710). */
    method LinkClosedUpval(u: Ref)
      requires marked.Keys == heap.Keys && u in heap && heap[u].ClosedUpval?
      modifies this`rootgc, this`sweepgc, this`marked, this`gray
      ensures S() == LinkUpval(old(S()), u)
    {
      ghost var g := S();
      rootgc := [u] + rootgc;
      if sweepgc > 0 { sweepgc := sweepgc + 1; }
      assert S() == InsertRoot(g, 0, u);
      if IsGray(marked[u]) {
        if gcstate.Propagate? {
          marked := marked[u := Gray2Black(marked[u])];
          MarkOneValue(heap[u].value);
        } else {
          marked := marked[u := MakeWhite(currentwhite, marked[u])];
        }
      }
    }

    /** `luaF_close` (lfunc.c:96-112). */
    method CloseUpvalues(t: Ref, level: nat)
      requires marked.Keys == heap.Keys && OpenUpvals(S()) && t in heap && heap[t].Thread?
      modifies this`heap, this`marked, this`gray, this`rootgc, this`sweepgc, this`uvhead
      ensures S() == CloseUpvals(old(S()), t, level)
      ensures marked.Keys == heap.Keys
    {
      OpenHead(S(), t);
      while heap[t].openupval != [] && heap[heap[t].openupval[0]].slot >= level
        invariant marked.Keys == heap.Keys && OpenUpvals(S()) && t in heap && heap[t].Thread?
        invariant heap[t].openupval != [] ==> HasOpen(S(), t, 0)
        invariant CloseUpvals(S(), t, level) == CloseUpvals(old(S()), t, level)
        decreases |heap[t].openupval|
      {
        hide OpenUpvals, CloseUpvals, CloseOne, Detached;
        ghost var g := S();
        CloseOneShape(g, t);
        CloseOneDetaches(g, t);
        CloseFirst(t);
        DetachedOpenUpvals(g, t, g.heap[t].openupval[0], S());
        OpenHead(S(), t);
        CloseUnfolds(g, t, level);
      }
    }

    /** One turn of that loop: the first open upvalue is freed if it is dead and closed otherwise. */
    method CloseFirst(t: Ref)
      requires marked.Keys == heap.Keys && HasOpen(S(), t, 0)
      modifies this`heap, this`marked, this`gray, this`rootgc, this`sweepgc, this`uvhead
      ensures S() == CloseOne(old(S()), t)
    {
      hide LinkUpval;
      ghost var g := S();
      var u := heap[t].openupval[0];
      OpenUpvalIsOpen(g, t);
      heap := heap[t := heap[t].(openupval := heap[t].openupval[1..])];
      uvhead := Keep(uvhead, {u});
      if IsDead(currentwhite, marked[u]) {
        heap, marked := heap - {u}, marked - {u};
      } else {
        heap := heap[u := ClosedUpval(heap[t].stack[heap[u].slot])];
        assert S() == Unlinked(g, t).(heap := Unlinked(g, t).heap[u := ClosedUpval(g.heap[t].stack[g.heap[u].slot])]);
        LinkClosedUpval(u);
      }
    }

    // ---------- the rootgc list ----------

    method SweepThreadUpvals(t: Ref)
      requires Basics(S()) && OpenUpvals(S()) && t in heap && heap[t].Thread?
      modifies this`heap, this`marked, this`uvhead
      ensures S() == SweepOpen(old(S()), t)
    {
      hide OpenUpvals, Doomed, SweepMarks, Keep, Basics;
      ghost var g := S();
      OpenReady(g, t);
      var kept := SweepWholeList(heap[t].openupval);
      heap := heap[t := heap[t].(openupval := kept)];
      OpenUnfolds(g, t);
    }

    /** `freeobj` (lgc.c:378-400); a thread closes its remaining upvalues first (lstate.c:134-140). */
    method FreeObj(o: Ref)
      requires marked.Keys == heap.Keys && OpenUpvals(S()) && o in heap
      modifies this`heap, this`marked, this`gray, this`rootgc, this`sweepgc, this`uvhead
      ensures S() == Discard(if old(heap)[o].Thread? then CloseUpvals(old(S()), o, 0) else old(S()), o)
    {
      hide OpenUpvals, CloseUpvals;
      if heap[o].Thread? { CloseUpvalues(o, 0); }
      heap, marked := heap - {o}, marked - {o};
    }

    method UnlinkAndFree(curr: Ref)
      requires marked.Keys == heap.Keys && OpenUpvals(S()) && NoDup(rootgc)
      requires sweepgc < |rootgc| && curr == rootgc[sweepgc] && curr in heap
      modifies this`heap, this`marked, this`gray, this`rootgc, this`sweepgc, this`uvhead
      ensures S() == FreeObject(old(S()), curr)
    {
      hide OpenUpvals, NoDup, CloseUpvals, Keep, FreeObject;
      ghost var g := S();
      KeepButOne(rootgc, sweepgc);
      FreeUnfolds(g, curr);
      rootgc := rootgc[..sweepgc] + rootgc[sweepgc + 1..];
      assert S() == Unlink(g, curr);
      UnlinkedUpvals(g, S(), curr);
      FreeObj(curr);
    }

    /** The element under the sweep pointer is whitened or unlinked and freed (lgc.c:414-425). */
    method KeepOrFree(curr: Ref)
      requires marked.Keys == heap.Keys && OpenUpvals(S()) && NoDup(rootgc)
      requires sweepgc < |rootgc| && curr == rootgc[sweepgc] && curr in heap
      modifies this`heap, this`marked, this`gray, this`rootgc, this`sweepgc, this`uvhead
      ensures S() == if Survives(old(currentwhite), old(marked)[curr]) then Whitened(old(S()), curr) else FreeObject(old(S()), curr)
    {
      hide OpenUpvals, FreeObject, Survives, NoDup;
      if Survives(currentwhite, marked[curr]) {
        marked := marked[curr := MakeWhite(currentwhite, marked[curr])];
        sweepgc := sweepgc + 1;
      } else {
        UnlinkAndFree(curr);
      }
    }

    /** One turn of the loop of `sweeplist` on `rootgc` (lgc.c:411-426). */
    method SweepRoot()
      requires Valid() && gcstate.Sweep? && sweepgc < |rootgc|
      modifies this`heap, this`marked, this`gray, this`rootgc, this`sweepgc, this`uvhead
      ensures CanSweep(old(S())) && S() == SweepOne(old(S()))
    {
      hide Inv, Doomed, OpenUpvals, SweepOpen, FreeObject, Survives, SweepOne, Preserves, DeadStays;
      ghost var g := S();
      InvLists(g);
      SweepOneReady(g);
      var curr := rootgc[sweepgc];
      if heap[curr].Thread? {
        SweepThreadUpvals(curr);
        SweepOpenKeeps(g, curr);
        SweepOpenSame(g, curr);
        InvLists(S());
      }
      SweepOneUnfolds(g, S());
      KeepOrFree(curr);
    }

    /** `sweeplist` on `rootgc` (lgc.c:407-428). */
    method SweepList(count: nat)
      requires Valid() && gcstate.Sweep?
      modifies this`heap, this`marked, this`gray, this`rootgc, this`sweepgc, this`uvhead
      ensures S() == SweepMany(old(S()), count)
    {
      hide Inv, CanSweep, SweepOne, SweepMany, Preserves, DeadStays, Pending;
      var left: nat := count;
      while sweepgc < |rootgc| && left > 0
        invariant left <= count && Valid() && gcstate.Sweep?
        invariant SweepMany(S(), left) == SweepMany(old(S()), count)
        decreases left
      {
        ghost var g := S();
        SweepOneCan(g);
        SweepOneKeeps(g);
        SweepOneProgress(g);
        SweepManyUnfolds(g, left);
        SweepRoot();
        left := left - 1;
      }
      SweepManyStops(S(), left);
    }

    /** `singlestep` (lgc.c:556-607). */
    method Step()
      requires Valid()
      modifies this
      ensures old(S()).marked.Keys == old(S()).heap.Keys && S() == SingleStep(old(S()))
      ensures Valid() && KeepsReachable(old(S()), S())
    {
      hide Inv, KeepsReachable, PropagateMark, Atomic, SweepBucket, SweepMany, MarkRoot;
      ghost var g := S();
      SingleStepKeeps(g);
      InvParts(g);
      held := {};
      assert S() == Release(g);
      ReleaseKeeps(g);
      StepReady(Release(g));
      match gcstate
      case Pause =>
        MarkRoots();
      case Propagate =>
        if gray != [] { PropagateOne(); } else { AtomicStep(); }
      case SweepString =>
        SweepStringBucket();
      case Sweep =>
        SweepList(GCSWEEPMAX);
        if sweepgc >= |rootgc| { gcstate := Finalize; }
      case Finalize =>
        gcstate := Pause;
    }

    /** `luaC_fullgc` (lgc.c:636-659). */
    method FullCollection()
      requires Valid()
      modifies this
      ensures Valid() && gcstate == Pause && S() == FullGc(old(S()))
      ensures forall o :: o in heap <==> o in old(heap) && (Reachable(Release(old(S())), o) || Fixed(old(S()), o))
    {
      hide Inv, KeepsReachable, StepUntil, SingleStep, StepsLeft, MarkRoot, Reachable, ResetSweep;
      ghost var g := S();
      held := {};
      ResetForSweep();
      FullGcStart(g);
      ghost var g1 := S();
      RunUntil(Finalize);
      ghost var g2 := S();
      InvParts(g2);
      MarkRootStepKeeps(g2);
      StepReady(g2);
      MarkRoots();
      RunUntil(Pause);
      FullGcUnfolds(g, g1, g2);
      FullGcCollectsExactly(g);
    }

    method ResetForSweep()
      modifies this`sweepstrgc, this`sweepgc, this`gray, this`grayagain, this`gcstate
      ensures S() == ResetSweep(old(S()))
    {
      if gcstate.Pause? || gcstate.Propagate? {
        sweepstrgc, sweepgc := 0, 0;
        gray, grayagain := [], [];
        gcstate := SweepString;
      }
    }

    /** The loops of `luaC_fullgc`. */
    method RunUntil(goal: Phase)
      requires Valid() && (goal.Pause? || (goal.Finalize? && !gcstate.Pause?))
      modifies this
      ensures Valid() && S() == StepUntil(old(S()), goal)
    {
      while gcstate != goal
        invariant Valid() && (goal.Pause? || (goal.Finalize? && !gcstate.Pause?))
        invariant StepUntil(S(), goal) == StepUntil(old(S()), goal)
        decreases PhaseRank(gcstate), StepsLeft(S())
      {
        hide Inv, SingleStep, StepsLeft, KeepsReachable;
        ghost var g := S();
        StepsLeftNat(g);
        SingleStepKeeps(g);
        SingleStepProgress(g);
        SweepDoesNotSkip(g);
        Step();
      }
    }

    // ---------- what the program calls ----------

    /** `luaC_link` (lgc.c:686-692). */
    method Link(x: Object) returns (o: Ref)
      requires Valid() && Creatable(S(), x) && !x.Udata?
      modifies this`heap, this`marked, this`rootgc, this`sweepgc, this`next, this`held
      ensures o == old(next) && S() == NewObject(old(S()), 0, x) && Valid()
      ensures Stores.Adds(old(S()), S(), o) && heap[o] == x
    {
      hide Inv, Stores.Adds, OwnContent;
      ghost var g := S();
      NewObjectKeeps(g, 0, x);
      Stores.NewObjectWrites(g, 0, x);
      o := LinkFirst(x);
    }

    method LinkFirst(x: Object) returns (o: Ref)
      modifies this`heap, this`marked, this`rootgc, this`sweepgc, this`next, this`held
      ensures o == old(next) && S() == NewObject(old(S()), 0, x)
    {
      hide NewObject, LuaCWhite;
      NewObjectFirst(S(), x);
      o := next;
      heap, marked, next, held := heap[o := x], marked[o := LuaCWhite(currentwhite)], o + 1, held + {o};
      rootgc, sweepgc := [o] + rootgc, if sweepgc > 0 then sweepgc + 1 else sweepgc;
    }

    /** `luaC_barrierback` (lgc.c:675-683). */
    method BackBarrier(t: Ref)
      requires t in marked
      modifies this`marked, this`grayagain
      ensures S() == BarrierBack(old(S()), t)
    {
      marked := marked[t := Black2Gray(marked[t])];
      grayagain := [t] + grayagain;
    }

    /** `luaC_barrierf` (lgc.c:662-672). */
    method ForwardBarrier(o: Ref, v: Ref)
      requires marked.Keys == heap.Keys && o in marked && White(S(), v)
      modifies this`marked, this`gray
      ensures S() == BarrierForward(old(S()), o, v)
    {
      if gcstate.Propagate? { ReallyMarkObject(v); }
      else { marked := marked[o := MakeWhite(currentwhite, marked[o])]; }
    }

    method SetTableField(t: Ref, i: nat, v: Value)
      requires Valid() && t in heap && heap[t].Table? && Storable(heap[t], i) && (v.Obj? ==> LiveRef(S(), v.ref))
      modifies this`heap, this`marked, this`grayagain
      ensures old(S()).marked.Keys == old(S()).heap.Keys && S() == TableStore(old(S()), t, i, v) && Valid()
      ensures Stores.Stored(old(S()), S(), t, i, v)
    {
      hide Inv, Stores.Stored;
      TableStoreKeeps(S(), t, i, v);
      Stores.TableStoreWrites(S(), t, i, v);
      heap := heap[t := SetField(heap[t], i, v)];
      if v.Obj? && IsWhite(marked[v.ref]) && IsBlack(marked[t]) { BackBarrier(t); }
    }

    method SetObjectField(o: Ref, i: nat, v: Value)
      requires Valid() && o in heap && !heap[o].Table? && Storable(heap[o], i) && (v.Obj? ==> LiveRef(S(), v.ref))
      modifies this`heap, this`marked, this`gray
      ensures old(S()).marked.Keys == old(S()).heap.Keys && S() == FieldStore(old(S()), o, i, v) && Valid()
      ensures Stores.Stored(old(S()), S(), o, i, v)
    {
      hide Inv, BarrierForward, Stores.Stored;
      FieldStoreKeeps(S(), o, i, v);
      Stores.FieldStoreWrites(S(), o, i, v);
      heap := heap[o := SetField(heap[o], i, v)];
      if v.Obj? && IsWhite(marked[v.ref]) && IsBlack(marked[o]) { ForwardBarrier(o, v.ref); }
    }

    method BringBack(o: Ref)
      requires o in marked
      modifies this`marked, this`held
      ensures S() == Resurrect(old(S()), o)
    {
      if IsDead(currentwhite, marked[o]) { marked := marked[o := ChangeWhite(marked[o])]; }
      held := held + {o};
    }

    /** The search loop of `luaF_findupval`: the list is sorted by decreasing slot. */
    method SkipAbove(t: Ref, level: nat) returns (pp: nat)
      requires Valid() && IsThread(S(), t)
      ensures pp == Above(heap, heap[t].openupval, level)
    {
      hide Inv, Above;
      AllOpen(S(), t);
      var us := heap[t].openupval;
      pp := 0;
      while pp < |us| && heap[us[pp]].slot > level
        invariant pp <= Above(heap, us, level)
      {
        AboveStep(heap, us, level, pp);
        pp := pp + 1;
      }
      AboveStep(heap, us, level, pp);
    }

    method InsertUpvalue(t: Ref, level: nat, pp: nat) returns (u: Ref)
      requires IsThread(S(), t) && pp == Above(heap, heap[t].openupval, level)
      modifies this`heap, this`marked, this`uvhead, this`held, this`next
      ensures u == old(next) && S() == NewUpval(old(S()), t, level)
    {
      hide Above;
      ghost var us := heap[t].openupval;
      u := next;
      heap := heap[t := heap[t].(openupval := heap[t].openupval[..pp] + [u] + heap[t].openupval[pp..])][u := OpenUpval(t, level)];
      marked := marked[u := LuaCWhite(currentwhite)];
      uvhead := [u] + uvhead;
      held, next := held + {u}, u + 1;
    }

    /** `luaF_findupval` (lfunc.c:53-79). */
    method FindUpvalue(t: Ref, level: nat) returns (u: Ref)
      requires Valid() && IsThread(S(), t) && LiveRef(S(), t) && level < |heap[t].stack|
      modifies this`heap, this`marked, this`uvhead, this`held, this`next
      ensures FindReady(old(S()), t, level) && S() == FindUpval(old(S()), t, level) && Valid()
      ensures UpvalOf(heap, u) == At(t, level) && u in held
    {
      hide Inv, NewUpval, Resurrect, Above, LiveRef;
      ghost var g := S();
      InvParts(g);
      FindUpvalKeeps(g, t, level);
      AllOpen(g, t);
      var pp := SkipAbove(t, level);
      var us := heap[t].openupval;
      if pp < |us| && heap[us[pp]].slot == level {
        u := us[pp];
        FoundUpval(g, t, level);
        ResurrectSame(g, u);
        BringBack(u);
      } else {
        u := InsertUpvalue(t, level, pp);
        NewUpvalFields(g, t, level);
      }
    }

    /** `luaS_newlstr` (lstring.c:75-93): equal content, same object. */
    method Newlstr(text: string) returns (o: Ref)
      requires Valid()
      modifies this`heap, this`marked, this`strt, this`held, this`next
      ensures |old(strt)| > 0 && old(S()).marked.Keys == old(S()).heap.Keys
      ensures S() == Intern(old(S()), text) && Valid()
      ensures TextOf(heap, o) == Some(text) && o in held
    {
      hide Inv, StringTable, Resurrect, Interned, NewString, StringNamed;
      ghost var g := S();
      InternKeeps(g, text);
      var b := hash(text) % |strt|;
      var chain := strt[b];
      ChainOfText(g, text);
      var i := 0;
      while i < |chain|
        invariant i <= |chain| && forall k :: 0 <= k < i ==> TextOf(g.heap, chain[k]) != Some(text)
      {
        if heap[chain[i]].text == text {
          o := chain[i];
          TheOnlyOne(g, o, text);
          ResurrectSame(g, o);
          BringBack(o);
          return;
        }
        i := i + 1;
      }
      NotInterned(g, text, chain);
      o := AddString(text, b);
    }

    /** `newlstr` (lstring.c:50-72). */
    method AddString(text: string, h: nat) returns (o: Ref)
      requires |strt| > 0 && marked.Keys == heap.Keys && h == hash(text) % |strt|
      modifies this`heap, this`marked, this`strt, this`held, this`next
      ensures S() == NewString(old(S()), text)
      ensures TextOf(heap, o) == Some(text) && o in held
    {
      hide LuaCWhite, NewString;
      NewStringIs(S(), text);
      o := next;
      heap, marked, strt := heap[o := Str(text)], marked[o := LuaCWhite(currentwhite)], strt[h := [o] + strt[h]];
      held, next := held + {o}, o + 1;
    }

    /** `luaS_resize` (lstring.c:22-47). */
    method ResizeStringTable(newsize: nat)
      requires Valid() && newsize > 0
      modifies this`strt
      ensures S() == ResizeStrings(old(S()), newsize) && Valid()
    {
      hide Inv, StringTable;
      ghost var g := S();
      ResizeKeeps(g, newsize);
      if gcstate.SweepString? { return; }
      TextsListed(g);
      var table: seq<seq<Ref>> := seq(newsize, _ => []);
      var i := 0;
      while i < |strt|
        invariant i <= |strt| && |table| == newsize && strt == g.strt
        invariant table == RechainAll(g, seq(newsize, _ => []), i)
      {
        var p, j := strt[i], 0;
        ghost var before := table;
        while j < |p|
          invariant j <= |p| && |table| == newsize
          invariant Rechain(g, table, p[j..]) == Rechain(g, before, p)
        {
          assert p[j..][1..] == p[j + 1..];
          assert p[j] in strt[i];
          var h1 := hash(heap[p[j]].text) % newsize;
          table := table[h1 := [p[j]] + table[h1]];
          j := j + 1;
        }
        i := i + 1;
      }
      strt := table;
    }
  }

  // Each of the three propagations in `atomic` starts from a state that keeps the tri-colour invariant.

  lemma RemarkReady(g: Gc)
    requires Inv(g) && g.phase.Propagate?
    ensures forall u :: u in g.uvhead ==> u in g.heap
    ensures var a := RemarkUpvals(g, g.uvhead); TriColour(a) && Within(a, g.heap.Keys)
  {
    hide StringTable, RootList, Colours, TriColour, UpvalsDone, AgainDone;
    PropagateHasNoDead(g);
    WholeHeapWithin(g);
    UvheadInHeap(g);
    RemarkKeeps(g, g.uvhead, g.heap.Keys);
  }

  lemma RootsReady(g: Gc, a: Gc)
    requires Inv(g) && g.phase.Propagate? && a.marked.Keys == a.heap.Keys && g.marked.Keys == g.heap.Keys && a == RemarkPass(g)
    ensures var b := MarkAll(MarkValue(a, Obj(g.running)), g.mt); TriColour(b) && Within(b, g.heap.Keys)
    ensures TriColour(a) && Within(a, g.heap.Keys) && UpvalsDone(a)
    ensures g.running in g.heap && forall v :: v in g.mt && v.Obj? ==> v.ref in g.heap
  {
    hide StringTable, RootList, Colours, TriColour, Within, UpvalsDone, AgainDone, RemarkPass;
    var live := g.heap.Keys;
    PropagateHasNoDead(g);
    WholeHeapWithin(g);
    RootsInHeap(g);
    UvheadComplete(g);
    RemarkPassFinishes(g, live);
    var one := [Obj(g.running)];
    MarkRootsKeeps(a, one, live);
    assert MarkAll(a, one) == MarkValue(a, Obj(g.running)) by { assert one[1..] == []; }
    MarkRootsKeeps(MarkAll(a, one), g.mt, live);
  }

  lemma AgainReady(g: Gc, a: Gc, b: Gc)
    requires a.marked.Keys == a.heap.Keys && b == RootPass(a) && b.marked.Keys == b.heap.Keys
    requires TriColour(a) && Within(a, g.heap.Keys) && UpvalsDone(a)
    requires a.running in g.heap && forall v :: v in a.mt && v.Obj? ==> v.ref in g.heap
    ensures var c := b.(gray := b.grayagain, grayagain := []); TriColour(c) && Within(c, g.heap.Keys)
  {
    hide TriColour, Within, UpvalsDone, AgainDone, RootPass;
    RootPassFinishes(a, g.heap.Keys);
    AgainBecomesGray(b, b.(gray := b.grayagain, grayagain := []), g.heap.Keys);
  }

  lemma AtomicUnfolds(g: Gc, a: Gc, b: Gc, c: Gc)
    requires g.marked.Keys == g.heap.Keys && a == RemarkPass(g) && b == RootPass(a) && c == AgainPass(b)
    ensures Atomic(g) == c.(currentwhite := !c.currentwhite, sweepstrgc := 0, sweepgc := 0, phase := SweepString)
  {
    hide RemarkPass, RootPass, AgainPass;
  }

  lemma GrayHeadIsGray(g: Gc)
    requires TriColour(g) && g.gray != []
    ensures Gray(g, g.gray[0])
  {
    hide NoDead, BlackClosed, GrayPending;
    assert g.gray[0] in g.gray;
  }

  lemma UvheadInHeap(g: Gc)
    requires OpenUpvals(g)
    ensures forall u :: u in g.uvhead ==> u in g.heap
  {}

  lemma SweepNone(g: Gc, xs: seq<Ref>)
    ensures Doomed(g, xs[..0]) == {} && SweepMarks(g, xs[..0]) == g.marked
    ensures Keep(g.uvhead, {}) == g.uvhead && Keep(xs[..0], Doomed(g, xs)) == []
    ensures g.heap - {} == g.heap
  {
    KeepAll(g.uvhead, {});
  }

  lemma UpToNext(xs: seq<Ref>, i: nat)
    requires i < |xs| && NoDup(xs)
    ensures xs[..i + 1] == xs[..i] + [xs[i]] && xs[i] !in xs[..i]
    ensures forall x :: x in xs[..i + 1] <==> x in xs[..i] || x == xs[i]
  {}

  lemma DoomedNext(g: Gc, xs: seq<Ref>, i: nat)
    requires i < |xs| && NoDup(xs) && xs[i] in g.marked
    ensures xs[i] !in Doomed(g, xs[..i])
    ensures Doomed(g, xs[..i + 1]) ==
              if Survives(g.currentwhite, g.marked[xs[i]]) then Doomed(g, xs[..i]) else Doomed(g, xs[..i]) + {xs[i]}
  {
    UpToNext(xs, i);
  }

  /** What sweeping one more element of a list changes. */
  lemma SweepNextMarks(g: Gc, xs: seq<Ref>, i: nat)
    requires i < |xs| && NoDup(xs) && xs[i] in g.marked && xs[i] in g.heap
    ensures var c, d, d' := xs[i], Doomed(g, xs[..i]), Doomed(g, xs[..i + 1]);
            && c in g.heap - d && c in SweepMarks(g, xs[..i]) && SweepMarks(g, xs[..i])[c] == g.marked[c]
            && if Survives(g.currentwhite, g.marked[c]) then
                 d' == d && SweepMarks(g, xs[..i + 1]) == SweepMarks(g, xs[..i])[c := MakeWhite(g.currentwhite, g.marked[c])]
               else
                 d' == d + {c} && g.heap - d' == g.heap - d - {c} && SweepMarks(g, xs[..i + 1]) == SweepMarks(g, xs[..i]) - {c}
  {
    UpToNext(xs, i);
    DoomedNext(g, xs, i);
    hide Survives, NoDup;
  }

  lemma SweepNextKept(g: Gc, xs: seq<Ref>, i: nat)
    requires i < |xs| && NoDup(xs) && xs[i] in g.marked && xs[i] in g.heap
    requires xs[i] in g.uvhead <==> g.heap[xs[i]].OpenUpval?
    ensures var c, d, d' := xs[i], Doomed(g, xs[..i]), Doomed(g, xs[..i + 1]);
            if Survives(g.currentwhite, g.marked[c]) then
              Keep(xs[..i + 1], Doomed(g, xs)) == Keep(xs[..i], Doomed(g, xs)) + [c]
            else
              && Keep(xs[..i + 1], Doomed(g, xs)) == Keep(xs[..i], Doomed(g, xs))
              && Keep(g.uvhead, d') == (if g.heap[c].OpenUpval? then Keep(Keep(g.uvhead, d), {c}) else Keep(g.uvhead, d))
  {
    var c, d := xs[i], Doomed(g, xs[..i]);
    UpToNext(xs, i);
    DoomedNext(g, xs, i);
    KeepAppend(xs[..i], c, Doomed(g, xs));
    assert c in Doomed(g, xs) <==> !Survives(g.currentwhite, g.marked[c]);
    hide Survives, NoDup, Doomed;
    KeepTwice(g.uvhead, d, {c});
    if !g.heap[c].OpenUpval? { KeepAll(Keep(g.uvhead, d), {c}); }
  }

  lemma KeepCons(x: Ref, xs: seq<Ref>, gone: set<Ref>)
    ensures Keep([x] + xs, gone) == (if x in gone then [] else [x]) + Keep(xs, gone)
  {
    assert ([x] + xs)[1..] == xs;
  }

  lemma {:induction false} KeepAppend(xs: seq<Ref>, c: Ref, gone: set<Ref>)
    ensures Keep(xs + [c], gone) == Keep(xs, gone) + if c in gone then [] else [c]
  {
    if xs == [] {
      assert xs + [c] == [c] + [];
      KeepCons(c, [], gone);
    } else {
      assert xs + [c] == [xs[0]] + (xs[1..] + [c]);
      KeepCons(xs[0], xs[1..] + [c], gone);
      KeepAppend(xs[1..], c, gone);
    }
  }

  lemma {:induction false} KeepTwice(xs: seq<Ref>, a: set<Ref>, b: set<Ref>)
    ensures Keep(Keep(xs, a), b) == Keep(xs, a + b)
  {
    if xs != [] {
      KeepTwice(xs[1..], a, b);
      KeepCons(xs[0], Keep(xs[1..], a), b);
      assert [] + Keep(xs[1..], a) == Keep(xs[1..], a);
    }
  }

  lemma BucketUnfolds(g: Gc)
    requires g.sweepstrgc < |g.strt|
    ensures var xs := g.strt[g.sweepstrgc];
            SweepBucket(g) ==
              g.(heap := g.heap - Doomed(g, xs), marked := SweepMarks(g, xs),
                 strt := g.strt[g.sweepstrgc := Keep(xs, Doomed(g, xs))],
                 sweepstrgc := g.sweepstrgc + 1, phase := if g.sweepstrgc + 1 >= |g.strt| then Sweep else SweepString)
  {
    hide Doomed, SweepMarks, Keep;
  }

  lemma BucketReady(g: Gc)
    requires Inv(g) && g.phase.SweepString?
    ensures g.sweepstrgc < |g.strt|
    ensures var xs := g.strt[g.sweepstrgc];
            && NoDup(xs) && (forall x :: x in xs ==> x in g.heap)
            && (forall x :: x in xs ==> (x in g.uvhead <==> g.heap[x].OpenUpval?))
            && Keep(g.uvhead, Doomed(g, xs)) == g.uvhead
  {
    hide RootList, Colours, LiveClosed, PhaseOk;
    assert g.sweepstrgc < |g.strt| by { SweepBucketStart(g); }
    var xs := g.strt[g.sweepstrgc];
    forall x | x in xs ensures x in g.heap && x !in g.uvhead && !g.heap[x].OpenUpval? {
      assert TextOf(g.heap, x).Some?;
    }
    KeepAll(g.uvhead, Doomed(g, xs));
  }

  lemma OpenHead(g: Gc, t: Ref)
    requires OpenUpvals(g) && t in g.heap && g.heap[t].Thread?
    ensures g.heap[t].openupval != [] ==> HasOpen(g, t, 0)
  {
    assert ListOf(g.heap, t) == Some(g.heap[t].openupval);
    assert OpenList(g.heap, t, g.heap[t].openupval);
  }

  lemma CloseUnfolds(g: Gc, t: Ref, level: nat)
    requires g.marked.Keys == g.heap.Keys && HasOpen(g, t, level)
    ensures CloseOne(g, t).marked.Keys == CloseOne(g, t).heap.Keys
    ensures CloseUpvals(g, t, level) == CloseUpvals(CloseOne(g, t), t, level)
  {
    CloseOneShape(g, t);
  }

  lemma OpenReady(g: Gc, t: Ref)
    requires Basics(g) && OpenUpvals(g) && t in g.heap && g.heap[t].Thread?
    ensures var xs := g.heap[t].openupval;
            && g.marked.Keys == g.heap.Keys && NoDup(xs) && (forall x :: x in xs ==> x in g.heap)
            && (forall x :: x in xs ==> (x in g.uvhead <==> g.heap[x].OpenUpval?))
            && t !in Doomed(g, xs)
  {
    var xs := g.heap[t].openupval;
    ListedOpen(g, t, xs) by { assert ListOf(g.heap, t) == Some(xs); }
    forall x | x in xs ensures x in g.heap && g.heap[x].OpenUpval? && x in g.uvhead {
      assert OpenFor(g.heap, x, t) && UpvalOf(g.heap, x).At?;
    }
  }

  lemma OpenUnfolds(g: Gc, t: Ref)
    requires t in g.heap && g.heap[t].Thread? && t !in Doomed(g, g.heap[t].openupval)
    ensures var us, d := g.heap[t].openupval, Doomed(g, g.heap[t].openupval);
            SweepOpen(g, t) ==
              g.(heap := (g.heap - d)[t := g.heap[t].(openupval := Keep(us, d))], marked := SweepMarks(g, us), uvhead := Keep(g.uvhead, d))
  {
    hide Doomed, SweepMarks, Keep;
    var us, d := g.heap[t].openupval, Doomed(g, g.heap[t].openupval);
    assert g.heap[t := g.heap[t].(openupval := Keep(us, d))] - d == (g.heap - d)[t := g.heap[t].(openupval := Keep(us, d))];
  }

  lemma {:induction false} KeepButOne(xs: seq<Ref>, i: nat)
    requires i < |xs| && NoDup(xs)
    ensures Keep(xs, {xs[i]}) == xs[..i] + xs[i + 1..]
  {
    if i == 0 {
      KeepAll(xs[1..], {xs[0]});
    } else {
      KeepButOne(xs[1..], i - 1);
      assert xs[..i] == [xs[0]] + xs[1..][..i - 1];
      assert xs[1..][i..] == xs[i + 1..];
    }
  }

  lemma InvLists(g: Gc)
    requires Inv(g)
    ensures Basics(g) && g.marked.Keys == g.heap.Keys && OpenUpvals(g) && NoDup(g.rootgc)
  {}

  lemma UnlinkedUpvals(g: Gc, r: Gc, o: Ref)
    requires OpenUpvals(g) && r == g.(rootgc := r.rootgc)
    ensures OpenUpvals(r)
  {
    OpenUpvalsFrame(g, r);
  }

  lemma FreeUnfolds(g: Gc, o: Ref)
    requires g.marked.Keys == g.heap.Keys && o in g.heap
    ensures FreeObject(g, o) == Discard(if g.heap[o].Thread? then CloseUpvals(Unlink(g, o), o, 0) else Unlink(g, o), o)
  {}

  lemma SweepOneUnfolds(g: Gc, g1: Gc)
    requires CanSweep(g) && g1.marked.Keys == g1.heap.Keys
    requires var o := g.rootgc[g.sweepgc];
             o in g1.marked && g1 == if g.heap[o].Thread? then SweepOpen(g, o) else g
    ensures var o := g.rootgc[g.sweepgc];
            SweepOne(g) == if Survives(g1.currentwhite, g1.marked[o]) then Whitened(g1, o) else FreeObject(g1, o)
  {
    hide Doomed, SweepOpen, FreeObject, Survives;
  }

  lemma SweepManyStops(g: Gc, count: nat)
    requires count == 0 || g.sweepgc >= |g.rootgc|
    ensures SweepMany(g, count) == g
  {}

  lemma StepReady(g: Gc)
    requires Inv(g)
    ensures g.mainthread in g.heap && g.heap[g.mainthread].Thread?
    ensures g.phase.Propagate? && g.gray != [] ==> Gray(g, g.gray[0]) && g.gray[0] in g.heap
  {
    hide StringTable, OpenUpvals, RootList, Colours, LiveClosed;
    if g.phase.Propagate? && g.gray != [] { GrayHeadIsGray(g); }
  }

  lemma FullGcStart(g: Gc)
    requires Inv(g)
    ensures Inv(ResetSweep(Release(g))) && !ResetSweep(Release(g)).phase.Pause?
  {
    hide Inv;
    ReleaseKeeps(g);
    ResetKeeps(Release(g));
  }

  lemma FullGcUnfolds(g: Gc, g1: Gc, g2: Gc)
    requires Inv(g) && Inv(g1) && Inv(g2) && g1 == ResetSweep(Release(g)) && !g1.phase.Pause? && g2 == StepUntil(g1, Finalize)
    requires g2.marked.Keys == g2.heap.Keys && Inv(MarkRoot(g2))
    ensures FullGc(g) == StepUntil(MarkRoot(g2), Pause)
  {
    hide Inv, StepUntil, MarkRoot, ResetSweep;
  }

  ghost predicate FindReady(g: Gc, t: Ref, slot: nat) {
    g.marked.Keys == g.heap.Keys && IsThread(g, t) && (HasUpval(g, t, slot) ==> UpvalAt(g, t, slot) in g.marked)
  }

  lemma AllOpen(g: Gc, t: Ref)
    requires Inv(g) && t in g.heap && g.heap[t].Thread?
    ensures forall i :: 0 <= i < |g.heap[t].openupval| ==>
              && g.heap[t].openupval[i] in g.heap && g.heap[g.heap[t].openupval[i]].OpenUpval?
              && SlotOf(g.heap, g.heap[t].openupval[i]) == g.heap[g.heap[t].openupval[i]].slot
  {
    hide StringTable, RootList, Colours, LiveClosed, PhaseOk;
    var us := g.heap[t].openupval;
    ListedOpen(g, t, us) by { assert ListOf(g.heap, t) == Some(us); }
    forall i | 0 <= i < |us| ensures us[i] in g.heap && g.heap[us[i]].OpenUpval? {
      assert us[i] in us && OpenFor(g.heap, us[i], t);
    }
  }

  lemma {:induction false} AboveStep(h: map<Ref, Object>, us: seq<Ref>, slot: nat, k: nat)
    requires k <= Above(h, us, slot)
    ensures k < |us| && SlotOf(h, us[k]) > slot ==> k < Above(h, us, slot)
    ensures k >= |us| || SlotOf(h, us[k]) <= slot ==> k == Above(h, us, slot)
  {
    var a := Above(h, us, slot);
    if k == a && k < |us| { assert SlotOf(h, us[k]) <= slot; }
  }

  lemma NewStringIs(g: Gc, text: string)
    requires |g.strt| > 0
    ensures var b := g.hash(text) % |g.strt|;
            NewString(g, text) ==
            g.(heap := g.heap[g.next := Str(text)], marked := g.marked[g.next := LuaCWhite(g.currentwhite)],
               strt := g.strt[b := [g.next] + g.strt[b]], held := g.held + {g.next}, next := g.next + 1)
  {
  }

  lemma NewObjectFirst(g: Gc, x: Object)
    ensures NewObject(g, 0, x) ==
            g.(heap := g.heap[g.next := x], marked := g.marked[g.next := LuaCWhite(g.currentwhite)],
               rootgc := [g.next] + g.rootgc, sweepgc := if g.sweepgc > 0 then g.sweepgc + 1 else g.sweepgc,
               held := g.held + {g.next}, next := g.next + 1)
  {
    assert g.rootgc[..0] + [g.next] + g.rootgc[0..] == [g.next] + g.rootgc;
  }

  lemma ChainOfText(g: Gc, text: string)
    requires Inv(g) && |g.strt| > 0
    ensures var chain := g.strt[Bucket(g, text)];
            forall k :: 0 <= k < |chain| ==> chain[k] in g.heap && chain[k] in g.marked && g.heap[chain[k]].Str?
  {
    hide OpenUpvals, RootList, Colours, LiveClosed, PhaseOk;
    var chain := g.strt[Bucket(g, text)];
    forall k | 0 <= k < |chain| ensures chain[k] in g.heap && g.heap[chain[k]].Str? {
      assert chain[k] in chain;
      assert TextOf(g.heap, chain[k]).Some?;
    }
  }

  lemma TheOnlyOne(g: Gc, o: Ref, text: string)
    requires Inv(g) && TextOf(g.heap, o) == Some(text)
    ensures Interned(g, text) && StringNamed(g, text) == o
  {
    hide OpenUpvals, RootList, Colours, LiveClosed, PhaseOk, TextOf;
  }

  lemma NotInterned(g: Gc, text: string, chain: seq<Ref>)
    requires Inv(g) && |g.strt| > 0 && chain == g.strt[Bucket(g, text)]
    requires forall k :: 0 <= k < |chain| ==> TextOf(g.heap, chain[k]) != Some(text)
    ensures !Interned(g, text)
  {
    hide OpenUpvals, RootList, Colours, LiveClosed, PhaseOk, TextOf;
    assert forall o :: o in chain ==> TextOf(g.heap, o) != Some(text);
  }

  lemma TextsListed(g: Gc)
    requires Inv(g)
    ensures forall b, o :: 0 <= b < |g.strt| && o in g.strt[b] ==> o in g.heap && g.heap[o].Str? && TextOf(g.heap, o) == Some(g.heap[o].text)
  {
    hide OpenUpvals, RootList, Colours, LiveClosed, PhaseOk;
    forall b, o | 0 <= b < |g.strt| && o in g.strt[b] ensures o in g.heap && g.heap[o].Str? {
      assert TextOf(g.heap, o).Some?;
    }
  }
}
