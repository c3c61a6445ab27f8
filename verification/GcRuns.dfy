/**
  Every run of the collector interleaved with the program: whatever the order of allocations, stores,
  closes, single steps and full collections, no reachable object is ever freed or left dead.
  */
module GcRuns {
  import opened GcState
  import opened GcInvariant
  import opened GcUpval
  import opened GcCollector
  import opened GcFullCycle
  import opened GcMutator
  import opened GcIntern
  import opened GcFindUpval

  datatype Event =
      /** Allocate an object that lives in `rootgc`. */
    | Create(x: Object)
      /** Ask for the string with this content. */
    | Newlstr(text: string)
    | TableSet(t: Ref, i: nat, v: Value)
    | FieldSet(o: Ref, i: nat, v: Value)
    | StackSet(t: Ref, i: nat, v: Value)
    | StackPop(t: Ref, n: nat)
      /** Get the open upvalue of a stack slot. */
    | Capture(t: Ref, slot: nat)
    | UpvalSet(u: Ref, v: Value)
    | CloseFrom(t: Ref, level: nat)
    | BasicMetatable(i: nat, v: Value)
    | Resume(t: Ref)
      /** Keep a reference in a local variable of C code. */
    | Hold(o: Ref)
    | ResizeTable(size: nat)
      /** One incremental collector step, and a full collection. */
    | CollectorStep
    | CollectAll

  /** What the program must have access to for an event to happen. */
  ghost predicate Enabled(g: Gc, e: Event) {
    match e
    case Create(x) => InRootList(x) && (x.Thread? ==> x.openupval == []) && forall c :: Obj(c) in OwnContent(x) ==> Reachable(g, c)
    case Newlstr(_) => true
    case TableSet(t, i, v) => Reachable(g, t) && t in g.heap && g.heap[t].Table? && Storable(g.heap[t], i) && Accessible(g, v)
    case FieldSet(o, i, v) => Reachable(g, o) && o in g.heap && !g.heap[o].Table? && Storable(g.heap[o], i) && Accessible(g, v)
    case StackSet(t, i, v) => Reachable(g, t) && IsThread(g, t) && i <= |g.heap[t].stack| && Accessible(g, v)
    case StackPop(t, n) =>
      Reachable(g, t) && IsThread(g, t) && n <= |g.heap[t].stack| && forall u :: OpenFor(g.heap, u, t) ==> SlotOf(g.heap, u) < n
    case Capture(t, slot) => Reachable(g, t) && IsThread(g, t) && slot < |g.heap[t].stack|
    case UpvalSet(u, v) => Reachable(g, u) && IsUpval(g, u) && Accessible(g, v)
    case CloseFrom(t, _) => Reachable(g, t) && IsThread(g, t)
    case BasicMetatable(i, v) => i < |g.mt| && Accessible(g, v)
    case Resume(t) => Reachable(g, t) && IsThread(g, t)
    case Hold(o) => Reachable(g, o)
    case ResizeTable(size) => size > 0
    case CollectorStep => true
    case CollectAll => true
  }

  predicate IsCollection(e: Event) { e.CollectorStep? || e.CollectAll? }

  /** Where a new object goes: userdata right after the main thread, everything else at the head. */
  ghost function LinkPosition(g: Gc, x: Object): (k: nat)
    requires g.mainthread in g.rootgc
    ensures k <= |g.rootgc|
  {
    if x.Udata? then
      var i :| 0 <= i < |g.rootgc| && g.rootgc[i] == g.mainthread;
      i + 1
    else 0
  }

  lemma MainIsListed(g: Gc)
    requires Inv(g)
    ensures g.mainthread in g.rootgc
  {
    hide StringTable, OpenUpvals, Colours, LiveClosed, PhaseOk;
    assert Rooted(g.heap, g.mainthread);
  }

  lemma CaptureReady(g: Gc, t: Ref, slot: nat)
    requires Inv(g) && IsThread(g, t) && slot < |g.heap[t].stack| && Reachable(g, t)
    ensures HasUpval(g, t, slot) ==> UpvalAt(g, t, slot) in g.marked
  {
    hide Shape, PhaseOk, HasUpval;
    ReachableIsLive(g);
    if HasUpval(g, t, slot) { FoundUpval(g, t, slot); }
  }

  ghost function Apply(g: Gc, e: Event): Gc
    requires Inv(g)
  {
    hide Inv, Reachable, HasUpval, Accessible;
    if !Enabled(g, e) then g else
    InvParts(g);
    InvTable(g);
    match e
    case Create(x) => MainIsListed(g); NewObject(g, LinkPosition(g, x), x)
    case Newlstr(text) => Intern(g, text)
    case TableSet(t, i, v) => TableStore(g, t, i, v)
    case FieldSet(o, i, v) => FieldStore(g, o, i, v)
    case StackSet(t, i, v) => StackStore(g, t, i, v)
    case StackPop(t, n) => StackCut(g, t, n)
    case Capture(t, slot) => CaptureReady(g, t, slot); FindUpval(g, t, slot)
    case UpvalSet(u, v) => SetUpval(g, u, v)
    case CloseFrom(t, level) => CloseUpvals(g, t, level)
    case BasicMetatable(i, v) => g.(mt := g.mt[i := v])
    case Resume(t) => g.(running := t)
    case Hold(o) => g.(held := g.held + {o})
    case ResizeTable(size) => ResizeStrings(g, size)
    case CollectorStep => SingleStep(g)
    case CollectAll => FullGc(g)
  }

  lemma InvLiveClosed(g: Gc)
    requires Inv(g)
    ensures LiveClosed(g) && forall o :: Reachable(g, o) ==> LiveRef(g, o)
  {
    hide Shape, PhaseOk, LiveClosed;
    ReachableIsLive(g);
  }

  /** Every event keeps the invariant. */
  lemma ApplyKeeps(g: Gc, e: Event)
    requires Inv(g)
    ensures Inv(Apply(g, e))
  {
    hide Inv, Reachable, HasUpval, LiveClosed, LiveRef, NewObject, Intern, TableStore, FieldStore, FindUpval, SetUpval,
         CloseUpvals, ResizeStrings, SingleStep, FullGc, OpenFor, SlotOf;
    if Enabled(g, e) {
      InvParts(g);
      InvTable(g);
      InvLiveClosed(g);
      match e
      case Create(x) => MainIsListed(g); NewObjectKeeps(g, LinkPosition(g, x), x);
      case Newlstr(text) => InternKeeps(g, text);
      case TableSet(t, i, v) => TableStoreKeeps(g, t, i, v);
      case FieldSet(o, i, v) => FieldStoreKeeps(g, o, i, v);
      case StackSet(t, i, v) => StackStoreKeeps(g, t, i, v);
      case StackPop(t, n) => StackCutKeeps(g, t, n);
      case Capture(t, slot) => CaptureReady(g, t, slot); FindUpvalKeeps(g, t, slot);
      case UpvalSet(u, v) => SetUpvalKeeps(g, u, v);
      case CloseFrom(t, level) => CloseKeeps(g, t, level);
      case BasicMetatable(i, v) => MetatableRoots(g, i, v); RootsChangeKeeps(g, g.(mt := g.mt[i := v]));
      case Resume(t) => RootsChangeKeeps(g, g.(running := t));
      case Hold(o) => RootsChangeKeeps(g, g.(held := g.held + {o}));
      case ResizeTable(size) => ResizeKeeps(g, size);
      case CollectorStep => SingleStepKeeps(g);
      case CollectAll => FullGcCollectsExactly(g);
    }
  }

  lemma MetatableRoots(g: Gc, i: nat, v: Value)
    requires i < |g.mt| && (v.Obj? ==> LiveRef(g, v.ref))
    ensures forall o :: IsRoot(g.(mt := g.mt[i := v]), o) ==> IsRoot(g, o) || LiveRef(g, o)
  {
    var r := g.(mt := g.mt[i := v]);
    forall o | IsRoot(r, o) ensures IsRoot(g, o) || LiveRef(g, o) {
      if Obj(o) in r.mt {
        var k :| 0 <= k < |r.mt| && r.mt[k] == Obj(o);
        if k != i { assert g.mt[k] == Obj(o); }
      }
    }
  }

  /** What an event must not free: everything the program can still get at.  At a collection, references
      that exist only in C locals do not count. */
  ghost predicate Protected(g: Gc, e: Event, o: Ref) {
    Reachable(if IsCollection(e) then Release(g) else g, o)
  }

  lemma ResurrectHeap(g: Gc, o: Ref)
    requires o in g.marked
    ensures Resurrect(g, o).heap == g.heap
  {}

  lemma BarrierHeap(g: Gc, o: Ref, v: Ref)
    requires g.marked.Keys == g.heap.Keys && o in g.marked && White(g, v)
    ensures BarrierForward(g, o, v).heap == g.heap
  {}

  lemma FieldStoreKeys(g: Gc, o: Ref, i: nat, v: Value)
    requires g.marked.Keys == g.heap.Keys && o in g.heap && !g.heap[o].Table? && Storable(g.heap[o], i)
    ensures g.heap.Keys <= FieldStore(g, o, i, v).heap.Keys
  {
    hide BarrierForward;
    var g1 := WithObject(g, o, SetField(g.heap[o], i, v));
    if v.Obj? && White(g, v.ref) && Black(g, o) { BarrierHeap(g1, o, v.ref); }
  }

  lemma KeysGrow(g: Gc, e: Event)
    requires Inv(g) && !IsCollection(e) && !e.CloseFrom?
    ensures g.heap.Keys <= Apply(g, e).heap.Keys
  {
    hide Inv, Reachable, HasUpval, Resurrect, Above, FieldStore, Interned;
    InvParts(g);
    InvTable(g);
    if Enabled(g, e) {
      match e
      case Newlstr(text) =>
        if Interned(g, text) { InternedInHeap(g, text); ResurrectHeap(g, StringNamed(g, text)); }
      case FieldSet(o, i, v) => FieldStoreKeys(g, o, i, v);
      case UpvalSet(u, v) => if g.heap[u].ClosedUpval? { FieldStoreKeys(g, u, 0, v); }
      case Capture(t, slot) =>
        CaptureReady(g, t, slot);
        if HasUpval(g, t, slot) { ResurrectHeap(g, UpvalAt(g, t, slot)); }
      case _ =>
    }
  }

  /** No event frees an object the program can still reach. */
  lemma NothingReachableIsFreed(g: Gc, e: Event, o: Ref)
    requires Inv(g) && Protected(g, e, o)
    ensures o in g.heap && o in Apply(g, e).heap
    ensures IsCollection(e) ==> Content(Apply(g, e).heap, o) == Content(g.heap, o)
  {
    hide Inv, Reachable, HasUpval, SingleStep, FullGc;
    InvLiveClosed(g);
    InvParts(g);
    match e
    case CollectorStep => SingleStepKeeps(g);
    case CollectAll => FullGcCollectsExactly(g); FullGcShrinks(g); ReleaseKeeps(g);
    case CloseFrom(t, level) => if Enabled(g, e) { CloseKeeps(g, t, level); assert LiveRef(g, o); }
    case _ => KeysGrow(g, e);
  }

  // ---------- runs ----------

  ghost function Run(g: Gc, events: seq<Event>): (r: Gc)
    requires Inv(g)
    ensures Inv(r)
    decreases |events|
  {
    hide Inv, Apply;
    if events == [] then g
    else
      ApplyKeeps(g, events[0]);
      Run(Apply(g, events[0]), events[1..])
  }

  /** The state `lua_newstate` leaves (lstate.c:143-190): the main thread, its globals and the registry. */
  ghost function Initial(hash: string -> nat): Gc {
    Gc(heap := map[0 := Thread(Obj(1), [Plain], []), 1 := Table([]), 2 := Table([])],
       marked := map[0 := Mark(true, false, false, true), 1 := LuaCWhite(false), 2 := LuaCWhite(false)],
       currentwhite := false, phase := Pause, gray := [], grayagain := [],
       rootgc := [2, 1, 0], sweepgc := 0,
       hash := hash, strt := seq(32, _ => []), sweepstrgc := 0,
       uvhead := [], mainthread := 0, running := 0, registry := Obj(2),
       mt := seq(9, _ => Plain), held := {}, next := 3)
  }

  lemma InitialShape(hash: string -> nat)
    ensures Shape(Initial(hash))
  {
    var g := Initial(hash);
    assert forall o :: o in g.heap <==> o == 0 || o == 1 || o == 2;
    assert g.rootgc[0] == 2 && g.rootgc[1] == 1 && g.rootgc[2] == 0;
    assert StringTable(g) by {
      assert forall o :: TextOf(g.heap, o) == None;
    }
    assert OpenUpvals(g) by {
      forall t | ListOf(g.heap, t).Some? ensures OpenList(g.heap, t, ListOf(g.heap, t).value) {
        assert ListOf(g.heap, t).value == [];
      }
    }
  }

  lemma InitialLive(hash: string -> nat)
    ensures LiveClosed(Initial(hash))
  {
    var g := Initial(hash);
    assert Content(g.heap, 0) == [Obj(1), Plain] && Content(g.heap, 1) == [] && Content(g.heap, 2) == [];
    forall o, c | LiveRef(g, o) && Points(g.heap, o, c) ensures LiveRef(g, c) {
      assert o == 0 && c == 1;
    }
  }

  lemma InitialInv(hash: string -> nat)
    ensures Inv(Initial(hash))
  {
    hide Shape, LiveClosed;
    InitialShape(hash);
    InitialLive(hash);
  }

  /** Safety over every run: at every point, everything reachable exists, is not dead, and survives the
      next event. */
  lemma RunsAreSafe(hash: string -> nat, events: seq<Event>, e: Event)
    ensures Inv(Initial(hash))
    ensures var g := Run(Initial(hash), events);
            && (forall o :: Reachable(g, o) ==> o in g.heap && !Dead(g, o))
            && (forall o :: Protected(g, e, o) ==> o in Apply(g, e).heap)
  {
    hide Inv, Reachable, Apply, Initial;
    InitialInv(hash);
    var g := Run(Initial(hash), events);
    InvLiveClosed(g);
    forall o | Reachable(g, o) ensures o in g.heap && !Dead(g, o) { assert LiveRef(g, o); }
    forall o | Protected(g, e, o) ensures o in Apply(g, e).heap { NothingReachableIsFreed(g, e, o); }
  }
}
