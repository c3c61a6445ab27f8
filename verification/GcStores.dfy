/**
  What the events of the program write: the value is where it was stored, everything else is as it was, and what was
  stored in a reachable object can be reached through it and outlives the next collection.
  */
module GcStores {
  import opened GcState
  import opened GcInvariant
  import opened GcUpval
  import opened GcCollector
  import opened GcFullCycle
  import opened GcMutator
  import opened GcIntern
  import opened GcFindUpval
  import opened GcRuns
  import LastWrite = GcLastWrite

  /** `s'` is `s` with `v` at position `i`, which may be the first one behind the end. */
  ghost predicate Puts(s: seq<Value>, s': seq<Value>, i: nat, v: Value) {
    && i < |s'| && s'[i] == v
    && |s'| == (if i < |s| then |s| else i + 1)
    && forall k | 0 <= k < |s| && k != i :: k < |s'| && s'[k] == s[k]
  }

  /** No object but `o` is touched. */
  ghost predicate OnlyIn(g: Gc, r: Gc, o: Ref) {
    && r.heap.Keys == g.heap.Keys
    && forall x :: x in g.heap && x != o ==> r.heap[x] == g.heap[x] && Content(r.heap, x) == Content(g.heap, x)
  }

  ghost predicate SameRoots(g: Gc, r: Gc) {
    r.mainthread == g.mainthread && r.running == g.running && r.registry == g.registry && r.mt == g.mt && r.held == g.held
  }

  /** What an object holds, by its kind. */
  lemma PointsMeans(h: map<Ref, Object>, o: Ref, c: Ref)
    requires o in h
    ensures h[o].Str? ==> !Points(h, o, c)
    ensures h[o].Udata? ==> (Points(h, o, c) <==> h[o].metatable == Obj(c) || h[o].env == Obj(c))
    ensures h[o].Func? || h[o].Table? || h[o].Proto? ==> (Points(h, o, c) <==> Obj(c) in h[o].fields)
    ensures h[o].ClosedUpval? ==> (Points(h, o, c) <==> h[o].value == Obj(c))
    ensures h[o].Thread? ==> (Points(h, o, c) <==> h[o].globals == Obj(c) || Obj(c) in h[o].stack)
    ensures h[o].OpenUpval? ==>
      var t := h[o].thread;
      (Points(h, o, c) <==> t in h && h[t].Thread? && h[o].slot < |h[t].stack| && h[t].stack[h[o].slot] == Obj(c))
  {}

  // ---------- stores in tables and other objects ----------

  lemma FieldPuts(g: Gc, o: Ref, i: nat, v: Value)
    requires o in g.heap && Storable(g.heap[o], i)
    ensures var r := WithObject(g, o, SetField(g.heap[o], i, v));
      Puts(Content(g.heap, o), Content(r.heap, o), i, v) && SameKind(g.heap[o], r.heap[o]) && OnlyIn(g, r, o)
  {
    FieldHeap(g, o, i, v);
    FieldOthers(g, o, i, v);
  }

  /** A path does not need an object twice: there is one to `o` that comes to it at its end only. */
  lemma {:induction false} FirstTime(g: Gc, p: seq<Ref>, o: Ref) returns (q: seq<Ref>)
    requires IsPath(g, p) && p[|p| - 1] == o
    ensures IsPath(g, q) && q[|q| - 1] == o && forall k | 0 <= k < |q| - 1 :: q[k] != o
    decreases |p|
  {
    if j :| 0 <= j < |p| - 1 && p[j] == o {
      q := FirstTime(g, p[..j + 1], o);
    } else {
      q := p;
    }
  }

  /** Changing an object does not cut it off. */
  lemma StillReachable(g: Gc, r: Gc, o: Ref)
    requires Reachable(g, o) && OnlyIn(g, r, o) && forall x :: IsRoot(g, x) ==> IsRoot(r, x)
    ensures Reachable(r, o)
  {
    var p :| IsPath(g, p) && p[|p| - 1] == o;
    var q := FirstTime(g, p, o);
    forall k | 0 <= k < |q| - 1 ensures Points(r.heap, q[k], q[k + 1]) {
      assert Points(g.heap, q[k], q[k + 1]) && q[k] != o;
    }
    assert IsPath(r, q);
  }

  lemma StoredPoints(r: Gc, o: Ref, s: seq<Value>, i: nat, v: Value)
    requires o in r.heap && Puts(s, Content(r.heap, o), i, v)
    ensures v.Obj? ==> Points(r.heap, o, v.ref)
  {
    assert Content(r.heap, o)[i] == v;
  }

  lemma StoredReachable(g: Gc, r: Gc, o: Ref, i: nat, v: Value)
    requires o in g.heap && OnlyIn(g, r, o) && SameRoots(g, r) && Puts(Content(g.heap, o), Content(r.heap, o), i, v)
    ensures Reachable(g, o) ==> Reachable(r, o) && (v.Obj? ==> Reachable(r, v.ref))
  {
    hide Content, Reachable, Puts;
    if Reachable(g, o) {
      StillReachable(g, r, o);
      StoredPoints(r, o, Content(g.heap, o), i, v);
      if v.Obj? { PointeeIsReachable(r, o, v.ref); }
    }
  }

  /** `v` is field `i` of `o` now, and nothing else has changed. */
  ghost predicate Stored(g: Gc, r: Gc, o: Ref, i: nat, v: Value) {
    && o in g.heap && OnlyIn(g, r, o) && SameRoots(g, r)
    && SameKind(g.heap[o], r.heap[o]) && Puts(Content(g.heap, o), Content(r.heap, o), i, v)
    && (Reachable(g, o) ==> Reachable(r, o) && (v.Obj? ==> Reachable(r, v.ref)))
  }

  lemma TableStoreWrites(g: Gc, t: Ref, i: nat, v: Value)
    requires g.marked.Keys == g.heap.Keys && t in g.heap && g.heap[t].Table? && i <= |g.heap[t].fields|
    ensures Storable(g.heap[t], i) && Stored(g, TableStore(g, t, i, v), t, i, v)
  {
    hide Content, Reachable, SameKind, Puts;
    FieldPuts(g, t, i, v);
    var r := TableStore(g, t, i, v);
    assert r.heap == WithObject(g, t, SetField(g.heap[t], i, v)).heap;
    hide SetField, TableStore;
    StoredReachable(g, r, t, i, v);
  }

  lemma FieldStoreWrites(g: Gc, o: Ref, i: nat, v: Value)
    requires g.marked.Keys == g.heap.Keys && o in g.heap && !g.heap[o].Table? && Storable(g.heap[o], i)
    ensures Stored(g, FieldStore(g, o, i, v), o, i, v)
  {
    hide Content, Reachable, SameKind, Puts, BarrierForward;
    FieldPuts(g, o, i, v);
    LastWrite.FieldStoreHeap(g, o, i, v);
    var r := FieldStore(g, o, i, v);
    var g1 := WithObject(g, o, SetField(g.heap[o], i, v));
    if v.Obj? && White(g, v.ref) && Black(g, o) { BarrierRoots(g1, o, v.ref); }
    hide SetField, FieldStore;
    StoredReachable(g, r, o, i, v);
  }

  lemma BarrierRoots(g: Gc, o: Ref, v: Ref)
    requires g.marked.Keys == g.heap.Keys && o in g.marked && White(g, v)
    ensures SameRoots(g, BarrierForward(g, o, v))
  {}

  /** Which objects a store can be made in, and where: in every field, and one behind the last of those that grow. */
  lemma StorableMeans(g: Gc, o: Ref, i: nat)
    requires o in g.heap
    ensures Storable(g.heap[o], i) <==>
            var n := |Content(g.heap, o)|; var x := g.heap[o];
            if x.Table? || x.Func? || x.Proto? then i <= n else (x.Udata? || x.ClosedUpval?) && i < n
  {}

  // ---------- stacks ----------

  /** Only the stack of `t` is touched, and with it what the open upvalues of `t` hold. */
  ghost predicate OnlyStack(g: Gc, r: Gc, t: Ref) {
    && r.heap.Keys == g.heap.Keys && t in g.heap && g.heap[t].Thread?
    && r.heap[t].Thread? && r.heap[t].globals == g.heap[t].globals && r.heap[t].openupval == g.heap[t].openupval
    && forall x :: x in g.heap && x != t ==> r.heap[x] == g.heap[x]
  }

  /** `v` is in slot `i` of the stack of `t` now, and nothing else has changed. */
  ghost predicate StackStored(g: Gc, r: Gc, t: Ref, i: nat, v: Value) {
    && OnlyStack(g, r, t) && SameRoots(g, r) && Puts(g.heap[t].stack, r.heap[t].stack, i, v)
    && Content(r.heap, t) == [g.heap[t].globals] + r.heap[t].stack
    && (Reachable(r, t) && v.Obj? ==> Reachable(r, v.ref)) && (IsRoot(g, t) ==> Reachable(r, t))
  }

  lemma StackStoreWrites(g: Gc, t: Ref, i: nat, v: Value)
    requires IsThread(g, t) && i <= |g.heap[t].stack|
    ensures StackStored(g, StackStore(g, t, i, v), t, i, v)
  {
    hide Reachable;
    var r := StackStore(g, t, i, v);
    if v.Obj? {
      assert Content(r.heap, t)[i + 1] == v;
      if Reachable(r, t) { PointeeIsReachable(r, t, v.ref); }
    }
    if IsRoot(g, t) { RootIsReachable(r, t); }
  }

  /** The stack of `t` has its first `n` slots only. */
  ghost predicate Popped(g: Gc, r: Gc, t: Ref, n: nat) {
    && OnlyStack(g, r, t) && SameRoots(g, r) && n <= |g.heap[t].stack|
    && |r.heap[t].stack| == n && forall k | 0 <= k < n :: r.heap[t].stack[k] == g.heap[t].stack[k]
  }

  lemma StackCutWrites(g: Gc, t: Ref, n: nat)
    requires IsThread(g, t) && n <= |g.heap[t].stack|
    ensures Popped(g, StackCut(g, t, n), t, n)
  {}

  // ---------- new objects ----------

  /** There is a new object `o`; everything else is as it was. */
  ghost predicate Adds(g: Gc, r: Gc, o: Ref) {
    && o !in g.heap && r.heap.Keys == g.heap.Keys + {o}
    && (forall x :: x in g.heap ==> Content(r.heap, x) == Content(g.heap, x))
    && CurrentWhite(r, o) && Reachable(r, o) && forall x :: Reachable(g, x) ==> Reachable(r, x)
  }

  lemma {:induction false} PathGrows(g: Gc, r: Gc, p: seq<Ref>)
    requires IsPath(g, p) && (forall x :: IsRoot(g, x) ==> IsRoot(r, x))
    requires forall x, c :: Points(g.heap, x, c) ==> Points(r.heap, x, c)
    ensures IsPath(r, p)
  {
    hide Points;
  }

  lemma ReachGrows(g: Gc, r: Gc)
    requires (forall x :: IsRoot(g, x) ==> IsRoot(r, x)) && (forall x :: x in g.heap ==> x in r.heap && Content(r.heap, x) == Content(g.heap, x))
    ensures forall x :: Reachable(g, x) ==> Reachable(r, x)
  {
    hide Content;
    forall x | Reachable(g, x) ensures Reachable(r, x) {
      var p :| IsPath(g, p) && p[|p| - 1] == x;
      PathGrows(g, r, p);
    }
  }

  lemma NewObjectWrites(g: Gc, k: nat, x: Object)
    requires Inv(g) && k <= |g.rootgc| && InRootList(x)
    ensures var r := NewObject(g, k, x); Adds(g, r, g.next) && r.heap[g.next] == x
  {
    hide StringTable, OpenUpvals, RootList, Colours, LiveClosed, PhaseOk, Content, Reachable;
    FreshRef(g);
    var r := NewObject(g, k, x);
    GrownContent(g, g.next, x, r);
    ReachGrows(g, r);
    RootIsReachable(r, g.next);
  }

  // ---------- strings and upvalues ----------

  /** There is an object for the text that the program can reach, and everything else is as it was. */
  ghost predicate HasString(g: Gc, r: Gc, text: string) {
    && (forall x :: x in g.heap ==> x in r.heap && Content(r.heap, x) == Content(g.heap, x))
    && exists o :: TextOf(r.heap, o) == Some(text) && Reachable(r, o)
  }

  lemma InternWrites(g: Gc, text: string)
    requires Inv(g)
    ensures g.marked.Keys == g.heap.Keys && |g.strt| > 0 && HasString(g, Intern(g, text), text)
  {
    hide Inv, Interned, NewString, Resurrect, Content, Reachable;
    InvParts(g);
    InvTable(g);
    var r := Intern(g, text);
    if Interned(g, text) {
      var o := StringNamed(g, text);
      InternedInHeap(g, text);
      ResurrectSame(g, o);
      RootIsReachable(r, o);
    } else {
      NewStringWrites(g, text);
      RootIsReachable(r, g.next);
    }
  }

  lemma NewStringWrites(g: Gc, text: string)
    requires Inv(g) && |g.strt| > 0
    ensures var r := NewString(g, text);
      && (forall x :: x in g.heap ==> x in r.heap && Content(r.heap, x) == Content(g.heap, x))
      && TextOf(r.heap, g.next) == Some(text) && IsRoot(r, g.next)
  {
    hide StringTable, OpenUpvals, RootList, Colours, LiveClosed, PhaseOk, Content;
    FreshRef(g);
    GrownContent(g, g.next, Str(text), NewString(g, text));
  }

  /** The slot has an open upvalue that the program can reach, and no object holds anything else than before. */
  ghost predicate Captured(g: Gc, r: Gc, t: Ref, slot: nat) {
    && (forall x :: x in g.heap ==> x in r.heap && Content(r.heap, x) == Content(g.heap, x))
    && exists u :: UpvalOf(r.heap, u) == At(t, slot) && Reachable(r, u)
  }

  lemma CaptureWrites(g: Gc, t: Ref, slot: nat)
    requires Inv(g) && IsThread(g, t) && slot < |g.heap[t].stack| && Reachable(g, t)
    ensures g.marked.Keys == g.heap.Keys && (HasUpval(g, t, slot) ==> UpvalAt(g, t, slot) in g.marked)
    ensures Captured(g, FindUpval(g, t, slot), t, slot)
  {
    hide Inv, HasUpval, NewUpval, Resurrect, Content, Reachable, UpvalAt, OpenUpvals, Basics, LiveClosed, LiveRef;
    InvParts(g);
    LastWrite.InvUpvals(g);
    InvLiveClosed(g);
    CaptureReady(g, t, slot);
    FindUpvalKeeps(g, t, slot);
    var r := FindUpval(g, t, slot);
    var u :| u in r.held && UpvalOf(r.heap, u) == At(t, slot) && LiveRef(r, u);
    RootIsReachable(r, u);
    if HasUpval(g, t, slot) {
      ResurrectHeap(g, UpvalAt(g, t, slot));
    } else {
      FreshRef(g);
      NewUpvalIn(g, t, slot);
      NewUpvalContent(g, t, slot);
    }
  }

  lemma NewUpvalIn(g: Gc, t: Ref, slot: nat)
    requires IsThread(g, t)
    ensures g.heap.Keys <= NewUpval(g, t, slot).heap.Keys
  {}

  /** An upvalue that is open for a slot of `t` from `level` on. */
  ghost predicate OpenFrom(h: map<Ref, Object>, t: Ref, level: nat, x: Ref) {
    x in h && h[x].OpenUpval? && h[x].thread == t && h[x].slot >= level
  }

  ghost predicate ClosedValue(h: map<Ref, Object>, x: Ref, y: Object)
    requires x in h && h[x].OpenUpval?
  {
    OnStack(h, h[x].thread, h[x].slot) && y == ClosedUpval(h[h[x].thread].stack[h[x].slot])
  }

  lemma CloseOneEach(g: Gc, t: Ref, level: nat, x: Ref)
    requires g.marked.Keys == g.heap.Keys && HasOpen(g, t, level) && x in g.heap && x != t
    ensures var u, h := g.heap[t].openupval[0], CloseOne(g, t).heap;
      && OpenFrom(g.heap, t, level, u) && u != t
      && (x != u ==> x in h && h[x] == g.heap[x]) && (x == u && x in h ==> ClosedValue(g.heap, x, h[x]))
  {}

  /** Closing leaves all other objects as they are, and an upvalue that it closes holds the value of its slot. */
  lemma {:induction false} CloseEach(g: Gc, t: Ref, level: nat, x: Ref)
    requires g.marked.Keys == g.heap.Keys && x in g.heap && x != t
    ensures var h := CloseUpvals(g, t, level).heap;
      && (!OpenFrom(g.heap, t, level, x) ==> x in h && h[x] == g.heap[x])
      && (OpenFrom(g.heap, t, level, x) && x in h ==> h[x] == g.heap[x] || ClosedValue(g.heap, x, h[x]))
    decreases if t in g.heap && g.heap[t].Thread? then |g.heap[t].openupval| else 0
  {
    if HasOpen(g, t, level) {
      CloseOneShape(g, t);
      CloseOneEach(g, t, level, x);
      var r := CloseOne(g, t);
      if x in r.heap {
        hide CloseOne, HasOpen;
        CloseEach(r, t, level, x);
      } else {
        hide CloseOne, HasOpen;
        CloseAddsNone(r, t, level, x);
      }
    }
  }

  lemma {:induction false} CloseAddsNone(g: Gc, t: Ref, level: nat, x: Ref)
    requires g.marked.Keys == g.heap.Keys && x !in g.heap
    ensures x !in CloseUpvals(g, t, level).heap
    decreases if t in g.heap && g.heap[t].Thread? then |g.heap[t].openupval| else 0
  {
    if HasOpen(g, t, level) {
      CloseOneShape(g, t);
      assert x !in CloseOne(g, t).heap;
      hide CloseOne, HasOpen;
      CloseAddsNone(CloseOne(g, t), t, level, x);
    }
  }

  /** An upvalue of `t` from `level` on is closed, with the value of its slot, if it is not freed; any other object is as
      it was, upvalues that stay open included. */
  ghost predicate ClosedAt(h: map<Ref, Object>, h': map<Ref, Object>, t: Ref, level: nat, x: Ref) {
    if OpenFrom(h, t, level, x) then x in h' ==> ClosedValue(h, x, h'[x])
    else x in h ==> x in h' && h'[x] == h[x]
  }

  /** That is so of all objects; none that is not dead is freed. */
  ghost predicate ClosedFrom(g: Gc, r: Gc, t: Ref, level: nat)
    requires t in g.heap && g.heap[t].Thread?
  {
    && (forall x :: x in g.heap && x != t ==> ClosedAt(g.heap, r.heap, t, level, x))
    && (forall x :: LiveRef(g, x) ==> x in r.heap && Content(r.heap, x) == Content(g.heap, x))
    && t in r.heap && r.heap[t].Thread? && r.heap[t] == g.heap[t].(openupval := r.heap[t].openupval)
    && SameRoots(g, r)
  }

  lemma CloseWrites(g: Gc, t: Ref, level: nat)
    requires Inv(g) && IsThread(g, t)
    ensures g.marked.Keys == g.heap.Keys && ClosedFrom(g, CloseUpvals(g, t, level), t, level)
  {
    InvParts(g);
    hide Inv, Content, CloseUpvals, ClosedAt, LiveRef;
    CloseLeaves(g, t, level);
    forall x | x in g.heap && x != t ensures ClosedAt(g.heap, CloseUpvals(g, t, level).heap, t, level, x) {
      CloseEachIs(g, t, level, x);
    }
  }

  lemma CloseLeaves(g: Gc, t: Ref, level: nat)
    requires Inv(g) && IsThread(g, t) && g.marked.Keys == g.heap.Keys
    ensures var r := CloseUpvals(g, t, level);
      && (forall x :: LiveRef(g, x) ==> x in r.heap && Content(r.heap, x) == Content(g.heap, x))
      && t in r.heap && r.heap[t].Thread? && r.heap[t] == g.heap[t].(openupval := r.heap[t].openupval)
      && SameRoots(g, r)
  {
    hide Inv, Content, DeadStays, CloseUpvals, OpenFor, SlotOf;
    CloseKeeps(g, t, level);
  }

  lemma CloseEachIs(g: Gc, t: Ref, level: nat, x: Ref)
    requires Inv(g) && IsThread(g, t) && g.marked.Keys == g.heap.Keys && x in g.heap && x != t
    ensures ClosedAt(g.heap, CloseUpvals(g, t, level).heap, t, level, x)
  {
    hide Inv, Content, DeadStays, Preserves, CloseUpvals, ClosedValue, OpenFor, SlotOf;
    LastWrite.InvUpvals(g);
    CloseKeeps(g, t, level);
    CloseEach(g, t, level, x);
    var r := CloseUpvals(g, t, level);
    if OpenFrom(g.heap, t, level, x) && x in r.heap && r.heap[x] == g.heap[x] {
      StillOpen(g, r, t, level, x);
    }
  }

  lemma StillOpen(g: Gc, r: Gc, t: Ref, level: nat, x: Ref)
    requires OpenUpvals(g) && OpenFrom(g.heap, t, level, x) && x in r.heap && r.heap[x] == g.heap[x]
    requires t in g.heap && g.heap[t].Thread? && t in r.heap && r.heap[t].Thread?
    requires r.heap[t] == g.heap[t].(openupval := r.heap[t].openupval)
    ensures OpenFor(r.heap, x, t) && SlotOf(r.heap, x) >= level
  {
    assert UpvalOf(g.heap, x).At?;
  }

  /** The variable of the upvalue `u` is `v`, and no other one has changed. */
  ghost predicate Assigned(g: Gc, r: Gc, u: Ref, v: Value)
    requires IsUpval(g, u)
  {
    && LastWrite.Holds(r.heap, u, [v]) && SameRoots(g, r)
    && (forall w :: LastWrite.IsVar(g.heap, w) && w != u ==> LastWrite.Holds(r.heap, w, Content(g.heap, w)))
    && if g.heap[u].ClosedUpval? then OnlyIn(g, r, u)
       else StackStored(g, r, g.heap[u].thread, g.heap[u].slot, v)
  }

  lemma SetUpvalWrites(g: Gc, u: Ref, v: Value)
    requires Inv(g) && IsUpval(g, u)
    ensures g.marked.Keys == g.heap.Keys && Assigned(g, SetUpval(g, u, v), u, v)
  {
    InvParts(g);
    hide Inv, Content, LastWrite.Holds, StackStored, Puts, SameKind, Reachable, FieldStore, StackStore;
    LastWrite.UpvalReadsWrite(g, u, v);
    if g.heap[u].ClosedUpval? {
      FieldStoreWrites(g, u, 0, v);
    } else {
      StackStoreWrites(g, g.heap[u].thread, g.heap[u].slot, v);
      SlotRoots(g, g.heap[u].thread, g.heap[u].slot, v);
    }
  }

  lemma SlotRoots(g: Gc, t: Ref, i: nat, v: Value)
    requires IsThread(g, t) && i <= |g.heap[t].stack|
    ensures SameRoots(g, StackStore(g, t, i, v))
  {}

  // ---------- all events ----------

  /** What an event does to the heap and the roots. */
  ghost predicate Does(g: Gc, e: Event, r: Gc)
    requires Enabled(g, e)
  {
    match e
    case Create(x) => Adds(g, r, g.next) && r.heap[g.next] == x
    case Newlstr(text) => HasString(g, r, text)
    case TableSet(t, i, v) => Stored(g, r, t, i, v)
    case FieldSet(o, i, v) => Stored(g, r, o, i, v)
    case StackSet(t, i, v) => StackStored(g, r, t, i, v)
    case StackPop(t, n) => Popped(g, r, t, n)
    case Capture(t, slot) => Captured(g, r, t, slot)
    case UpvalSet(u, v) => Assigned(g, r, u, v)
    case CloseFrom(t, level) => ClosedFrom(g, r, t, level)
    case BasicMetatable(i, v) => r.heap == g.heap && Puts(g.mt, r.mt, i, v) && SameRoots(g, r.(mt := g.mt))
    case Resume(t) => r.heap == g.heap && r.running == t && SameRoots(g, r.(running := g.running))
    case Hold(o) => r.heap == g.heap && o in r.held && SameRoots(g, r.(held := g.held)) && g.held <= r.held
    case ResizeTable(size) => r.heap == g.heap && SameRoots(g, r) && |r.strt| == if g.phase.SweepString? then |g.strt| else size
    case CollectorStep => KeepsReachable(g, r)
    case CollectAll => KeepsReachable(g, r)
  }

  /** Every event that can happen does what it says. */
  lemma EventWrites(g: Gc, e: Event)
    requires Inv(g) && Enabled(g, e)
    ensures Does(g, e, Apply(g, e))
  {
    hide Inv, Reachable, HasUpval, LiveClosed, LiveRef, NewObject, Intern, TableStore, FieldStore, StackStore, StackCut,
         FindUpval, SetUpval, CloseUpvals, SingleStep, FullGc, OpenFor, SlotOf, UpvalOf, OpenUpvals,
         Adds, HasString, Stored, StackStored, Popped, Captured, Assigned, ClosedFrom, KeepsReachable;
    InvParts(g);
    InvTable(g);
    match e
    case Create(x) => MainIsListed(g); NewObjectWrites(g, LinkPosition(g, x), x);
    case Newlstr(text) => InternWrites(g, text);
    case TableSet(t, i, v) => TableStoreWrites(g, t, i, v);
    case FieldSet(o, i, v) => FieldStoreWrites(g, o, i, v);
    case StackSet(t, i, v) => StackStoreWrites(g, t, i, v);
    case StackPop(t, n) => StackCutWrites(g, t, n);
    case Capture(t, slot) => CaptureWrites(g, t, slot);
    case UpvalSet(u, v) => SetUpvalWrites(g, u, v);
    case CloseFrom(t, level) => CloseWrites(g, t, level);
    case CollectorStep => SingleStepKeeps(g);
    case CollectAll => FullKeepsReachable(g);
    case ResizeTable(size) => ResizeWrites(g, size);
    case _ =>
  }

  lemma ResizeWrites(g: Gc, size: nat)
    requires size > 0
    ensures var r := ResizeStrings(g, size);
      r.heap == g.heap && SameRoots(g, r) && |r.strt| == if g.phase.SweepString? then |g.strt| else size
  {
    hide NewBucket;
  }

  lemma FullKeepsReachable(g: Gc)
    requires Inv(g)
    ensures KeepsReachable(g, FullGc(g))
  {
    hide Inv, Reachable, FullGc;
    FullGcCollectsExactly(g);
  }

  // ---------- what is stored outlives a collection ----------

  /** A value that is stored in an object of the program is still there after the next collection, and so is the
      object that it refers to. */
  lemma StoredSurvives(g: Gc, t: Ref, i: nat, v: Value)
    requires Inv(g) && t in g.heap && g.heap[t].Table? && i <= |g.heap[t].fields| && Reachable(Release(g), t)
    requires v.Obj? ==> LiveRef(g, v.ref)
    ensures g.marked.Keys == g.heap.Keys && Storable(g.heap[t], i) && Inv(TableStore(g, t, i, v))
    ensures var r := FullGc(TableStore(g, t, i, v));
      t in r.heap && Puts(Content(g.heap, t), Content(r.heap, t), i, v) && (v.Obj? ==> v.ref in r.heap)
  {
    InvParts(g);
    hide Inv, Content, Reachable, Puts, FullGc, TableStore, LiveRef, SameKind;
    TableStoreKeeps(g, t, i, v);
    TableStoreWrites(g, t, i, v);
    var r := TableStore(g, t, i, v);
    StoredReachable(Release(g), Release(r), t, i, v);
    FullGcCollectsExactly(r);
  }
}
