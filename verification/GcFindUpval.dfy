/**
  `luaF_findupval` (lfunc.c:53-79): the one open upvalue of a stack slot, found or created in order.
  */
module GcFindUpval {
  import opened GcState
  import opened GcMark
  import opened GcPropagate
  import opened GcInvariant
  import opened GcUpval
  import opened GcCollector
  import opened GcMutator
  import opened GcIntern

  /** How many of the open upvalues are above `slot`. */
  ghost function Above(h: map<Ref, Object>, us: seq<Ref>, slot: nat): (k: nat)
    ensures k <= |us|
    ensures forall i :: 0 <= i < k ==> SlotOf(h, us[i]) > slot
    ensures k < |us| ==> SlotOf(h, us[k]) <= slot
  {
    if us == [] || SlotOf(h, us[0]) <= slot then 0
    else
      var k := Above(h, us[1..], slot);
      assert forall i :: 0 < i < k + 1 ==> us[i] == us[1..][i - 1];
      k + 1
  }

  ghost predicate IsThread(g: Gc, t: Ref) { t in g.heap && g.heap[t].Thread? }

  ghost predicate HasUpval(g: Gc, t: Ref, slot: nat)
    requires IsThread(g, t)
  {
    var us := g.heap[t].openupval;
    var k := Above(g.heap, us, slot);
    k < |us| && SlotOf(g.heap, us[k]) == slot
  }

  ghost function UpvalAt(g: Gc, t: Ref, slot: nat): Ref
    requires IsThread(g, t) && HasUpval(g, t, slot)
  {
    g.heap[t].openupval[Above(g.heap, g.heap[t].openupval, slot)]
  }

  ghost function NewUpval(g: Gc, t: Ref, slot: nat): Gc
    requires IsThread(g, t)
  {
    var u, us := g.next, g.heap[t].openupval;
    var k := Above(g.heap, us, slot);
    g.(heap := g.heap[t := g.heap[t].(openupval := us[..k] + [u] + us[k..])][u := OpenUpval(t, slot)],
       marked := g.marked[u := LuaCWhite(g.currentwhite)],
       uvhead := [u] + g.uvhead, held := g.held + {u}, next := u + 1)
  }

  ghost function FindUpval(g: Gc, t: Ref, slot: nat): Gc
    requires g.marked.Keys == g.heap.Keys && IsThread(g, t)
    requires HasUpval(g, t, slot) ==> UpvalAt(g, t, slot) in g.marked
  {
    if HasUpval(g, t, slot) then Resurrect(g, UpvalAt(g, t, slot)) else NewUpval(g, t, slot)
  }

  // ---------- a found upvalue ----------

  lemma FoundUpval(g: Gc, t: Ref, slot: nat)
    requires Inv(g) && IsThread(g, t) && HasUpval(g, t, slot) && LiveRef(g, t)
    ensures var u := UpvalAt(g, t, slot);
            && u in g.heap && u in g.marked && UpvalOf(g.heap, u) == At(t, slot)
            && forall c :: Points(g.heap, u, c) ==> LiveRef(g, c)
  {
    hide StringTable, RootList, Colours, PhaseOk;
    var u := UpvalAt(g, t, slot);
    assert ListOf(g.heap, t) == Some(g.heap[t].openupval);
    assert OpenFor(g.heap, u, t);
    forall c | Points(g.heap, u, c) ensures LiveRef(g, c) {
      assert Content(g.heap, u) == [g.heap[t].stack[slot]];
      assert ([g.heap[t].globals] + g.heap[t].stack)[slot + 1] == Obj(c);
      assert Points(g.heap, t, c);
    }
  }

  // ---------- a new upvalue ----------

  lemma NewUpvalHeap(g: Gc, t: Ref, slot: nat)
    requires IsThread(g, t) && g.next !in g.heap
    ensures var h, u, us, k := NewUpval(g, t, slot).heap, g.next, g.heap[t].openupval, Above(g.heap, g.heap[t].openupval, slot);
            && (forall y :: TextOf(h, y) == TextOf(g.heap, y))
            && (forall y :: UpvalOf(h, y) == (if y == u then At(t, slot) else UpvalOf(g.heap, y)))
            && (forall y :: ListOf(h, y) == (if y == t then Some(us[..k] + [u] + us[k..]) else ListOf(g.heap, y)))
            && ListOf(g.heap, t) == Some(us)
            && (forall y :: Depth(h, y) == Depth(g.heap, y))
            && (forall y :: Rooted(h, y) <==> Rooted(g.heap, y))
            && (forall y :: y in g.heap ==> y in h && SameKind(g.heap[y], h[y]))
  {}

  lemma NewUpvalContent(g: Gc, t: Ref, slot: nat)
    requires IsThread(g, t) && g.next !in g.heap && OpenUpvals(g)
    requires slot < |g.heap[t].stack|
    ensures var h := NewUpval(g, t, slot).heap;
            && (forall y :: y in g.heap ==> Content(h, y) == Content(g.heap, y))
            && Content(h, g.next) == [g.heap[t].stack[slot]]
  {
    var h := NewUpval(g, t, slot).heap;
    assert forall y, s :: OnStack(h, y, s) <==> OnStack(g.heap, y, s);
  }

  lemma InsertDecreasing(h: map<Ref, Object>, us: seq<Ref>, k: nat, u: Ref)
    requires Decreasing(h, us) && k <= |us|
    requires forall i :: 0 <= i < k ==> SlotOf(h, us[i]) > SlotOf(h, u)
    requires forall i :: k <= i < |us| ==> SlotOf(h, us[i]) < SlotOf(h, u)
    ensures Decreasing(h, us[..k] + [u] + us[k..])
  {
    hide SlotOf;
    var vs := us[..k] + [u] + us[k..];
    forall i, j | 0 <= i < j < |vs| ensures SlotOf(h, vs[i]) > SlotOf(h, vs[j]) {
      assert vs[i] == if i < k then us[i] else if i == k then u else us[i - 1];
      assert vs[j] == if j < k then us[j] else if j == k then u else us[j - 1];
    }
  }

  lemma SameSlotsDecreasing(h: map<Ref, Object>, h': map<Ref, Object>, us: seq<Ref>)
    requires Decreasing(h, us) && forall x :: x in us ==> SlotOf(h', x) == SlotOf(h, x)
    ensures Decreasing(h', us)
  {
    hide SlotOf;
    forall i, j | 0 <= i < j < |us| ensures SlotOf(h', us[i]) > SlotOf(h', us[j]) {
      assert us[i] in us && us[j] in us;
      assert SlotOf(h, us[i]) > SlotOf(h, us[j]);
    }
  }

  lemma BelowTheRest(h: map<Ref, Object>, us: seq<Ref>, slot: nat)
    requires Decreasing(h, us)
    requires var k := Above(h, us, slot); k < |us| ==> SlotOf(h, us[k]) != slot
    ensures forall i :: Above(h, us, slot) <= i < |us| ==> SlotOf(h, us[i]) < slot
  {
    hide SlotOf;
    var k := Above(h, us, slot);
    forall i | k <= i < |us| ensures SlotOf(h, us[i]) < slot {
      if i > k { assert SlotOf(h, us[k]) > SlotOf(h, us[i]); }
    }
  }

  lemma NewUpvalList(g: Gc, h: map<Ref, Object>, t: Ref, u: Ref, us: seq<Ref>, slot: nat)
    requires OpenList(g.heap, t, us) && u !in us && slot < Depth(g.heap, t)
    requires forall y :: Depth(h, y) == Depth(g.heap, y)
    requires forall y :: UpvalOf(h, y) == (if y == u then At(t, slot) else UpvalOf(g.heap, y))
    requires var k := Above(g.heap, us, slot); k < |us| ==> SlotOf(g.heap, us[k]) != slot
    ensures var k := Above(g.heap, us, slot); OpenList(h, t, us[..k] + [u] + us[k..])
  {
    var k := Above(g.heap, us, slot);
    assert forall x :: x in us ==> SlotOf(h, x) == SlotOf(g.heap, x);
    assert forall x :: x in us ==> OpenFor(h, x, t) by { assert forall x :: x in us ==> OpenFor(g.heap, x, t); }
    assert OpenFor(h, u, t) && SlotOf(h, u) == slot;
    hide UpvalOf, Depth, Decreasing, OpenFor, SlotOf;
    BelowTheRest(g.heap, us, slot);
    SameSlotsDecreasing(g.heap, h, us);
    AboveOther(g.heap, h, us, slot, k);
    InsertDecreasing(h, us, k, u);
    OpenListNoDup(g.heap, t, us);
    InsertNoDup(us, k, u);
  }

  lemma AboveOther(h: map<Ref, Object>, h': map<Ref, Object>, us: seq<Ref>, slot: nat, k: nat)
    requires k == Above(h, us, slot) && forall x :: x in us ==> SlotOf(h', x) == SlotOf(h, x)
    requires forall i :: k <= i < |us| ==> SlotOf(h, us[i]) < slot
    ensures forall i :: 0 <= i < k ==> SlotOf(h', us[i]) > slot
    ensures forall i :: k <= i < |us| ==> SlotOf(h', us[i]) < slot
  {
    hide SlotOf;
    forall i | 0 <= i < k ensures SlotOf(h', us[i]) > slot { assert us[i] in us; }
    forall i | k <= i < |us| ensures SlotOf(h', us[i]) < slot { assert us[i] in us; }
  }

  lemma UpvalsInHeap(g: Gc, u: Ref)
    requires OpenUpvals(g) && u !in g.heap
    ensures forall t :: ListOf(g.heap, t).Some? ==> u !in ListOf(g.heap, t).value
    ensures u !in g.uvhead
  {
    forall t | ListOf(g.heap, t).Some? ensures u !in ListOf(g.heap, t).value {
      assert OpenList(g.heap, t, ListOf(g.heap, t).value);
      assert forall x :: x in ListOf(g.heap, t).value ==> OpenFor(g.heap, x, t);
    }
  }

  lemma OtherListKept(g: Gc, h: map<Ref, Object>, t: Ref, u: Ref, slot: nat, y: Ref, ys: seq<Ref>)
    requires OpenList(g.heap, y, ys) && u !in ys
    requires forall x :: UpvalOf(h, x) == (if x == u then At(t, slot) else UpvalOf(g.heap, x))
    requires forall x :: Depth(h, x) == Depth(g.heap, x)
    ensures OpenList(h, y, ys)
  {
    hide UpvalOf, Depth;
    forall x | x in ys ensures OpenFor(h, x, y) && SlotOf(h, x) == SlotOf(g.heap, x) { assert OpenFor(g.heap, x, y); }
    SameSlotsDecreasing(g.heap, h, ys);
  }

  lemma WithOneMoreUpval(g: Gc, r: Gc, t: Ref, u: Ref, slot: nat, us: seq<Ref>, vs: seq<Ref>)
    requires OpenUpvals(g) && u !in g.heap && ListOf(g.heap, t) == Some(us) && ListOf(r.heap, t) == Some(vs)
    requires forall x :: x in vs <==> x == u || x in us
    requires OpenList(r.heap, t, vs)
    requires r.uvhead == [u] + g.uvhead && slot < Depth(g.heap, t)
    requires forall x :: UpvalOf(r.heap, x) == (if x == u then At(t, slot) else UpvalOf(g.heap, x))
    requires forall y :: y != t ==> ListOf(r.heap, y) == ListOf(g.heap, y)
    requires forall y :: Depth(r.heap, y) == Depth(g.heap, y)
    ensures OpenUpvals(r)
  {
    UpvalsInHeap(g, u);
    hide UpvalOf, ListOf, Depth, Decreasing;
    forall y | ListOf(r.heap, y).Some? ensures OpenList(r.heap, y, ListOf(r.heap, y).value) {
      if y != t { OtherListKept(g, r.heap, t, u, slot, y, ListOf(g.heap, y).value); }
    }
    forall x | UpvalOf(r.heap, x).At?
      ensures OpenFor(r.heap, x, UpvalOf(r.heap, x).thread)
      ensures ListOf(r.heap, UpvalOf(r.heap, x).thread).Some? && x in ListOf(r.heap, UpvalOf(r.heap, x).thread).value
    {
      if x != u { assert OpenFor(g.heap, x, UpvalOf(g.heap, x).thread); }
    }
  }

  lemma ListedOpen(g: Gc, t: Ref, us: seq<Ref>)
    requires OpenUpvals(g) && ListOf(g.heap, t) == Some(us)
    ensures OpenList(g.heap, t, us) && NoDup(us)
  {
    OpenListNoDup(g.heap, t, us);
  }

  lemma NewUpvalOpenUpvals(g: Gc, t: Ref, slot: nat)
    requires OpenUpvals(g) && IsThread(g, t) && g.next !in g.heap && slot < |g.heap[t].stack| && !HasUpval(g, t, slot)
    ensures OpenUpvals(NewUpval(g, t, slot))
  {
    hide OpenUpvals, TextOf, Rooted, NewUpval, Decreasing, Above, NoDup;
    var r, u, us, k := NewUpval(g, t, slot), g.next, g.heap[t].openupval, Above(g.heap, g.heap[t].openupval, slot);
    NewUpvalHeap(g, t, slot);
    NewUpvalFields(g, t, slot);
    ListedOpen(g, t, us);
    UpvalsInHeap(g, u);
    NewUpvalList(g, r.heap, t, u, us, slot);
    InsertNoDup(us, k, u);
    WithOneMoreUpval(g, r, t, u, slot, us, us[..k] + [u] + us[k..]);
  }

  lemma NewUpvalLive(g: Gc, t: Ref, slot: nat)
    requires Basics(g) && LiveClosed(g) && OpenUpvals(g) && IsThread(g, t) && LiveRef(g, t) && slot < |g.heap[t].stack|
    ensures LiveClosed(NewUpval(g, t, slot)) && LiveRef(NewUpval(g, t, slot), g.next)
  {
    hide OpenUpvals, TextOf, UpvalOf, ListOf, Depth, Rooted, NewUpval;
    var r, u := NewUpval(g, t, slot), g.next;
    FreshRef(g);
    NewUpvalContent(g, t, slot);
    NewUpvalFields(g, t, slot);
    assert forall y :: y != u ==> (LiveRef(r, y) <==> LiveRef(g, y));
    forall y | IsRoot(r, y) ensures LiveRef(r, y) {
      if y != u { assert IsRoot(g, y) && LiveRef(g, y); }
    }
    forall y, c | LiveRef(r, y) && Points(r.heap, y, c) ensures LiveRef(r, c) {
      if y == u {
        assert ([g.heap[t].globals] + g.heap[t].stack)[slot + 1] == Obj(c);
        assert Points(g.heap, t, c) && LiveRef(g, c);
      } else {
        assert LiveRef(g, y) && Points(g.heap, y, c) && LiveRef(g, c);
      }
    }
  }

  /** `r` has the objects of `g`, with the same content and colours, and a new white one. */
  ghost predicate OneMore(g: Gc, r: Gc, u: Ref) {
    && u !in g.heap && u !in g.marked && r.heap.Keys == g.heap.Keys + {u}
    && r.marked == g.marked[u := LuaCWhite(g.currentwhite)]
    && r.currentwhite == g.currentwhite && r.gray == g.gray && r.grayagain == g.grayagain
    && (forall y :: y in g.heap ==> y in r.heap && SameKind(g.heap[y], r.heap[y]) && Content(r.heap, y) == Content(g.heap, y))
  }

  lemma OneMoreBlack(g: Gc, r: Gc, u: Ref)
    requires BlackClosed(g, {}) && OneMore(g, r, u)
    ensures BlackClosed(r, {})
  {
    hide Content;
    forall y | Black(r, y)
      ensures y in r.heap && !r.heap[y].Thread? && !r.heap[y].Str? && !r.heap[y].OpenUpval? && ChildrenSeen(r, y)
    {
      assert Black(g, y) && ChildrenSeen(g, y);
      forall c | Points(r.heap, y, c) ensures Seen(r, c) { assert Points(g.heap, y, c) && Seen(g, c); }
    }
  }

  lemma OneMoreGray(g: Gc, r: Gc, u: Ref)
    requires GrayPending(g) && GrayLists(g) && OneMore(g, r, u)
    ensures GrayPending(r) && GrayLists(r)
  {
    hide Content, NoDup;
    forall y | Gray(r, y)
      ensures y in r.heap && !r.heap[y].Udata? && !r.heap[y].ClosedUpval? && (Listed(r.heap[y]) ==> y in r.gray || y in r.grayagain)
    {
      assert Gray(g, y);
    }
    forall y | y in r.gray || y in r.grayagain ensures y in r.heap && Listed(r.heap[y]) && Gray(r, y) { assert Gray(g, y); }
  }

  lemma OneMoreTriColour(g: Gc, r: Gc, u: Ref)
    requires TriColour(g) && OneMore(g, r, u)
    ensures TriColour(r) && forall y :: Seen(g, y) ==> Seen(r, y)
  {
    hide BlackClosed, GrayPending, GrayLists, Content, SameKind;
    OneMoreBlack(g, r, u);
    OneMoreGray(g, r, u);
  }

  lemma NewUpvalTriColour(g: Gc, t: Ref, slot: nat)
    requires TriColour(g) && Basics(g) && OpenUpvals(g) && IsThread(g, t) && slot < |g.heap[t].stack|
    ensures TriColour(NewUpval(g, t, slot)) && forall y :: Seen(g, y) ==> Seen(NewUpval(g, t, slot), y)
  {
    hide OpenUpvals, TextOf, UpvalOf, ListOf, Depth, Rooted, NewUpval, TriColour, Content, SameKind;
    FreshRef(g);
    NewUpvalHeap(g, t, slot);
    NewUpvalContent(g, t, slot);
    NewUpvalFields(g, t, slot);
    OneMoreTriColour(g, NewUpval(g, t, slot), g.next);
  }

  lemma NewUpvalFields(g: Gc, t: Ref, slot: nat)
    requires IsThread(g, t)
    ensures var r := NewUpval(g, t, slot);
            && r == g.(heap := r.heap, marked := g.marked[g.next := LuaCWhite(g.currentwhite)], uvhead := [g.next] + g.uvhead,
                       held := g.held + {g.next}, next := g.next + 1)
            && r.heap.Keys == g.heap.Keys + {g.next}
            && r.heap[g.next] == OpenUpval(t, slot)
  {}

  lemma NewUpvalPhase(g: Gc, t: Ref, slot: nat)
    requires Shape(g) && PhaseOk(g) && IsThread(g, t) && slot < |g.heap[t].stack|
    ensures PhaseOk(NewUpval(g, t, slot))
  {
    hide OpenUpvals, StringTable, RootList, Content, NewUpval, TriColour, Colours, Swept;
    FreshRef(g);
    NewUpvalFields(g, t, slot);
    var r := NewUpval(g, t, slot);
    assert forall y :: CurrentWhite(g, y) ==> CurrentWhite(r, y);
    assert CurrentWhite(r, g.next);
    match g.phase
    case Propagate => NewUpvalTriColour(g, t, slot);
    case Sweep =>
      forall i | 0 <= i < g.sweepgc ensures Swept(r, r.rootgc[i]) {
        NewUpvalSwept(g, t, slot, g.rootgc[i]);
      }
    case _ =>
  }

  lemma NewUpvalSwept(g: Gc, t: Ref, slot: nat, o: Ref)
    requires Basics(g) && IsThread(g, t) && slot < |g.heap[t].stack| && Swept(g, o)
    ensures Swept(NewUpval(g, t, slot), o)
  {
    hide UpvalOf, ListOf, Depth, Rooted, TextOf, NewUpval, Swept;
    FreshRef(g);
    NewUpvalHeap(g, t, slot);
    NewUpvalFields(g, t, slot);
    SweptGrown(g, NewUpval(g, t, slot), g.next, o);
  }

  lemma SweptGrown(g: Gc, r: Gc, u: Ref, o: Ref)
    requires Swept(g, o) && u !in g.marked
    requires r.currentwhite == g.currentwhite && r.marked == g.marked[u := LuaCWhite(g.currentwhite)]
    requires ListOf(r.heap, o).Some? ==>
      ListOf(g.heap, o).Some? && forall x :: x in ListOf(r.heap, o).value ==> x == u || x in ListOf(g.heap, o).value
    ensures Swept(r, o)
  {
    hide ListOf;
  }

  lemma NewUpvalBasics(g: Gc, t: Ref, slot: nat)
    requires Basics(g) && Colours(g) && IsThread(g, t)
    ensures Basics(NewUpval(g, t, slot)) && Colours(NewUpval(g, t, slot))
  {
    FreshRef(g);
    NewUpvalFields(g, t, slot);
    NewUpvalHeap(g, t, slot);
  }

  lemma NewUpvalKeeps(g: Gc, t: Ref, slot: nat)
    requires Inv(g) && IsThread(g, t) && LiveRef(g, t) && slot < |g.heap[t].stack| && !HasUpval(g, t, slot)
    ensures Inv(NewUpval(g, t, slot)) && LiveRef(NewUpval(g, t, slot), g.next)
  {
    var r := NewUpval(g, t, slot);
    FreshRef(g);
    NewUpvalHeap(g, t, slot);
    NewUpvalFields(g, t, slot);
    hide StringTable, OpenUpvals, TextOf, UpvalOf, ListOf, Depth, Rooted, LiveClosed, PhaseOk, Colours, NewUpval, HasUpval;
    NewUpvalOpenUpvals(g, t, slot);
    NewUpvalLive(g, t, slot);
    NewUpvalPhase(g, t, slot);
    NewUpvalBasics(g, t, slot);
    StringTableFrame(g, r);
  }

  /** `luaF_findupval` keeps the invariant and yields the upvalue of that slot. */
  lemma FindUpvalKeeps(g: Gc, t: Ref, slot: nat)
    requires Inv(g) && IsThread(g, t) && LiveRef(g, t) && slot < |g.heap[t].stack|
    ensures g.marked.Keys == g.heap.Keys && (HasUpval(g, t, slot) ==> UpvalAt(g, t, slot) in g.marked)
    ensures var r := FindUpval(g, t, slot);
            && Inv(r)
            && (exists u :: u in r.held && UpvalOf(r.heap, u) == At(t, slot) && LiveRef(r, u))
  {
    hide Inv, NewUpval, Resurrect, LiveRef;
    InvParts(g);
    if HasUpval(g, t, slot) {
      var u := UpvalAt(g, t, slot);
      FoundUpval(g, t, slot);
      ResurrectKeeps(g, u);
      ResurrectSame(g, u);
    } else {
      NewUpvalKeeps(g, t, slot);
      FreshRef(g);
      NewUpvalHeap(g, t, slot);
      NewUpvalFields(g, t, slot);
      assert g.next in NewUpval(g, t, slot).held && UpvalOf(NewUpval(g, t, slot).heap, g.next) == At(t, slot);
    }
  }

  lemma ResurrectSame(g: Gc, o: Ref)
    requires o in g.marked
    ensures Resurrect(g, o).heap == g.heap && o in Resurrect(g, o).held
  {}

  /** There is at most one open upvalue per stack slot. */
  lemma OneUpvalPerSlot(g: Gc, u: Ref, u': Ref)
    requires Inv(g) && UpvalOf(g.heap, u).At? && UpvalOf(g.heap, u) == UpvalOf(g.heap, u')
    ensures u == u'
  {
    hide StringTable, RootList, Colours, PhaseOk, LiveClosed, UpvalOf, Depth, ListOf;
    var t := UpvalOf(g.heap, u).thread;
    var us := ListOf(g.heap, t).value;
    assert OpenList(g.heap, t, us) && u in us && u' in us;
    var i :| 0 <= i < |us| && us[i] == u;
    var j :| 0 <= j < |us| && us[j] == u';
    SlotsDiffer(g.heap, us, i, j);
  }

  lemma SlotsDiffer(h: map<Ref, Object>, us: seq<Ref>, i: nat, j: nat)
    requires Decreasing(h, us) && i < |us| && j < |us| && SlotOf(h, us[i]) == SlotOf(h, us[j])
    ensures i == j
  {}
}
