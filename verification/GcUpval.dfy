/**
  Open upvalues (lfunc.c): `luaF_findupval`, `luaF_close` and `luaC_linkupval` as functions on
  collector states.
  */
module GcUpval {
  import opened GcState
  import opened GcMark
  import opened GcPropagate
  import opened GcInvariant

  /** Put `o` at position `k` of the `rootgc` list.  The sweep pointer is the address of a link, so it
      keeps pointing to the same place unless the insertion is strictly before it. */
  ghost function InsertRoot(g: Gc, k: nat, o: Ref): Gc
    requires k <= |g.rootgc|
  {
    g.(rootgc := g.rootgc[..k] + [o] + g.rootgc[k..],
       sweepgc := if g.sweepgc > k then g.sweepgc + 1 else g.sweepgc)
  }

  /** `luaC_linkupval` (lgc.c:695-710). */
  ghost function LinkUpval(g: Gc, u: Ref): Gc
    requires g.marked.Keys == g.heap.Keys && u in g.heap && g.heap[u].ClosedUpval?
  {
    var g1 := InsertRoot(g, 0, u);
    if !Gray(g, u) then g1
    else if g.phase == Propagate then
      MarkValue(g1.(marked := g1.marked[u := Gray2Black(g1.marked[u])]), g.heap[u].value)
    else g1.(marked := g1.marked[u := MakeWhite(g1.currentwhite, g1.marked[u])])
  }

  ghost predicate HasOpen(g: Gc, t: Ref, level: int) {
    && t in g.heap && g.heap[t].Thread? && g.heap[t].openupval != []
    && OpenFor(g.heap, g.heap[t].openupval[0], t)
    && SlotOf(g.heap, g.heap[t].openupval[0]) >= level
  }

  ghost function Unlinked(g: Gc, t: Ref): Gc
    requires HasOpen(g, t, 0)
  {
    var u := g.heap[t].openupval[0];
    g.(heap := g.heap[t := g.heap[t].(openupval := g.heap[t].openupval[1..])], uvhead := Keep(g.uvhead, {u}))
  }

  /** One iteration of the loop in `luaF_close` (lfunc.c:96-112). */
  ghost function CloseOne(g: Gc, t: Ref): Gc
    requires g.marked.Keys == g.heap.Keys && HasOpen(g, t, 0)
  {
    var u := g.heap[t].openupval[0];
    var g1 := Unlinked(g, t);
    if Dead(g, u) then g1.(heap := g1.heap - {u}, marked := g1.marked - {u})
    else LinkUpval(g1.(heap := g1.heap[u := ClosedUpval(g.heap[t].stack[g.heap[u].slot])]), u)
  }

  lemma CloseOneShape(g: Gc, t: Ref)
    requires g.marked.Keys == g.heap.Keys && HasOpen(g, t, 0)
    ensures var r := CloseOne(g, t);
            && r.marked.Keys == r.heap.Keys
            && t in r.heap && r.heap[t] == g.heap[t].(openupval := g.heap[t].openupval[1..])
  {}

  /** `luaF_close` (lfunc.c:96-112). */
  ghost function CloseUpvals(g: Gc, t: Ref, level: nat): Gc
    requires g.marked.Keys == g.heap.Keys
    decreases if t in g.heap && g.heap[t].Thread? then |g.heap[t].openupval| else 0
  {
    if HasOpen(g, t, level) then
      CloseOneShape(g, t);
      CloseUpvals(CloseOne(g, t), t, level)
    else g
  }

  // ---------- closing keeps the invariant ----------

  /** Every object that is not dead survives with the values it holds, and the roots are the same. */
  ghost predicate Preserves(g: Gc, r: Gc) {
    && r.mainthread == g.mainthread && r.running == g.running && r.registry == g.registry && r.mt == g.mt
    && r.held == g.held && r.currentwhite == g.currentwhite && r.next == g.next
    && (forall o :: LiveRef(g, o) ==> LiveRef(r, o) && Content(r.heap, o) == Content(g.heap, o))
    && (forall o :: o in r.heap ==> o in g.heap)
    && (forall o :: Fixed(g, o) <==> Fixed(r, o))
  }

  /** An object that is dead and not fixed is left as it is or freed. */
  ghost predicate DeadStays(g: Gc, r: Gc) {
    forall o :: o in g.marked && !Survives(g.currentwhite, g.marked[o]) ==>
      o !in r.marked || r.marked[o] == g.marked[o]
  }

  lemma PreservesTransitive(g: Gc, r: Gc, s: Gc)
    requires Preserves(g, r) && Preserves(r, s)
    ensures Preserves(g, s)
  {
    forall o | LiveRef(g, o) ensures LiveRef(s, o) && Content(s.heap, o) == Content(g.heap, o) {
      assert LiveRef(r, o);
    }
  }

  /** `LiveClosed` carries over when nothing dead comes back to life with content. */
  lemma PreservesLiveClosed(g: Gc, r: Gc)
    requires LiveClosed(g) && Preserves(g, r)
    requires forall o :: LiveRef(r, o) ==> LiveRef(g, o) || Content(r.heap, o) == []
    ensures LiveClosed(r)
  {
    forall o | IsRoot(r, o) ensures LiveRef(r, o) {
      assert IsRoot(g, o);
      assert LiveRef(g, o);
    }
    forall o, c | LiveRef(r, o) && Points(r.heap, o, c) ensures LiveRef(r, c) {
      assert LiveRef(g, o) && Points(g.heap, o, c);
      assert LiveRef(g, c);
    }
  }

  lemma StringTableFrame(g: Gc, r: Gc)
    requires StringTable(g) && r.strt == g.strt && r.hash == g.hash
    requires forall o :: TextOf(r.heap, o) == TextOf(g.heap, o)
    ensures StringTable(r)
  {
    hide TextOf;
    assert forall x :: Bucket(r, x) == Bucket(g, x);
  }

  /** What taking the first open upvalue `u` off thread `t` changes. */
  ghost predicate Detached(g: Gc, t: Ref, u: Ref, r: Gc) {
    && r.uvhead == Keep(g.uvhead, {u})
    && ListOf(g.heap, t).Some? && ListOf(g.heap, t).value != [] && u == ListOf(g.heap, t).value[0]
    && ListOf(r.heap, t) == Some(ListOf(g.heap, t).value[1..])
    && (forall y :: y != t ==> ListOf(r.heap, y) == ListOf(g.heap, y))
    && UpvalOf(r.heap, u) == NoSlot
    && (forall x :: x != u ==> UpvalOf(r.heap, x) == UpvalOf(g.heap, x))
    && (forall y :: Depth(r.heap, y) == Depth(g.heap, y))
  }

  /** `h'` is `h` without the first open upvalue of `t`, which is gone or closed. */
  ghost predicate Popped(h: map<Ref, Object>, t: Ref, u: Ref, h': map<Ref, Object>) {
    && t in h && h[t].Thread? && |h[t].openupval| > 0
    && u in h && u != t && h[u].OpenUpval?
    && var h1 := h[t := h[t].(openupval := h[t].openupval[1..])];
    && (h' == h1 - {u} ||
        (OnStack(h, h[u].thread, h[u].slot) && h' == h1[u := ClosedUpval(h[h[u].thread].stack[h[u].slot])]))
  }

  ghost predicate SameKind(x: Object, y: Object) {
    && x.Str? == y.Str? && x.Udata? == y.Udata? && x.Func? == y.Func? && x.Table? == y.Table? && x.Proto? == y.Proto?
    && x.OpenUpval? == y.OpenUpval? && x.ClosedUpval? == y.ClosedUpval? && x.Thread? == y.Thread?
  }

  lemma PoppedHeap(h: map<Ref, Object>, t: Ref, u: Ref, h': map<Ref, Object>)
    requires Popped(h, t, u, h')
    ensures ListOf(h', t) == Some(h[t].openupval[1..])
    ensures forall y :: y != t ==> ListOf(h', y) == ListOf(h, y)
    ensures UpvalOf(h', u) == NoSlot
    ensures forall x :: x != u ==> UpvalOf(h', x) == UpvalOf(h, x)
    ensures forall y :: Depth(h', y) == Depth(h, y)
    ensures forall o :: TextOf(h', o) == TextOf(h, o)
  {}

  lemma PoppedContent(h: map<Ref, Object>, t: Ref, u: Ref, h': map<Ref, Object>)
    requires Popped(h, t, u, h')
    ensures forall o :: o in h' ==> o in h && Content(h', o) == Content(h, o)
    ensures forall o :: Rooted(h', o) <==> Rooted(h, o) || (o == u && u in h')
    ensures forall o :: o in h' && o != u ==> SameKind(h[o], h'[o])
  {
    forall o | o in h' ensures o in h && Content(h', o) == Content(h, o) { PoppedContentOf(h, t, u, h', o); }
    hide Content;
  }

  lemma PoppedContentOf(h: map<Ref, Object>, t: Ref, u: Ref, h': map<Ref, Object>, o: Ref)
    requires Popped(h, t, u, h') && o in h'
    ensures o in h && Content(h', o) == Content(h, o)
  {
    assert forall y, slot :: OnStack(h', y, slot) <==> OnStack(h, y, slot);
  }

  lemma CloseOneDetaches(g: Gc, t: Ref)
    requires g.marked.Keys == g.heap.Keys && HasOpen(g, t, 0)
    ensures Detached(g, t, g.heap[t].openupval[0], CloseOne(g, t))
    ensures forall o :: TextOf(CloseOne(g, t).heap, o) == TextOf(g.heap, o)
    ensures forall o :: o in CloseOne(g, t).heap ==> o in g.heap && Content(CloseOne(g, t).heap, o) == Content(g.heap, o)
    ensures forall o :: Rooted(CloseOne(g, t).heap, o) <==>
                          Rooted(g.heap, o) || (o == g.heap[t].openupval[0] && o in CloseOne(g, t).heap)
    ensures forall o :: o in CloseOne(g, t).heap && o != g.heap[t].openupval[0] ==> SameKind(g.heap[o], CloseOne(g, t).heap[o])
  {
    PoppedHeap(g.heap, t, g.heap[t].openupval[0], CloseOne(g, t).heap);
    PoppedContent(g.heap, t, g.heap[t].openupval[0], CloseOne(g, t).heap);
  }

  lemma DetachedMembers(g: Gc, t: Ref, u: Ref, r: Gc, y: Ref)
    requires OpenUpvals(g) && Detached(g, t, u, r) && ListOf(r.heap, y).Some?
    ensures forall x :: x in ListOf(r.heap, y).value ==> x != u && OpenFor(r.heap, x, y)
  {
    hide UpvalOf, ListOf, Depth, Keep;
    var old', us := ListOf(g.heap, y).value, ListOf(r.heap, y).value;
    assert OpenList(g.heap, y, old');
    OpenListNoDup(g.heap, y, old');
    assert OpenFor(g.heap, u, t);
    forall x | x in us ensures x != u && OpenFor(r.heap, x, y) {
      assert OpenFor(g.heap, x, y);
    }
  }

  lemma SuffixDecreasing(h: map<Ref, Object>, us: seq<Ref>, k: nat, h': map<Ref, Object>)
    requires k <= |us| && Decreasing(h, us) && forall x :: x in us[k..] ==> SlotOf(h', x) == SlotOf(h, x)
    ensures Decreasing(h', us[k..])
  {
    hide SlotOf;
    var vs := us[k..];
    forall i, j | 0 <= i < j < |vs| ensures SlotOf(h', vs[i]) > SlotOf(h', vs[j]) {
      assert vs[i] == us[i + k] && vs[j] == us[j + k];
      assert vs[i] in vs && vs[j] in vs;
    }
  }

  lemma DetachedList(g: Gc, t: Ref, u: Ref, r: Gc, y: Ref)
    requires OpenUpvals(g) && Detached(g, t, u, r) && ListOf(r.heap, y).Some?
    ensures OpenList(r.heap, y, ListOf(r.heap, y).value)
    ensures u !in ListOf(r.heap, y).value
  {
    hide UpvalOf, ListOf, Depth, Keep, NoDup, Decreasing;
    DetachedMembers(g, t, u, r, y);
    assert OpenList(g.heap, y, ListOf(g.heap, y).value);
    SuffixDecreasing(g.heap, ListOf(g.heap, y).value, if y == t then 1 else 0, r.heap);
    assert y != t ==> ListOf(g.heap, y).value[0..] == ListOf(r.heap, y).value;
  }

  lemma DetachedOpenUpvals(g: Gc, t: Ref, u: Ref, r: Gc)
    requires OpenUpvals(g) && Detached(g, t, u, r)
    ensures OpenUpvals(r)
  {
    hide UpvalOf, ListOf, Depth;
    KeepNoDup(g.uvhead, {u});
    forall y | ListOf(r.heap, y).Some? ensures OpenList(r.heap, y, ListOf(r.heap, y).value) {
      DetachedList(g, t, u, r, y);
    }
    forall x | UpvalOf(r.heap, x).At?
      ensures OpenFor(r.heap, x, UpvalOf(r.heap, x).thread)
      ensures ListOf(r.heap, UpvalOf(r.heap, x).thread).Some?
      ensures x in ListOf(r.heap, UpvalOf(r.heap, x).thread).value
    {
      assert x != u && UpvalOf(g.heap, x) == UpvalOf(r.heap, x);
      assert x in ListOf(g.heap, UpvalOf(g.heap, x).thread).value;
    }
  }

  lemma LinkUpvalFields(g: Gc, u: Ref)
    requires g.marked.Keys == g.heap.Keys && u in g.heap && g.heap[u].ClosedUpval?
    ensures var r := LinkUpval(g, u);
            && r == g.(marked := r.marked, gray := r.gray, rootgc := [u] + g.rootgc,
                       sweepgc := if g.sweepgc > 0 then g.sweepgc + 1 else g.sweepgc)
            && r.marked.Keys == r.heap.Keys
  {
    assert g.rootgc[..0] + [u] + g.rootgc[0..] == [u] + g.rootgc;
  }

  lemma CloseOneFields(g: Gc, t: Ref)
    requires g.marked.Keys == g.heap.Keys && HasOpen(g, t, 0)
    ensures var u, r := g.heap[t].openupval[0], CloseOne(g, t);
            && r == g.(heap := r.heap, marked := r.marked, gray := r.gray, uvhead := r.uvhead,
                       rootgc := if u in r.heap then [u] + g.rootgc else g.rootgc,
                       sweepgc := if u in r.heap && g.sweepgc > 0 then g.sweepgc + 1 else g.sweepgc)
            && r.marked.Keys == r.heap.Keys
            && (u in r.heap <==> !Dead(g, u))
  {
    hide LinkUpval, Keep;
    var u := g.heap[t].openupval[0];
    var g1 := Unlinked(g, t);
    if !Dead(g, u) {
      LinkUpvalFields(g1.(heap := g1.heap[u := ClosedUpval(g.heap[t].stack[g.heap[u].slot])]), u);
    }
  }

  lemma CloseOneKeepsLists(g: Gc, t: Ref)
    requires Shape(g) && HasOpen(g, t, 0)
    ensures StringTable(CloseOne(g, t)) && OpenUpvals(CloseOne(g, t)) && RootList(CloseOne(g, t))
  {
    hide TextOf, UpvalOf, ListOf, Depth, Rooted, StringTable, OpenUpvals, Detached, CloseOne;
    var u, r := g.heap[t].openupval[0], CloseOne(g, t);
    CloseOneDetaches(g, t);
    CloseOneFields(g, t);
    StringTableFrame(g, r);
    DetachedOpenUpvals(g, t, u, r);
    NotRooted(g, t);
  }

  lemma NotRooted(g: Gc, t: Ref)
    requires HasOpen(g, t, 0)
    ensures !Rooted(g.heap, g.heap[t].openupval[0])
  {}

  /** Except while marking, closing an upvalue changes no colour but that of the upvalue itself. */
  lemma CloseOneColours(g: Gc, t: Ref)
    requires Shape(g) && HasOpen(g, t, 0)
    requires g.phase.Propagate? ==> !Gray(g, g.heap[t].openupval[0])
    ensures var u, r := g.heap[t].openupval[0], CloseOne(g, t);
            && (forall o :: o in r.marked && o != u ==> o in g.marked && r.marked[o] == g.marked[o])
            && (u in r.marked ==> CurrentWhite(r, u) && r.marked[u].fixed == g.marked[u].fixed)
            && (Dead(g, u) <==> u !in r.marked)
            && r.sweepgc == (if u in r.heap && g.sweepgc > 0 then g.sweepgc + 1 else g.sweepgc)
            && r.rootgc == (if u in r.heap then [u] + g.rootgc else g.rootgc)
            && r.sweepstrgc == g.sweepstrgc && r.strt == g.strt && r.currentwhite == g.currentwhite && r.phase == g.phase
  {
    hide TextOf, Rooted, StringTable, OpenUpvals;
  }

  /** The same objects, colours and gray lists up to content-preserving changes of white objects. */
  lemma TriColourFrame(g: Gc, r: Gc)
    requires TriColour(g)
    requires r.marked == g.marked && r.heap.Keys == g.heap.Keys && r.currentwhite == g.currentwhite
    requires r.gray == g.gray && r.grayagain == g.grayagain
    requires forall o :: o in r.heap ==> Content(r.heap, o) == Content(g.heap, o)
    requires forall o :: o in r.heap && Seen(g, o) ==> SameKind(g.heap[o], r.heap[o])
    ensures TriColour(r)
  {
    assert forall o, c :: Points(r.heap, o, c) <==> Points(g.heap, o, c);
    forall o | Black(r, o) ensures !r.heap[o].Thread? && !r.heap[o].Str? && !r.heap[o].OpenUpval? && ChildrenSeen(r, o) {
      assert Black(g, o) && ChildrenSeen(g, o);
      forall c | Points(r.heap, o, c) ensures Seen(r, c) { assert Points(g.heap, o, c) && Seen(g, c); }
    }
    forall o | Gray(r, o)
      ensures !r.heap[o].Udata? && !r.heap[o].ClosedUpval? && (Listed(r.heap[o]) ==> o in r.gray || o in r.grayagain)
    {
      assert Gray(g, o);
    }
    forall o | o in r.gray || o in r.grayagain ensures o in r.heap && Listed(r.heap[o]) && Gray(r, o) {
      assert Gray(g, o) && Seen(g, o);
    }
  }

  lemma CloseQuietPhase(g: Gc, t: Ref)
    requires Shape(g) && PhaseOk(g) && HasOpen(g, t, 0)
    requires g.phase.Propagate? ==> !Gray(g, g.heap[t].openupval[0])
    ensures PhaseOk(CloseOne(g, t))
  {
    hide TextOf, UpvalOf, ListOf, Depth, Rooted, StringTable, OpenUpvals, CloseOne, TriColour;
    var u, r := g.heap[t].openupval[0], CloseOne(g, t);
    CloseOneDetaches(g, t);
    CloseOneFields(g, t);
    CloseOneColours(g, t);
    assert forall o :: CurrentWhite(g, o) && o in r.marked ==> CurrentWhite(r, o);
    match g.phase
    case Pause =>
    case Finalize =>
    case Propagate => CloseQuietTriColour(g, t);
    case SweepString =>
      assert StringsSwept(r, r.sweepstrgc) by { CloseStringsSwept(g, t, r.sweepstrgc); }
    case Sweep =>
      assert StringsSwept(r, |r.strt|) by { CloseStringsSwept(g, t, |r.strt|); }
      CloseSwept(g, t);
  }

  lemma CloseStringsSwept(g: Gc, t: Ref, n: nat)
    requires Shape(g) && HasOpen(g, t, 0) && n <= |g.strt| && StringsSwept(g, n)
    requires g.phase.Propagate? ==> !Gray(g, g.heap[t].openupval[0])
    requires CloseOne(g, t).strt == g.strt
    ensures StringsSwept(CloseOne(g, t), n)
  {
    hide CloseOne, OpenUpvals;
    CloseOneColours(g, t);
    var r := CloseOne(g, t);
    CloseOneFields(g, t);
    CloseOneDetaches(g, t);
    forall b, o | 0 <= b < n && o in r.strt[b] ensures CurrentWhite(r, o) {
      assert CurrentWhite(g, o) && TextOf(g.heap, o).Some? && TextOf(r.heap, o).Some?;
    }
  }

  lemma CloseSweptList(g: Gc, t: Ref, x: Ref)
    requires Shape(g) && HasOpen(g, t, 0) && g.phase.Sweep? && Swept(g, x)
    ensures var r := CloseOne(g, t);
            ListOf(r.heap, x).Some? ==> forall y :: y in ListOf(r.heap, x).value ==> CurrentWhite(r, y)
  {
    hide TextOf, UpvalOf, ListOf, Depth, Rooted, StringTable, CloseOne, OpenUpvals, RootList;
    var u, r := g.heap[t].openupval[0], CloseOne(g, t);
    CloseOneDetaches(g, t);
    CloseOneFields(g, t);
    CloseOneColours(g, t);
    if ListOf(r.heap, x).Some? {
      DetachedList(g, t, u, r, x);
      forall y | y in ListOf(r.heap, x).value ensures CurrentWhite(r, y) {
        assert y in ListOf(g.heap, x).value && CurrentWhite(g, y);
        assert OpenFor(r.heap, y, x);
        OpenInHeap(r, y, x);
      }
    }
  }

  lemma CloseSwept(g: Gc, t: Ref)
    requires Shape(g) && PhaseOk(g) && HasOpen(g, t, 0) && g.phase.Sweep?
    ensures var r := CloseOne(g, t); r.sweepgc <= |r.rootgc| && forall i :: 0 <= i < r.sweepgc ==> Swept(r, r.rootgc[i])
  {
    hide TextOf, UpvalOf, ListOf, Depth, Rooted, StringTable, CloseOne;
    var u, r := g.heap[t].openupval[0], CloseOne(g, t);
    CloseOneDetaches(g, t);
    CloseOneFields(g, t);
    CloseOneColours(g, t);
    forall i | 0 <= i < r.sweepgc ensures Swept(r, r.rootgc[i]) {
      var x := r.rootgc[i];
      if x == u {
        SweptUpval(g, t);
      } else {
        var j := if u in r.heap then i - 1 else i;
        assert g.rootgc[j] == x && Swept(g, x) && x in g.rootgc;
        assert x in r.marked by { assert Rooted(g.heap, x); assert Rooted(r.heap, x); RootedInHeap(r, x); }
        CloseSweptList(g, t, x);
      }
    }
  }

  lemma RootedInHeap(g: Gc, x: Ref)
    requires Rooted(g.heap, x)
    ensures x in g.heap
  {}

  lemma OpenInHeap(g: Gc, x: Ref, y: Ref)
    requires OpenFor(g.heap, x, y)
    ensures x in g.heap
  {}

  lemma SweptUpval(g: Gc, t: Ref)
    requires Shape(g) && HasOpen(g, t, 0) && !g.phase.Propagate?
    requires g.heap[t].openupval[0] in CloseOne(g, t).heap
    ensures Swept(CloseOne(g, t), g.heap[t].openupval[0])
  {
    hide StringTable, OpenUpvals, CloseOne;
    CloseOneColours(g, t);
    CloseOneFields(g, t);
    CloseOneClosed(g, t);
  }

  lemma CloseOneClosed(g: Gc, t: Ref)
    requires g.marked.Keys == g.heap.Keys && HasOpen(g, t, 0)
    ensures var u, r := g.heap[t].openupval[0], CloseOne(g, t);
            u in r.heap ==> r.heap[u] == ClosedUpval(g.heap[t].stack[g.heap[u].slot])
  {}

  lemma CloseQuietTriColour(g: Gc, t: Ref)
    requires Shape(g) && PhaseOk(g) && HasOpen(g, t, 0) && g.phase.Propagate?
    requires !Gray(g, g.heap[t].openupval[0])
    ensures PhaseOk(CloseOne(g, t))
  {
    hide StringTable, OpenUpvals, CloseOne, GrayLists, BlackClosed, GrayPending, TextOf, ListOf, UpvalOf, Depth, Rooted;
    var u, r := g.heap[t].openupval[0], CloseOne(g, t);
    CloseOneFields(g, t);
    CloseOneDetaches(g, t);
    CloseOneColours(g, t);
    assert White(g, u) by { OpenUpvalIsOpen(g, t); }
    assert !Dead(g, u);
    CloseOneKeepsOthers(g, t);
    assert r.marked == g.marked;
    CloseOneGray(g, t);
    TriColourFrame(g, r);
  }

  lemma OpenUpvalIsOpen(g: Gc, t: Ref)
    requires HasOpen(g, t, 0)
    ensures t in g.heap && g.heap[t].Thread? && g.heap[t].openupval != []
    ensures var u := g.heap[t].openupval[0]; u in g.heap && g.heap[u].OpenUpval?
  {}

  lemma CloseOneKeepsOthers(g: Gc, t: Ref)
    requires g.marked.Keys == g.heap.Keys && HasOpen(g, t, 0)
    ensures forall o :: o in g.heap && o != g.heap[t].openupval[0] ==> o in CloseOne(g, t).heap
  {}

  lemma CloseOneGray(g: Gc, t: Ref)
    requires g.marked.Keys == g.heap.Keys && HasOpen(g, t, 0)
    requires !Gray(g, g.heap[t].openupval[0])
    ensures CloseOne(g, t).gray == g.gray
  {}

  // While marking, a gray upvalue turns black when it is closed, and the barrier marks its value.

  ghost function CloseMid(g: Gc, t: Ref): Gc
    requires g.marked.Keys == g.heap.Keys && HasOpen(g, t, 0)
  {
    var u := g.heap[t].openupval[0];
    var g1 := Unlinked(g, t);
    var g2 := InsertRoot(g1.(heap := g1.heap[u := ClosedUpval(g.heap[t].stack[g.heap[u].slot])]), 0, u);
    g2.(marked := g2.marked[u := Gray2Black(g2.marked[u])])
  }

  lemma CloseMidMarks(g: Gc, t: Ref)
    requires g.marked.Keys == g.heap.Keys && HasOpen(g, t, 0)
    requires g.phase.Propagate? && Gray(g, g.heap[t].openupval[0])
    ensures CloseOne(g, t) == MarkValue(CloseMid(g, t), g.heap[t].stack[g.heap[g.heap[t].openupval[0]].slot])
  {}

  lemma CloseMidShape(g: Gc, t: Ref)
    requires g.marked.Keys == g.heap.Keys && HasOpen(g, t, 0)
    ensures var u, m := g.heap[t].openupval[0], CloseMid(g, t);
            && u in g.heap && m.heap.Keys == g.heap.Keys && m.marked == g.marked[u := Gray2Black(g.marked[u])]
            && m.gray == g.gray && m.grayagain == g.grayagain && m.currentwhite == g.currentwhite && m.phase == g.phase
            && m.heap[u] == ClosedUpval(g.heap[t].stack[g.heap[u].slot])
            && (forall o :: o in m.heap ==> Content(m.heap, o) == Content(g.heap, o))
            && (forall o :: o in m.heap && o != u ==> SameKind(g.heap[o], m.heap[o]))
  {
    PoppedContent(g.heap, t, g.heap[t].openupval[0], CloseMid(g, t).heap);
  }

  lemma MidWithin(g: Gc, t: Ref)
    requires Inv(g) && HasOpen(g, t, 0) && g.phase.Propagate?
    ensures Within(CloseMid(g, t), g.heap.Keys)
  {
    hide StringTable, OpenUpvals, RootList, GrayLists, BlackClosed, GrayPending, CloseMid;
    CloseMidShape(g, t);
    var m := CloseMid(g, t);
    forall o, c | o in g.heap.Keys && Points(m.heap, o, c) ensures c in g.heap.Keys {
      assert Points(g.heap, o, c) && LiveRef(g, o);
      assert LiveRef(g, c);
    }
  }

  lemma MidTriColour(g: Gc, t: Ref)
    requires TriColour(g) && HasOpen(g, t, 0) && Gray(g, g.heap[t].openupval[0])
    ensures var u, m := g.heap[t].openupval[0], CloseMid(g, t);
            GrayLists(m) && NoDead(m) && BlackClosed(m, {u}) && GrayPending(m)
  {
    hide CloseMid;
    CloseMidShape(g, t);
    var u, m := g.heap[t].openupval[0], CloseMid(g, t);
    assert forall o, c :: Points(m.heap, o, c) <==> Points(g.heap, o, c);
    forall o | Black(m, o) && o != u
      ensures !m.heap[o].Thread? && !m.heap[o].Str? && !m.heap[o].OpenUpval? && ChildrenSeen(m, o)
    {
      assert Black(g, o) && ChildrenSeen(g, o);
      forall c | Points(m.heap, o, c) ensures Seen(m, c) { assert Points(g.heap, o, c) && Seen(g, c); }
    }
    forall o | Gray(m, o)
      ensures !m.heap[o].Udata? && !m.heap[o].ClosedUpval? && (Listed(m.heap[o]) ==> o in m.gray || o in m.grayagain)
    {
      assert Gray(g, o) && o != u;
    }
    OpenUpvalIsOpen(g, t);
    forall o | o in m.gray || o in m.grayagain ensures o in m.heap && Listed(m.heap[o]) && Gray(m, o) {
      assert Gray(g, o) && Listed(g.heap[o]);
    }
  }

  /** Marking the value of a closed upvalue that has just turned black restores the invariant. */
  lemma BlackThenMark(m: Gc, r: Gc, u: Ref, v: Value, live: set<Ref>)
    requires MarkReady(m, live) && NoDead(m) && BlackClosed(m, {u}) && GrayPending(m)
    requires u in live && m.heap[u] == ClosedUpval(v) && Seen(m, u)
    requires r == MarkValue(m, v)
    ensures TriColour(r) && Within(r, live) && SeenGrows(m, r) && r.heap == m.heap
  {
    hide GrayLists, BlackClosed, GrayPending, MarkValue, Marking, ClosedUnder;
    if v.Obj? { assert Points(m.heap, u, v.ref); UpvalChildInHeap(m, u, v.ref, live); }
    MarkValueKeeps(m, v, live);
    MarkingKeepsNoDead(m, r);
    MarkingKeepsBlack(m, r, {u});
    MarkingKeepsGray(m, r);
    MarkingGrows(m, r);
    assert ChildrenSeen(r, u);
    ClosedBlack(r, u);
  }

  lemma CloseGrayTriColour(g: Gc, t: Ref)
    requires Inv(g) && HasOpen(g, t, 0) && g.phase.Propagate? && Gray(g, g.heap[t].openupval[0])
    ensures PhaseOk(CloseOne(g, t)) && SeenGrows(g, CloseOne(g, t))
  {
    hide StringTable, OpenUpvals, RootList, LiveClosed, CloseOne, CloseMid, GrayLists, NoDead, BlackClosed, GrayPending, MarkValue, ClosedUnder;
    var u, m, r := g.heap[t].openupval[0], CloseMid(g, t), CloseOne(g, t);
    CloseMidMarks(g, t);
    CloseMidShape(g, t);
    CloseOneFields(g, t);
    MidWithin(g, t);
    MidTriColour(g, t);
    CloseMidReady(m, g.heap.Keys);
    BlackThenMark(m, r, u, g.heap[t].stack[g.heap[u].slot], g.heap.Keys);
    assert SeenGrows(g, m);
  }

  lemma CloseMidReady(m: Gc, live: set<Ref>)
    requires Within(m, live) && GrayLists(m) && NoDead(m)
    ensures MarkReady(m, live)
  {}

  lemma UpvalChildInHeap(g: Gc, u: Ref, c: Ref, live: set<Ref>)
    requires Within(g, live) && u in live && Points(g.heap, u, c)
    ensures c in live
  {}

  lemma ClosedBlack(r: Gc, u: Ref)
    requires BlackClosed(r, {u}) && ChildrenSeen(r, u) && u in r.heap && r.heap[u].ClosedUpval?
    ensures BlackClosed(r, {})
  {}

  // ---------- the result for `luaF_close` ----------

  lemma TriColourColours(g: Gc)
    requires TriColour(g)
    ensures Colours(g) && forall o :: !Dead(g, o)
  {
    hide GrayLists, GrayPending;
    forall o | o in g.marked && o in g.heap ensures !(g.heap[o].OpenUpval? && g.marked[o].black) {
      if g.marked[o].black { assert Black(g, o); }
    }
  }

  ghost predicate MarksKept(g: Gc, r: Gc) {
    && Colours(r) && PhaseOk(r)
    && (forall o :: o in r.marked && o in g.marked ==> r.marked[o].fixed == g.marked[o].fixed)
    && (forall o :: o in r.marked && o in g.marked && Dead(r, o) ==> Dead(g, o))
    && (forall o :: Dead(g, o) && o in r.marked ==> r.marked[o] == g.marked[o])
  }

  lemma CloseGrayMarks(g: Gc, t: Ref)
    requires Inv(g) && HasOpen(g, t, 0) && g.phase.Propagate? && Gray(g, g.heap[t].openupval[0])
    ensures MarksKept(g, CloseOne(g, t))
  {
    hide StringTable, OpenUpvals, RootList, LiveClosed, CloseOne, TriColour;
    CloseOneFields(g, t);
    CloseGrayTriColour(g, t);
    TriColourColours(g);
    TriColourColours(CloseOne(g, t));
  }

  lemma CloseQuietMarks(g: Gc, t: Ref)
    requires Inv(g) && HasOpen(g, t, 0) && (g.phase.Propagate? ==> !Gray(g, g.heap[t].openupval[0]))
    ensures MarksKept(g, CloseOne(g, t))
  {
    hide StringTable, OpenUpvals, RootList, LiveClosed, CloseOne, PhaseOk;
    CloseOneFields(g, t);
    CloseQuietPhase(g, t);
    CloseOneColours(g, t);
    var u, r := g.heap[t].openupval[0], CloseOne(g, t);
    OpenUpvalIsOpen(g, t);
    CloseOneDetaches(g, t);
    forall o | o in r.marked && o in r.heap
      ensures !(r.marked[o].white0 && r.marked[o].white1) && !(IsWhite(r.marked[o]) && r.marked[o].black)
      ensures !(r.heap[o].OpenUpval? && r.marked[o].black)
    {
      if o != u { assert SameKind(g.heap[o], r.heap[o]); }
    }
  }

  lemma CloseOneMarks(g: Gc, t: Ref)
    requires Inv(g) && HasOpen(g, t, 0)
    ensures MarksKept(g, CloseOne(g, t))
  {
    hide Inv, CloseOne, MarksKept;
    if g.phase.Propagate? && Gray(g, g.heap[t].openupval[0]) { CloseGrayMarks(g, t); } else { CloseQuietMarks(g, t); }
  }

  lemma CloseOneBasics(g: Gc, t: Ref)
    requires Inv(g) && HasOpen(g, t, 0)
    ensures Basics(CloseOne(g, t)) && MarksKept(g, CloseOne(g, t))
  {
    hide Inv, CloseOne, MarksKept, Detached, HasOpen, Content, SameKind, Rooted, TextOf, Basics;
    InvBasics(g);
    OpenUpvalIsOpen(g, t);
    CloseOneMarks(g, t);
    MarksFixed(g, CloseOne(g, t));
    CloseOneFields(g, t);
    CloseOneDetaches(g, t);
    CloseOneKeepsOthers(g, t);
    BasicsWithout(g, CloseOne(g, t), g.heap[t].openupval[0]);
  }

  lemma InvBasics(g: Gc)
    requires Inv(g)
    ensures Basics(g) && g.marked.Keys == g.heap.Keys
  {
    hide StringTable, OpenUpvals, RootList, LiveClosed, PhaseOk, Colours;
  }

  lemma MarksFixed(g: Gc, r: Gc)
    requires MarksKept(g, r)
    ensures forall o :: o in r.marked && o in g.marked ==> r.marked[o].fixed == g.marked[o].fixed
  {
    hide Colours, PhaseOk;
  }

  /** Only the open upvalue `u` may be gone. */
  lemma BasicsWithout(g: Gc, r: Gc, u: Ref)
    requires Basics(g) && u in g.heap && g.heap[u].OpenUpval?
    requires r.mainthread == g.mainthread && r.running == g.running && r.next == g.next && r.marked.Keys == r.heap.Keys
    requires forall o :: o in r.heap ==> o in g.heap
    requires forall o :: o in g.heap && o != u ==> o in r.heap
    requires forall o :: o in r.heap && o != u ==> SameKind(g.heap[o], r.heap[o])
    requires forall o :: o in r.marked && o in g.marked ==> r.marked[o].fixed == g.marked[o].fixed
    ensures Basics(r)
  {
    RunningStaysThread(g, r, u);
    forall o | o in r.marked && r.marked[o].fixed ensures r.heap[o].Str? || o == r.mainthread {
      assert o in g.heap && g.marked[o].fixed;
      if o != u { assert SameKind(g.heap[o], r.heap[o]); }
    }
  }

  lemma RunningStaysThread(g: Gc, r: Gc, u: Ref)
    requires Basics(g) && u != g.mainthread && u != g.running
    requires r.mainthread == g.mainthread && r.running == g.running
    requires forall o :: o in g.heap && o != u ==> o in r.heap && SameKind(g.heap[o], r.heap[o])
    ensures r.mainthread in r.heap && r.heap[r.mainthread].Thread? && r.running in r.heap && r.heap[r.running].Thread?
  {}

  lemma UpvalNotFixed(g: Gc, t: Ref)
    requires Basics(g) && HasOpen(g, t, 0)
    ensures forall o :: Fixed(g, o) ==> o != g.heap[t].openupval[0]
  {
    OpenUpvalIsOpen(g, t);
  }

  lemma CloseOnePreserves(g: Gc, t: Ref)
    requires Inv(g) && HasOpen(g, t, 0)
    ensures Preserves(g, CloseOne(g, t)) && DeadStays(g, CloseOne(g, t))
    ensures forall o :: LiveRef(CloseOne(g, t), o) ==> LiveRef(g, o)
  {
    hide StringTable, OpenUpvals, RootList, LiveClosed, CloseOne, PhaseOk, Detached, Rooted, TextOf, Colours, HasOpen;
    var r := CloseOne(g, t);
    CloseOneBasics(g, t);
    CloseOneFields(g, t);
    CloseOneDetaches(g, t);
    CloseOneKeepsOthers(g, t);
    UpvalNotFixed(g, t);
    forall o | LiveRef(g, o) ensures LiveRef(r, o) && Content(r.heap, o) == Content(g.heap, o) {
      assert o in r.heap;
    }
  }

  lemma CloseOneKeeps(g: Gc, t: Ref)
    requires Inv(g) && HasOpen(g, t, 0)
    ensures Inv(CloseOne(g, t)) && Preserves(g, CloseOne(g, t)) && DeadStays(g, CloseOne(g, t))
  {
    hide StringTable, OpenUpvals, RootList, LiveClosed, CloseOne, PhaseOk, Colours, HasOpen, Preserves, DeadStays;
    CloseOneBasics(g, t);
    CloseOneKeepsLists(g, t);
    CloseOnePreserves(g, t);
    PreservesLiveClosed(g, CloseOne(g, t));
  }

  /** With the invariant, only the slot decides whether the first open upvalue is taken. */
  lemma FirstOpen(g: Gc, t: Ref)
    requires Inv(g) && t in g.heap && g.heap[t].Thread? && g.heap[t].openupval != []
    ensures HasOpen(g, t, 0)
  {
    hide StringTable, RootList, LiveClosed, PhaseOk, Colours;
    assert ListOf(g.heap, t) == Some(g.heap[t].openupval);
    assert OpenFor(g.heap, g.heap[t].openupval[0], t);
  }

  lemma {:induction false} CloseKeeps(g: Gc, t: Ref, level: nat)
    requires Inv(g) && t in g.heap && g.heap[t].Thread?
    ensures var r := CloseUpvals(g, t, level);
            && Inv(r) && Preserves(g, r) && DeadStays(g, r)
            && t in r.heap && r.heap[t].Thread?
            && r.heap[t] == g.heap[t].(openupval := r.heap[t].openupval)
            && (forall u :: OpenFor(r.heap, u, t) ==> SlotOf(r.heap, u) < level)
    decreases |g.heap[t].openupval|
  {
    if HasOpen(g, t, level) {
      hide StringTable, OpenUpvals, RootList, LiveClosed, PhaseOk, Colours, CloseOne;
      CloseOneShape(g, t);
      CloseOneKeeps(g, t);
      CloseKeeps(CloseOne(g, t), t, level);
      PreservesTransitive(g, CloseOne(g, t), CloseUpvals(g, t, level));
      DeadStaysTransitive(g, CloseOne(g, t), CloseUpvals(g, t, level));
    } else {
      hide StringTable, RootList, LiveClosed, PhaseOk, Colours, CloseOne;
      if g.heap[t].openupval != [] { FirstOpen(g, t); }
      NoneLeft(g, t, level);
    }
  }

  lemma DeadStaysTransitive(g: Gc, r: Gc, s: Gc)
    requires DeadStays(g, r) && DeadStays(r, s) && r.currentwhite == g.currentwhite
    requires forall o :: o in s.marked ==> o in r.marked
    ensures DeadStays(g, s)
  {}

  lemma NoneLeft(g: Gc, t: Ref, level: nat)
    requires OpenUpvals(g) && t in g.heap && g.heap[t].Thread?
    requires g.heap[t].openupval != [] ==> SlotOf(g.heap, g.heap[t].openupval[0]) < level
    ensures forall u :: OpenFor(g.heap, u, t) ==> SlotOf(g.heap, u) < level
  {
    var us := g.heap[t].openupval;
    assert ListOf(g.heap, t) == Some(us);
    assert OpenList(g.heap, t, us);
    forall u | OpenFor(g.heap, u, t) ensures SlotOf(g.heap, u) < level {
      assert u in us;
      var i :| 0 <= i < |us| && us[i] == u;
      if i > 0 { assert SlotOf(g.heap, us[0]) > SlotOf(g.heap, us[i]); }
    }
  }
}
