/**
  The sweep phases of lgc.c: buckets of the string table, the open upvalues of each thread, and the
  `rootgc` list behind the sweep pointer.
  */
module GcSweep {
  import opened GcState
  import opened GcMark
  import opened GcInvariant
  import opened GcUpval

  /** The elements of a list that the sweep frees: dead and not fixed. */
  ghost function Doomed(g: Gc, xs: seq<Ref>): set<Ref> {
    set o | o in xs && o in g.marked && !Survives(g.currentwhite, g.marked[o])
  }

  /** Sweeping a list frees its doomed elements and whitens the others. */
  ghost function SweepMarks(g: Gc, xs: seq<Ref>): map<Ref, Mark> {
    map o | o in g.marked && o !in Doomed(g, xs) ::
      if o in xs then MakeWhite(g.currentwhite, g.marked[o]) else g.marked[o]
  }

  /** `sweepwholelist` on one bucket, as `singlestep` does in GCSsweepstring (lgc.c:572-581). */
  ghost function SweepBucket(g: Gc): Gc
    requires g.sweepstrgc < |g.strt|
  {
    var xs := g.strt[g.sweepstrgc];
    var d := Doomed(g, xs);
    g.(heap := g.heap - d, marked := SweepMarks(g, xs),
       strt := g.strt[g.sweepstrgc := Keep(xs, d)],
       sweepstrgc := g.sweepstrgc + 1,
       phase := if g.sweepstrgc + 1 >= |g.strt| then Sweep else SweepString)
  }

  /** The open upvalues of a thread are swept when the thread is met (lgc.c:412-413). */
  ghost function SweepOpen(g: Gc, t: Ref): Gc
    requires t in g.heap && g.heap[t].Thread?
  {
    var us := g.heap[t].openupval;
    var d := Doomed(g, us);
    g.(heap := g.heap[t := g.heap[t].(openupval := Keep(us, d))] - d, marked := SweepMarks(g, us), uvhead := Keep(g.uvhead, d))
  }

  ghost function Unlink(g: Gc, o: Ref): Gc { g.(rootgc := Keep(g.rootgc, {o})) }

  ghost function Discard(g: Gc, o: Ref): Gc { g.(heap := g.heap - {o}, marked := g.marked - {o}) }

  /** Unlink an object and free it; freeing a thread closes the upvalues that are still open
      (lgc.c:421-424, lstate.c:134-140). */
  ghost function FreeObject(g: Gc, o: Ref): Gc
    requires g.marked.Keys == g.heap.Keys && o in g.heap
  {
    Discard(if g.heap[o].Thread? then CloseUpvals(Unlink(g, o), o, 0) else Unlink(g, o), o)
  }

  /** One iteration of `sweeplist` on `rootgc` (lgc.c:411-426). */
  ghost function SweepOne(g: Gc): Gc
    requires g.marked.Keys == g.heap.Keys
    requires g.sweepgc < |g.rootgc| && g.rootgc[g.sweepgc] in g.heap
    requires g.heap[g.rootgc[g.sweepgc]].Thread? ==>
               g.rootgc[g.sweepgc] !in Doomed(g, g.heap[g.rootgc[g.sweepgc]].openupval)
  {
    var o := g.rootgc[g.sweepgc];
    var g1 := if g.heap[o].Thread? then SweepOpen(g, o) else g;
    if Survives(g1.currentwhite, g1.marked[o])
    then g1.(marked := g1.marked[o := MakeWhite(g1.currentwhite, g1.marked[o])], sweepgc := g1.sweepgc + 1)
    else FreeObject(g1, o)
  }

  // ---------- sweeping one bucket ----------

  lemma BucketDoomed(g: Gc, b: nat)
    requires StringTable(g) && b < |g.strt|
    ensures forall o :: o in Doomed(g, g.strt[b]) ==> TextOf(g.heap, o).Some?
  {}

  lemma WithoutStrings(h: map<Ref, Object>, d: set<Ref>)
    requires forall o :: o in d ==> TextOf(h, o).Some?
    ensures forall o :: TextOf(h - d, o) == if o in d then None else TextOf(h, o)
    ensures forall o :: UpvalOf(h - d, o) == UpvalOf(h, o)
    ensures forall o :: ListOf(h - d, o) == ListOf(h, o)
    ensures forall o :: Depth(h - d, o) == Depth(h, o)
    ensures forall o :: Rooted(h - d, o) == Rooted(h, o)
    ensures forall o :: o in h - d ==> Content(h - d, o) == Content(h, o)
  {
    assert forall t, slot :: OnStack(h - d, t, slot) <==> OnStack(h, t, slot);
  }

  lemma SweptBucketStrings(g: Gc)
    requires StringTable(g) && g.sweepstrgc < |g.strt| && g.marked.Keys == g.heap.Keys
    ensures StringTable(SweepBucket(g))
  {
    var b, r := g.sweepstrgc, SweepBucket(g);
    var d := Doomed(g, g.strt[b]);
    BucketDoomed(g, b);
    WithoutStrings(g.heap, d);
    hide TextOf;
    KeepNoDup(g.strt[b], d);
    assert forall x :: Bucket(r, x) == Bucket(g, x);
    forall c, o | 0 <= c < |r.strt| && o in r.strt[c] ensures TextOf(r.heap, o).Some? && Bucket(r, TextOf(r.heap, o).value) == c {
      assert o in g.strt[c];
    }
  }

  lemma OpenUpvalsFrame(g: Gc, r: Gc)
    requires OpenUpvals(g) && r.uvhead == g.uvhead
    requires forall o :: UpvalOf(r.heap, o) == UpvalOf(g.heap, o)
    requires forall o :: ListOf(r.heap, o) == ListOf(g.heap, o)
    requires forall o :: Depth(r.heap, o) == Depth(g.heap, o)
    ensures OpenUpvals(r)
  {
    hide UpvalOf, ListOf, Depth;
    assert forall u, t :: OpenFor(r.heap, u, t) <==> OpenFor(g.heap, u, t);
    assert forall u :: SlotOf(r.heap, u) == SlotOf(g.heap, u);
    forall t | ListOf(r.heap, t).Some? ensures OpenList(r.heap, t, ListOf(r.heap, t).value) {
      assert OpenList(g.heap, t, ListOf(g.heap, t).value);
    }
  }

  lemma SweptMarksColours(g: Gc, xs: seq<Ref>, r: Gc)
    requires Basics(g) && Colours(g)
    requires r.marked == SweepMarks(g, xs) && r.currentwhite == g.currentwhite
    requires forall o :: o in r.heap ==> o in g.heap && SameKind(g.heap[o], r.heap[o])
    requires r.marked.Keys == r.heap.Keys && r.mainthread == g.mainthread
    ensures Colours(r)
    ensures forall o :: o in r.marked && r.marked[o].fixed ==> o in r.heap && (r.heap[o].Str? || o == r.mainthread)
  {}

  lemma SweepBucketPhase(g: Gc)
    requires StringTable(g) && g.phase.SweepString? && PhaseOk(g) && g.marked.Keys == g.heap.Keys
    ensures PhaseOk(SweepBucket(g))
  {
    var b, r := g.sweepstrgc, SweepBucket(g);
    hide TextOf;
    forall c, o | 0 <= c < b + 1 && o in r.strt[c] ensures CurrentWhite(r, o) {
      if c == b {
        assert o in g.strt[b] && o !in Doomed(g, g.strt[b]);
        assert TextOf(g.heap, o).Some?;
        TextInHeap(g, o);
      } else {
        assert CurrentWhite(g, o);
        assert o !in Doomed(g, g.strt[b]);
      }
    }
  }

  lemma TextInHeap(g: Gc, o: Ref)
    requires TextOf(g.heap, o).Some?
    ensures o in g.heap
  {}

  lemma SweepBucketFields(g: Gc)
    requires Basics(g) && StringTable(g) && g.sweepstrgc < |g.strt|
    ensures var r, d := SweepBucket(g), Doomed(g, g.strt[g.sweepstrgc]);
            && r == g.(heap := r.heap, marked := SweepMarks(g, g.strt[g.sweepstrgc]), strt := r.strt,
                       sweepstrgc := r.sweepstrgc, phase := r.phase)
            && r.heap == g.heap - d
            && r.heap.Keys == r.marked.Keys
            && (forall o :: o in d ==> TextOf(g.heap, o).Some?)
            && (forall o :: o in r.heap ==> o in g.heap && SameKind(g.heap[o], r.heap[o]))
            && g.mainthread !in d && g.running !in d
  {
    hide TextOf;
    var d := Doomed(g, g.strt[g.sweepstrgc]);
    BucketDoomed(g, g.sweepstrgc);
    assert d <= g.marked.Keys;
    StringsAreNotThreads(g, d);
  }

  lemma SweepBucketStart(g: Gc)
    requires PhaseOk(g) && g.phase.SweepString?
    ensures |g.strt| > 0 && g.sweepstrgc < |g.strt|
  {}

  lemma SweepBucketKeeps(g: Gc)
    requires Inv(g) && g.phase.SweepString?
    ensures Inv(SweepBucket(g)) && Preserves(g, SweepBucket(g)) && DeadStays(g, SweepBucket(g))
  {
    hide StringTable, PhaseOk, OpenUpvals, LiveClosed, Preserves, Colours, TextOf, UpvalOf, ListOf, Depth, Rooted,
         SweepBucket, SweepMarks, Doomed, SameKind, DeadStays;
    assert |g.strt| > 0 && g.sweepstrgc < |g.strt| by { SweepBucketStart(g); }
    var b, r := g.sweepstrgc, SweepBucket(g);
    SweepBucketFields(g);
    SweptBucketStrings(g);
    SweepBucketPhase(g);
    WithoutStrings(g.heap, Doomed(g, g.strt[b]));
    OpenUpvalsFrame(g, r);
    SweptMarksColours(g, g.strt[b], r);
    SweepPreserves(g, r, g.strt[b]);
  }

  lemma StringsAreNotThreads(g: Gc, d: set<Ref>)
    requires forall o :: o in d ==> TextOf(g.heap, o).Some?
    ensures forall o :: o in d ==> o in g.heap && !g.heap[o].Thread?
  {}

  /** A sweep of `xs` frees only doomed objects, and every other object keeps its content. */
  lemma SweepPreserves(g: Gc, r: Gc, xs: seq<Ref>)
    requires Basics(g) && LiveClosed(g)
    requires r.marked == SweepMarks(g, xs) && r.heap.Keys == r.marked.Keys
    requires r.mainthread == g.mainthread && r.running == g.running && r.registry == g.registry && r.mt == g.mt
    requires r.held == g.held && r.currentwhite == g.currentwhite && r.next == g.next
    requires g.mainthread !in Doomed(g, xs)
    requires forall o :: o in r.heap && !Dead(g, o) ==> Content(r.heap, o) == Content(g.heap, o)
    requires forall o :: o in r.heap ==> o in g.heap && SameKind(g.heap[o], r.heap[o])
    ensures Preserves(g, r) && DeadStays(g, r) && LiveClosed(r)
  {
    assert IsRoot(g, g.mainthread) && LiveRef(g, g.mainthread);
    forall o | LiveRef(r, o) ensures LiveRef(g, o) || Content(r.heap, o) == [] {
      if Dead(g, o) {
        assert o in xs && g.marked[o].fixed;
        assert g.heap[o].Str?;
      }
    }
    assert Preserves(g, r);
    PreservesLiveClosed(g, r);
  }

  // ---------- sweeping the open upvalues of a thread ----------

  lemma WithoutUpvals(h: map<Ref, Object>, t: Ref, d: set<Ref>, h': map<Ref, Object>)
    requires t in h && h[t].Thread? && forall u :: u in d ==> UpvalOf(h, u).At?
    requires h' == h[t := h[t].(openupval := Keep(h[t].openupval, d))] - d
    ensures forall o :: TextOf(h', o) == TextOf(h, o)
    ensures forall o :: UpvalOf(h', o) == if o in d then NoSlot else UpvalOf(h, o)
    ensures forall o :: o != t ==> ListOf(h', o) == ListOf(h, o)
    ensures ListOf(h, t) == Some(h[t].openupval) && ListOf(h', t) == Some(Keep(h[t].openupval, d))
    ensures forall o :: Depth(h', o) == Depth(h, o)
    ensures forall o :: Rooted(h', o) == Rooted(h, o)
  {}

  lemma WithoutUpvalsContent(h: map<Ref, Object>, t: Ref, d: set<Ref>, h': map<Ref, Object>)
    requires t in h && h[t].Thread? && forall u :: u in d ==> UpvalOf(h, u).At?
    requires h' == h[t := h[t].(openupval := Keep(h[t].openupval, d))] - d
    ensures forall o :: o in h' ==> o in h && SameKind(h[o], h'[o]) && Content(h', o) == Content(h, o)
  {
    assert forall y, slot :: OnStack(h', y, slot) <==> OnStack(h, y, slot);
  }

  lemma OpenDoomed(g: Gc, t: Ref)
    requires OpenUpvals(g) && t in g.heap && g.heap[t].Thread?
    ensures forall u :: u in Doomed(g, g.heap[t].openupval) ==> OpenFor(g.heap, u, t)
  {
    assert ListOf(g.heap, t) == Some(g.heap[t].openupval);
    assert OpenList(g.heap, t, g.heap[t].openupval);
  }

  lemma OpenInList(g: Gc, t: Ref, us: seq<Ref>)
    requires OpenUpvals(g) && ListOf(g.heap, t) == Some(us)
    ensures forall u :: u in us ==> OpenFor(g.heap, u, t)
  {
    hide ListOf, UpvalOf, Depth;
    assert OpenList(g.heap, t, us);
  }

  lemma SweepOpenFields(g: Gc, t: Ref)
    requires Basics(g) && OpenUpvals(g) && t in g.heap && g.heap[t].Thread?
    ensures var r, us := SweepOpen(g, t), g.heap[t].openupval;
            && r == g.(heap := r.heap, marked := SweepMarks(g, us), uvhead := Keep(g.uvhead, Doomed(g, us)))
            && r.heap == g.heap[t := g.heap[t].(openupval := Keep(us, Doomed(g, us)))] - Doomed(g, us)
            && r.heap.Keys == r.marked.Keys
            && (forall o :: o in Doomed(g, us) ==> UpvalOf(g.heap, o).At?)
            && t !in Doomed(g, us) && g.mainthread !in Doomed(g, us) && g.running !in Doomed(g, us)
  {
    OpenDoomed(g, t);
  }

  lemma SweepOpenLists(g: Gc, t: Ref, us: seq<Ref>, d: set<Ref>, r: Gc)
    requires OpenUpvals(g) && ListOf(g.heap, t) == Some(us) && d <= (set u | u in us)
    requires forall o :: UpvalOf(r.heap, o) == if o in d then NoSlot else UpvalOf(g.heap, o)
    requires forall o :: o != t ==> ListOf(r.heap, o) == ListOf(g.heap, o)
    requires ListOf(r.heap, t) == Some(Keep(us, d))
    requires forall o :: Depth(r.heap, o) == Depth(g.heap, o)
    requires r.uvhead == Keep(g.uvhead, d)
    ensures OpenUpvals(r)
  {
    hide ListOf, UpvalOf, Depth;
    OpenInList(g, t, us);
    KeepNoDup(g.uvhead, d);
    forall y | ListOf(r.heap, y).Some? ensures OpenList(r.heap, y, ListOf(r.heap, y).value) {
      var ys := ListOf(g.heap, y).value;
      assert OpenList(g.heap, y, ys);
      OpenInList(g, y, ys);
      if y == t {
        KeepOpenList(g.heap, r.heap, t, us, d);
      } else {
        assert forall u :: u in ys ==> u !in d && OpenFor(r.heap, u, y) && SlotOf(r.heap, u) == SlotOf(g.heap, u);
        assert Decreasing(r.heap, ys) by {
          forall i, j | 0 <= i < j < |ys| ensures SlotOf(r.heap, ys[i]) > SlotOf(r.heap, ys[j]) {
            assert ys[i] in ys && ys[j] in ys;
            assert SlotOf(g.heap, ys[i]) > SlotOf(g.heap, ys[j]);
          }
        }
      }
    }
  }

  lemma SweepOpenPhase(g: Gc, t: Ref, r: Gc)
    requires Shape(g) && PhaseOk(g) && g.phase.Sweep? && t in g.heap && g.heap[t].Thread?
    requires r == SweepOpen(g, t)
    ensures PhaseOk(r)
    ensures t in r.heap && r.heap[t].Thread? && forall u :: u in r.heap[t].openupval ==> CurrentWhite(r, u)
  {
    hide TextOf, StringTable, OpenUpvals, Colours, ListOf, UpvalOf, Rooted, Depth;
    var us := g.heap[t].openupval;
    var d := Doomed(g, us);
    SweepOpenFields(g, t);
    WithoutUpvals(g.heap, t, d, r.heap);
    assert r.heap[t].openupval == Keep(us, d) by { ThreadList(r.heap, t); }
    assert forall o :: CurrentWhite(g, o) ==> o !in d && CurrentWhite(r, o);
    forall u | u in Keep(us, d) ensures CurrentWhite(r, u) {
      OpenInList(g, t, us);
      OpenInHeap(g, u, t);
    }
    forall i | 0 <= i < r.sweepgc ensures Swept(r, r.rootgc[i]) {
      assert Swept(g, g.rootgc[i]);
    }
  }

  lemma ThreadList(h: map<Ref, Object>, t: Ref)
    requires ListOf(h, t).Some?
    ensures t in h && h[t].Thread? && h[t].openupval == ListOf(h, t).value
  {}

  lemma SweepOpenKeeps(g: Gc, t: Ref)
    requires Inv(g) && g.phase.Sweep? && t in g.heap && g.heap[t].Thread?
    ensures var r := SweepOpen(g, t);
            && Inv(r) && Preserves(g, r) && DeadStays(g, r)
            && t in r.heap && r.heap[t].Thread? && r.marked[t] == g.marked[t]
            && (forall u :: u in r.heap[t].openupval ==> CurrentWhite(r, u))
  {
    hide StringTable, PhaseOk, OpenUpvals, LiveClosed, Preserves, Colours, TextOf, UpvalOf, ListOf, Depth, Rooted,
         SweepOpen, SweepMarks, Doomed, SameKind, DeadStays;
    var r, us := SweepOpen(g, t), g.heap[t].openupval;
    var d := Doomed(g, us);
    SweepOpenFields(g, t);
    WithoutUpvals(g.heap, t, d, r.heap);
    WithoutUpvalsContent(g.heap, t, d, r.heap);
    StringTableFrame(g, r);
    SweepOpenLists(g, t, us, d, r) by { DoomedInside(g, us); }
    SweptMarksColours(g, us, r);
    SweepPreserves(g, r, us);
    SweepOpenPhase(g, t, r);
    ThreadMarkKept(g, t, us, d);
  }

  lemma DoomedInside(g: Gc, us: seq<Ref>)
    ensures Doomed(g, us) <= set u | u in us
  {}

  lemma ThreadMarkKept(g: Gc, t: Ref, us: seq<Ref>, d: set<Ref>)
    requires Basics(g) && OpenUpvals(g) && t in g.heap && g.heap[t].Thread? && us == g.heap[t].openupval && d == Doomed(g, us)
    ensures t in SweepMarks(g, us) && SweepMarks(g, us)[t] == g.marked[t]
  {
    assert ListOf(g.heap, t) == Some(us);
    OpenInList(g, t, us);
  }

  // ---------- one element of `rootgc` ----------

  ghost function Whitened(g: Gc, o: Ref): Gc
    requires o in g.marked
  {
    g.(marked := g.marked[o := MakeWhite(g.currentwhite, g.marked[o])], sweepgc := g.sweepgc + 1)
  }

  lemma AtSweep(g: Gc)
    requires RootList(g) && Basics(g) && g.sweepgc < |g.rootgc|
    ensures Rooted(g.heap, g.rootgc[g.sweepgc]) && g.rootgc[g.sweepgc] in g.heap && g.rootgc[g.sweepgc] in g.marked
  {
    assert g.rootgc[g.sweepgc] in g.rootgc;
  }

  lemma SurvivorIsLive(g: Gc, o: Ref)
    requires Basics(g) && LiveClosed(g) && Rooted(g.heap, o) && Survives(g.currentwhite, g.marked[o])
    ensures LiveRef(g, o)
  {
    assert IsRoot(g, g.mainthread) && LiveRef(g, g.mainthread);
  }

  lemma WhitenedPhase(g: Gc, o: Ref)
    requires Basics(g) && PhaseOk(g) && g.phase.Sweep? && g.sweepgc < |g.rootgc| && o == g.rootgc[g.sweepgc]
    requires o in g.marked
    requires ListOf(g.heap, o).Some? ==> forall u :: u in ListOf(g.heap, o).value ==> CurrentWhite(g, u)
    ensures PhaseOk(Whitened(g, o))
  {
    hide ListOf;
    var r := Whitened(g, o);
    assert forall x :: CurrentWhite(g, x) ==> CurrentWhite(r, x);
    forall i | 0 <= i < r.sweepgc ensures Swept(r, r.rootgc[i]) {
      if i < g.sweepgc { assert Swept(g, g.rootgc[i]); }
    }
  }

  lemma WhitenedKeeps(g: Gc, o: Ref)
    requires Inv(g) && g.phase.Sweep? && g.sweepgc < |g.rootgc| && o == g.rootgc[g.sweepgc]
    requires o in g.marked && Survives(g.currentwhite, g.marked[o])
    requires ListOf(g.heap, o).Some? ==> forall u :: u in ListOf(g.heap, o).value ==> CurrentWhite(g, u)
    ensures Inv(Whitened(g, o)) && Preserves(g, Whitened(g, o)) && DeadStays(g, Whitened(g, o))
  {
    hide StringTable, PhaseOk, OpenUpvals, LiveClosed, TextOf, UpvalOf, ListOf, Depth, Rooted, RootList;
    var r := Whitened(g, o);
    AtSweep(g);
    SurvivorIsLive(g, o);
    WhitenedPhase(g, o);
    StringTableFrame(g, r);
    OpenUpvalsFrame(g, r);
    assert RootList(r) by { RootListSame(g, r); }
    assert forall x :: LiveRef(r, x) <==> LiveRef(g, x);
    PreservesLiveClosed(g, r);
  }

  lemma RootListSame(g: Gc, r: Gc)
    requires RootList(g) && r.rootgc == g.rootgc && r.heap == g.heap
    ensures RootList(r)
  {}

  // ---------- freeing ----------

  lemma {:induction false} KeepPrefix(xs: seq<Ref>, gone: set<Ref>, n: nat)
    requires n <= |xs| && forall i :: 0 <= i < n ==> xs[i] !in gone
    ensures n <= |Keep(xs, gone)| && forall i :: 0 <= i < n ==> Keep(xs, gone)[i] == xs[i]
  {
    if n > 0 {
      forall i | 0 <= i < n - 1 ensures xs[1..][i] !in gone { assert xs[1..][i] == xs[i + 1]; }
      KeepPrefix(xs[1..], gone, n - 1);
    }
  }

  lemma {:induction false} KeepLength(xs: seq<Ref>, gone: set<Ref>)
    ensures |Keep(xs, gone)| <= |xs|
    ensures (exists x :: x in xs && x in gone) ==> |Keep(xs, gone)| < |xs|
  {
    if xs != [] {
      KeepLength(xs[1..], gone);
      forall x | x in xs && x in gone ensures |Keep(xs, gone)| < |xs| {
        if x != xs[0] { assert x in xs[1..]; }
      }
    }
  }

  ghost function Dropped(g: Gc, o: Ref): Gc { Discard(Unlink(g, o), o) }

  /** An unreachable object with nothing attached to it. */
  ghost predicate Droppable(g: Gc, o: Ref) {
    && g.phase.Sweep? && o in g.heap && o in g.marked && Rooted(g.heap, o)
    && !Survives(g.currentwhite, g.marked[o])
    && (ListOf(g.heap, o).Some? ==> ListOf(g.heap, o).value == [])
  }

  lemma DroppedHeap(h: map<Ref, Object>, o: Ref)
    requires Rooted(h, o)
    ensures forall x :: TextOf(h - {o}, x) == TextOf(h, x)
    ensures forall x :: UpvalOf(h - {o}, x) == UpvalOf(h, x)
    ensures forall x :: ListOf(h - {o}, x) == if x == o then None else ListOf(h, x)
    ensures forall x :: x != o ==> Depth(h - {o}, x) == Depth(h, x)
    ensures forall x :: Rooted(h - {o}, x) <==> Rooted(h, x) && x != o
  {}

  lemma DroppedContent(h: map<Ref, Object>, o: Ref)
    requires forall u :: UpvalOf(h, u).At? ==> UpvalOf(h, u).thread != o
    ensures forall x :: x in h - {o} ==> Content(h - {o}, x) == Content(h, x)
  {
    var h' := h - {o};
    assert forall t, slot :: t != o ==> (OnStack(h', t, slot) <==> OnStack(h, t, slot));
    forall x | x in h' ensures Content(h', x) == Content(h, x) {
      if h[x].OpenUpval? { assert UpvalOf(h, x).At?; }
    }
  }

  lemma NoUpvalOf(g: Gc, o: Ref)
    requires OpenUpvals(g) && (ListOf(g.heap, o).Some? ==> ListOf(g.heap, o).value == [])
    ensures forall u :: UpvalOf(g.heap, u).At? ==> UpvalOf(g.heap, u).thread != o
  {
    hide ListOf, UpvalOf, Depth;
  }

  lemma DroppedOpenUpvals(g: Gc, o: Ref, r: Gc)
    requires OpenUpvals(g) && r.uvhead == g.uvhead
    requires forall u :: UpvalOf(g.heap, u).At? ==> UpvalOf(g.heap, u).thread != o
    requires forall x :: UpvalOf(r.heap, x) == UpvalOf(g.heap, x)
    requires forall x :: ListOf(r.heap, x) == if x == o then None else ListOf(g.heap, x)
    requires forall x :: x != o ==> Depth(r.heap, x) == Depth(g.heap, x)
    ensures OpenUpvals(r)
  {
    hide ListOf, UpvalOf, Depth;
    assert forall u, t :: OpenFor(g.heap, u, t) ==> OpenFor(r.heap, u, t);
    assert forall u :: SlotOf(r.heap, u) == SlotOf(g.heap, u);
    forall t | ListOf(r.heap, t).Some? ensures OpenList(r.heap, t, ListOf(r.heap, t).value) {
      assert OpenList(g.heap, t, ListOf(g.heap, t).value);
    }
  }

  lemma DroppedRoots(g: Gc, o: Ref, r: Gc)
    requires RootList(g) && r.rootgc == Keep(g.rootgc, {o})
    requires forall x :: Rooted(r.heap, x) <==> Rooted(g.heap, x) && x != o
    ensures RootList(r)
  {
    hide Rooted;
    KeepNoDup(g.rootgc, {o});
  }

  lemma NotSweptYet(g: Gc, o: Ref)
    requires PhaseOk(g) && Droppable(g, o)
    ensures forall i :: 0 <= i < g.sweepgc ==> g.rootgc[i] != o
  {
    forall i | 0 <= i < g.sweepgc ensures g.rootgc[i] != o {
      assert Swept(g, g.rootgc[i]);
    }
  }

  lemma DroppedPhase(g: Gc, o: Ref)
    requires Shape(g) && PhaseOk(g) && Droppable(g, o)
    ensures PhaseOk(Dropped(g, o))
  {
    hide TextOf, UpvalOf, Depth, StringTable, Colours;
    var r := Dropped(g, o);
    DroppedHeap(g.heap, o);
    NotSweptYet(g, o);
    KeepPrefix(g.rootgc, {o}, g.sweepgc);
    assert forall x :: CurrentWhite(g, x) ==> x != o && CurrentWhite(r, x);
    forall i | 0 <= i < r.sweepgc ensures Swept(r, r.rootgc[i]) {
      assert Swept(g, g.rootgc[i]);
    }
  }

  lemma DeadIsNoRoot(g: Gc, o: Ref)
    requires LiveClosed(g) && Dead(g, o)
    ensures o != g.mainthread && o != g.running
  {
    assert IsRoot(g, g.mainthread) && IsRoot(g, g.running);
    assert LiveRef(g, g.mainthread) && LiveRef(g, g.running);
  }

  lemma DroppedKeeps(g: Gc, o: Ref)
    requires Inv(g) && Droppable(g, o)
    ensures Inv(Dropped(g, o)) && Preserves(g, Dropped(g, o)) && DeadStays(g, Dropped(g, o))
  {
    hide StringTable, PhaseOk, OpenUpvals, LiveClosed, TextOf, UpvalOf, ListOf, Depth, Rooted, RootList;
    var r := Dropped(g, o);
    DroppedHeap(g.heap, o);
    NoUpvalOf(g, o);
    DroppedContent(g.heap, o);
    DroppedOpenUpvals(g, o, r);
    DroppedRoots(g, o, r);
    DroppedPhase(g, o);
    StringTableFrame(g, r);
    DeadIsNoRoot(g, o);
    assert forall x :: LiveRef(r, x) <==> LiveRef(g, x);
    PreservesLiveClosed(g, r);
  }

  /** Unlinking the thread before or after its upvalues are closed makes no difference. */
  lemma {:induction false} UnlinkCommutes(g: Gc, t: Ref)
    requires g.marked.Keys == g.heap.Keys && !g.phase.Propagate? && t in g.heap && g.heap[t].Thread?
    ensures CloseUpvals(Unlink(g, t), t, 0) == Unlink(CloseUpvals(g, t, 0), t)
    decreases |g.heap[t].openupval|
  {
    assert HasOpen(Unlink(g, t), t, 0) == HasOpen(g, t, 0);
    if HasOpen(g, t, 0) {
      CloseOneShape(g, t);
      UnlinkCommutesOnce(g, t);
      UnlinkCommutes(CloseOne(g, t), t);
    }
  }

  lemma LinkQuiet(g: Gc, u: Ref)
    requires g.marked.Keys == g.heap.Keys && u in g.heap && g.heap[u].ClosedUpval? && !g.phase.Propagate?
    ensures LinkUpval(g, u) ==
            g.(rootgc := [u] + g.rootgc, sweepgc := if g.sweepgc > 0 then g.sweepgc + 1 else g.sweepgc,
               marked := if Gray(g, u) then g.marked[u := MakeWhite(g.currentwhite, g.marked[u])] else g.marked)
  {
    hide Content, MarkValue;
    assert g.rootgc[..0] + [u] + g.rootgc[0..] == [u] + g.rootgc;
  }

  lemma LinkCommutes(g: Gc, u: Ref, t: Ref)
    requires g.marked.Keys == g.heap.Keys && u in g.heap && g.heap[u].ClosedUpval?
    requires !g.phase.Propagate? && u != t
    ensures LinkUpval(Unlink(g, t), u) == Unlink(LinkUpval(g, u), t)
    ensures LinkUpval(g, u).phase == g.phase
  {
    LinkQuiet(g, u);
    LinkQuiet(Unlink(g, t), u);
    hide LinkUpval, Content;
    assert ([u] + g.rootgc)[1..] == g.rootgc;
    assert Keep([u] + g.rootgc, {t}) == [u] + Keep(g.rootgc, {t});
  }

  lemma UnlinkCommutesOnce(g: Gc, t: Ref)
    requires g.marked.Keys == g.heap.Keys && !g.phase.Propagate? && HasOpen(g, t, 0)
    ensures HasOpen(Unlink(g, t), t, 0)
    ensures CloseOne(Unlink(g, t), t) == Unlink(CloseOne(g, t), t)
    ensures CloseOne(g, t).phase == g.phase
  {
    var u := g.heap[t].openupval[0];
    OpenUpvalIsOpen(g, t);
    var g1 := Unlinked(g, t);
    assert Unlinked(Unlink(g, t), t) == Unlink(g1, t);
    if !Dead(g, u) {
      var g2 := g1.(heap := g1.heap[u := ClosedUpval(g.heap[t].stack[g.heap[u].slot])]);
      hide LinkUpval, Keep;
      LinkCommutes(g2, u, t);
      assert CloseOne(g, t) == LinkUpval(g2, u);
      assert CloseOne(Unlink(g, t), t) == LinkUpval(Unlink(g2, t), u);
    }
  }

  lemma HeadIsIn(us: seq<Ref>)
    ensures us == [] || exists u :: u in us
  {
    if us != [] { assert us[0] in us; }
  }

  lemma AllClosed(g: Gc, t: Ref)
    requires OpenUpvals(g) && t in g.heap && g.heap[t].Thread?
    requires forall u :: OpenFor(g.heap, u, t) ==> SlotOf(g.heap, u) < 0
    ensures g.heap[t].openupval == []
  {
    var us := g.heap[t].openupval;
    assert ListOf(g.heap, t) == Some(us);
    HeadIsIn(us);
    OpenInList(g, t, us);
    assert forall u :: OpenFor(g.heap, u, t) ==> SlotOf(g.heap, u) >= 0;
  }

  lemma ThreadIsRooted(g: Gc, t: Ref)
    requires t in g.heap && g.heap[t].Thread?
    ensures Rooted(g.heap, t) && ListOf(g.heap, t) == Some(g.heap[t].openupval)
  {}

  lemma ClosedThreadKeeps(g: Gc, t: Ref)
    requires Inv(g) && g.phase.Sweep? && t in g.heap && g.heap[t].Thread?
    requires t in g.marked && !Survives(g.currentwhite, g.marked[t])
    ensures var r := CloseUpvals(g, t, 0);
            && Inv(r) && Preserves(g, r) && DeadStays(g, r) && Droppable(r, t)
  {
    hide StringTable, PhaseOk, LiveClosed, Colours, RootList, HasOpen, OpenUpvals, OpenFor;
    CloseKeeps(g, t, 0);
    var r := CloseUpvals(g, t, 0);
    AllClosed(r, t);
    ThreadIsRooted(r, t);
    ClosePhase(g, t, 0);
  }

  lemma {:induction false} ClosePhase(g: Gc, t: Ref, level: nat)
    requires g.marked.Keys == g.heap.Keys
    ensures CloseUpvals(g, t, level).phase == g.phase && CloseUpvals(g, t, level).strt == g.strt
    ensures CloseUpvals(g, t, level).sweepstrgc == g.sweepstrgc && CloseUpvals(g, t, level).hash == g.hash
    decreases if t in g.heap && g.heap[t].Thread? then |g.heap[t].openupval| else 0
  {
    if HasOpen(g, t, level) {
      CloseOneShape(g, t);
      CloseOneFields(g, t);
      ClosePhase(CloseOne(g, t), t, level);
    }
  }

  lemma FreeObjectKeeps(g: Gc, o: Ref)
    requires Inv(g) && g.phase.Sweep? && Rooted(g.heap, o)
    requires o in g.heap && o in g.marked && !Survives(g.currentwhite, g.marked[o])
    ensures var r := FreeObject(g, o); Inv(r) && Preserves(g, r) && DeadStays(g, r)
  {
    hide StringTable, PhaseOk, LiveClosed, Colours, RootList, OpenUpvals, Preserves, DeadStays;
    if g.heap[o].Thread? {
      UnlinkCommutes(g, o);
      ClosedThreadKeeps(g, o);
      var m := CloseUpvals(g, o, 0);
      assert FreeObject(g, o) == Dropped(m, o);
      DroppedKeeps(m, o);
      PreservesTransitive(g, m, Dropped(m, o));
      DeadStaysChain(g, m, Dropped(m, o));
    } else {
      assert FreeObject(g, o) == Dropped(g, o);
      DroppedKeeps(g, o);
    }
  }

  lemma DeadStaysChain(g: Gc, r: Gc, s: Gc)
    requires DeadStays(g, r) && DeadStays(r, s) && Preserves(g, r) && Preserves(r, s)
    requires Basics(r) && Basics(s)
    ensures DeadStays(g, s)
  {
    forall o | o in s.marked ensures o in r.marked { assert o in s.heap; }
    DeadStaysTransitive(g, r, s);
  }

  lemma SweepOneReady(g: Gc)
    requires Inv(g) && g.phase.Sweep? && g.sweepgc < |g.rootgc|
    ensures g.rootgc[g.sweepgc] in g.heap && g.rootgc[g.sweepgc] in g.marked && Rooted(g.heap, g.rootgc[g.sweepgc])
    ensures g.heap[g.rootgc[g.sweepgc]].Thread? ==>
              g.rootgc[g.sweepgc] !in Doomed(g, g.heap[g.rootgc[g.sweepgc]].openupval)
  {
    hide StringTable, PhaseOk, LiveClosed, Colours, SweepOpen;
    AtSweep(g);
    var o := g.rootgc[g.sweepgc];
    if g.heap[o].Thread? { SweepOpenFields(g, o); }
  }

  lemma SweepOneKeeps(g: Gc)
    requires Inv(g) && g.phase.Sweep? && g.sweepgc < |g.rootgc|
    ensures g.rootgc[g.sweepgc] in g.heap
    ensures g.heap[g.rootgc[g.sweepgc]].Thread? ==>
              g.rootgc[g.sweepgc] !in Doomed(g, g.heap[g.rootgc[g.sweepgc]].openupval)
    ensures var r := SweepOne(g); Inv(r) && Preserves(g, r) && DeadStays(g, r)
  {
    hide StringTable, PhaseOk, LiveClosed, Colours, RootList, OpenUpvals, Preserves, DeadStays, SweepOpen, FreeObject, Survives;
    SweepOneReady(g);
    var o := g.rootgc[g.sweepgc];
    var r := SweepOne(g);
    var g1 := if g.heap[o].Thread? then SweepOpen(g, o) else g;
    if g.heap[o].Thread? {
      SweepOpenKeeps(g, o);
      SweepOpenSame(g, o);
      ThreadIsRooted(g1, o);
    } else {
      PreservesReflexive(g);
    }
    if Survives(g1.currentwhite, g1.marked[o]) {
      assert r == Whitened(g1, o);
      WhitenedKeeps(g1, o);
    } else {
      FreeObjectKeeps(g1, o);
    }
    PreservesTransitive(g, g1, r);
    DeadStaysChain(g, g1, r);
  }

  lemma PreservesReflexive(g: Gc)
    ensures Preserves(g, g) && DeadStays(g, g)
  {}

  lemma SweepOpenSame(g: Gc, t: Ref)
    requires t in g.heap && g.heap[t].Thread?
    ensures var r := SweepOpen(g, t);
            r.rootgc == g.rootgc && r.sweepgc == g.sweepgc && r.phase == g.phase && r.currentwhite == g.currentwhite
  {}

  // ---------- a whole sweep step, and its progress ----------

  ghost predicate CanSweep(g: Gc) {
    && g.marked.Keys == g.heap.Keys
    && g.sweepgc < |g.rootgc| && g.rootgc[g.sweepgc] in g.heap
    && (g.heap[g.rootgc[g.sweepgc]].Thread? ==>
          g.rootgc[g.sweepgc] !in Doomed(g, g.heap[g.rootgc[g.sweepgc]].openupval))
  }

  /** `sweeplist` on `rootgc` with a bound on the number of elements (lgc.c:407-428). */
  ghost function SweepMany(g: Gc, count: nat): Gc
    decreases count
  {
    if count == 0 || !CanSweep(g) then g else SweepMany(SweepOne(g), count - 1)
  }

  lemma SweepManyUnfolds(g: Gc, count: nat)
    requires count > 0 && CanSweep(g)
    ensures SweepMany(g, count) == SweepMany(SweepOne(g), count - 1)
  {}

  ghost function Pending(g: Gc): int { 2 * |g.uvhead| + |g.rootgc| - g.sweepgc }

  lemma SweepOneCan(g: Gc)
    requires Inv(g) && g.phase.Sweep?
    ensures CanSweep(g) <==> g.sweepgc < |g.rootgc|
  {
    hide StringTable, PhaseOk, LiveClosed, Colours, RootList, OpenUpvals, Doomed;
    if g.sweepgc < |g.rootgc| { SweepOneReady(g); }
  }

  lemma CloseOneProgress(g: Gc, t: Ref)
    requires Inv(g) && HasOpen(g, t, 0)
    ensures Pending(CloseOne(g, t)) < Pending(g)
  {
    hide StringTable, PhaseOk, LiveClosed, Colours, CloseOne;
    var u := g.heap[t].openupval[0];
    CloseOneFields(g, t);
    CloseOneDetaches(g, t);
    assert u in g.uvhead;
    KeepLength(g.uvhead, {u});
  }

  lemma {:induction false} CloseProgress(g: Gc, t: Ref)
    requires Inv(g)
    ensures Pending(CloseUpvals(g, t, 0)) <= Pending(g)
    decreases if t in g.heap && g.heap[t].Thread? then |g.heap[t].openupval| else 0
  {
    if HasOpen(g, t, 0) {
      hide StringTable, PhaseOk, LiveClosed, Colours, OpenUpvals, RootList, CloseOne, Pending;
      CloseOneShape(g, t);
      CloseOneKeeps(g, t);
      CloseOneProgress(g, t);
      CloseProgress(CloseOne(g, t), t);
    }
  }

  lemma DropProgress(g: Gc, o: Ref)
    requires RootList(g) && Rooted(g.heap, o)
    ensures Pending(Dropped(g, o)) < Pending(g)
  {
    KeepLength(g.rootgc, {o});
  }

  lemma FreeProgress(g: Gc, o: Ref)
    requires Inv(g) && g.phase.Sweep? && Rooted(g.heap, o)
    requires o in g.heap && o in g.marked && !Survives(g.currentwhite, g.marked[o])
    ensures Pending(FreeObject(g, o)) < Pending(g)
  {
    hide StringTable, PhaseOk, LiveClosed, Colours, OpenUpvals, RootList, Pending;
    if g.heap[o].Thread? {
      UnlinkCommutes(g, o);
      ClosedThreadKeeps(g, o);
      CloseProgress(g, o);
      DropProgress(CloseUpvals(g, o, 0), o);
      assert FreeObject(g, o) == Dropped(CloseUpvals(g, o, 0), o);
    } else {
      DropProgress(g, o);
      assert FreeObject(g, o) == Dropped(g, o);
    }
  }

  lemma SweepOpenProgress(g: Gc, t: Ref)
    requires t in g.heap && g.heap[t].Thread?
    ensures Pending(SweepOpen(g, t)) <= Pending(g)
  {
    KeepLength(g.uvhead, Doomed(g, g.heap[t].openupval));
  }

  lemma SweepOneProgress(g: Gc)
    requires Inv(g) && g.phase.Sweep? && CanSweep(g)
    ensures Pending(SweepOne(g)) < Pending(g) && SweepOne(g).phase == Sweep
  {
    hide StringTable, PhaseOk, LiveClosed, Colours, RootList, OpenUpvals, Preserves, DeadStays, SweepOpen, FreeObject, Survives;
    var o := g.rootgc[g.sweepgc];
    SweepOneReady(g);
    var g1 := if g.heap[o].Thread? then SweepOpen(g, o) else g;
    if g.heap[o].Thread? {
      SweepOpenKeeps(g, o);
      SweepOpenSame(g, o);
      SweepOpenProgress(g, o);
      ThreadIsRooted(g1, o);
    }
    if !Survives(g1.currentwhite, g1.marked[o]) {
      FreeProgress(g1, o);
      FreePhase(g1, o);
    }
  }

  lemma FreePhase(g: Gc, o: Ref)
    requires g.marked.Keys == g.heap.Keys && o in g.heap
    ensures FreeObject(g, o).phase == g.phase
  {
    ClosePhase(Unlink(g, o), o, 0);
  }

  lemma {:induction false} SweepManyKeeps(g: Gc, count: nat)
    requires Inv(g) && g.phase.Sweep?
    ensures var r := SweepMany(g, count);
            && Inv(r) && Preserves(g, r) && DeadStays(g, r) && r.phase == Sweep
            && Pending(r) <= Pending(g)
            && (r.sweepgc < |r.rootgc| && count > 0 ==> Pending(r) < Pending(g))
    decreases count
  {
    hide StringTable, PhaseOk, LiveClosed, Colours, RootList, OpenUpvals, Preserves, DeadStays, SweepOne, CanSweep, Pending;
    SweepOneCan(g);
    PreservesReflexive(g);
    if count > 0 && CanSweep(g) {
      SweepOneKeeps(g);
      SweepOneProgress(g);
      SweepManyKeeps(SweepOne(g), count - 1);
      PreservesTransitive(g, SweepOne(g), SweepMany(g, count));
      DeadStaysChain(g, SweepOne(g), SweepMany(g, count));
    }
  }
}
