/**
  The string table (lstring.c), `luaF_findupval` (lfunc.c), and changes of the root set.
  */
module GcIntern {
  import opened GcState
  import opened GcMark
  import opened GcPropagate
  import opened GcInvariant
  import opened GcUpval
  import opened GcSweep
  import opened GcCollector
  import opened GcMutator

  // ---------- roots ----------

  lemma RootsChangeKeeps(g: Gc, r: Gc)
    requires Inv(g) && r == g.(mt := r.mt, running := r.running, held := r.held)
    requires r.running in g.heap && g.heap[r.running].Thread?
    requires forall o :: IsRoot(r, o) ==> IsRoot(g, o) || LiveRef(g, o)
    ensures Inv(r)
  {
    hide StringTable, OpenUpvals, RootList, Colours, TriColour;
    SameLists(g, r);
    assert forall o :: LiveRef(r, o) <==> LiveRef(g, o);
    assert LiveClosed(r) by {
      forall o | IsRoot(r, o) ensures LiveRef(r, o) { if IsRoot(g, o) { assert LiveRef(g, o); } }
      forall o, c | LiveRef(r, o) && Points(r.heap, o, c) ensures LiveRef(r, c) { assert LiveRef(g, o) && LiveRef(g, c); }
    }
    SamePhaseRoots(g, r);
  }

  lemma SamePhaseRoots(g: Gc, r: Gc)
    requires PhaseOk(g) && r == g.(mt := r.mt, running := r.running, held := r.held)
    ensures PhaseOk(r)
  {
    assert forall o :: CurrentWhite(g, o) <==> CurrentWhite(r, o);
    if g.phase.Propagate? {
      assert forall o :: ChildrenSeen(g, o) <==> ChildrenSeen(r, o);
      assert forall o :: Black(g, o) <==> Black(r, o);
      assert forall o :: Gray(g, o) <==> Gray(r, o);
    }
    if g.phase.Sweep? {
      forall i | 0 <= i < r.sweepgc ensures Swept(r, r.rootgc[i]) { assert Swept(g, g.rootgc[i]); }
    }
  }

  // ---------- bringing a dead object back (changewhite) ----------

  /** Strings and open upvalues found through a list may be dead; they become current white. */
  ghost function Resurrect(g: Gc, o: Ref): Gc
    requires o in g.marked
  {
    (if Dead(g, o) then g.(marked := g.marked[o := ChangeWhite(g.marked[o])]) else g).(held := g.held + {o})
  }

  lemma ResurrectPhase(g: Gc, o: Ref)
    requires PhaseOk(g) && Colours(g) && o in g.heap && o in g.marked && Dead(g, o)
    ensures var r := g.(marked := g.marked[o := ChangeWhite(g.marked[o])]); PhaseOk(r) && CurrentWhite(r, o) && Colours(r)
  {
    hide TriColour;
    var r := g.(marked := g.marked[o := ChangeWhite(g.marked[o])]);
    assert forall x :: CurrentWhite(g, x) ==> CurrentWhite(r, x);
    if g.phase.Propagate? { PropagateHasNoDead(g); }
    if g.phase.Sweep? {
      forall i | 0 <= i < r.sweepgc ensures Swept(r, r.rootgc[i]) { assert Swept(g, g.rootgc[i]); }
    }
  }

  lemma ResurrectKeeps(g: Gc, o: Ref)
    requires Inv(g) && o in g.heap && o in g.marked
    requires forall c :: Points(g.heap, o, c) ==> LiveRef(g, c)
    ensures Inv(Resurrect(g, o)) && LiveRef(Resurrect(g, o), o)
  {
    hide StringTable, OpenUpvals, RootList, Colours, PhaseOk;
    var g1 := if Dead(g, o) then g.(marked := g.marked[o := ChangeWhite(g.marked[o])]) else g;
    if Dead(g, o) {
      ResurrectPhase(g, o);
      SameLists1(g, g1);
      assert forall x :: x != o ==> (LiveRef(g1, x) <==> LiveRef(g, x));
      assert LiveRef(g1, o);
      assert LiveClosed(g1) by {
        forall x | IsRoot(g1, x) ensures LiveRef(g1, x) { assert IsRoot(g, x) && LiveRef(g, x); }
        forall x, c | LiveRef(g1, x) && Points(g1.heap, x, c) ensures LiveRef(g1, c) {
          if x != o { assert LiveRef(g, x); }
          assert LiveRef(g, c);
        }
      }
    }
    RootsChangeKeeps(g1, Resurrect(g, o));
  }

  lemma SameLists1(g: Gc, r: Gc)
    requires StringTable(g) && OpenUpvals(g) && RootList(g)
    requires r.heap == g.heap && r.strt == g.strt && r.hash == g.hash && r.uvhead == g.uvhead && r.rootgc == g.rootgc
    ensures StringTable(r) && OpenUpvals(r) && RootList(r)
  {
    StringTableFrame(g, r);
    OpenUpvalsFrame(g, r);
  }

  // ---------- luaS_newlstr ----------

  ghost predicate Interned(g: Gc, text: string) { exists o :: TextOf(g.heap, o) == Some(text) }

  ghost function StringNamed(g: Gc, text: string): (o: Ref)
    requires Interned(g, text)
    ensures TextOf(g.heap, o) == Some(text)
  {
    var o :| TextOf(g.heap, o) == Some(text);
    o
  }

  ghost function NewString(g: Gc, text: string): Gc
    requires |g.strt| > 0
  {
    var o, b := g.next, Bucket(g, text);
    g.(heap := g.heap[o := Str(text)], marked := g.marked[o := LuaCWhite(g.currentwhite)],
       strt := g.strt[b := [o] + g.strt[b]], held := g.held + {o}, next := o + 1)
  }

  /** `luaS_newlstr` (lstring.c:75-93): the string of that content, new or already there. */
  ghost function Intern(g: Gc, text: string): Gc
    requires g.marked.Keys == g.heap.Keys && |g.strt| > 0
  {
    if Interned(g, text) then Resurrect(g, StringNamed(g, text)) else NewString(g, text)
  }

  lemma NewStringHeap(g: Gc, text: string)
    requires g.next !in g.heap
    ensures var h, o := g.heap[g.next := Str(text)], g.next;
            && (forall y :: TextOf(h, y) == (if y == o then Some(text) else TextOf(g.heap, y)))
            && (forall y :: UpvalOf(h, y) == UpvalOf(g.heap, y))
            && (forall y :: ListOf(h, y) == ListOf(g.heap, y))
            && (forall y :: Depth(h, y) == Depth(g.heap, y))
            && (forall y :: Rooted(h, y) <==> Rooted(g.heap, y))
  {}

  lemma NewStringTable(g: Gc, text: string)
    requires StringTable(g) && g.next !in g.heap && !Interned(g, text)
    ensures StringTable(NewString(g, text))
  {
    var r, o, b := NewString(g, text), g.next, Bucket(g, text);
    NewStringHeap(g, text);
    NotText(g, o);
    hide TextOf;
    assert forall x :: Bucket(r, x) == Bucket(g, x);
    assert forall c :: 0 <= c < |g.strt| ==> o !in g.strt[c];
    forall c | 0 <= c < |r.strt| ensures NoDup(r.strt[c]) {}
    forall c, x | 0 <= c < |r.strt| && x in r.strt[c] ensures TextOf(r.heap, x).Some? && Bucket(r, TextOf(r.heap, x).value) == c {
      if x != o { assert x in g.strt[c]; }
    }
  }

  lemma NotText(g: Gc, o: Ref)
    requires o !in g.heap
    ensures TextOf(g.heap, o) == None
  {}

  lemma NewStringPhase(g: Gc, text: string)
    requires Shape(g) && PhaseOk(g)
    requires forall y :: y in g.heap ==> Content(NewString(g, text).heap, y) == Content(g.heap, y)
    ensures PhaseOk(NewString(g, text))
  {
    var r, o := NewString(g, text), g.next;
    FreshRef(g);
    NewStringHeap(g, text);
    hide TextOf, UpvalOf, ListOf, Depth, Rooted, OpenUpvals, TriColour, Colours;
    assert forall y :: CurrentWhite(g, y) ==> CurrentWhite(r, y);
    assert CurrentWhite(r, o);
    match g.phase
    case Propagate => GrownTriColour(g, o, Str(text), r);
    case Sweep =>
      forall i | 0 <= i < r.sweepgc ensures Swept(r, r.rootgc[i]) { assert Swept(g, g.rootgc[i]); }
    case _ =>
  }

  lemma NewStringKeeps(g: Gc, text: string)
    requires Inv(g) && !Interned(g, text)
    ensures |g.strt| > 0 && Inv(NewString(g, text)) && LiveRef(NewString(g, text), g.next)
  {
    TableNotEmpty(g);
    var r, o := NewString(g, text), g.next;
    FreshRef(g);
    NewStringHeap(g, text);
    GrownContent(g, o, Str(text), r);
    NewStringTable(g, text);
    hide StringTable, OpenUpvals, TextOf, UpvalOf, ListOf, Depth, Rooted, LiveClosed, PhaseOk, Colours, Interned;
    NewStringPhase(g, text);
    GrownLive(g, o, Str(text), r);
    GrownBasics(g, o, Str(text), r);
    OpenUpvalsFrame(g, r);
  }

  lemma InternedInHeap(g: Gc, text: string)
    requires Interned(g, text) && g.marked.Keys == g.heap.Keys
    ensures StringNamed(g, text) in g.heap && StringNamed(g, text) in g.marked
    ensures forall c :: !Points(g.heap, StringNamed(g, text), c)
  {}

  lemma InternKeeps(g: Gc, text: string)
    requires Inv(g)
    ensures |g.strt| > 0 && g.marked.Keys == g.heap.Keys && Inv(Intern(g, text))
  {
    hide Inv, Resurrect, NewString, Interned;
    InvParts(g);
    InvTable(g);
    if Interned(g, text) {
      InternedInHeap(g, text);
      ResurrectKeeps(g, StringNamed(g, text));
    } else {
      NewStringKeeps(g, text);
    }
  }

  lemma InvTable(g: Gc)
    requires Inv(g)
    ensures StringTable(g) && |g.strt| > 0
  {}

  /** Interning the same content twice in a row gives the same object, and different content different ones. */
  lemma InternIsInjective(g: Gc, o: Ref, o': Ref)
    requires Inv(g) && TextOf(g.heap, o).Some? && TextOf(g.heap, o').Some?
    ensures o == o' <==> TextOf(g.heap, o) == TextOf(g.heap, o')
  {}

  // ---------- luaS_resize ----------

  /** Move the strings of one old bucket to the heads of their new buckets. */
  ghost function Rechain(g: Gc, table: seq<seq<Ref>>, xs: seq<Ref>): (r: seq<seq<Ref>>)
    requires |table| > 0
    ensures |r| == |table|
    decreases |xs|
  {
    if xs == [] then table
    else
      var b := (if TextOf(g.heap, xs[0]).Some? then g.hash(TextOf(g.heap, xs[0]).value) else 0) % |table|;
      Rechain(g, table[b := [xs[0]] + table[b]], xs[1..])
  }

  ghost function RechainAll(g: Gc, table: seq<seq<Ref>>, n: nat): (r: seq<seq<Ref>>)
    requires |table| > 0 && n <= |g.strt|
    ensures |r| == |table|
  {
    if n == 0 then table else Rechain(g, RechainAll(g, table, n - 1), g.strt[n - 1])
  }

  /** `luaS_resize` (lstring.c:22-47): nothing happens while the table is being swept. */
  ghost function ResizeStrings(g: Gc, size: nat): Gc
    requires size > 0
  {
    if g.phase.SweepString? then g
    else g.(strt := RechainAll(g, seq(size, _ => []), |g.strt|))
  }

  ghost function NewBucket(g: Gc, size: nat, o: Ref): nat
    requires size > 0
  {
    (if TextOf(g.heap, o).Some? then g.hash(TextOf(g.heap, o).value) else 0) % size
  }

  /** The table holds exactly the strings of `moved`, each in its bucket and once. */
  ghost predicate Holds(g: Gc, table: seq<seq<Ref>>, moved: set<Ref>) {
    && |table| > 0
    && (forall b :: 0 <= b < |table| ==> NoDup(table[b]))
    && (forall b, o :: 0 <= b < |table| && o in table[b] ==> o in moved && NewBucket(g, |table|, o) == b)
    && (forall o :: o in moved ==> o in table[NewBucket(g, |table|, o)])
  }

  lemma {:induction false} RechainHolds(g: Gc, table: seq<seq<Ref>>, xs: seq<Ref>, moved: set<Ref>)
    requires Holds(g, table, moved) && NoDup(xs) && forall x :: x in xs ==> x !in moved
    ensures Holds(g, Rechain(g, table, xs), moved + Elements(xs))
    decreases |xs|
  {
    hide TextOf;
    if xs == [] {
      assert moved + Elements(xs) == moved;
    } else {
      var o := xs[0];
      var b := NewBucket(g, |table|, o);
      var t1 := table[b := [o] + table[b]];
      assert Holds(g, t1, moved + {o}) by {
        forall c, x | 0 <= c < |t1| && x in t1[c] ensures x in moved + {o} && NewBucket(g, |t1|, x) == c {
          if x != o { assert x in table[c]; }
        }
        forall x | x in moved + {o} ensures x in t1[NewBucket(g, |t1|, x)] {
          if x != o { assert x in table[NewBucket(g, |table|, x)]; }
        }
      }
      assert forall x :: x in xs[1..] ==> x in xs && x != o;
      RechainHolds(g, t1, xs[1..], moved + {o});
      assert moved + {o} + Elements(xs[1..]) == moved + Elements(xs);
    }
  }

  ghost function Elements(xs: seq<Ref>): set<Ref> { set x | x in xs }

  ghost function InBuckets(g: Gc, n: nat): set<Ref>
    requires n <= |g.strt|
  {
    if n == 0 then {} else InBuckets(g, n - 1) + Elements(g.strt[n - 1])
  }

  lemma {:induction false} InBucketsMembers(g: Gc, n: nat)
    requires n <= |g.strt|
    ensures forall o :: o in InBuckets(g, n) <==> exists b :: 0 <= b < n && o in g.strt[b]
  {
    if n > 0 { InBucketsMembers(g, n - 1); }
  }

  lemma {:induction false} RechainAllHolds(g: Gc, table: seq<seq<Ref>>, n: nat)
    requires StringTable(g) && n <= |g.strt| && Holds(g, table, {})
    ensures Holds(g, RechainAll(g, table, n), InBuckets(g, n))
  {
    hide TextOf;
    if n > 0 {
      RechainAllHolds(g, table, n - 1);
      InBucketsMembers(g, n - 1);
      var xs := g.strt[n - 1];
      forall x | x in xs ensures x !in InBuckets(g, n - 1) {
        assert Bucket(g, TextOf(g.heap, x).value) == n - 1;
      }
      RechainHolds(g, RechainAll(g, table, n - 1), g.strt[n - 1], InBuckets(g, n - 1));
    }
  }

  lemma HoldsAll(g: Gc, r: Gc, moved: set<Ref>)
    requires StringTable(g) && r == g.(strt := r.strt) && Holds(g, r.strt, moved)
    requires forall o :: o in moved <==> TextOf(g.heap, o).Some?
    ensures StringTable(r)
  {
    hide TextOf;
  }

  lemma AllStrings(g: Gc)
    requires StringTable(g)
    ensures forall o :: o in InBuckets(g, |g.strt|) <==> TextOf(g.heap, o).Some?
  {
    hide TextOf;
    InBucketsMembers(g, |g.strt|);
    forall o | TextOf(g.heap, o).Some? ensures o in InBuckets(g, |g.strt|) {
      assert o in g.strt[Bucket(g, TextOf(g.heap, o).value)];
    }
  }

  lemma ResizedTable(g: Gc, size: nat)
    requires StringTable(g) && size > 0
    ensures StringTable(ResizeStrings(g, size))
  {
    hide StringTable;
    if !g.phase.SweepString? {
      var empty: seq<seq<Ref>> := seq(size, _ => []);
      assert Holds(g, empty, {});
      RechainAllHolds(g, empty, |g.strt|);
      AllStrings(g);
      HoldsAll(g, ResizeStrings(g, size), InBuckets(g, |g.strt|));
    }
  }

  lemma ResizePhase(g: Gc, size: nat)
    requires Shape(g) && PhaseOk(g) && size > 0 && StringTable(ResizeStrings(g, size))
    ensures PhaseOk(ResizeStrings(g, size))
  {
    hide TextOf, OpenUpvals, RootList, Colours;
    var r := ResizeStrings(g, size);
    if g.phase.Propagate? {
      assert forall o :: ChildrenSeen(g, o) <==> ChildrenSeen(r, o);
      assert forall o :: Black(g, o) <==> Black(r, o);
      assert forall o :: Gray(g, o) <==> Gray(r, o);
    }
    if g.phase.Sweep? {
      forall i | 0 <= i < r.sweepgc ensures Swept(r, r.rootgc[i]) { assert Swept(g, g.rootgc[i]); }
      forall b, o | 0 <= b < |r.strt| && o in r.strt[b] ensures CurrentWhite(r, o) {
        assert TextOf(r.heap, o).Some?;
        assert o in g.strt[Bucket(g, TextOf(g.heap, o).value)];
        assert CurrentWhite(g, o);
      }
    }
  }

  lemma ResizeKeeps(g: Gc, size: nat)
    requires Inv(g) && size > 0
    ensures Inv(ResizeStrings(g, size))
  {
    hide StringTable, OpenUpvals, RootList, Colours, PhaseOk;
    var r := ResizeStrings(g, size);
    ResizedTable(g, size);
    ResizePhase(g, size);
    if !g.phase.SweepString? {
      OpenUpvalsFrame(g, r);
      RootListSame(g, r);
      assert Colours(r) by { SameColours(g, r); }
      assert LiveClosed(r) by {
        forall o | IsRoot(r, o) ensures LiveRef(r, o) { assert IsRoot(g, o) && LiveRef(g, o); }
        forall o, c | LiveRef(r, o) && Points(r.heap, o, c) ensures LiveRef(r, c) { assert LiveRef(g, o) && LiveRef(g, c); }
      }
    }
  }

  lemma SameColours(g: Gc, r: Gc)
    requires Colours(g) && r.marked == g.marked && r.heap == g.heap
    ensures Colours(r)
  {}
}
