/**
  The invariant that holds between any two steps of the collector and the mutator: how objects are
  linked into lists, the open upvalues of each thread, the string table, and the colours each phase
  allows.
  */
module GcInvariant {
  import opened GcState
  import opened GcMark
  import opened GcPropagate

  datatype Option<T> = None | Some(value: T)

  /** The kinds that live in the `rootgc` list. */
  predicate InRootList(x: Object) { !x.Str? && !x.OpenUpval? }

  ghost predicate Rooted(h: map<Ref, Object>, o: Ref) { o in h && InRootList(h[o]) }

  // ---------- the string table ----------

  ghost function TextOf(h: map<Ref, Object>, o: Ref): Option<string> {
    if o in h && h[o].Str? then Some(h[o].text) else None
  }

  ghost function Bucket(g: Gc, text: string): nat
    requires |g.strt| > 0
  {
    g.hash(text) % |g.strt|
  }

  /** Each string is in the bucket its hash selects, once, and equal content means equal object. */
  ghost predicate StringTable(g: Gc) {
    && |g.strt| > 0
    && (forall b :: 0 <= b < |g.strt| ==> NoDup(g.strt[b]))
    && (forall b, o :: 0 <= b < |g.strt| && o in g.strt[b] ==>
          TextOf(g.heap, o).Some? && Bucket(g, TextOf(g.heap, o).value) == b)
    && (forall o :: TextOf(g.heap, o).Some? ==> o in g.strt[Bucket(g, TextOf(g.heap, o).value)])
    && (forall o, o' :: TextOf(g.heap, o).Some? && TextOf(g.heap, o) == TextOf(g.heap, o') ==> o == o')
  }

  // ---------- open upvalues ----------

  datatype Slot = NoSlot | At(thread: Ref, slot: nat)

  ghost function UpvalOf(h: map<Ref, Object>, u: Ref): Slot {
    if u in h && h[u].OpenUpval? then At(h[u].thread, h[u].slot) else NoSlot
  }

  ghost function ListOf(h: map<Ref, Object>, t: Ref): Option<seq<Ref>> {
    if t in h && h[t].Thread? then Some(h[t].openupval) else None
  }

  ghost function Depth(h: map<Ref, Object>, t: Ref): nat {
    if t in h && h[t].Thread? then |h[t].stack| else 0
  }

  ghost predicate OpenFor(h: map<Ref, Object>, u: Ref, t: Ref) {
    && UpvalOf(h, u).At?
    && UpvalOf(h, u).thread == t && UpvalOf(h, u).slot < Depth(h, t)
  }

  ghost function SlotOf(h: map<Ref, Object>, u: Ref): int {
    if UpvalOf(h, u).At? then UpvalOf(h, u).slot else -1
  }

  ghost predicate Decreasing(h: map<Ref, Object>, us: seq<Ref>) {
    forall i, j :: 0 <= i < j < |us| ==> SlotOf(h, us[i]) > SlotOf(h, us[j])
  }

  /** A thread's open upvalues: strictly decreasing by slot, hence one upvalue per slot. */
  ghost predicate OpenList(h: map<Ref, Object>, t: Ref, us: seq<Ref>) {
    && (forall u :: u in us ==> OpenFor(h, u, t))
    && Decreasing(h, us)
  }

  ghost predicate OpenUpvals(g: Gc) {
    && (forall t :: ListOf(g.heap, t).Some? ==> OpenList(g.heap, t, ListOf(g.heap, t).value))
    && (forall u :: UpvalOf(g.heap, u).At? ==>
          && OpenFor(g.heap, u, UpvalOf(g.heap, u).thread)
          && ListOf(g.heap, UpvalOf(g.heap, u).thread).Some?
          && u in ListOf(g.heap, UpvalOf(g.heap, u).thread).value)
    && NoDup(g.uvhead)
    && (forall u :: u in g.uvhead <==> UpvalOf(g.heap, u).At?)
  }

  ghost predicate RootList(g: Gc) {
    NoDup(g.rootgc) && forall o :: o in g.rootgc <==> Rooted(g.heap, o)
  }

  ghost predicate Basics(g: Gc) {
    && g.marked.Keys == g.heap.Keys
    && (forall o :: o in g.heap ==> o < g.next)
    && (forall o :: o in g.marked && g.marked[o].fixed ==> o in g.heap && (g.heap[o].Str? || o == g.mainthread))
    && g.mainthread in g.heap && g.heap[g.mainthread].Thread?
    && g.running in g.heap && g.heap[g.running].Thread?
  }

  /** At most one of the two whites and black; open upvalues are never black. */
  ghost predicate Colours(g: Gc) {
    forall o :: o in g.marked && o in g.heap ==>
      && !(g.marked[o].white0 && g.marked[o].white1)
      && !(IsWhite(g.marked[o]) && g.marked[o].black)
      && !(g.heap[o].OpenUpval? && g.marked[o].black)
  }

  ghost predicate LiveRef(g: Gc, o: Ref) { o in g.heap && !Dead(g, o) }

  /** Objects that are not dead refer only to objects that exist and are not dead. */
  ghost predicate LiveClosed(g: Gc) {
    && (forall o :: IsRoot(g, o) ==> LiveRef(g, o))
    && (forall o, c :: LiveRef(g, o) && Points(g.heap, o, c) ==> LiveRef(g, c))
  }

  ghost predicate AllCurrentWhite(g: Gc) {
    forall o :: o in g.marked ==> IsCurrentWhite(g.currentwhite, g.marked[o])
  }

  /** An object in the part of `rootgc` already swept, together with its open upvalues. */
  ghost predicate Swept(g: Gc, o: Ref) {
    && CurrentWhite(g, o)
    && (ListOf(g.heap, o).Some? ==> forall u :: u in ListOf(g.heap, o).value ==> CurrentWhite(g, u))
  }

  ghost predicate StringsSwept(g: Gc, n: nat)
    requires n <= |g.strt|
  {
    forall b, o :: 0 <= b < n && o in g.strt[b] ==> CurrentWhite(g, o)
  }

  ghost predicate PhaseOk(g: Gc) {
    match g.phase
    case Pause => AllCurrentWhite(g)
    case Finalize => AllCurrentWhite(g)
    case Propagate =>
      TriColour(g) && Seen(g, g.mainthread) && (g.registry.Obj? ==> Seen(g, g.registry.ref))
    case SweepString =>
      g.sweepstrgc < |g.strt| && g.sweepgc == 0 && StringsSwept(g, g.sweepstrgc)
    case Sweep =>
      && g.sweepgc <= |g.rootgc| && StringsSwept(g, |g.strt|)
      && forall i :: 0 <= i < g.sweepgc ==> Swept(g, g.rootgc[i])
  }

  /** The structural part of the invariant. */
  ghost predicate Shape(g: Gc) {
    Basics(g) && Colours(g) && StringTable(g) && OpenUpvals(g) && RootList(g)
  }

  ghost predicate Inv(g: Gc) {
    Shape(g) && LiveClosed(g) && PhaseOk(g)
  }

  /** Nothing reachable is missing or dead, in any phase. */
  lemma ReachableIsLive(g: Gc)
    requires LiveClosed(g)
    ensures forall o :: Reachable(g, o) ==> LiveRef(g, o)
  {
    var s := set o | o in g.heap && !Dead(g, o);
    assert ClosedUnder(g.heap, s) by {
      forall o, c | o in s && Points(g.heap, o, c) ensures c in s {
        assert LiveRef(g, o) && LiveRef(g, c);
      }
    }
    forall o | IsRoot(g, o) ensures o in s {
      assert LiveRef(g, o);
    }
    ReachableStaysInside(g, s);
  }

  /** A reference the running program can get hold of. */
  ghost predicate Accessible(g: Gc, v: Value) {
    v.Obj? ==> Reachable(g, v.ref)
  }

  // ---------- lists without some of their elements ----------

  function Keep(xs: seq<Ref>, gone: set<Ref>): (r: seq<Ref>)
    ensures forall x :: x in r <==> x in xs && x !in gone
  {
    if xs == [] then [] else (if xs[0] in gone then [] else [xs[0]]) + Keep(xs[1..], gone)
  }

  lemma {:induction false} KeepNoDup(xs: seq<Ref>, gone: set<Ref>)
    requires NoDup(xs)
    ensures NoDup(Keep(xs, gone))
  {
    if xs != [] {
      KeepNoDup(xs[1..], gone);
      assert forall x :: x in Keep(xs[1..], gone) ==> x in xs[1..];
      assert xs[0] !in xs[1..];
    }
  }

  lemma {:induction false} KeepDecreasing(h: map<Ref, Object>, us: seq<Ref>, gone: set<Ref>)
    requires Decreasing(h, us)
    ensures Decreasing(h, Keep(us, gone))
  {
    if us != [] {
      KeepDecreasing(h, us[1..], gone);
      var k := Keep(us[1..], gone);
      forall i | 0 <= i < |k| ensures SlotOf(h, us[0]) > SlotOf(h, k[i]) {
        assert k[i] in us[1..];
      }
    }
  }

  lemma KeepOpenList(h: map<Ref, Object>, h': map<Ref, Object>, t: Ref, us: seq<Ref>, gone: set<Ref>)
    requires OpenList(h, t, us)
    requires forall u :: u in us && u !in gone ==> OpenFor(h', u, t) && SlotOf(h', u) == SlotOf(h, u)
    ensures OpenList(h', t, Keep(us, gone))
  {
    KeepDecreasing(h, us, gone);
    var r := Keep(us, gone);
    forall i, j | 0 <= i < j < |r| ensures SlotOf(h', r[i]) > SlotOf(h', r[j]) {
      assert r[i] in r && r[j] in r;
      assert SlotOf(h, r[i]) > SlotOf(h, r[j]);
    }
  }

  lemma {:induction false} KeepAll(xs: seq<Ref>, gone: set<Ref>)
    requires forall x :: x in xs ==> x !in gone
    ensures Keep(xs, gone) == xs
  {
    if xs != [] { KeepAll(xs[1..], gone); }
  }

  lemma OpenListNoDup(h: map<Ref, Object>, t: Ref, us: seq<Ref>)
    requires OpenList(h, t, us)
    ensures NoDup(us)
  {
    forall i, j | 0 <= i < j < |us| ensures us[i] != us[j] {
      assert SlotOf(h, us[i]) > SlotOf(h, us[j]);
    }
  }
}
