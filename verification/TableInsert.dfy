/**
  The three ways in which `newkey` places a key (ltable.c:399-429), and why each keeps the invariant of the nodes.
  */
module TableInsert {
  import opened TableNodes

  /** The key is alive in no node; there may be dead copies of it. */
  ghost predicate NewTo(node: seq<Node>, k: Key) {
    forall i | 0 <= i < |node| :: node[i].key != Live(k)
  }

  // ---------- the main position has no value ----------

  function Reused(node: seq<Node>, mp: nat, k: Key): seq<Node>
    requires mp < |node|
  {
    node[mp := Node(Live(k), Nil, node[mp].next)]
  }

  /** A main position whose value is nil takes the key and stays where it is linked. */
  lemma ReuseKeeps(h: Hash, node: seq<Node>, a: Lines, mp: nat, k: Key)
    requires NodesOk(h, node, a) && Storable(k) && NewTo(node, k) && mp == h(k, |node|)
    ensures NodesOk(h, Reused(node, mp, k), a)
  {
    var new' := Reused(node, mp, k);
    assert Linked(new', a);
    forall i | 0 <= i < |new'| && !new'[i].key.NoKey? ensures Storable(new'[i].key.k) && AtHome(h, new', a, i) {
      if i != mp {
        assert AtHome(h, node, a, i);
      }
    }
    forall i | 0 <= i < |new'| && new'[i].key.NoKey? ensures FreeNode(new', a, i) {
      assert FreeNode(node, a, i);
    }
    forall i, j | 0 <= i < j < |new'| ensures !SameKey(new', i, j) {
      assert !SameKey(node, i, j);
    }
    forall i, j | 0 <= i < |new'| && 0 <= j < |new'| ensures BeforeDead(new', a, i, j) {
      ReusedBefore(h, node, a, mp, k, i, j);
    }
  }

  /** The main position comes before all other copies of the key. */
  lemma ReusedBefore(h: Hash, node: seq<Node>, a: Lines, mp: nat, k: Key, i: nat, j: nat)
    requires NodesOk(h, node, a) && Storable(k) && NewTo(node, k) && mp == h(k, |node|)
    requires i < |node| && j < |node|
    ensures BeforeDead(Reused(node, mp, k), a, i, j)
  {
    assert BeforeDead(node, a, i, j);
    assert !node[j].key.NoKey? ==> AtHome(h, node, a, j);
  }

  // ---------- the colliding key is in its main position ----------

  /** The new key goes to the free node `n`, linked after `mp`. */
  function LinkedAfter(node: seq<Node>, mp: nat, n: nat, k: Key): seq<Node>
    requires mp < |node| && n < |node|
  {
    node[n := Node(Live(k), Nil, node[mp].next)][mp := node[mp].(next := n)]
  }

  /** A place right after `mp`. */
  function PlaceAfter(node: seq<Node>, a: Lines, mp: nat): real
    requires mp < |node| == |a.place| && node[mp].next < |node|
  {
    if node[mp].next < 0 then a.place[mp] + 1.0 else (a.place[mp] + a.place[node[mp].next]) / 2.0
  }

  function LineAfter(node: seq<Node>, a: Lines, mp: nat, n: nat): Lines
    requires mp < |node| && n < |node| == |a.place| == |a.line| && node[mp].next < |node|
  {
    Lines(a.line[n := a.line[mp]], a.place[n := PlaceAfter(node, a, mp)])
  }

  lemma AfterLinked(h: Hash, node: seq<Node>, a: Lines, mp: nat, n: nat, k: Key)
    requires NodesOk(h, node, a) && mp < |node| && n < |node| && mp != n && node[n].key.NoKey?
    ensures Linked(LinkedAfter(node, mp, n, k), LineAfter(node, a, mp, n))
  {
    var new' := LinkedAfter(node, mp, n, k);
    var b := LineAfter(node, a, mp, n);
    assert FreeNode(node, a, n);
    assert forall j | 0 <= j < |node| && j != n :: a.line[j] != a.line[n];
    assert forall i | 0 <= i < |node| :: node[i].next != n by {
      forall i | 0 <= i < |node| ensures node[i].next != n {
        if i != n { NotFree(node, a, n, i); }
      }
    }
    var x := node[mp].next;
    if x >= 0 { assert After(a, mp, x); }
    assert a.place[mp] < b.place[n];
    forall j | 0 <= j < |node| && j != n && a.line[j] == a.line[mp]
      ensures a.place[mp] < a.place[j] ==> b.place[n] < a.place[j]
      ensures a.place[j] <= a.place[mp] ==> a.place[j] < b.place[n]
    {
      if a.place[mp] < a.place[j] { assert After(a, mp, j); }
    }
    forall i | 0 <= i < |node| && new'[i].next >= 0 ensures After(b, i, new'[i].next) {
      if i != n && i != mp { assert After(a, i, node[i].next); }
    }
    forall i, j | 0 <= i < |node| && 0 <= j < |node| && After(b, i, j)
      ensures new'[i].next >= 0 && b.place[new'[i].next] <= b.place[j]
    {
      AfterStep(node, a, mp, n, k, i, j);
    }
  }

  lemma AfterStep(node: seq<Node>, a: Lines, mp: nat, n: nat, k: Key, i: nat, j: nat)
    requires Linked(node, a) && mp < |node| && n < |node| && mp != n
    requires forall j | 0 <= j < |node| && j != n :: a.line[j] != a.line[n]
    requires forall i | 0 <= i < |node| :: node[i].next != n
    requires var b := LineAfter(node, a, mp, n);
      && i < |node| && j < |node| && After(b, i, j)
      && a.place[mp] < b.place[n]
      && forall j | 0 <= j < |node| && j != n && a.line[j] == a.line[mp] ::
           (a.place[mp] < a.place[j] ==> b.place[n] < a.place[j]) && (a.place[j] <= a.place[mp] ==> a.place[j] < b.place[n])
    ensures var b := LineAfter(node, a, mp, n);
      var new' := LinkedAfter(node, mp, n, k);
      new'[i].next >= 0 && b.place[new'[i].next] <= b.place[j]
  {
    if i == n {
      assert After(a, mp, j);
    } else if j == n {
      if i != mp {
        assert a.place[i] < a.place[mp];
        assert After(a, i, mp);
      }
    } else {
      assert After(a, i, j);
    }
  }

  ghost predicate Linking(h: Hash, node: seq<Node>, a: Lines, mp: nat, n: nat, k: Key) {
    && NodesOk(h, node, a) && Storable(k) && NewTo(node, k) && mp == h(k, |node|)
    && n < |node| && n != mp && node[n].key.NoKey? && node[mp].val != Nil && !node[mp].key.NoKey? && Main(h, node, mp) == mp
  }

  lemma AfterHome(h: Hash, node: seq<Node>, a: Lines, mp: nat, n: nat, k: Key, i: nat)
    requires Linking(h, node, a, mp, n, k)
    requires i < |node| && !LinkedAfter(node, mp, n, k)[i].key.NoKey?
    ensures Storable(LinkedAfter(node, mp, n, k)[i].key.k)
    ensures AtHome(h, LinkedAfter(node, mp, n, k), LineAfter(node, a, mp, n), i)
  {
    assert node[mp].next >= 0 ==> After(a, mp, node[mp].next);
    if i != n {
      assert AtHome(h, node, a, i);
    }
    hide FreeNode, Linked;
  }

  lemma AfterFree(h: Hash, node: seq<Node>, a: Lines, mp: nat, n: nat, k: Key, i: nat)
    requires Linking(h, node, a, mp, n, k)
    requires i < |node| && LinkedAfter(node, mp, n, k)[i].key.NoKey?
    ensures FreeNode(LinkedAfter(node, mp, n, k), LineAfter(node, a, mp, n), i)
  {
    assert FreeNode(node, a, i);
    hide AtHome, Linked;
  }

  lemma AfterDistinct(h: Hash, node: seq<Node>, a: Lines, mp: nat, n: nat, k: Key, i: nat, j: nat)
    requires Linking(h, node, a, mp, n, k) && i < j < |node|
    ensures !SameKey(LinkedAfter(node, mp, n, k), i, j)
  {
    hide AtHome, Linked, FreeNode;
    assert !SameKey(node, i, j);
  }

  /** The new node comes right after the main position, and so before all dead copies of the key. */
  lemma AfterBefore(h: Hash, node: seq<Node>, a: Lines, mp: nat, n: nat, k: Key, i: nat, j: nat)
    requires Linking(h, node, a, mp, n, k) && i < |node| && j < |node|
    ensures |LineAfter(node, a, mp, n).line| == |node| == |LineAfter(node, a, mp, n).place|
    ensures BeforeDead(LinkedAfter(node, mp, n, k), LineAfter(node, a, mp, n), i, j)
  {
    assert BeforeDead(node, a, i, j);
    assert !node[j].key.NoKey? ==> AtHome(h, node, a, j);
    assert node[mp].next >= 0 ==> After(a, mp, node[mp].next);
    if After(a, mp, j) { assert a.place[node[mp].next] <= a.place[j]; }
    hide FreeNode;
  }

  lemma AfterDead(h: Hash, node: seq<Node>, a: Lines, mp: nat, n: nat, k: Key, i: nat)
    requires Linking(h, node, a, mp, n, k) && i < |node|
    ensures LinkedAfter(node, mp, n, k)[i].key.Dead? ==> LinkedAfter(node, mp, n, k)[i].val == Nil
  {
    hide AtHome, Linked, FreeNode;
  }

  lemma LinkAfterKeeps(h: Hash, node: seq<Node>, a: Lines, mp: nat, n: nat, k: Key)
    requires Linking(h, node, a, mp, n, k)
    ensures NodesOk(h, LinkedAfter(node, mp, n, k), LineAfter(node, a, mp, n))
  {
    var new' := LinkedAfter(node, mp, n, k);
    AfterLinked(h, node, a, mp, n, k);
    var b := LineAfter(node, a, mp, n);
    assert |new'| == |node| == |b.line| == |b.place|;
    hide Linked, LinkedAfter, LineAfter, Linking, AtHome, FreeNode;
    forall i | 0 <= i < |new'| && !new'[i].key.NoKey? ensures Storable(new'[i].key.k) && AtHome(h, new', b, i) {
      AfterHome(h, node, a, mp, n, k, i);
    }
    forall i | 0 <= i < |new'| && new'[i].key.NoKey? ensures FreeNode(new', b, i) {
      AfterFree(h, node, a, mp, n, k, i);
    }
    forall i, j | 0 <= i < j < |new'| ensures !SameKey(new', i, j) {
      AfterDistinct(h, node, a, mp, n, k, i, j);
    }
    forall i, j | 0 <= i < |new'| && 0 <= j < |new'| ensures BeforeDead(new', b, i, j) {
      AfterBefore(h, node, a, mp, n, k, i, j);
    }
    forall i | 0 <= i < |new'| && new'[i].key.Dead? ensures new'[i].val == Nil {
      AfterDead(h, node, a, mp, n, k, i);
    }
  }

  // ---------- the colliding key is not in its main position ----------

  /** The colliding node moves to the free node `n`, the new key takes its place. */
  function MovedOut(node: seq<Node>, prev: nat, mp: nat, n: nat, k: Key): seq<Node>
    requires mp < |node| && n < |node| && prev < |node|
  {
    node[prev := node[prev].(next := n)][n := node[mp]][mp := Node(Live(k), Nil, -1)]
  }

  /** A line on which there is no node. */
  function NewLine(line: seq<int>): (r: int)
    ensures forall j | 0 <= j < |line| :: line[j] < r
  {
    if line == [] then 0
    else
      var r := NewLine(line[1..]);
      assert forall j | 0 < j < |line| :: line[j] == line[1..][j - 1];
      if line[0] < r then r else line[0] + 1
  }

  function LineMoved(a: Lines, mp: nat, n: nat): Lines
    requires mp < |a.line| && n < |a.line| == |a.place|
  {
    Lines(a.line[n := a.line[mp]][mp := NewLine(a.line)], a.place[n := a.place[mp]])
  }

  ghost predicate Moving(node: seq<Node>, a: Lines, prev: nat, mp: nat, n: nat) {
    && Linked(node, a) && mp < |node| && n < |node| && prev < |node| && mp != n && prev != n && prev != mp
    && FreeNode(node, a, n) && node[prev].next == mp
  }

  lemma MovedNext(node: seq<Node>, a: Lines, prev: nat, mp: nat, n: nat, k: Key, i: nat)
    requires Moving(node, a, prev, mp, n) && i < |node|
    ensures var new' := MovedOut(node, prev, mp, n, k);
      (new'[i].next == -1 || InRange(new', new'[i].next)) && (new'[i].next >= 0 ==> After(LineMoved(a, mp, n), i, new'[i].next))
  {
    assert After(a, prev, mp);
    if i == n {
      assert node[mp].next >= 0 ==> After(a, mp, node[mp].next);
    } else if i != mp && i != prev {
      assert node[i].next >= 0 ==> After(a, i, node[i].next);
      OnlyPrev(node, a, prev, mp, i);
      NotFree(node, a, n, i);
    }
  }

  lemma MovedAfter(node: seq<Node>, a: Lines, prev: nat, mp: nat, n: nat, k: Key, i: nat, j: nat)
    requires Moving(node, a, prev, mp, n) && i < |node| && j < |node| && After(LineMoved(a, mp, n), i, j)
    ensures var new' := MovedOut(node, prev, mp, n, k); var b := LineMoved(a, mp, n);
      new'[i].next >= 0 && InRange(new', new'[i].next) && b.place[new'[i].next] <= b.place[j]
  {
    MovedNext(node, a, prev, mp, n, k, i);
    var i', j' := if i == n then mp else i, if j == n then mp else j;
    assert i != mp && j != mp;
    assert After(a, i', j');
    assert node[i'].next >= 0 && a.place[node[i'].next] <= a.place[j'];
    hide FreeNode, Linked;
  }

  lemma MovedPlaces(node: seq<Node>, a: Lines, prev: nat, mp: nat, n: nat, i: nat, j: nat)
    requires Moving(node, a, prev, mp, n) && i < |node| && j < |node| && i != j
    ensures var b := LineMoved(a, mp, n); b.line[i] == b.line[j] ==> b.place[i] != b.place[j]
  {
  }

  lemma MovedLinked(h: Hash, node: seq<Node>, a: Lines, prev: nat, mp: nat, n: nat, k: Key)
    requires NodesOk(h, node, a) && mp < |node| && n < |node| && mp != n && node[n].key.NoKey?
    requires prev < |node| && node[prev].next == mp
    ensures Linked(MovedOut(node, prev, mp, n, k), LineMoved(a, mp, n))
  {
    assert FreeNode(node, a, n) && After(a, prev, mp);
    var new' := MovedOut(node, prev, mp, n, k);
    var b := LineMoved(a, mp, n);
    assert Moving(node, a, prev, mp, n);
    assert |new'| == |node| == |b.line| == |b.place|;
    hide MovedOut, LineMoved, NodesOk, FreeNode, Moving;
    forall i | 0 <= i < |new'|
      ensures (new'[i].next == -1 || InRange(new', new'[i].next)) && (new'[i].next >= 0 ==> After(b, i, new'[i].next))
    {
      MovedNext(node, a, prev, mp, n, k, i);
    }
    forall i, j | 0 <= i < |new'| && 0 <= j < |new'| && After(b, i, j)
      ensures new'[i].next >= 0 && b.place[new'[i].next] <= b.place[j]
    {
      MovedAfter(node, a, prev, mp, n, k, i, j);
    }
    forall i, j | 0 <= i < |new'| && 0 <= j < |new'| && i != j && b.line[i] == b.line[j] ensures b.place[i] != b.place[j] {
      MovedPlaces(node, a, prev, mp, n, i, j);
    }
  }

  /** A node has at most one predecessor. */
  lemma OnlyPrev(node: seq<Node>, a: Lines, prev: nat, mp: nat, i: nat)
    requires Linked(node, a) && prev < |node| && mp < |node| && i < |node| && i != prev && node[prev].next == mp
    ensures node[i].next != mp
  {
    if node[i].next == mp {
      assert After(a, i, mp) && After(a, prev, mp);
      if a.place[i] < a.place[prev] { assert After(a, i, prev); } else { assert After(a, prev, i); }
    }
  }

  lemma NotFree(node: seq<Node>, a: Lines, n: nat, i: nat)
    requires Linked(node, a) && n < |node| && i < |node| && i != n && FreeNode(node, a, n)
    ensures node[i].next != n
  {
    assert node[i].next >= 0 ==> After(a, i, node[i].next);
  }

  ghost predicate Collides(h: Hash, node: seq<Node>, a: Lines, prev: nat, mp: nat, n: nat, k: Key) {
    && NodesOk(h, node, a) && Storable(k) && NewTo(node, k) && mp == h(k, |node|)
    && n < |node| && n != mp && node[n].key.NoKey? && !node[mp].key.NoKey? && Main(h, node, mp) != mp
    && prev < |node| && node[prev].next == mp && prev != n && prev != mp
  }

  lemma MovedHome(h: Hash, node: seq<Node>, a: Lines, prev: nat, mp: nat, n: nat, k: Key, i: nat)
    requires Collides(h, node, a, prev, mp, n, k)
    requires i < |node| && !MovedOut(node, prev, mp, n, k)[i].key.NoKey?
    ensures Storable(MovedOut(node, prev, mp, n, k)[i].key.k)
    ensures AtHome(h, MovedOut(node, prev, mp, n, k), LineMoved(a, mp, n), i)
  {
    var i' := if i == n then mp else i;
    if i != mp {
      assert !node[i'].key.NoKey?;
      assert AtHome(h, node, a, i') && AtHome(h, node, a, mp);
    }
    hide FreeNode, Linked;
  }

  lemma MovedFree(h: Hash, node: seq<Node>, a: Lines, prev: nat, mp: nat, n: nat, k: Key, i: nat)
    requires Collides(h, node, a, prev, mp, n, k)
    requires i < |node| && MovedOut(node, prev, mp, n, k)[i].key.NoKey?
    ensures FreeNode(MovedOut(node, prev, mp, n, k), LineMoved(a, mp, n), i)
  {
    assert i != n && i != mp && node[i].key.NoKey?;
    assert FreeNode(node, a, i);
    assert i != prev by { assert node[prev].next >= 0; }
    hide AtHome, Linked;
  }

  lemma MovedDistinct(h: Hash, node: seq<Node>, a: Lines, prev: nat, mp: nat, n: nat, k: Key, i: nat, j: nat)
    requires Collides(h, node, a, prev, mp, n, k) && i < j < |node|
    ensures !SameKey(MovedOut(node, prev, mp, n, k), i, j)
  {
    hide Linked, AtHome, FreeNode;
    var i', j' := if i == n then mp else i, if j == n then mp else j;
    assert i' < j' ==> !SameKey(node, i', j');
    assert j' < i' ==> !SameKey(node, j', i');
  }

  /** A key that finds a foreign one at its main position has no dead copies. */
  lemma MovedBefore(h: Hash, node: seq<Node>, a: Lines, prev: nat, mp: nat, n: nat, k: Key, i: nat, j: nat)
    requires Collides(h, node, a, prev, mp, n, k) && i < |node| && j < |node|
    requires |MovedOut(node, prev, mp, n, k)| == |node| == |LineMoved(a, mp, n).line| == |LineMoved(a, mp, n).place|
    ensures BeforeDead(MovedOut(node, prev, mp, n, k), LineMoved(a, mp, n), i, j)
  {
    var i', j' := if i == n then mp else i, if j == n then mp else j;
    assert BeforeDead(node, a, i', j');
    assert !node[j'].key.NoKey? ==> AtHome(h, node, a, j');
    hide Linked, FreeNode;
  }

  lemma MovedSize(node: seq<Node>, a: Lines, prev: nat, mp: nat, n: nat, k: Key)
    requires mp < |node| && n < |node| && prev < |node| && |a.line| == |node| == |a.place|
    ensures var new' := MovedOut(node, prev, mp, n, k); var b := LineMoved(a, mp, n);
      |new'| == |node| == |b.line| == |b.place|
      && forall i | 0 <= i < |node| :: new'[i].key.Dead? ==> i != mp && (i == n ==> new'[i].val == node[mp].val) && (i != n ==> new'[i].val == node[i].val && new'[i].key == node[i].key)
  {
  }

  lemma MoveOutKeeps(h: Hash, node: seq<Node>, a: Lines, prev: nat, mp: nat, n: nat, k: Key)
    requires Collides(h, node, a, prev, mp, n, k)
    ensures NodesOk(h, MovedOut(node, prev, mp, n, k), LineMoved(a, mp, n))
  {
    var new' := MovedOut(node, prev, mp, n, k);
    var b := LineMoved(a, mp, n);
    MovedLinked(h, node, a, prev, mp, n, k);
    MovedSize(node, a, prev, mp, n, k);
    forall i | 0 <= i < |new'| && new'[i].key.Dead? ensures new'[i].val == Nil {
      assert node[if i == n then mp else i].key.Dead?;
    }
    hide Linked, AtHome, FreeNode, MovedOut, LineMoved, Collides;
    forall i | 0 <= i < |new'| && !new'[i].key.NoKey? ensures Storable(new'[i].key.k) && AtHome(h, new', b, i) {
      MovedHome(h, node, a, prev, mp, n, k, i);
    }
    forall i | 0 <= i < |new'| && new'[i].key.NoKey? ensures FreeNode(new', b, i) {
      MovedFree(h, node, a, prev, mp, n, k, i);
    }
    forall i, j | 0 <= i < j < |new'| ensures !SameKey(new', i, j) {
      MovedDistinct(h, node, a, prev, mp, n, k, i, j);
    }
    forall i, j | 0 <= i < |new'| && 0 <= j < |new'| ensures BeforeDead(new', b, i, j) {
      MovedBefore(h, node, a, prev, mp, n, k, i, j);
    }
  }
}
