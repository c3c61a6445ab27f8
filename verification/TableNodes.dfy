/**
  The hash part of a table (ltable.c, lobject.h): a vector of nodes with keys, values and links.  The invariant
  of the links is stated without paths: every node belongs to a line (`line`) and has a place in it (`place`), and
  its link leads to the next node of the same line.
  */
module TableNodes {

  datatype Value = Nil | Val(n: int)

  /** Keys: integers, anything else that may be a key, and the two values that may not. */
  datatype Key = IntKey(i: int) | OtherKey(id: nat) | NilK | NaN

  predicate Storable(k: Key) { k.IntKey? || k.OtherKey? }

  /** The key of a node: none, a key, or one that the collector has marked dead (LUA_TDEADKEY), which a search for
      a key does not find.  The object itself may live on. */
  datatype Cell = NoKey | Live(k: Key) | Dead(k: Key)

  datatype Node = Node(key: Cell, val: Value, next: int)

  const EMPTY := Node(NoKey, Nil, -1)

  /** `mainposition`: some function of the key and the number of nodes. */
  type Hash = h: (Key, nat) -> nat | forall k, n: nat :: n > 0 ==> h(k, n) < n witness (k: Key, n: nat) => 0

  /** The arrangement of the nodes in lines. */
  datatype Lines = Lines(line: seq<int>, place: seq<real>)

  predicate After(a: Lines, i: nat, j: nat)
    requires i < |a.line| && j < |a.line| && |a.place| == |a.line|
  {
    a.line[j] == a.line[i] && a.place[i] < a.place[j]
  }

  predicate InRange(node: seq<Node>, n: int) { 0 <= n < |node| }

  /** The links follow the lines. */
  ghost predicate Linked(node: seq<Node>, a: Lines) {
    && |a.line| == |node| && |a.place| == |node|
    && (forall i | 0 <= i < |node| :: node[i].next == -1 || InRange(node, node[i].next))
    && (forall i, j | 0 <= i < |node| && 0 <= j < |node| && i != j && a.line[i] == a.line[j] :: a.place[i] != a.place[j])
    && (forall i | 0 <= i < |node| && node[i].next >= 0 :: After(a, i, node[i].next))
    && (forall i, j | 0 <= i < |node| && 0 <= j < |node| && After(a, i, j) ::
          node[i].next >= 0 && a.place[node[i].next] <= a.place[j])
  }

  /** The main position of the key in a node. */
  function Main(h: Hash, node: seq<Node>, i: nat): nat
    requires i < |node| && !node[i].key.NoKey?
  {
    h(node[i].key.k, |node|)
  }

  /** A key is on the line of its main position, at or after it, and if it is not there, then a key that belongs
      there is. */
  predicate AtHome(h: Hash, node: seq<Node>, a: Lines, i: nat)
    requires |a.line| == |node| && |a.place| == |node|
    requires i < |node| && !node[i].key.NoKey?
  {
    var m := Main(h, node, i);
    m != i ==> After(a, m, i) && !node[m].key.NoKey? && Main(h, node, m) == m
  }

  /** A node without key is free: it has no value, no link and a line of its own. */
  ghost predicate FreeNode(node: seq<Node>, a: Lines, i: nat)
    requires |a.line| == |node| && i < |node|
  {
    node[i].val == Nil && node[i].next == -1 && forall j | 0 <= j < |node| && j != i :: a.line[j] != a.line[i]
  }

  /** Two nodes in which the same key is alive. */
  predicate SameKey(node: seq<Node>, i: nat, j: nat)
    requires i < |node| && j < |node|
  {
    node[i].key.Live? && node[j].key == node[i].key
  }

  /** A key that was stored again stands before its dead copies. */
  predicate BeforeDead(node: seq<Node>, a: Lines, i: nat, j: nat)
    requires |a.line| == |node| && |a.place| == |node|
    requires i < |node| && j < |node|
  {
    node[i].key.Live? && node[j].key == Dead(node[i].key.k) ==> After(a, i, j)
  }

  ghost predicate Keyed(h: Hash, node: seq<Node>, a: Lines)
    requires |a.line| == |node| && |a.place| == |node|
  {
    && (forall i | 0 <= i < |node| && !node[i].key.NoKey? :: Storable(node[i].key.k) && AtHome(h, node, a, i))
    && (forall i | 0 <= i < |node| && node[i].key.NoKey? :: FreeNode(node, a, i))
    && (forall i | 0 <= i < |node| && node[i].key.Dead? :: node[i].val == Nil)
    && (forall i, j | 0 <= i < j < |node| :: !SameKey(node, i, j))
    && (forall i, j | 0 <= i < |node| && 0 <= j < |node| :: BeforeDead(node, a, i, j))
  }

  /** The invariant of the hash part. */
  ghost predicate NodesOk(h: Hash, node: seq<Node>, a: Lines) {
    |node| > 0 && Linked(node, a) && Keyed(h, node, a)
  }

  // ---------- searching ----------

  /** The nodes that a search from `i` has still to visit. */
  ghost function Ahead(a: Lines, i: nat): (s: set<nat>)
    requires i < |a.line| && |a.place| == |a.line|
  {
    set j: nat | j < |a.line| && After(a, i, j)
  }

  lemma AheadShrinks(a: Lines, i: nat, j: nat)
    requires i < |a.line| && j < |a.line| && |a.place| == |a.line| && After(a, i, j)
    ensures |Ahead(a, j)| < |Ahead(a, i)|
  {
    assert j in Ahead(a, i) && j !in Ahead(a, j);
    assert Ahead(a, j) <= Ahead(a, i) - {j};
    CardMono(Ahead(a, j), Ahead(a, i) - {j});
  }

  lemma {:induction false} CardMono<T>(s: set<T>, t: set<T>)
    requires s <= t
    ensures |s| <= |t|
  {
    if s != {} {
      var x :| x in s;
      CardMono(s - {x}, t - {x});
    }
  }

  /** `i` is the start or comes after it. */
  predicate From(a: Lines, start: nat, i: nat)
    requires start < |a.line| && i < |a.line| && |a.place| == |a.line|
  {
    i == start || After(a, start, i)
  }

  /** Stepping from `i` to its link skips no node of the line. */
  lemma NextSkipsNone(node: seq<Node>, a: Lines, start: nat, i: nat, j: nat)
    requires Linked(node, a) && start < |node| && i < |node| && j < |node|
    requires From(a, start, i) && From(a, start, j) && node[i].next >= 0
    ensures From(a, start, node[i].next)
    ensures a.place[j] < a.place[node[i].next] ==> a.place[j] <= a.place[i]
  {
    if a.place[i] < a.place[j] {
      assert After(a, i, j);
    }
  }

  lemma LastIsLast(node: seq<Node>, a: Lines, start: nat, i: nat, j: nat)
    requires Linked(node, a) && start < |node| && i < |node| && j < |node|
    requires From(a, start, i) && From(a, start, j) && node[i].next == -1
    ensures a.place[j] <= a.place[i]
  {
    if a.place[i] < a.place[j] {
      assert After(a, i, j);
    }
  }

  lemma SamePlace(node: seq<Node>, a: Lines, start: nat, i: nat, j: nat)
    requires Linked(node, a) && start < |node| && i < |node| && j < |node|
    requires From(a, start, i) && From(a, start, j) && a.place[i] == a.place[j]
    ensures i == j
  {
  }
}
