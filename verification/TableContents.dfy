/**
  What a table holds: the finite map that the two parts represent together, and counting its keys.
  */
module TableContents {
  import opened TableNodes
  import opened TableInsert
  import opened TableSizes

  type Map = map<Key, Value>

  function Lookup(m: Map, k: Key): Value { if k in m then m[k] else Nil }

  /** The array part has a slot for the key. */
  predicate InArray(arr: seq<Value>, k: Key) { k.IntKey? && 1 <= k.i <= |arr| }

  ghost predicate HasKey(node: seq<Node>, k: Key) { exists i :: 0 <= i < |node| && node[i].key == Live(k) }

  /** The two parts represent the map. */
  ghost predicate Represents(arr: seq<Value>, node: seq<Node>, m: Map) {
    && (forall k | k in m :: m[k] != Nil && Storable(k) && (InArray(arr, k) || HasKey(node, k)))
    && (forall i | 0 <= i < |arr| :: Lookup(m, IntKey(i + 1)) == arr[i])
    && (forall i | 0 <= i < |node| && node[i].key.Live? :: Lookup(m, node[i].key.k) == node[i].val && !InArray(arr, node[i].key.k))
  }

  /** Where `luaH_get` finds the value of a key. */
  datatype Slot = NoSlot | ArraySlot(i: nat) | NodeSlot(i: nat)

  ghost predicate SlotOf(arr: seq<Value>, node: seq<Node>, k: Key, s: Slot) {
    match s
    case NoSlot => !InArray(arr, k) && !HasKey(node, k)
    case ArraySlot(i) => i < |arr| && k == IntKey(i + 1)
    case NodeSlot(i) => i < |node| && node[i].key == Live(k) && !InArray(arr, k)
  }

  function Read(arr: seq<Value>, node: seq<Node>, s: Slot): Value {
    match s
    case NoSlot => Nil
    case ArraySlot(i) => if i < |arr| then arr[i] else Nil
    case NodeSlot(i) => if i < |node| then node[i].val else Nil
  }

  /** Reading the slot of a key reads the map. */
  lemma ReadIsLookup(arr: seq<Value>, node: seq<Node>, m: Map, k: Key, s: Slot)
    requires Represents(arr, node, m) && SlotOf(arr, node, k, s)
    ensures Read(arr, node, s) == Lookup(m, k)
  {
  }

  function Written(m: Map, k: Key, v: Value): Map { if v == Nil then m - {k} else m[k := v] }

  lemma WriteNode(h: Hash, arr: seq<Value>, node: seq<Node>, a: Lines, m: Map, k: Key, i: nat, v: Value)
    requires NodesOk(h, node, a) && Represents(arr, node, m) && SlotOf(arr, node, k, NodeSlot(i))
    ensures NodesOk(h, node[i := node[i].(val := v)], a)
    ensures Represents(arr, node[i := node[i].(val := v)], Written(m, k, v))
  {
    WriteKeeps(h, node, a, i, v);
    forall j | 0 <= j < |node| && j != i ensures node[j].key != Live(k) {
      assert j < i ==> !SameKey(node, j, i);
      assert i < j ==> !SameKey(node, i, j);
    }
    hide NodesOk;
    WriteRepresents(arr, node, m, k, i, v);
  }

  lemma WriteRepresents(arr: seq<Value>, node: seq<Node>, m: Map, k: Key, i: nat, v: Value)
    requires Represents(arr, node, m) && SlotOf(arr, node, k, NodeSlot(i)) && Storable(k)
    requires forall j | 0 <= j < |node| && j != i :: node[j].key != Live(k)
    ensures Represents(arr, node[i := node[i].(val := v)], Written(m, k, v))
  {
    var new' := node[i := node[i].(val := v)];
    forall k' | k' in Written(m, k, v) ensures InArray(arr, k') || HasKey(new', k') {
      if !InArray(arr, k') {
        if k' == k { assert new'[i].key == Live(k'); }
        else {
          var j :| 0 <= j < |node| && node[j].key == Live(k');
          assert new'[j].key == Live(k');
        }
      }
    }
  }

  lemma WriteKeeps(h: Hash, node: seq<Node>, a: Lines, i: nat, v: Value)
    requires NodesOk(h, node, a) && i < |node| && node[i].key.Live?
    ensures NodesOk(h, node[i := node[i].(val := v)], a)
  {
    var new' := node[i := node[i].(val := v)];
    forall j | 0 <= j < |new'| && !new'[j].key.NoKey? ensures AtHome(h, new', a, j) { assert AtHome(h, node, a, j); }
    forall j | 0 <= j < |new'| && new'[j].key.NoKey? ensures FreeNode(new', a, j) { assert FreeNode(node, a, j); }
    forall j, j' | 0 <= j < j' < |new'| ensures !SameKey(new', j, j') { assert !SameKey(node, j, j'); }
    forall j, j' | 0 <= j < |new'| && 0 <= j' < |new'| ensures BeforeDead(new', a, j, j') { assert BeforeDead(node, a, j, j'); }
  }

  lemma WriteArray(arr: seq<Value>, node: seq<Node>, m: Map, k: Key, i: nat, v: Value)
    requires Represents(arr, node, m) && SlotOf(arr, node, k, ArraySlot(i))
    ensures Represents(arr[i := v], node, Written(m, k, v))
  {
    var m' := Written(m, k, v);
    var arr' := arr[i := v];
    forall j | 0 <= j < |arr'| ensures Lookup(m', IntKey(j + 1)) == arr'[j] {
      assert Lookup(m, IntKey(j + 1)) == arr[j];
    }
  }

  // ---------- placing a key changes no value ----------

  /** Every key but `k` has the same value in both vectors of nodes; `k` has none. */
  ghost predicate SameValues(node: seq<Node>, new': seq<Node>, k: Key) {
    && (forall i | 0 <= i < |node| && node[i].key.Live? && node[i].val != Nil ::
          exists j :: 0 <= j < |new'| && new'[j].key == node[i].key && new'[j].val == node[i].val)
    && (forall j | 0 <= j < |new'| && new'[j].key.Live? && new'[j].key != Live(k) ::
          exists i :: 0 <= i < |node| && new'[j].key == node[i].key && new'[j].val == node[i].val)
    && (forall j | 0 <= j < |new'| && new'[j].key == Live(k) :: new'[j].val == Nil)
  }

  lemma PlaceRepresents(arr: seq<Value>, node: seq<Node>, m: Map, new': seq<Node>, k: Key)
    requires Represents(arr, node, m) && SameValues(node, new', k)
    requires !InArray(arr, k) && !HasKey(node, k)
    ensures Represents(arr, new', m)
  {
    forall k' | k' in m && !InArray(arr, k') ensures HasKey(new', k') {
      var i :| 0 <= i < |node| && node[i].key == Live(k');
      assert Lookup(m, k') == node[i].val;
    }
    forall j | 0 <= j < |new'| && new'[j].key.Live?
      ensures Lookup(m, new'[j].key.k) == new'[j].val && !InArray(arr, new'[j].key.k)
    {
      if new'[j].key != Live(k) {
        var i :| 0 <= i < |node| && new'[j].key == node[i].key && new'[j].val == node[i].val;
      }
    }
  }

  /** The node `j` of the new vector is the node `i` of the old one. */
  predicate Same(node: seq<Node>, i: nat, new': seq<Node>, j: nat) {
    i < |node| && j < |new'| && new'[j].key == node[i].key && new'[j].val == node[i].val
  }

  lemma SameValuesBy(node: seq<Node>, new': seq<Node>, k: Key, f: nat -> nat, g: nat -> nat)
    requires forall i: nat | i < |node| && node[i].key.Live? && node[i].val != Nil :: Same(node, i, new', f(i))
    requires forall j: nat | j < |new'| && new'[j].key.Live? && new'[j].key != Live(k) :: Same(node, g(j), new', j)
    requires forall j | 0 <= j < |new'| && new'[j].key == Live(k) :: new'[j].val == Nil
    ensures SameValues(node, new', k)
  {
    forall i: nat | i < |node| && node[i].key.Live? && node[i].val != Nil
      ensures exists j :: 0 <= j < |new'| && new'[j].key == node[i].key && new'[j].val == node[i].val
    {
      assert Same(node, i, new', f(i));
    }
    forall j: nat | j < |new'| && new'[j].key.Live? && new'[j].key != Live(k)
      ensures exists i :: 0 <= i < |node| && new'[j].key == node[i].key && new'[j].val == node[i].val
    {
      assert Same(node, g(j), new', j);
    }
  }

  lemma ReusedSame(node: seq<Node>, mp: nat, k: Key)
    requires mp < |node| && node[mp].val == Nil && NewTo(node, k)
    ensures SameValues(node, Reused(node, mp, k), k)
  {
    hide SameValues;
    SameValuesBy(node, Reused(node, mp, k), k, i => i, j => j);
  }

  lemma LinkedAfterSame(node: seq<Node>, mp: nat, n: nat, k: Key)
    requires mp < |node| && n < |node| && n != mp && node[n].key.NoKey? && NewTo(node, k)
    ensures SameValues(node, LinkedAfter(node, mp, n, k), k)
  {
    hide SameValues;
    SameValuesBy(node, LinkedAfter(node, mp, n, k), k, i => i, j => j);
  }

  lemma MovedOutSame(node: seq<Node>, prev: nat, mp: nat, n: nat, k: Key)
    requires mp < |node| && n < |node| && prev < |node| && n != mp && prev != mp && prev != n && node[n].key.NoKey? && NewTo(node, k)
    ensures SameValues(node, MovedOut(node, prev, mp, n, k), k)
  {
    hide SameValues;
    SameValuesBy(node, MovedOut(node, prev, mp, n, k), k, i => if i == mp then n else i, j => if j == n then mp else j);
  }

  // ---------- an empty hash part ----------

  ghost predicate NoDead(node: seq<Node>) { forall i | 0 <= i < |node| :: !node[i].key.Dead? }

  lemma EmptyNodes(h: Hash, node: seq<Node>, a: Lines)
    requires |node| > 0 && |a.line| == |a.place| == |node|
    requires forall i | 0 <= i < |node| :: node[i] == EMPTY && a.line[i] == i
    ensures NodesOk(h, node, a) && NodeKeys(node) == {} && NoDead(node)
  {
  }

  /** What an array part holds by itself. */
  ghost function ArrayMap(arr: seq<Value>): Map {
    map k | k in (set i | 0 <= i < |arr| && arr[i] != Nil :: IntKey(i + 1)) :: arr[k.i - 1]
  }

  lemma ArrayMapRepresents(arr: seq<Value>, node: seq<Node>)
    requires forall i | 0 <= i < |node| :: node[i] == EMPTY
    ensures Represents(arr, node, ArrayMap(arr))
  {
    var m := ArrayMap(arr);
    forall i | 0 <= i < |arr| ensures Lookup(m, IntKey(i + 1)) == arr[i] {
    }
  }

  /** One array part is the start of the other, followed by empty slots if it is longer. */
  predicate Recut(arr: seq<Value>, arr': seq<Value>) {
    forall i | 0 <= i < |arr'| :: arr'[i] == if i < |arr| then arr[i] else Nil
  }

  lemma ArrayMapWithin(arr: seq<Value>, node: seq<Node>, m: Map, arr': seq<Value>)
    requires Represents(arr, node, m) && Recut(arr, arr')
    ensures forall k | k in ArrayMap(arr') :: k in m && ArrayMap(arr')[k] == m[k] && InArray(arr, k) && InArray(arr', k)
    ensures forall i | 0 <= i < |arr| && i < |arr'| && arr[i] != Nil :: IntKey(i + 1) in ArrayMap(arr')
  {
    forall k | k in ArrayMap(arr') ensures k in m && ArrayMap(arr')[k] == m[k] && InArray(arr, k) {
      var i := k.i - 1;
      assert Lookup(m, IntKey(i + 1)) == arr[i];
    }
  }

  /** A map that lies within `m` and has all its keys is `m`. */
  lemma AllBack(arr: seq<Value>, node: seq<Node>, m: Map, c: Map)
    requires Represents(arr, node, m)
    requires forall k | k in c :: k in m && c[k] == m[k]
    requires forall i | 0 <= i < |arr| && arr[i] != Nil :: IntKey(i + 1) in c
    requires forall i | 0 <= i < |node| && node[i].val != Nil :: !node[i].key.NoKey? && node[i].key.k in c
    ensures c == m
  {
    forall k | k in m ensures k in c {
      if InArray(arr, k) {
        var i := k.i - 1;
        assert Lookup(m, IntKey(i + 1)) == arr[i];
        assert IntKey(i + 1) == k;
      } else {
        var i :| 0 <= i < |node| && node[i].key == Live(k);
        assert Lookup(m, k) == node[i].val;
      }
    }
  }

  // ---------- room ----------

  /** The keys of the nodes. */
  ghost function NodeKeys(node: seq<Node>): set<Key> {
    set i | 0 <= i < |node| && !node[i].key.NoKey? :: node[i].key.k
  }

  /** The keys that have no place in an array part of size `n`. */
  ghost function Outside(keys: set<Key>, n: nat): set<Key> {
    set k | k in keys && !(k.IntKey? && 1 <= k.i <= n)
  }

  lemma ReusedKeys(node: seq<Node>, mp: nat, k: Key)
    requires mp < |node|
    ensures NodeKeys(Reused(node, mp, k)) <= NodeKeys(node) + {k}
    ensures NoDead(node) ==> NoDead(Reused(node, mp, k))
    ensures |Reused(node, mp, k)| == |node|
  {
    KeysWithin(node, Reused(node, mp, k), k, i => i);
  }

  lemma LinkedKeys(node: seq<Node>, mp: nat, n: nat, k: Key)
    requires mp < |node| && n < |node| && mp != n
    ensures NodeKeys(LinkedAfter(node, mp, n, k)) <= NodeKeys(node) + {k}
    ensures NoDead(node) ==> NoDead(LinkedAfter(node, mp, n, k))
    ensures |LinkedAfter(node, mp, n, k)| == |node|
  {
    KeysWithin(node, LinkedAfter(node, mp, n, k), k, i => i);
  }

  lemma MovedKeys(node: seq<Node>, prev: nat, mp: nat, n: nat, k: Key)
    requires mp < |node| && n < |node| && prev < |node| && n != mp && prev != mp && prev != n
    ensures NodeKeys(MovedOut(node, prev, mp, n, k)) <= NodeKeys(node) + {k}
    ensures NoDead(node) ==> NoDead(MovedOut(node, prev, mp, n, k))
    ensures |MovedOut(node, prev, mp, n, k)| == |node|
  {
    KeysWithin(node, MovedOut(node, prev, mp, n, k), k, i => if i == n then mp else i);
  }

  lemma KeysWithin(node: seq<Node>, new': seq<Node>, k: Key, f: nat -> nat)
    requires forall i: nat | i < |new'| && !new'[i].key.NoKey? && new'[i].key.k != k ::
               f(i) < |node| && new'[i].key == node[f(i)].key
    ensures NodeKeys(new') <= NodeKeys(node) + {k}
  {
  }

  lemma {:induction false} DistinctCard(ks: seq<Key>)
    requires forall i, j | 0 <= i < j < |ks| :: ks[i] != ks[j]
    ensures |set k | k in ks| == |ks|
  {
    if ks != [] {
      var n := |ks| - 1;
      DistinctCard(ks[..n]);
      assert (set k | k in ks) == (set k | k in ks[..n]) + {ks[n]} by { assert ks == ks[..n] + [ks[n]]; }
    }
  }

  /** Fewer keys than nodes leave a free node, if there are no dead ones. */
  lemma RoomLeft(node: seq<Node>, keys: set<Key>)
    requires NoDead(node) && forall i, j | 0 <= i < j < |node| :: !SameKey(node, i, j)
    requires NodeKeys(node) <= keys && |keys| < |node|
    ensures exists i :: 0 <= i < |node| && node[i].key.NoKey?
  {
    if forall i | 0 <= i < |node| :: !node[i].key.NoKey? {
      var ks := seq(|node|, i requires 0 <= i < |node| => node[i].key.k);
      forall i, j | 0 <= i < j < |ks| ensures ks[i] != ks[j] {
        assert !SameKey(node, i, j);
      }
      DistinctCard(ks);
      assert forall i | 0 <= i < |node| :: ks[i] in NodeKeys(node);
      CardSub((set k | k in ks), keys);
    }
  }

  lemma {:induction false} NodeKeysCard(node: seq<Node>)
    ensures |NodeKeys(node)| <= |node|
  {
    if node == [] {
      assert NodeKeys(node) == {};
    } else {
      var n := |node| - 1;
      NodeKeysCard(node[..n]);
      if node[n].key.NoKey? {
        assert NodeKeys(node) <= NodeKeys(node[..n]);
        CardSub(NodeKeys(node), NodeKeys(node[..n]));
      } else {
        assert NodeKeys(node) <= NodeKeys(node[..n]) + {node[n].key.k};
        CardSub(NodeKeys(node), NodeKeys(node[..n]) + {node[n].key.k});
      }
    }
  }

  // ---------- dead keys ----------

  function Removed(node: seq<Node>, i: nat): seq<Node>
    requires i < |node| && node[i].key.Live?
  {
    node[i := node[i].(key := Dead(node[i].key.k))]
  }

  lemma RemoveKeeps(h: Hash, node: seq<Node>, a: Lines, i: nat)
    requires NodesOk(h, node, a) && i < |node| && node[i].key.Live? && node[i].val == Nil
    ensures NodesOk(h, Removed(node, i), a)
  {
    var new' := Removed(node, i);
    forall j | 0 <= j < |new'| && !new'[j].key.NoKey? ensures Storable(new'[j].key.k) && AtHome(h, new', a, j) { assert AtHome(h, node, a, j); }
    forall j | 0 <= j < |new'| && new'[j].key.NoKey? ensures FreeNode(new', a, j) { assert FreeNode(node, a, j); }
    forall j, j' | 0 <= j < j' < |new'| ensures !SameKey(new', j, j') { assert !SameKey(node, j, j'); }
    forall j, j' | 0 <= j < |new'| && 0 <= j' < |new'| ensures BeforeDead(new', a, j, j') {
      assert BeforeDead(node, a, j, j');
      assert j < j' ==> !SameKey(node, j, j');
      assert j' < j ==> !SameKey(node, j', j);
    }
  }

  lemma RemoveRepresents(arr: seq<Value>, node: seq<Node>, m: Map, i: nat)
    requires Represents(arr, node, m) && i < |node| && node[i].key.Live? && node[i].val == Nil
    ensures Represents(arr, Removed(node, i), m)
  {
    var new' := Removed(node, i);
    assert Lookup(m, node[i].key.k) == Nil;
    forall k | k in m && !InArray(arr, k) ensures HasKey(new', k) {
      var j :| 0 <= j < |node| && node[j].key == Live(k);
      assert new'[j].key == Live(k);
    }
  }

  // ---------- integers from a point on ----------

  ghost function IntsFrom(keys: set<Key>, i: int): set<Key> { set k | k in keys && k.IntKey? && k.i >= i }

  lemma FewerFrom(keys: set<Key>, i: int)
    requires IntKey(i) in keys
    ensures |IntsFrom(keys, i + 1)| < |IntsFrom(keys, i)|
  {
    assert IntsFrom(keys, i + 1) <= IntsFrom(keys, i) - {IntKey(i)};
    CardSub(IntsFrom(keys, i + 1), IntsFrom(keys, i) - {IntKey(i)});
  }
}
