/**
  Tables (ltable.c): an array part and a chained scatter table with Brent's variation.
  */
module Tables {
  import opened TableNodes
  import opened TableInsert
  import opened TableSizes
  import opened TableContents
  import opened TableCount
  import opened TableNext

  /** `MAX_INT` (llimits.h). */
  const MAX_INT: nat := 0x7fff_fffd

  datatype NextResult = Entry(k: Key, v: Value) | NoMore | InvalidKey

  /** `luaH_set` reports an error for the two values that cannot be keys. */
  datatype SetResult = Found(s: Slot) | IndexIsNil | IndexIsNaN

  /** Assigning to the entry at an index, or marking the key of a node without value dead. */
  datatype Change = Assign(i: nat, v: Value) | Bury(i: nat)

  class Table {
    var slots: seq<Value>
    var node: seq<Node>
    var lastfree: int
    /** The table shares the node `dummynode` and has no hash part of its own. */
    var dummy: bool
    const h: Hash
    ghost var lines: Lines
    ghost var contents: Map

    ghost predicate Core()
      reads this
    {
      && NodesOk(h, node, lines) && Represents(slots, node, contents) && |slots| <= MAXASIZE
      && lastfree <= |node|
      && (dummy ==> node == [EMPTY] && lastfree <= 0)
    }

    /** Every free node lies before `lastfree`. */
    ghost predicate Valid()
      reads this
    {
      Core() && (!dummy ==> forall i | 0 <= i < |node| && node[i].key.NoKey? :: i < lastfree)
    }

    /** `getfreepos` has handed out the node `n`, which is about to be used. */
    ghost predicate HandedOut(n: nat)
      reads this
    {
      && Core() && !dummy && lastfree == n < |node| && node[n].key.NoKey?
      && forall i | 0 <= i < |node| && node[i].key.NoKey? :: i <= n
    }

    ghost predicate SlotFor(k: Key, s: Slot)
      reads this
    {
      SlotOf(slots, node, k, s)
    }

    /** There is a free node, so that a key can be placed without a new hash part. */
    ghost predicate Room()
      reads this
    {
      !dummy && exists i :: 0 <= i < |node| && node[i].key.NoKey?
    }

    // ---------- searching ----------

    lemma MainStarts(k: Key, i: nat)
      requires Valid() && i < |node|
      ensures node[i].key == Live(k) ==> From(lines, h(k, |node|), i)
    {
      assert node[i].key == Live(k) ==> AtHome(h, node, lines, i);
    }

    lemma FoundSlot(k: Key, n: nat)
      requires !InArray(slots, k) && n < |node| && node[n].key == Live(k)
      ensures SlotFor(k, NodeSlot(n))
    {
    }

    lemma FoundNone(k: Key)
      requires !InArray(slots, k) && forall i | 0 <= i < |node| :: node[i].key != Live(k)
      ensures SlotFor(k, NoSlot)
    {
    }

    /** The loop that all the search functions share, from the main position of the key. */
    method Search(k: Key) returns (s: Slot)
      requires Valid() && !InArray(slots, k)
      ensures SlotFor(k, s)
    {
      hide SlotFor, Represents;
      var m := h(k, |node|);
      var n: nat := m;
      while true
        invariant n < |node| && From(lines, m, n)
        invariant forall j: nat | j < |node| && From(lines, m, j) && lines.place[j] < lines.place[n] :: node[j].key != Live(k)
        decreases |Ahead(lines, n)|
      {
        if node[n].key == Live(k) {
          FoundSlot(k, n);
          return NodeSlot(n);
        }
        var next := node[n].next;
        if next < 0 {
          forall i: nat | i < |node| ensures node[i].key != Live(k) {
            MainStarts(k, i);
            if From(lines, m, i) {
              LastIsLast(node, lines, m, n, i);
              if lines.place[i] == lines.place[n] { SamePlace(node, lines, m, n, i); }
            }
          }
          FoundNone(k);
          return NoSlot;
        }
        forall j: nat | j < |node| && From(lines, m, j) && lines.place[j] < lines.place[next] ensures node[j].key != Live(k) {
          NextSkipsNone(node, lines, m, n, j);
          if lines.place[j] == lines.place[n] { SamePlace(node, lines, m, n, j); }
        }
        NextSkipsNone(node, lines, m, n, n);
        AheadShrinks(lines, n, next);
        n := next;
      }
    }

    /** `luaH_getnum` */
    method GetNum(key: int) returns (s: Slot)
      requires Valid()
      ensures SlotFor(IntKey(key), s)
    {
      if 1 <= key <= |slots| {
        s := ArraySlot(key - 1);
      } else {
        s := Search(IntKey(key));
      }
    }

    /** `luaH_get` */
    method Get(key: Key) returns (s: Slot)
      requires Valid()
      ensures SlotFor(key, s) && Read(slots, node, s) == Lookup(contents, key)
    {
      match key {
        case NilK =>
          s := NoSlot;
          NotStored(key);
        case IntKey(i) => s := GetNum(i);
        case _ => s := Search(key);
      }
      ReadIsLookup(slots, node, contents, key, s);
    }

    lemma NotStored(key: Key)
      requires Valid() && !Storable(key)
      ensures !HasKey(node, key)
    {
    }

    // ---------- placing a key ----------

    /** `getfreepos`: -1 stands for NULL. */
    method GetFreePos() returns (n: int)
      requires Valid()
      modifies this`lastfree
      ensures n >= 0 ==> HandedOut(n)
      ensures n < 0 ==> Valid() && !Room()
    {
      while true
        invariant lastfree <= |node|
        invariant !dummy ==> forall i | 0 <= i < |node| && node[i].key.NoKey? :: i < lastfree
        invariant dummy ==> lastfree <= old(lastfree)
        decreases lastfree
      {
        var was := lastfree;
        lastfree := lastfree - 1;
        if was <= 0 {
          break;
        }
        if node[lastfree].key.NoKey? {
          return lastfree;
        }
      }
      return -1;
    }

    /** The loop of `newkey` that looks for the node before the colliding one. */
    method FindPrevious(mp: nat) returns (prev: nat)
      requires Core() && mp < |node| && !node[mp].key.NoKey? && Main(h, node, mp) != mp
      ensures prev < |node| && node[prev].next == mp && prev != mp && !node[prev].key.NoKey?
    {
      assert AtHome(h, node, lines, mp);
      prev := Main(h, node, mp);
      while node[prev].next != mp
        invariant prev < |node| && After(lines, prev, mp)
        decreases |Ahead(lines, prev)|
      {
        var next := node[prev].next;
        assert lines.place[next] == lines.place[mp] ==> next == mp;
        AheadShrinks(lines, prev, next);
        prev := next;
      }
      assert forall i | 0 <= i < |node| && node[i].key.NoKey? :: FreeNode(node, lines, i);
    }

    /** A key placed in a node, ready for its value. */
    ghost predicate Placed(key: Key, s: Slot)
      reads this
    {
      Valid() && SlotFor(key, s) && s != NoSlot && Lookup(contents, key) == Nil
    }

    /** `newkey` when the main position has no value. */
    method TakeMain(mp: nat, key: Key) returns (s: Slot)
      requires Valid() && Storable(key) && NewTo(node, key) && !InArray(slots, key) && mp == h(key, |node|)
      requires node[mp].val == Nil && !dummy
      modifies this`node
      ensures Placed(key, s) && node == Reused(old(node), mp, key)
    {
      ReuseKeeps(h, node, lines, mp, key);
      ReusedSame(node, mp, key);
      PlaceRepresents(slots, node, contents, Reused(node, mp, key), key);
      assert forall i | 0 <= i < |node| && Reused(node, mp, key)[i].key.NoKey? :: node[i].key.NoKey?;
      assert !HasKey(node, key);
      node := node[mp := node[mp].(key := Live(key), val := Nil)];
      s := NodeSlot(mp);
    }

    /** The nodes `new'` on the lines `b` are those of the table with the key placed at `mp`, and no other value changed. */
    ghost predicate PlacedBy(new': seq<Node>, b: Lines, mp: nat, n: nat, key: Key)
      reads this
    {
      && NodesOk(h, new', b) && Represents(slots, new', contents)
      && |new'| == |node| && (forall i | 0 <= i < |new'| && new'[i].key.NoKey? :: i < n)
      && SlotOf(slots, new', key, NodeSlot(mp)) && Lookup(contents, key) == Nil
    }

    lemma MovePlaces(prev: nat, mp: nat, n: nat, key: Key)
      requires HandedOut(n) && Storable(key) && NewTo(node, key) && !InArray(slots, key)
      requires Collides(h, node, lines, prev, mp, n, key)
      ensures PlacedBy(MovedOut(node, prev, mp, n, key), LineMoved(lines, mp, n), mp, n, key)
    {
      MoveOutKeeps(h, node, lines, prev, mp, n, key);
      hide NodesOk;
      MovedOutSame(node, prev, mp, n, key);
      assert !HasKey(node, key);
      PlaceRepresents(slots, node, contents, MovedOut(node, prev, mp, n, key), key);
      FreeAfterMove(prev, mp, n, key);
    }

    /** `newkey` when the colliding key is out of its main position. */
    method MoveColliding(mp: nat, n: nat, key: Key) returns (s: Slot, ghost prev: nat)
      requires HandedOut(n) && Storable(key) && NewTo(node, key) && !InArray(slots, key) && mp == h(key, |node|)
      requires n != mp && !node[mp].key.NoKey? && Main(h, node, mp) != mp
      modifies this`node, this`lines
      ensures Placed(key, s) && prev < |old(node)| && prev != mp && prev != n && node == MovedOut(old(node), prev, mp, n, key)
    {
      hide NodesOk, Represents, NewTo, SlotOf;
      var othern := FindPrevious(mp);
      prev := othern;
      ghost var was := node;
      MovePlaces(othern, mp, n, key);
      LinesFit(mp);
      lines := LineMoved(lines, mp, n);
      node := node[othern := node[othern].(next := n)];
      node := node[n := node[mp]];
      node := node[mp := node[mp].(next := -1, val := Nil)];
      node := node[mp := node[mp].(key := Live(key))];
      assert node == MovedOut(was, othern, mp, n, key);
      hide MovedOut, LineMoved;
      s := NodeSlot(mp);
    }

    lemma FreeAfterMove(prev: nat, mp: nat, n: nat, key: Key)
      requires HandedOut(n) && prev < |node| && mp < |node| && prev != n && prev != mp && mp != n && !node[mp].key.NoKey?
      ensures var new' := MovedOut(node, prev, mp, n, key);
        |new'| == |node| && forall i | 0 <= i < |new'| && new'[i].key.NoKey? :: i < n
    {
    }

    lemma LinesFit(i: nat)
      requires Core() && i < |node|
      ensures |lines.line| == |node| == |lines.place| && node[i].next < |node|
    {
    }

    lemma LinkRepresents(mp: nat, n: nat, key: Key)
      requires Represents(slots, node, contents) && NewTo(node, key) && !InArray(slots, key)
      requires mp < |node| && n < |node| && n != mp && node[n].key.NoKey?
      ensures Represents(slots, LinkedAfter(node, mp, n, key), contents)
      ensures SlotOf(slots, LinkedAfter(node, mp, n, key), key, NodeSlot(n)) && Lookup(contents, key) == Nil
    {
      LinkedAfterSame(node, mp, n, key);
      assert !HasKey(node, key);
      PlaceRepresents(slots, node, contents, LinkedAfter(node, mp, n, key), key);
    }

    lemma LinkPlaces(mp: nat, n: nat, key: Key)
      requires HandedOut(n) && Storable(key) && NewTo(node, key) && !InArray(slots, key)
      requires Linking(h, node, lines, mp, n, key)
      ensures PlacedBy(LinkedAfter(node, mp, n, key), LineAfter(node, lines, mp, n), n, n, key) && node[n].val == Nil
    {
      assert FreeNode(node, lines, n);
      LinesFit(mp);
      hide Keyed, Linked, Represents, NewTo, SlotOf;
      LinkAfterKeeps(h, node, lines, mp, n, key);
      hide NodesOk, LineAfter;
      LinkRepresents(mp, n, key);
    }

    /** `newkey` when the colliding key is in its main position. */
    method LinkFree(mp: nat, n: nat, key: Key) returns (s: Slot)
      requires HandedOut(n) && Storable(key) && NewTo(node, key) && !InArray(slots, key) && mp == h(key, |node|)
      requires n != mp && node[mp].val != Nil && !node[mp].key.NoKey? && Main(h, node, mp) == mp
      modifies this`node, this`lines
      ensures Placed(key, s) && node == LinkedAfter(old(node), mp, n, key)
    {
      hide NodesOk, Represents, NewTo, SlotOf;
      ghost var was := node;
      LinkPlaces(mp, n, key);
      LinesFit(mp);
      lines := LineAfter(node, lines, mp, n);
      node := node[n := node[n].(next := node[mp].next)];
      node := node[mp := node[mp].(next := n)];
      node := node[n := node[n].(key := Live(key))];
      assert node == LinkedAfter(was, mp, n, key);
      hide LinkedAfter, LineAfter;
      s := NodeSlot(n);
    }

    // ---------- setting ----------

    /** A step that needs no new hash part changes little. */
    twostate predicate SmallStep(key: Key)
      reads this
    {
      && slots == old(slots) && |node| == |old(node)| && dummy == old(dummy)
      && NodeKeys(node) <= old(NodeKeys(node)) + (if InArray(slots, key) then {} else {key})
      && (old(NoDead(node)) ==> NoDead(node))
    }

    /** `newkey`.  Without leave to grow there has to be room. */
    method NewKey(key: Key, ghost mayGrow: bool) returns (s: Slot)
      requires Valid() && Storable(key) && NewTo(node, key) && !InArray(slots, key) && (mayGrow || Room())
      modifies this
      ensures Placed(key, s) && contents == old(contents)
      ensures !mayGrow ==> SmallStep(key)
      decreases mayGrow, 0
    {
      hide NodesOk, Represents, Linked, Reused, LinkedAfter, MovedOut;
      MainInRange(key);
      NewHasNoValue(key);
      var mp := h(key, |node|);
      ghost var was := node;
      if node[mp].val != Nil || dummy {
        var n := GetFreePos();
        if n < 0 {
          assert mayGrow;
          Rehash(key);
          var r := Set(key, false);
          return r.s;
        }
        HasItsKey(mp);
        if h(node[mp].key.k, |node|) != mp {
          ghost var prev;
          s, prev := MoveColliding(mp, n, key);
          MovedKeys(was, prev, mp, n, key);
        } else {
          s := LinkFree(mp, n, key);
          LinkedKeys(was, mp, n, key);
        }
      } else {
        s := TakeMain(mp, key);
        ReusedKeys(was, mp, key);
      }
    }

    lemma NewHasNoValue(key: Key)
      requires Valid() && NewTo(node, key) && !InArray(slots, key)
      ensures key !in contents
    {
    }

    lemma MainInRange(key: Key)
      requires Valid()
      ensures h(key, |node|) < |node| && (dummy ==> node == [EMPTY])
    {
    }

    /** A node with a value has a key. */
    lemma HasItsKey(i: nat)
      requires Core() && i < |node| && node[i].val != Nil
      ensures !node[i].key.NoKey?
    {
      assert node[i].key.NoKey? ==> FreeNode(node, lines, i);
    }

    /** `luaH_set` */
    method Set(key: Key, ghost mayGrow: bool) returns (r: SetResult)
      requires Valid() && (mayGrow || (Storable(key) && (InArray(slots, key) || Room())))
      modifies this
      ensures Valid() && contents == old(contents)
      ensures (key.NilK? ==> r == IndexIsNil) && (key.NaN? ==> r == IndexIsNaN)
      ensures Storable(key) ==> r.Found? && r.s != NoSlot && SlotFor(key, r.s)
      ensures !mayGrow ==> SmallStep(key)
      decreases mayGrow, 1
    {
      var p := Get(key);
      if p != NoSlot {
        SlotStorable(key, p);
        return Found(p);
      }
      if key.NilK? { return IndexIsNil; }
      if key.NaN? { return IndexIsNaN; }
      assert NewTo(node, key);
      var s := NewKey(key, mayGrow);
      r := Found(s);
    }

    lemma SlotStorable(key: Key, s: Slot)
      requires Valid() && SlotFor(key, s) && s != NoSlot
      ensures Storable(key)
    {
    }

    /** `luaH_set` and the assignment to the value that it returns. */
    method Put(key: Key, v: Value, ghost mayGrow: bool) returns (r: SetResult)
      requires Valid() && (mayGrow || (Storable(key) && (InArray(slots, key) || Room())))
      modifies this
      ensures Valid()
      ensures (key.NilK? ==> r == IndexIsNil) && (key.NaN? ==> r == IndexIsNaN) && (r.Found? <==> Storable(key))
      ensures contents == if Storable(key) then Written(old(contents), key, v) else old(contents)
      ensures !mayGrow ==> |slots| == |old(slots)| && |node| == |old(node)| && dummy == old(dummy)
      ensures !mayGrow ==> NodeKeys(node) <= old(NodeKeys(node)) + (if InArray(slots, key) then {} else {key})
      ensures !mayGrow && old(NoDead(node)) ==> NoDead(node)
      decreases mayGrow, 2
    {
      r := Set(key, mayGrow);
      if r.Found? {
        Store(key, r.s, v);
      }
    }

    /** Assigning to the value in a slot. */
    method Store(key: Key, s: Slot, v: Value)
      requires Valid() && SlotFor(key, s) && s != NoSlot
      modifies this`slots, this`node, this`contents
      ensures Valid() && contents == Written(old(contents), key, v) && SlotFor(key, s) && Read(slots, node, s) == v
      ensures |slots| == |old(slots)| && |node| == |old(node)| && NodeKeys(node) == old(NodeKeys(node))
      ensures old(NoDead(node)) ==> NoDead(node)
      ensures match s
              case ArraySlot(i) => slots == old(slots)[i := v] && node == old(node)
              case NodeSlot(i) => slots == old(slots) && node == old(node)[i := old(node)[i].(val := v)]
    {
      match s
      case ArraySlot(i) =>
        WriteArray(slots, node, contents, key, i, v);
        slots := slots[i := v];
        contents := Written(contents, key, v);
      case NodeSlot(i) =>
        WriteNode(h, slots, node, lines, contents, key, i, v);
        assert forall j | 0 <= j < |node| :: node[i := node[i].(val := v)][j].key == node[j].key;
        node := node[i := node[i].(val := v)];
        contents := Written(contents, key, v);
    }

    // ---------- resizing ----------

    /** `setnodevector`: an empty hash part for `size` keys, in which all nodes are free. */
    method SetNodeVector(size: nat)
      requires |slots| <= MAXASIZE
      modifies this`node, this`lastfree, this`dummy, this`lines, this`contents
      ensures Valid() && contents == ArrayMap(slots) && NodeKeys(node) == {}
      ensures |node| >= size && (dummy <==> size == 0) && forall i | 0 <= i < |node| :: node[i] == EMPTY
    {
      if size == 0 {
        node := [EMPTY];
        dummy := true;
        lastfree := 0;
      } else {
        var lsize := CeilLog2(size);
        var n := Pow2(lsize);
        node := seq(n, i => EMPTY);
        dummy := false;
        lastfree := n;
      }
      lines := Lines(seq(|node|, i => i), seq(|node|, i => 0.0));
      contents := ArrayMap(slots);
      EmptyNodes(h, node, lines);
      ArrayMapRepresents(slots, node);
    }

    /** The values of `m` that have been inserted again. */
    ghost predicate Within(m: Map)
      reads this
    {
      forall k | k in contents :: k in m && contents[k] == m[k]
    }

    /** The keys of the nodes all have values. */
    ghost predicate Tidy()
      reads this
    {
      NodeKeys(node) <= contents.Keys
    }

    /** While a table is resized: the sizes are final, and some of the values of `m` are there. */
    ghost predicate Resizing(m: Map, nasize: nat, nhsize: nat)
      reads this
    {
      && Valid() && Tidy() && Within(m) && |slots| == nasize && |node| >= nhsize && (dummy <==> nhsize == 0)
      && |Outside(m.Keys, nasize)| <= nhsize
      && (forall k | k in m :: Storable(k) && m[k] != Nil) && NoDead(node)
    }

    /** A key that is still to be inserted finds room. */
    lemma RoomFor(m: Map, nasize: nat, nhsize: nat, k: Key)
      requires Resizing(m, nasize, nhsize) && k in m && k !in contents && !InArray(slots, k)
      ensures Room()
    {
      var out := Outside(m.Keys, nasize);
      assert k in out;
      forall k' | k' in NodeKeys(node) ensures k' in out - {k} {
        assert k' in contents;
        var i :| 0 <= i < |node| && !node[i].key.NoKey? && node[i].key.k == k';
        assert node[i].key.Live?;
      }
      RoomLeft(node, out - {k});
    }

    /** One key is inserted again. */
    method Reinsert(key: Key, v: Value, ghost m: Map, ghost nhsize: nat)
      requires Resizing(m, |slots|, nhsize) && key in m && m[key] == v && key !in contents
      modifies this
      ensures Resizing(m, |old(slots)|, nhsize) && |slots| == |old(slots)| && contents == old(contents)[key := v]
      decreases false, 3
    {
      ghost var n, c := |slots|, contents;
      if !InArray(slots, key) {
        RoomFor(m, n, nhsize, key);
      }
      var r := Put(key, v, false);
      assert contents == c[key := v];
    }

    /** The slots of the array part that vanish are inserted again. */
    method ReinsertSlots(vanish: seq<Value>, nasize: nat, ghost m: Map, ghost nhsize: nat)
      requires Resizing(m, |slots|, nhsize) && nasize == |slots| <= |vanish|
      requires forall i | nasize <= i < |vanish| :: Lookup(m, IntKey(i + 1)) == vanish[i] && IntKey(i + 1) !in contents
      modifies this
      ensures Resizing(m, nasize, nhsize)
      ensures forall k | k in contents :: k in old(contents) || (k.IntKey? && nasize < k.i <= |vanish|)
      ensures forall k | k in old(contents) :: k in contents
      ensures forall i | nasize <= i < |vanish| && vanish[i] != Nil :: IntKey(i + 1) in contents
      decreases false, 4
    {
      var i := nasize;
      while i < |vanish|
        invariant nasize <= i <= |vanish| && |slots| == nasize && Resizing(m, nasize, nhsize)
        invariant forall k | k in contents :: k in old(contents) || (k.IntKey? && nasize < k.i <= i)
        invariant forall k | k in old(contents) :: k in contents
        invariant forall j | nasize <= j < i && vanish[j] != Nil :: IntKey(j + 1) in contents
      {
        if vanish[i] != Nil {
          assert Lookup(m, IntKey(i + 1)) == vanish[i];
          Reinsert(IntKey(i + 1), vanish[i], m, nhsize);
        }
        i := i + 1;
      }
    }

    /** The nodes of the old hash part are inserted again, from the last to the first. */
    method ReinsertNodes(nold: seq<Node>, ghost m: Map, ghost nhsize: nat)
      requires Resizing(m, |slots|, nhsize)
      requires forall i | 0 <= i < |nold| && nold[i].key.Live? :: Lookup(m, nold[i].key.k) == nold[i].val && nold[i].key.k !in contents
      requires forall i | 0 <= i < |nold| && !nold[i].key.Live? :: nold[i].val == Nil
      requires forall i, j | 0 <= i < j < |nold| :: !SameKey(nold, i, j)
      modifies this
      ensures Resizing(m, |old(slots)|, nhsize) && |slots| == |old(slots)|
      ensures forall k | k in old(contents) :: k in contents
      ensures forall i | 0 <= i < |nold| && nold[i].val != Nil :: nold[i].key.k in contents
      decreases false, 4
    {
      var i := |nold|;
      ghost var n := |slots|;
      while i > 0
        invariant 0 <= i <= |nold| && |slots| == n && Resizing(m, n, nhsize)
        invariant forall k | k in old(contents) :: k in contents
        invariant forall j | 0 <= j < i && nold[j].key.Live? :: nold[j].key.k !in contents
        invariant forall j | i <= j < |nold| && nold[j].val != Nil :: nold[j].key.k in contents
      {
        i := i - 1;
        if nold[i].val != Nil {
          assert Lookup(m, nold[i].key.k) == nold[i].val;
          assert nold[i].key.Live?;
          forall j | 0 <= j < i && nold[j].key.Live? ensures nold[j].key.k != nold[i].key.k {
            assert !SameKey(nold, j, i);
          }
          Reinsert(nold[i].key.k, nold[i].val, m, nhsize);
        }
      }
    }

    /** What is known of the nodes that a table gives up. */
    lemma OldNodes()
      requires Valid()
      ensures forall i | 0 <= i < |node| && node[i].key.Live? ::
                Lookup(contents, node[i].key.k) == node[i].val && !InArray(slots, node[i].key.k)
      ensures forall i | 0 <= i < |node| && !node[i].key.Live? :: node[i].val == Nil
      ensures forall i, j | 0 <= i < j < |node| :: !SameKey(node, i, j)
    {
      assert forall i | 0 <= i < |node| && node[i].key.NoKey? :: FreeNode(node, lines, i);
    }

    /** `resize` */
    method Resize(nasize: nat, nhsize: nat)
      requires Valid() && nasize <= MAXASIZE && |Outside(contents.Keys, nasize)| <= nhsize
      modifies this
      ensures Valid() && contents == old(contents) && Tidy() && NoDead(node)
      ensures |slots| == nasize && |node| >= nhsize && (dummy <==> nhsize == 0)
      decreases false, 5
    {
      hide NodesOk;
      ghost var m := contents;
      var oldslots := slots;
      var nold := node;
      OldNodes();
      if nasize > |slots| {
        slots := slots + seq(nasize - |slots|, i => Nil);
      }
      SetNodeVector(nhsize);
      if nasize < |slots| {
        slots := slots[..nasize];
        contents := ArrayMap(slots);
        ArrayMapRepresents(slots, node);
      }
      ArrayMapWithin(oldslots, nold, m, slots);
      if nasize < |oldslots| {
        ReinsertSlots(oldslots, nasize, m, nhsize);
      }
      ReinsertNodes(nold, m, nhsize);
      AllBack(oldslots, nold, m, contents);
    }

    // ---------- rehashing ----------

    /** `rehash`: the sizes are computed for the keys of the table and the key that found no place. */
    method Rehash(key: Key)
      requires Valid() && Storable(key) && NewTo(node, key) && !InArray(slots, key)
      modifies this
      ensures Valid() && contents == old(contents) && Best(Ints(contents.Keys + {key}), |slots|)
      ensures InArray(slots, key) || Room()
      decreases false, 6
    {
      ghost var keys := contents.Keys;
      assert key !in keys;
      var nasize, nhsize := NewSizes(key);
      assert Outside(keys, nasize) <= Outside(keys + {key}, nasize);
      CardSub(Outside(keys, nasize), Outside(keys + {key}, nasize));
      Resize(nasize, nhsize);
      if !InArray(slots, key) {
        RoomAfter(keys, key);
      }
    }

    /** The counting half of `rehash`. */
    method NewSizes(key: Key) returns (nasize: nat, nhsize: nat)
      requires Valid() && key !in contents
      ensures Best(Ints(contents.Keys + {key}), nasize) && nasize <= MAXASIZE
      ensures nhsize == |Outside(contents.Keys + {key}, nasize)|
    {
      hide NodesOk, Tally, Best;
      ghost var keys := contents.Keys;
      var nums, ause := CountKeys();
      var totaluse := ause.0;
      nasize := ause.1;
      assert key.IntKey? ==> key.i !in Ints(keys);
      CountedUpTo(Ints(keys), key);
      var extra;
      extra, nums := CountInt(key, nums, Ints(keys));
      nasize, totaluse := nasize + extra, totaluse + 1;
      IntsPlus(keys, key);
      ghost var all := keys + {key};
      assert {key} + keys == all && Ints(keys) + Ints({key}) == Ints(all);
      var na;
      na, nasize := ComputeSizes(nums, nasize, Ints(all));
      OutsideCount(all, nasize);
      nhsize := totaluse - na;
    }

    /** The keys of both parts: how many there are, and how many may go to the array part. */
    method CountKeys() returns (nums: seq<nat>, use: (nat, nat))
      requires Valid()
      ensures Tally(nums, Ints(contents.Keys))
      ensures use == (|contents.Keys|, |UpTo(Ints(contents.Keys), MAXASIZE)|)
    {
      hide Valid, Tally, UpTo, ArrayInts, HashKeys, Countable, Represents;
      ReadyToCount();
      ghost var s0 := ArrayInts(slots, |slots|);
      var nasize;
      nums, nasize := NumUseArray(slots);
      var used, ause;
      nums, used, ause := NumUseHash(node, nums, s0);
      use := (nasize + used, nasize + ause);
    }

    /** No integer is in both parts, and together they have all the keys. */
    lemma ReadyToCount()
      requires Valid()
      ensures var s0 := ArrayInts(slots, |slots|);
        && |slots| <= MAXASIZE && UpTo(s0, MAXASIZE) == s0 && Countable(node, s0)
        && |contents.Keys| == |s0| + |HashKeys(node, 0)| && Ints(contents.Keys) == s0 + Ints(HashKeys(node, 0))
    {
      OldNodes();
      AllKeys(slots, node, contents);
      var s0 := ArrayInts(slots, |slots|);
      forall x ensures x in s0 ==> 0 < x <= |slots| { ArrayIntsAre(slots, |slots|, x); }
      hide NodesOk, HashKeys;
      forall i | 0 <= i < |node| && !node[i].key.NoKey? && node[i].key.k.IntKey? && node[i].val != Nil
        ensures node[i].key.k.i !in s0
      {
        assert node[i].key.Live? && !InArray(slots, node[i].key.k);
      }
    }

    /** The new hash part has one node more than the table has keys there. */
    lemma RoomAfter(keys: set<Key>, key: Key)
      requires Valid() && Tidy() && NoDead(node) && contents.Keys == keys && key !in keys && !InArray(slots, key)
      requires |node| >= |Outside(keys + {key}, |slots|)| && (dummy <==> |Outside(keys + {key}, |slots|)| == 0)
      ensures Room()
    {
      var out := Outside(keys + {key}, |slots|);
      assert key in out;
      forall k' | k' in NodeKeys(node) ensures k' in out - {key} {
        var i :| 0 <= i < |node| && !node[i].key.NoKey? && node[i].key.k == k';
        assert node[i].key.Live?;
      }
      RoomLeft(node, out - {key});
    }

    // ---------- new tables ----------

    /** `luaH_new` */
    constructor (hash: Hash, narray: nat, nhash: nat)
      requires narray <= MAXASIZE
      ensures Valid() && contents == map[] && |slots| == narray && |node| >= nhash && h == hash
    {
      h := hash;
      slots := seq(narray, i => Nil);
      node := [EMPTY];
      dummy := true;
      lastfree := 0;
      new;
      SetNodeVector(nhash);
    }

    /** `luaH_resizearray`, which its callers use to make the array part larger. */
    method ResizeArray(nasize: nat)
      requires Valid() && |slots| <= nasize <= MAXASIZE
      modifies this
      ensures Valid() && contents == old(contents) && |slots| == nasize
    {
      var nsize := if dummy then 0 else |node|;
      OutsideInNodes(nasize);
      Resize(nasize, nsize);
    }

    lemma OutsideInNodes(nasize: nat)
      requires Valid() && |slots| <= nasize
      ensures |Outside(contents.Keys, nasize)| <= if dummy then 0 else |node|
    {
      forall k | k in Outside(contents.Keys, nasize) ensures k in NodeKeys(node) {
        assert !InArray(slots, k);
        var i :| 0 <= i < |node| && node[i].key == Live(k);
      }
      CardSub(Outside(contents.Keys, nasize), NodeKeys(node));
      NodeKeysCard(node);
    }

    // ---------- dead keys ----------

    /** `removeentry` (lgc.c:62-66), on an entry without value: the key dies, the links stay. */
    method RemoveEntry(i: nat, collectable: bool)
      requires Valid() && i < |node| && node[i].val == Nil && (collectable && node[i].key.Live? ==> node[i].key.k.OtherKey?)
      modifies this`node
      ensures Valid() && contents == old(contents) && Cleared(old(Snapshot()), Snapshot())
    {
      hide NodesOk, Represents, Cleared;
      ClearedRefl(Snapshot());
      if collectable && node[i].key.Live? {
        RemovedCleared(slots, node, lines, i);
        RemoveKeeps(h, node, lines, i);
        RemoveRepresents(slots, node, contents, i);
        StillBefore(i);
        hide Removed;
        node := Removed(node, i);
      }
    }

    /** A dead key leaves the free nodes where they are. */
    lemma StillBefore(i: nat)
      requires Core() && i < |node| && node[i].key.Live?
      ensures |Removed(node, i)| == |node| && !dummy
      ensures forall j | 0 <= j < |node| :: Removed(node, i)[j].key.NoKey? <==> node[j].key.NoKey?
    {
    }

    // ---------- traversal ----------

    ghost function Snapshot(): Tab
      reads this
    {
      Tab(slots, node, lines)
    }

    /** `findindex`: the index at which the key stands, that of its first node on the chain, or -1 for nil; an error if
        it stands nowhere. */
    method FindIndex(key: Key) returns (found: bool, i: int)
      requires Valid()
      ensures key.NilK? ==> found && i == -1
      ensures !key.NilK? && found ==> i >= 0 && StandsAt(Snapshot(), key, i)
      ensures !key.NilK? && found ==> forall j: nat :: StandsAt(Snapshot(), key, j) ==> j == i
      ensures !found ==> forall j: nat :: !StandsAt(Snapshot(), key, j)
    {
      if key.NilK? {
        return true, -1;
      }
      forall m: nat, n: nat | StandsAt(Snapshot(), key, m) && StandsAt(Snapshot(), key, n) ensures m == n {
        StandsOnce(Snapshot(), key, m, n);
      }
      if key.IntKey? && 0 < key.i <= |slots| {
        return true, key.i - 1;
      }
      var n := SearchAny(key);
      if n < 0 {
        return false, -1;
      }
      assert StandsAt(Snapshot(), key, |slots| + n);
      return true, |slots| + n;
    }

    lemma OnItsLine(key: Key, i: nat)
      requires Valid() && i < |node|
      ensures HasIt(node[i], key) ==> From(lines, h(key, |node|), i)
    {
      assert HasIt(node[i], key) ==> AtHome(h, node, lines, i);
    }

    /** The loop of `findindex`, which also finds a dead key: the first copy on the line. */
    method SearchAny(key: Key) returns (at: int)
      requires Valid()
      ensures at >= 0 ==> FirstCopy(node, lines, key, at)
      ensures at < 0 ==> forall j | 0 <= j < |node| :: !HasIt(node[j], key)
    {
      var m := h(key, |node|);
      var n: nat := m;
      while true
        invariant n < |node| && From(lines, m, n)
        invariant forall j: nat | j < |node| && From(lines, m, j) && lines.place[j] < lines.place[n] :: !HasIt(node[j], key)
        decreases |Ahead(lines, n)|
      {
        if HasIt(node[n], key) {
          forall j: nat | j < |node| && j != n && HasIt(node[j], key) ensures After(lines, n, j) {
            OnItsLine(key, j);
            if lines.place[j] == lines.place[n] { SamePlace(node, lines, m, n, j); }
          }
          return n;
        }
        var next := node[n].next;
        if next < 0 {
          forall i: nat | i < |node| ensures !HasIt(node[i], key) {
            OnItsLine(key, i);
            if From(lines, m, i) {
              LastIsLast(node, lines, m, n, i);
              if lines.place[i] == lines.place[n] { SamePlace(node, lines, m, n, i); }
            }
          }
          return -1;
        }
        forall j: nat | j < |node| && From(lines, m, j) && lines.place[j] < lines.place[next] ensures !HasIt(node[j], key) {
          NextSkipsNone(node, lines, m, n, j);
          if lines.place[j] == lines.place[n] { SamePlace(node, lines, m, n, j); }
        }
        NextSkipsNone(node, lines, m, n, n);
        AheadShrinks(lines, n, next);
        n := next;
      }
    }

    /** The entry with a value at index `i`, as a program sees it. */
    method EntryAt(i: nat) returns (r: NextResult)
      requires Valid() && i < Size(Snapshot()) && ValAt(Snapshot(), i) != Nil
      ensures r.Entry? && StandsAt(Snapshot(), r.k, i) && r.v == ValAt(Snapshot(), i) == Lookup(contents, r.k)
      ensures !r.k.NilK?
    {
      if i < |slots| {
        assert Lookup(contents, IntKey(i + 1)) == slots[i];
        r := Entry(IntKey(i + 1), slots[i]);
      } else {
        var n := i - |slots|;
        HasItsKey(n);
        assert node[n].key.Live?;
        LiveIsFirst(h, node, lines, n);
        r := Entry(node[n].key.k, node[n].val);
      }
    }

    /** Where a traversal that has reached the key goes on. */
    ghost predicate GoesOn(key: Key, from: nat)
      reads this
    {
      from <= Size(Snapshot()) && if key.NilK? then from == 0 else from > 0 && StandsAt(Snapshot(), key, from - 1)
    }

    /** `luaH_next`: the first entry with a value after the one of the key; `at` is its index. */
    method Next(key: Key) returns (r: NextResult, ghost from: nat, ghost at: nat)
      requires Valid()
      ensures r == InvalidKey <==> (!key.NilK? && forall j: nat :: !StandsAt(Snapshot(), key, j))
      ensures r != InvalidKey ==> GoesOn(key, from) && at == NextIndex(Snapshot(), from)
      ensures r != InvalidKey && !key.NilK? ==> forall j: nat :: StandsAt(Snapshot(), key, j) ==> from == j + 1
      ensures r == NoMore ==> at == Size(Snapshot())
      ensures r.Entry? ==> at < Size(Snapshot()) && StandsAt(Snapshot(), r.k, at) && r.v == ValAt(Snapshot(), at) == Lookup(contents, r.k)
      ensures r.Entry? ==> !r.k.NilK?
    {
      hide Valid, StandsAt, GoesOn, ValAt, NextIndex;
      var found, i := FindIndex(key);
      from, at := 0, 0;
      if !found {
        return InvalidKey, from, at;
      }
      InSize(key, i);
      from := i + 1;
      GoingOn(key, from);
      r, at := FirstFrom(i + 1);
    }

    /** The two loops of `luaH_next`. */
    method FirstFrom(start: nat) returns (r: NextResult, ghost at: nat)
      requires Valid() && start <= Size(Snapshot())
      ensures at == NextIndex(Snapshot(), start) && r != InvalidKey
      ensures r == NoMore ==> at == Size(Snapshot())
      ensures r.Entry? ==> at < Size(Snapshot()) && StandsAt(Snapshot(), r.k, at) && r.v == ValAt(Snapshot(), at) == Lookup(contents, r.k)
      ensures r.Entry? ==> !r.k.NilK?
    {
      hide Valid, StandsAt;
      ghost var t := Snapshot();
      var i := start;
      at := NextIndex(t, i);
      while i < |slots|
        invariant start <= i <= Size(t) && NextIndex(t, i) == at
      {
        if slots[i] != Nil {
          r := EntryAt(i);
          return;
        }
        i := i + 1;
      }
      i := i - |slots|;
      while i < |node|
        invariant 0 <= i <= |node| && NextIndex(t, i + |slots|) == at
      {
        if node[i].val != Nil {
          r := EntryAt(i + |slots|);
          return;
        }
        i := i + 1;
      }
      r := NoMore;
    }

    lemma GoingOn(key: Key, from: nat)
      requires from <= Size(Snapshot()) && if key.NilK? then from == 0 else from > 0 && StandsAt(Snapshot(), key, from - 1)
      ensures GoesOn(key, from)
    {
    }

    lemma InSize(key: Key, i: int)
      requires i < 0 || StandsAt(Snapshot(), key, i)
      ensures i < Size(Snapshot())
    {
    }

    // ---------- traversals ----------

    /** The result of a call of `next` that goes on at `from`. */
    static ghost predicate Called(t: Tab, from: nat, r: NextResult, at: nat) {
      && r != InvalidKey && from <= Size(t) && at == NextIndex(t, from)
      && (r == NoMore ==> at == Size(t))
      && (r.Entry? ==> !r.k.NilK? && at < Size(t) && StandsAt(t, r.k, at) && r.v == ValAt(t, at) != Nil)
    }

    /** What a program and the collector may do to a table that is being traversed. */
    method Change(c: Change)
      requires Valid()
      modifies this
      ensures Valid() && Modified(old(Snapshot()), Snapshot())
    {
      ghost var t := Snapshot();
      ModifiedRefl(t);
      match c
      case Assign(i, v) =>
        if i < |slots| + |node| && (if i < |slots| then slots[i] else node[i - |slots|].val) != Nil {
          var r := EntryAt(i);
          var s := Get(r.k);
          AssignTo(r.k, s, v);
        }
      case Bury(i) =>
        if i < |node| && node[i].val == Nil && node[i].key.Live? && node[i].key.k.OtherKey? {
          RemoveEntry(i, true);
          ClearedIsModified(t, Snapshot());
        }
    }

    /** An assignment to an existing entry. */
    method AssignTo(key: Key, s: Slot, v: Value)
      requires Valid() && SlotFor(key, s) && Lookup(contents, key) != Nil
      modifies this
      ensures Valid() && Modified(old(Snapshot()), Snapshot())
    {
      hide Represents, Modified, NodesOk;
      ReadIsLookup(slots, node, contents, key, s);
      ghost var t := Snapshot();
      Store(key, s, v);
      SlotModified(t.slots, t.node, s, v, slots, node, lines);
    }

    method Interfere(cs: seq<Change>)
      requires Valid()
      modifies this
      ensures Valid() && Modified(old(Snapshot()), Snapshot())
      ensures cs == [] ==> Snapshot() == old(Snapshot()) && contents == old(contents)
    {
      hide Valid, Modified, Snapshot;
      ghost var t := Snapshot();
      ModifiedRefl(t);
      for i := 0 to |cs|
        invariant Valid() && Modified(t, Snapshot())
        invariant i == 0 ==> Snapshot() == t && contents == old(contents)
      {
        ghost var u := Snapshot();
        Change(cs[i]);
        ModifiedTrans(t, u, Snapshot());
      }
    }

    lemma FromTheStart(from: nat)
      requires GoesOn(NilK, from)
      ensures from == 0
    {
    }

    /** One turn of a traversal: changes after a key has been returned, and the next call. */
    method NextAfter(cs: seq<Change>, key: Key, ghost at: nat) returns (r: NextResult, ghost next: nat)
      requires Valid() && StandsAt(Snapshot(), key, at) && !key.NilK?
      modifies this
      ensures Valid() && Modified(old(Snapshot()), Snapshot())
      ensures at < Size(Snapshot()) && Called(Snapshot(), at + 1, r, next)
      ensures cs == [] ==> Snapshot() == old(Snapshot()) && contents == old(contents)
    {
      hide Valid, Modified, StandsAt, GoesOn, ValAt, NextIndex;
      ghost var t := Snapshot();
      Interfere(cs);
      StillStands(t, Snapshot(), key, at);
      InSize(key, at);
      ghost var from;
      r, from, next := Next(key);
    }

    /** A loop over `next` from nil, with any changes after each call, ends; every entry that keeps a value is yielded,
        and no key twice. */
    method Traverse(plan: nat -> seq<Change>) returns (visited: seq<(Key, Value)>, ghost ts: seq<Tab>, ghost v: seq<nat>)
      requires Valid()
      modifies this
      ensures Valid() && Traversed(ts, v) && Yields(ts, v, visited)
      ensures |ts| == |v| + 1 && ts[0] == old(Snapshot()) && ts[|v|] == Snapshot() && |visited| <= Size(ts[0])
      ensures forall i, j | 0 <= i < j < |visited| :: visited[i].0 != visited[j].0
      ensures forall e: nat | Lasting(ts, e) :: e in v
      ensures (forall n :: plan(n) == []) ==> contents == old(contents) && forall j | 0 <= j < |ts| :: ts[j] == ts[0]
    {
      hide Valid, Modified, StandsAt, GoesOn, ValAt, NextIndex, Size, Steps, Yields, Lasting;
      ghost var t := Snapshot();
      visited, ts, v := [], [t], [];
      NoSteps(t);
      ghost var from, at;
      var r;
      r, from, at := Next(NilK);
      FromTheStart(from);
      while r.Entry?
        invariant Valid() && Steps(ts, v) && Yields(ts, v, visited) && |ts| == |v| + 1
        invariant ts[0] == t && ts[|v|] == Snapshot() && Size(Snapshot()) == Size(t)
        invariant Called(Snapshot(), Start(v, |v|), r, at)
        invariant (forall n :: plan(n) == []) ==> contents == old(contents) && forall j | 0 <= j < |ts| :: ts[j] == t
        decreases Size(t) - |v|
      {
        ghost var u := Snapshot();
        ghost var k, x, now := r.k, r.v, at;
        visited := visited + [(r.k, r.v)];
        r, at := NextAfter(plan(|visited| - 1), r.k, at);
        ModifiedSize(u, Snapshot());
        StepsMore(ts, v, now, Snapshot());
        YieldsMore(ts, v, visited[..|visited| - 1], now, k, x, Snapshot());
        AtMostSize(ts + [Snapshot()], v + [now], |v| + 1);
        ts, v := ts + [Snapshot()], v + [now];
      }
      EndOfSteps(ts, v, visited);
    }

    /** In a table that nobody changes, the traversal yields each key of the map with its value, once, and nothing else. */
    method TraverseUnchanged() returns (visited: seq<(Key, Value)>)
      requires Valid()
      modifies this
      ensures Valid() && contents == old(contents)
      ensures forall i, j | 0 <= i < j < |visited| :: visited[i].0 != visited[j].0
      ensures forall k, x :: (k, x) in visited <==> k in contents && contents[k] == x
    {
      hide Traversed, Yields;
      ghost var ts, v;
      visited, ts, v := Traverse(n => []);
      forall k, x ensures (k, x) in visited <==> k in contents && contents[k] == x {
        YieldsContents(ts, v, visited, k, x);
      }
    }

    lemma YieldsContents(ts: seq<Tab>, v: seq<nat>, visited: seq<(Key, Value)>, k: Key, x: Value)
      requires Valid() && Traversed(ts, v) && Yields(ts, v, visited) && |ts| == |v| + 1
      requires forall j | 0 <= j < |ts| :: ts[j] == Snapshot()
      ensures (k, x) in visited <==> k in contents && contents[k] == x
    {
      hide Valid, Traversed, StandsAt, ValAt, Lookup;
      if (k, x) in visited {
        var j :| 0 <= j < |visited| && visited[j] == (k, x);
        StandingEntry(k, v[j]);
      }
      if k in contents {
        var e := WhereItStands(k);
        YieldsAll(ts, v, visited, e, k);
      }
    }

    lemma StandingEntry(k: Key, e: nat)
      requires Valid() && StandsAt(Snapshot(), k, e) && e < Size(Snapshot()) && ValAt(Snapshot(), e) != Nil
      ensures k in contents && contents[k] == ValAt(Snapshot(), e)
    {
      if e < |slots| {
        assert Lookup(contents, IntKey(e + 1)) == slots[e];
      } else {
        var n := e - |slots|;
        assert node[n].key.Live?;
        assert Lookup(contents, node[n].key.k) == node[n].val;
      }
    }

    lemma WhereItStands(k: Key) returns (e: nat)
      requires Valid() && k in contents
      ensures e < Size(Snapshot()) && StandsAt(Snapshot(), k, e) && ValAt(Snapshot(), e) == contents[k] != Nil
    {
      hide NodesOk;
      if InArray(slots, k) {
        e := k.i - 1;
        assert Lookup(contents, IntKey(e + 1)) == slots[e];
      } else {
        var n :| 0 <= n < |node| && node[n].key == Live(k);
        LiveIsFirst(h, node, lines, n);
        e := |slots| + n;
        assert Lookup(contents, node[n].key.k) == node[n].val;
      }
    }

    // ---------- boundaries ----------

    /** A boundary: `t[n]` is not nil, unless `n` is zero, and `t[n+1]` is. */
    ghost predicate Boundary(n: nat)
      reads this
    {
      (n == 0 || Lookup(contents, IntKey(n)) != Nil) && Lookup(contents, IntKey(n + 1)) == Nil
    }

    method IsNil(i: nat) returns (b: bool)
      requires Valid()
      ensures b == (Lookup(contents, IntKey(i)) == Nil)
    {
      var s := GetNum(i);
      ReadIsLookup(slots, node, contents, IntKey(i), s);
      b := match s
        case NoSlot => true
        case ArraySlot(k) => slots[k] == Nil
        case NodeSlot(k) => node[k].val == Nil;
    }

    /** `unbound_search` */
    method UnboundSearch(j0: nat) returns (n: nat)
      requires Valid() && (j0 == 0 || Lookup(contents, IntKey(j0)) != Nil)
      ensures Boundary(n)
    {
      var i: nat, j: nat := j0, j0 + 1;
      var nil := IsNil(j);
      while !nil
        invariant i == 0 || Lookup(contents, IntKey(i)) != Nil
        invariant i < j && nil == (Lookup(contents, IntKey(j)) == Nil)
        decreases if nil then 0 else 1, if j > MAX_INT then 0 else MAX_INT + 1 - j
      {
        i := j;
        j := j * 2;
        if j > MAX_INT {
          n := LinearSearch();
          return;
        }
        nil := IsNil(j);
      }
      while j - i > 1
        invariant i < j && (i == 0 || Lookup(contents, IntKey(i)) != Nil) && Lookup(contents, IntKey(j)) == Nil
        decreases j - i
      {
        var m := (i + j) / 2;
        var b := IsNil(m);
        if b { j := m; } else { i := m; }
      }
      n := i;
    }

    /** The linear search of `unbound_search`, for tables built to make doubling fail. */
    method LinearSearch() returns (n: nat)
      requires Valid()
      ensures Boundary(n)
    {
      var i := 1;
      var nil := IsNil(i);
      while !nil
        invariant i >= 1 && nil == (Lookup(contents, IntKey(i)) == Nil)
        invariant i == 1 || Lookup(contents, IntKey(i - 1)) != Nil
        decreases if nil then 0 else 1, |IntsFrom(contents.Keys, i)|
      {
        FewerFrom(contents.Keys, i);
        i := i + 1;
        nil := IsNil(i);
      }
      n := i - 1;
    }

    /** `luaH_getn` */
    method Getn() returns (n: nat)
      requires Valid()
      ensures Boundary(n)
    {
      var j := |slots|;
      if j > 0 && slots[j - 1] == Nil {
        var i := 0;
        while j - i > 1
          invariant 0 <= i < j <= |slots| && slots[j - 1] == Nil && (i == 0 || slots[i - 1] != Nil)
          decreases j - i
        {
          var m := (i + j) / 2;
          if slots[m - 1] == Nil { j := m; } else { i := m; }
        }
        assert Lookup(contents, IntKey(j - 1 + 1)) == slots[j - 1];
        assert i > 0 ==> Lookup(contents, IntKey(i - 1 + 1)) == slots[i - 1];
        return i;
      }
      assert j > 0 ==> Lookup(contents, IntKey(j - 1 + 1)) == slots[j - 1];
      if dummy {
        assert IntKey(j + 1) !in contents;
        return j;
      }
      n := UnboundSearch(j);
    }
  }
}
