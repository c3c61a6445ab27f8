/**
  Traversals (ltable.c:132-179): the order of the entries, and what repeated calls of `luaH_next` visit while
  values are cleared and keys marked dead.
  */
module TableNext {
  import opened TableNodes
  import opened TableContents

  /** A table at one moment, with the lines on which its nodes are. */
  datatype Tab = Tab(slots: seq<Value>, node: seq<Node>, lines: Lines)

  function Size(t: Tab): nat { |t.slots| + |t.node| }

  /** Entries are numbered: first the array part, then the nodes. */
  function ValAt(t: Tab, i: nat): Value
    requires i < Size(t)
  {
    if i < |t.slots| then t.slots[i] else t.node[i - |t.slots|].val
  }

  /** The key stands at index `i`: in the hash part that is the first node on its line that has it, dead or alive. */
  ghost predicate StandsAt(t: Tab, k: Key, i: nat) {
    if i < |t.slots| then k == IntKey(i + 1)
    else i < Size(t) && !InArray(t.slots, k) && FirstCopy(t.node, t.lines, k, i - |t.slots|)
  }

  /** The node has the key, dead or alive. */
  predicate HasIt(n: Node, k: Key) { !n.key.NoKey? && n.key.k == k }

  ghost predicate FirstCopy(node: seq<Node>, a: Lines, k: Key, n: nat) {
    && |a.line| == |node| == |a.place| && n < |node| && HasIt(node[n], k)
    && forall m | 0 <= m < |node| && m != n && HasIt(node[m], k) :: After(a, n, m)
  }

  /** A key that is alive comes first. */
  lemma LiveIsFirst(h: Hash, node: seq<Node>, a: Lines, n: nat)
    requires NodesOk(h, node, a) && n < |node| && node[n].key.Live?
    ensures FirstCopy(node, a, node[n].key.k, n)
  {
    forall m | 0 <= m < |node| && m != n && HasIt(node[m], node[n].key.k) ensures After(a, n, m) {
      assert BeforeDead(node, a, n, m);
      assert n < m ==> !SameKey(node, n, m);
      assert m < n ==> !SameKey(node, m, n);
    }
  }

  /** The first entry with a value from `i` on; the size of the table if there is none. */
  function NextIndex(t: Tab, i: nat): (j: nat)
    requires i <= Size(t)
    ensures i <= j <= Size(t) && (j < Size(t) ==> ValAt(t, j) != Nil)
    ensures forall k | i <= k < j :: ValAt(t, k) == Nil
    decreases Size(t) - i
  {
    if i == Size(t) || ValAt(t, i) != Nil then i else NextIndex(t, i + 1)
  }

  /** Between two calls of `next` values may be cleared and keys without value marked dead. */
  predicate Cleared(t: Tab, t': Tab) {
    && |t'.slots| == |t.slots| && |t'.node| == |t.node| && t'.lines == t.lines
    && (forall i | 0 <= i < Size(t) :: ValAt(t', i) == ValAt(t, i) || ValAt(t', i) == Nil)
    && (forall i | 0 <= i < |t.node| ::
          t'.node[i].key == t.node[i].key || (t.node[i].key.Live? && t'.node[i].key == Dead(t.node[i].key.k)))
  }

  /** Between two calls of `next` existing entries may also be assigned. */
  predicate Modified(t: Tab, t': Tab) {
    && |t'.slots| == |t.slots| && |t'.node| == |t.node| && t'.lines == t.lines
    && (forall i | 0 <= i < Size(t) :: ValAt(t, i) == Nil ==> ValAt(t', i) == Nil)
    && (forall i | 0 <= i < |t.node| ::
          t'.node[i].key == t.node[i].key || (t.node[i].key.Live? && t'.node[i].key == Dead(t.node[i].key.k)))
  }

  lemma ClearedIsModified(t: Tab, t': Tab)
    requires Cleared(t, t')
    ensures Modified(t, t')
  {
  }

  lemma ModifiedRefl(t: Tab)
    ensures Modified(t, t)
  {
  }

  lemma ModifiedTrans(t: Tab, t': Tab, t'': Tab)
    requires Modified(t, t') && Modified(t', t'')
    ensures Modified(t, t'')
  {
    forall i | 0 <= i < Size(t) && ValAt(t, i) == Nil ensures ValAt(t'', i) == Nil {
      assert ValAt(t', i) == Nil;
    }
  }

  /** Assigning to the slot of an entry that has a value. */
  lemma SlotModified(slots: seq<Value>, node: seq<Node>, s: Slot, v: Value, slots': seq<Value>, node': seq<Node>, a: Lines)
    requires Read(slots, node, s) != Nil
    requires match s
             case NoSlot => true
             case ArraySlot(i) => i < |slots| && slots' == slots[i := v] && node' == node
             case NodeSlot(i) => i < |node| && slots' == slots && node' == node[i := node[i].(val := v)]
    ensures Modified(Tab(slots, node, a), Tab(slots', node', a))
  {
  }

  /** The key that a call returned is still good for the next call. */
  lemma StillStands(t: Tab, t': Tab, k: Key, i: nat)
    requires StandsAt(t, k, i) && Modified(t, t')
    ensures StandsAt(t', k, i)
  {
  }

  /** A key stands at one index only, however many dead copies of it there are. */
  lemma StandsOnce(t: Tab, k: Key, i: nat, j: nat)
    requires StandsAt(t, k, i) && StandsAt(t, k, j)
    ensures i == j
  {
  }

  /** Call number `j` returns the entry `v[j]`; the table at that call is `ts[j]`, and then it is changed. */
  ghost predicate StepOk(ts: seq<Tab>, v: seq<nat>, j: nat) {
    && j < |v| && j + 1 < |ts| && Start(v, j) <= Size(ts[j])
    && v[j] == NextIndex(ts[j], Start(v, j)) < Size(ts[j])
    && Modified(ts[j], ts[j + 1])
  }

  /** Calls of `next`, each going on after the entry that the one before returned. */
  ghost predicate Steps(ts: seq<Tab>, v: seq<nat>) {
    && |ts| == |v| + 1
    && (forall j | 0 <= j < |ts| :: Size(ts[j]) == Size(ts[0]))
    && (forall j: nat | j < |v| :: StepOk(ts, v, j))
  }

  /** One traversal: the last call finds no more entry. */
  ghost predicate Traversed(ts: seq<Tab>, v: seq<nat>) {
    Steps(ts, v) && Start(v, |v|) <= Size(ts[|v|]) && NextIndex(ts[|v|], Start(v, |v|)) == Size(ts[0])
  }

  /** Where the call number `j` starts to look. */
  function Start(v: seq<nat>, j: nat): nat
    requires j <= |v|
  {
    if j == 0 then 0 else v[j - 1] + 1
  }

  lemma {:induction false} Increasing(ts: seq<Tab>, v: seq<nat>, i: nat, j: nat)
    requires Steps(ts, v) && i < j < |v|
    ensures v[i] < v[j]
    decreases j
  {
    assert StepOk(ts, v, j);
    if i < j - 1 { Increasing(ts, v, i, j - 1); }
  }

  lemma NextStops(t: Tab, i: nat, e: nat)
    requires i <= e < Size(t) && ValAt(t, e) != Nil
    ensures NextIndex(t, i) <= e
  {
  }

  /** The entry has a value at every call of the traversal. */
  ghost predicate Lasting(ts: seq<Tab>, e: nat) {
    forall i | 0 <= i < |ts| :: e < Size(ts[i]) && ValAt(ts[i], e) != Nil
  }

  /** An entry that keeps its value is passed by no call. */
  lemma {:induction false} NotPassed(ts: seq<Tab>, v: seq<nat>, e: nat, j: nat)
    requires Steps(ts, v) && Lasting(ts, e) && j <= |v|
    ensures e in v[..j] || Start(v, j) <= e
    decreases j
  {
    hide Steps, Lasting;
    if j > 0 {
      NotPassed(ts, v, e, j - 1);
      VisitAt(ts, v, e, j - 1);
      assert v[..j] == v[..j - 1] + [v[j - 1]];
    }
  }

  lemma VisitAt(ts: seq<Tab>, v: seq<nat>, e: nat, j: nat)
    requires Steps(ts, v) && Lasting(ts, e) && j < |v|
    ensures Start(v, j) <= e ==> v[j] <= e
  {
    assert StepOk(ts, v, j);
    assert e < Size(ts[j]) && ValAt(ts[j], e) != Nil;
    hide Steps, Lasting;
    if Start(v, j) <= e { NextStops(ts[j], Start(v, j), e); }
  }

  lemma NoneLeft(t: Tab, i: nat, e: nat)
    requires e < Size(t) && ValAt(t, e) != Nil && (i <= Size(t) ==> NextIndex(t, i) == Size(t))
    ensures i > e
  {
  }

  /** A traversal visits no entry twice, visits only entries that have a value at the time, and visits every entry
      that has a value throughout. */
  lemma TraversalVisitsOnce(ts: seq<Tab>, v: seq<nat>)
    requires Traversed(ts, v)
    ensures forall i, j | 0 <= i < j < |v| :: v[i] != v[j]
    ensures forall j | 0 <= j < |v| :: v[j] < Size(ts[j]) && ValAt(ts[j], v[j]) != Nil
    ensures forall e: nat | Lasting(ts, e) :: e in v
  {
    forall i, j | 0 <= i < j < |v| ensures v[i] != v[j] { Increasing(ts, v, i, j); }
    forall j | 0 <= j < |v| ensures v[j] < Size(ts[j]) && ValAt(ts[j], v[j]) != Nil { assert StepOk(ts, v, j); }
    forall e: nat | Lasting(ts, e) ensures e in v {
      NotPassed(ts, v, e, |v|);
      assert v[..|v|] == v;
      NoneLeft(ts[|v|], Start(v, |v|), e);
    }
  }

  lemma RemovedCleared(arr: seq<Value>, node: seq<Node>, a: Lines, i: nat)
    requires i < |node| && node[i].key.Live?
    ensures Cleared(Tab(arr, node, a), Tab(arr, Removed(node, i), a))
  {
    var t, t' := Tab(arr, node, a), Tab(arr, Removed(node, i), a);
    forall j | 0 <= j < Size(t) ensures ValAt(t', j) == ValAt(t, j) {
    }
  }

  lemma ClearedRefl(t: Tab)
    ensures Cleared(t, t)
  {
  }

  // ---------- the keys that a traversal yields ----------

  /** The key and value of each call. */
  ghost predicate Yields(ts: seq<Tab>, v: seq<nat>, visited: seq<(Key, Value)>) {
    && |ts| == |v| + 1 && |visited| == |v|
    && (forall j | 0 <= j < |v| :: StandsAt(ts[j], visited[j].0, v[j]))
    && (forall j | 0 <= j < |v| :: v[j] < Size(ts[j]) && visited[j].1 == ValAt(ts[j], v[j]) != Nil)
  }

  lemma {:induction false} StandsOn(ts: seq<Tab>, v: seq<nat>, k: Key, e: nat, i: nat, j: nat)
    requires Steps(ts, v) && i <= j < |ts| && StandsAt(ts[i], k, e)
    ensures StandsAt(ts[j], k, e)
    decreases j - i
  {
    hide Steps, Modified, StandsAt;
    if i < j {
      StandsOn(ts, v, k, e, i, j - 1);
      ModifiedAt(ts, v, j - 1);
      StillStands(ts[j - 1], ts[j], k, e);
    }
  }

  lemma ModifiedAt(ts: seq<Tab>, v: seq<nat>, j: nat)
    requires Steps(ts, v) && j + 1 < |ts|
    ensures Modified(ts[j], ts[j + 1])
  {
    hide Modified, NextIndex;
    assert StepOk(ts, v, j);
  }

  /** No key is yielded twice. */
  lemma KeysDiffer(ts: seq<Tab>, v: seq<nat>, visited: seq<(Key, Value)>, i: nat, j: nat)
    requires Steps(ts, v) && Yields(ts, v, visited) && i < j < |v|
    ensures visited[i].0 != visited[j].0
  {
    Increasing(ts, v, i, j);
    StandsOn(ts, v, visited[i].0, v[i], i, j);
    if visited[i].0 == visited[j].0 {
      StandsOnce(ts[j], visited[i].0, v[i], v[j]);
    }
  }

  /** A traversal has no more steps than the table has places. */
  lemma {:induction false} AtMostSize(ts: seq<Tab>, v: seq<nat>, j: nat)
    requires Steps(ts, v) && j <= |v|
    ensures j <= Start(v, j) <= Size(ts[0])
    decreases j
  {
    hide Modified;
    if j > 0 {
      AtMostSize(ts, v, j - 1);
      assert StepOk(ts, v, j - 1);
      assert Size(ts[j - 1]) == Size(ts[0]);
    }
  }

  lemma StepKept(ts: seq<Tab>, v: seq<nat>, at: nat, t: Tab, j: nat)
    requires StepOk(ts, v, j)
    ensures StepOk(ts + [t], v + [at], j)
  {
    hide Modified, NextIndex, Size;
    assert Start(v + [at], j) == Start(v, j);
  }

  lemma StepAdded(ts: seq<Tab>, v: seq<nat>, at: nat, t: Tab)
    requires |ts| == |v| + 1 && Start(v, |v|) <= Size(ts[|v|]) && at == NextIndex(ts[|v|], Start(v, |v|)) < Size(ts[|v|])
    requires Modified(ts[|v|], t)
    ensures StepOk(ts + [t], v + [at], |v|)
  {
    hide Modified, NextIndex, Size;
    assert Start(v + [at], |v|) == Start(v, |v|);
  }

  /** One more call. */
  lemma StepsMore(ts: seq<Tab>, v: seq<nat>, at: nat, t: Tab)
    requires Steps(ts, v) && |ts| == |v| + 1 && Size(t) == Size(ts[0])
    requires Start(v, |v|) <= Size(ts[|v|]) && at == NextIndex(ts[|v|], Start(v, |v|)) < Size(ts[|v|])
    requires Modified(ts[|v|], t)
    ensures Steps(ts + [t], v + [at])
  {
    hide NextIndex, Modified, Size, StepOk;
    forall j: nat | j < |v| + 1 ensures StepOk(ts + [t], v + [at], j) {
      if j < |v| {
        StepKept(ts, v, at, t, j);
      } else {
        StepAdded(ts, v, at, t);
      }
    }
  }

  lemma YieldsMore(ts: seq<Tab>, v: seq<nat>, visited: seq<(Key, Value)>, at: nat, k: Key, x: Value, t: Tab)
    requires Yields(ts, v, visited) && at < Size(ts[|v|]) && StandsAt(ts[|v|], k, at) && x == ValAt(ts[|v|], at) != Nil
    ensures Yields(ts + [t], v + [at], visited + [(k, x)])
  {
    hide StandsAt, ValAt, Size;
  }

  /** In a table that nobody changes, a traversal yields each key with its value, once. */
  lemma YieldsAll(ts: seq<Tab>, v: seq<nat>, visited: seq<(Key, Value)>, e: nat, k: Key)
    requires Traversed(ts, v) && Yields(ts, v, visited) && forall j | 0 <= j < |ts| :: ts[j] == ts[0]
    requires e < Size(ts[0]) && StandsAt(ts[0], k, e) && ValAt(ts[0], e) != Nil
    ensures (k, ValAt(ts[0], e)) in visited
  {
    TraversalVisitsOnce(ts, v);
    assert Lasting(ts, e);
    var j :| 0 <= j < |v| && v[j] == e;
    hide Traversed, Lasting;
    StandsKey(ts[0], e, k, visited[j].0);
    assert visited[j] == (k, ValAt(ts[0], e));
  }

  lemma StandsKey(t: Tab, e: nat, k: Key, k': Key)
    requires StandsAt(t, k, e) && StandsAt(t, k', e)
    ensures k == k'
  {
  }

  lemma NoSteps(t: Tab)
    ensures Steps([t], []) && Yields([t], [], [])
  {
  }

  lemma ModifiedSize(t: Tab, t': Tab)
    requires Modified(t, t')
    ensures Size(t') == Size(t)
  {
  }

  /** What a traversal has done when a call finds no more entry. */
  lemma EndOfSteps(ts: seq<Tab>, v: seq<nat>, visited: seq<(Key, Value)>)
    requires Traversed(ts, v) && Yields(ts, v, visited)
    ensures |visited| == |v| <= Size(ts[0])
    ensures forall i, j | 0 <= i < j < |visited| :: visited[i].0 != visited[j].0
    ensures forall e: nat | Lasting(ts, e) :: e in v
  {
    AtMostSize(ts, v, |v|);
    TraversalVisitsOnce(ts, v);
    hide Steps, NextIndex, Lasting, StandsAt;
    forall i, j | 0 <= i < j < |visited| ensures visited[i].0 != visited[j].0 { KeysDiffer(ts, v, visited, i, j); }
  }
}
