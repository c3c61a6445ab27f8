/**
  Counting the keys of a table before it is resized (ltable.c:211-260, 333-349).
  */
module TableCount {
  import opened TableNodes
  import opened TableSizes
  import opened TableContents

  ghost function IntKeys(s: set<int>): set<Key> { set i | i in s :: IntKey(i) }

  ghost function Ints(keys: set<Key>): set<int> { set k | k in keys && k.IntKey? :: k.i }

  lemma {:induction false} IntKeysCard(s: set<int>)
    ensures |IntKeys(s)| == |s|
    decreases |s|
  {
    if s == {} {
      assert IntKeys(s) == {};
    } else {
      var x := Pick(s);
      IntKeysCard(s - {x});
      assert IntKeys(s) == IntKeys(s - {x}) + {IntKey(x)};
      assert IntKey(x) !in IntKeys(s - {x});
    }
  }

  ghost function Pick<T(!new)>(s: set<T>): (x: T)
    requires s != {}
    ensures x in s
  {
    var x :| x in s; x
  }

  /** The keys that stay outside an array part of size `n` are those that are not counted for it. */
  lemma OutsideCount(keys: set<Key>, n: int)
    requires n >= 0
    ensures |Outside(keys, n)| == |keys| - |UpTo(Ints(keys), n)|
  {
    var inside := IntKeys(UpTo(Ints(keys), n));
    IntKeysCard(UpTo(Ints(keys), n));
    forall k | k in inside ensures k in keys {
      assert k.i in Ints(keys);
    }
    forall k | k in keys && k !in Outside(keys, n) ensures k in inside {
      assert k.i in UpTo(Ints(keys), n);
    }
    assert keys == Outside(keys, n) + inside;
    assert Outside(keys, n) !! inside;
  }

  // ---------- the array part ----------

  /** The integers up to `n` whose slots are in use. */
  ghost function ArrayInts(arr: seq<Value>, n: nat): set<int>
    requires n <= |arr|
  {
    if n == 0 then {}
    else if arr[n - 1] != Nil then ArrayInts(arr, n - 1) + {n}
    else ArrayInts(arr, n - 1)
  }

  lemma {:induction false} ArrayIntsAre(arr: seq<Value>, n: nat, i: int)
    requires n <= |arr|
    ensures i in ArrayInts(arr, n) <==> 0 < i <= n && arr[i - 1] != Nil
  {
    if n > 0 { ArrayIntsAre(arr, n - 1, i); }
  }

  /** The inner loop of `numusearray`: the slots from `i` to `lim`, which are all in one slice. */
  method CountSlice(arr: seq<Value>, nums: seq<nat>, lg: nat, i: nat, lim: nat) returns (lc: nat)
    requires |arr| <= MAXASIZE && lg <= MAXBITS && Low(lg) < i <= lim + 1 && lim <= Pow2(lg) && lim <= |arr|
    requires Tally(nums, ArrayInts(arr, i - 1))
    ensures Tally(nums[lg := nums[lg] + lc], ArrayInts(arr, lim))
    ensures |ArrayInts(arr, i - 1)| + lc == |ArrayInts(arr, lim)|
  {
    hide Tally, ArrayInts, CeilLog2, Low, Pow2;
    lc := 0;
    var k := i;
    TallyLength(nums, ArrayInts(arr, i - 1));
    assert nums[lg := nums[lg] + 0] == nums;
    while k <= lim
      invariant i <= k <= lim + 1
      invariant Tally(nums[lg := nums[lg] + lc], ArrayInts(arr, k - 1))
      invariant |ArrayInts(arr, i - 1)| + lc == |ArrayInts(arr, k - 1)|
      decreases lim + 1 - k
    {
      CountOne(arr, nums, lg, k, lc);
      if arr[k - 1] != Nil {
        lc := lc + 1;
      }
      k := k + 1;
    }
  }

  lemma CountOne(arr: seq<Value>, nums: seq<nat>, lg: nat, k: nat, lc: nat)
    requires lg <= MAXBITS && Low(lg) < k <= Pow2(lg) && k <= |arr| <= MAXASIZE && |nums| == MAXBITS + 1
    requires Tally(nums[lg := nums[lg] + lc], ArrayInts(arr, k - 1))
    ensures var c := if arr[k - 1] != Nil then lc + 1 else lc;
      Tally(nums[lg := nums[lg] + c], ArrayInts(arr, k)) && |ArrayInts(arr, k)| == |ArrayInts(arr, k - 1)| + c - lc
  {
    hide Tally, CeilLog2;
    if arr[k - 1] != Nil {
      OneSlice(k, lg);
      ArrayIntsAre(arr, k - 1, k);
      var mid := nums[lg := nums[lg] + lc];
      TallyAdd(mid, ArrayInts(arr, k - 1), k);
      assert mid[lg := nums[lg] + lc + 1] == nums[lg := nums[lg] + (lc + 1)];
    }
  }

  lemma TallyLength(nums: seq<nat>, s: set<int>)
    requires Tally(nums, s)
    ensures |nums| == MAXBITS + 1
  {
  }

  /** `numusearray`: the integers in use in the array part, counted by slices. */
  method NumUseArray(arr: seq<Value>) returns (nums: seq<nat>, ause: nat)
    requires |arr| <= MAXASIZE
    ensures Tally(nums, ArrayInts(arr, |arr|)) && ause == |ArrayInts(arr, |arr|)|
  {
    nums := seq(MAXBITS + 1, j => 0);
    TallyNone(nums);
    ause := 0;
    hide Tally, ArrayInts, CeilLog2, Low, Pow2;
    var lg, ttlg, i := 0, 1, 1;
    FirstSlice(arr);
    while lg <= MAXBITS
      invariant lg <= MAXBITS + 1 && ttlg == Pow2(lg)
      invariant 1 <= i <= |arr| + 1 && i <= Low(lg) + 1 && (i == Low(lg) + 1 || i == |arr| + 1)
      invariant Tally(nums, ArrayInts(arr, i - 1)) && ause == |ArrayInts(arr, i - 1)|
      decreases MAXBITS + 1 - lg
    {
      var lim := ttlg;
      if lim > |arr| {
        lim := |arr|;
        if i > lim {
          break;
        }
      }
      NextSlice(lg);
      var lc := CountSlice(arr, nums, lg, i, lim);
      TallyLength(nums, ArrayInts(arr, i - 1));
      nums := nums[lg := nums[lg] + lc];
      ause := ause + lc;
      i := lim + 1;
      lg, ttlg := lg + 1, ttlg * 2;
    }
  }

  lemma FirstSlice(arr: seq<Value>)
    ensures ArrayInts(arr, 0) == {} && Low(0) == 0 && Pow2(0) == 1 && Low(MAXBITS + 1) == MAXASIZE
  {
    MaxIsPow2();
  }

  lemma NextSlice(lg: nat)
    ensures Low(lg) < Pow2(lg) == Low(lg + 1) && Pow2(lg + 1) == Pow2(lg) * 2
  {
  }

  // ---------- the hash part ----------

  /** The keys with a value from the node `n` on. */
  ghost function HashKeys(node: seq<Node>, n: nat): (s: set<Key>)
    requires n <= |node|
    decreases |node| - n
  {
    if n == |node| then {}
    else if node[n].val != Nil && !node[n].key.NoKey? then {node[n].key.k} + HashKeys(node, n + 1)
    else HashKeys(node, n + 1)
  }

  lemma {:induction false} HashKeysAre(node: seq<Node>, n: nat, k: Key)
    requires n <= |node|
    ensures k in HashKeys(node, n) <==> exists i :: n <= i < |node| && node[i].val != Nil && !node[i].key.NoKey? && node[i].key.k == k
    decreases |node| - n
  {
    if n < |node| { HashKeysAre(node, n + 1, k); }
  }

  /** `countint` */
  method CountInt(k: Key, nums: seq<nat>, ghost s: set<int>) returns (counted: nat, nums': seq<nat>)
    requires Tally(nums, s) && (k.IntKey? ==> k.i !in s)
    ensures Tally(nums', s + Ints({k}))
    ensures counted == if k.IntKey? && 0 < k.i <= MAXASIZE then 1 else 0
  {
    if k.IntKey? && 0 < k.i <= MAXASIZE {
      TallyAdd(nums, s, k.i);
      counted, nums' := 1, nums[CeilLog2(k.i) := nums[CeilLog2(k.i)] + 1];
      assert Ints({k}) == {k.i};
    } else {
      counted, nums' := 0, nums;
      if k.IntKey? {
        TallyOut(nums, s, k.i);
        assert Ints({k}) == {k.i};
      } else {
        assert s + Ints({k}) == s;
      }
    }
  }

  lemma IntsPlus(keys: set<Key>, k: Key)
    ensures Ints({k} + keys) == Ints({k}) + Ints(keys)
  {
  }

  lemma CountedUpTo(s: set<int>, k: Key)
    requires k.IntKey? ==> k.i !in s
    ensures |UpTo(s + Ints({k}), MAXASIZE)| == |UpTo(s, MAXASIZE)| + (if k.IntKey? && 0 < k.i <= MAXASIZE then 1 else 0)
  {
    if k.IntKey? && 0 < k.i <= MAXASIZE {
      assert UpTo(s + Ints({k}), MAXASIZE) == UpTo(s, MAXASIZE) + {k.i};
    } else {
      assert UpTo(s + Ints({k}), MAXASIZE) == UpTo(s, MAXASIZE);
    }
  }

  /** Nodes whose living keys are distinct, and are not among the integers `s`. */
  ghost predicate Countable(node: seq<Node>, s: set<int>) {
    && (forall i, j | 0 <= i < j < |node| :: !SameKey(node, i, j))
    && (forall i | 0 <= i < |node| && !node[i].key.Live? :: node[i].val == Nil)
    && (forall i | 0 <= i < |node| && !node[i].key.NoKey? && node[i].key.k.IntKey? && node[i].val != Nil :: node[i].key.k.i !in s)
  }

  /** `numusehash`: the keys in use in the hash part, the integers among them counted by slices. */
  method NumUseHash(node: seq<Node>, nums0: seq<nat>, ghost s: set<int>) returns (nums: seq<nat>, totaluse: nat, ause: nat)
    requires Tally(nums0, s) && Countable(node, s)
    ensures totaluse == |HashKeys(node, 0)| && Tally(nums, s + Ints(HashKeys(node, 0)))
    ensures |UpTo(s, MAXASIZE)| + ause == |UpTo(s + Ints(HashKeys(node, 0)), MAXASIZE)|
  {
    nums, totaluse, ause := nums0, 0, 0;
    var i := |node|;
    assert s + Ints(HashKeys(node, i)) == s;
    while i > 0
      invariant 0 <= i <= |node| && totaluse == |HashKeys(node, i)|
      invariant Tally(nums, s + Ints(HashKeys(node, i)))
      invariant |UpTo(s, MAXASIZE)| + ause == |UpTo(s + Ints(HashKeys(node, i)), MAXASIZE)|
    {
      i := i - 1;
      ghost var later := HashKeys(node, i + 1);
      if node[i].val != Nil {
        var k := node[i].key.k;
        HashKeysAre(node, i + 1, k);
        forall j | i < j < |node| && node[j].key.Live? ensures node[j].key.k != k {
          assert !SameKey(node, i, j);
        }
        assert k !in later;
        assert k.IntKey? ==> k.i !in s + Ints(later);
        var c;
        c, nums := CountInt(k, nums, s + Ints(later));
        CountedUpTo(s + Ints(later), k);
        ause := ause + c;
        totaluse := totaluse + 1;
        IntsPlus(later, k);
        assert s + Ints(HashKeys(node, i)) == s + Ints(later) + Ints({k});
      }
    }
  }

  // ---------- all keys ----------

  /** The keys of the map are those of the two parts. */
  lemma AllKeys(arr: seq<Value>, node: seq<Node>, m: Map)
    requires Represents(arr, node, m)
    requires forall i | 0 <= i < |node| && node[i].val != Nil :: node[i].key.Live?
    ensures m.Keys == IntKeys(ArrayInts(arr, |arr|)) + HashKeys(node, 0)
    ensures |m.Keys| == |ArrayInts(arr, |arr|)| + |HashKeys(node, 0)|
    ensures Ints(m.Keys) == ArrayInts(arr, |arr|) + Ints(HashKeys(node, 0))
  {
    var inArr := IntKeys(ArrayInts(arr, |arr|));
    forall x ensures x in ArrayInts(arr, |arr|) <==> 0 < x <= |arr| && arr[x - 1] != Nil {
      ArrayIntsAre(arr, |arr|, x);
    }
    forall k | k in m.Keys ensures k in inArr + HashKeys(node, 0) {
      if InArray(arr, k) {
        assert Lookup(m, IntKey(k.i - 1 + 1)) == arr[k.i - 1];
        assert k.i in ArrayInts(arr, |arr|);
      } else {
        var i :| 0 <= i < |node| && node[i].key == Live(k);
        HashKeysAre(node, 0, k);
      }
    }
    forall k | k in inArr ensures k in m.Keys && InArray(arr, k) {
      assert Lookup(m, IntKey(k.i - 1 + 1)) == arr[k.i - 1];
    }
    forall k | k in HashKeys(node, 0) ensures k in m.Keys && !InArray(arr, k) {
      HashKeysAre(node, 0, k);
    }
    IntKeysCard(ArrayInts(arr, |arr|));
    assert inArr !! HashKeys(node, 0);
    forall x | x in Ints(m.Keys) ensures x in ArrayInts(arr, |arr|) + Ints(HashKeys(node, 0)) {
      assert IntKey(x) in m.Keys;
    }
    forall x | x in ArrayInts(arr, |arr|) ensures x in Ints(m.Keys) {
      assert IntKey(x) in inArr;
    }
  }
}
