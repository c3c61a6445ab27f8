/**
  `table.sort` (ltablib.c:165-263): quicksort in place, with the smaller half sorted by recursion and the larger one
  by the loop.
  */
module TableSort {

  type Order<!T(!new)> = (T, T) -> bool

  /** No element is less than itself. */
  ghost predicate Irreflexive<T(!new)>(lt: Order<T>) { forall x :: !lt(x, x) }

  /** A strict weak order: "not greater" is transitive, and "less" excludes its converse. */
  ghost predicate StrictWeak<T(!new)>(lt: Order<T>) {
    && Irreflexive(lt)
    && (forall x, y :: lt(x, y) ==> !lt(y, x))
    && (forall x, y, z :: !lt(y, x) && !lt(z, y) ==> !lt(z, x))
  }

  ghost predicate Sorted<T(!new)>(s: seq<T>, l: int, u: int, lt: Order<T>) {
    forall p, q | 0 <= l <= p < q <= u < |s| :: !lt(s[q], s[p])
  }

  /** `t` is `s` with the elements from `l` to `u` in another order. */
  ghost predicate Perm<T>(s: seq<T>, t: seq<T>, l: nat, u: int) {
    && |s| == |t| && l <= u + 1 <= |s|
    && s[..l] == t[..l] && s[u + 1..] == t[u + 1..] && multiset(s[l..u + 1]) == multiset(t[l..u + 1])
  }

  lemma PermRefl<T>(s: seq<T>, l: nat, u: int)
    requires l <= u + 1 <= |s|
    ensures Perm(s, s, l, u)
  {
  }

  lemma PermTrans<T>(s: seq<T>, t: seq<T>, r: seq<T>, l: nat, u: int)
    requires Perm(s, t, l, u) && Perm(t, r, l, u)
    ensures Perm(s, r, l, u)
  {
  }

  lemma PermWiden<T>(s: seq<T>, t: seq<T>, l: nat, u: int, l': nat, u': int)
    requires Perm(s, t, l, u) && l' <= l && u <= u' && u' + 1 <= |s|
    ensures Perm(s, t, l', u')
  {
    assert s[l'..u' + 1] == s[..l][l'..] + s[l..u + 1] + s[u + 1..][..u' - u];
    assert t[l'..u' + 1] == t[..l][l'..] + t[l..u + 1] + t[u + 1..][..u' - u];
    assert s[..l'] == s[..l][..l'] && t[..l'] == t[..l][..l'];
    assert s[u' + 1..] == s[u + 1..][u' - u..] && t[u' + 1..] == t[u + 1..][u' - u..];
  }

  lemma PermSwap<T>(s: seq<T>, l: nat, u: int, i: nat, j: nat)
    requires l <= i <= u && l <= j <= u < |s|
    ensures Perm(s, s[i := s[j]][j := s[i]], l, u)
  {
    var t := s[i := s[j]][j := s[i]];
    var v, w := s[l..u + 1], t[l..u + 1];
    assert w == v[i - l := v[j - l]][j - l := v[i - l]];
    SwapMultiset(v, i - l, j - l);
  }

  lemma SwapMultiset<T>(v: seq<T>, i: nat, j: nat)
    requires i < |v| && j < |v|
    ensures multiset(v[i := v[j]][j := v[i]]) == multiset(v)
  {
  }

  /** What all elements of a range have in common they have in any order. */
  lemma PermAll<T>(s: seq<T>, t: seq<T>, l: nat, u: int, p: T -> bool)
    requires Perm(s, t, l, u) && forall k | l <= k <= u :: p(s[k])
    ensures forall k | l <= k <= u :: p(t[k])
  {
    forall k | l <= k <= u ensures p(t[k]) {
      assert t[l..u + 1][k - l] == t[k];
      assert t[k] in multiset(t[l..u + 1]);
      assert t[k] in s[l..u + 1];
    }
  }

  lemma PermOutside<T>(s: seq<T>, t: seq<T>, l: nat, u: int, k: nat)
    requires Perm(s, t, l, u) && k < |s| && (k < l || k > u)
    ensures t[k] == s[k]
  {
    if k < l {
      assert s[..l][k] == t[..l][k];
    } else {
      assert s[u + 1..][k - (u + 1)] == t[u + 1..][k - (u + 1)];
    }
  }

  function Pow2(n: nat): nat { if n == 0 then 1 else 2 * Pow2(n - 1) }

  // ---------- swapping ----------

  /** `set2`: the two values change places. */
  method Set2<T(!new)>(a: array<T>, i: nat, j: nat, ghost l: nat, ghost u: int)
    requires l <= i <= u && l <= j <= u < a.Length
    modifies a
    ensures a[..] == old(a[..])[i := old(a[j])][j := old(a[i])] && Perm(old(a[..]), a[..], l, u)
  {
    PermSwap(a[..], l, u, i, j);
    a[i], a[j] := a[j], a[i];
    assert a[..] == old(a[..])[i := old(a[j])][j := old(a[i])];
  }

  /** `a[l]` and `a[u]` in order. */
  method OrderEnds<T(!new)>(a: array<T>, l: nat, u: nat, lt: Order<T>)
    requires l < u < a.Length
    modifies a
    ensures Perm(old(a[..]), a[..], l, u) && (StrictWeak(lt) ==> !lt(a[u], a[l]))
  {
    PermRefl(a[..], l, u);
    if lt(a[u], a[l]) {
      Set2(a, l, u, l, u);
    }
  }

  /** `a[l]`, `a[(l+u)/2]` and `a[u]` in order. */
  method OrderMiddle<T(!new)>(a: array<T>, l: nat, u: nat, lt: Order<T>) returns (i: nat)
    requires l + 2 <= u < a.Length
    modifies a
    ensures Perm(old(a[..]), a[..], l, u) && l < i < u && i == (l + u) / 2
    ensures StrictWeak(lt) && old(!lt(a[u], a[l])) ==> !lt(a[i], a[l]) && !lt(a[u], a[i]) && !lt(a[u], a[l])
  {
    PermRefl(a[..], l, u);
    i := (l + u) / 2;
    if lt(a[i], a[l]) {
      Set2(a, i, l, l, u);
    } else if lt(a[u], a[i]) {
      Set2(a, i, u, l, u);
    }
  }

  // ---------- partitioning ----------

  /** The elements from `l` to `i` are not greater than `p`, those from `j` to `u` are not less. */
  ghost predicate Parted<T(!new)>(s: seq<T>, l: int, i: int, j: int, u: int, p: T, lt: Order<T>) {
    && (forall k | 0 <= l <= k <= i < |s| :: !lt(p, s[k]))
    && (forall k | 0 <= j <= k <= u < |s| :: !lt(s[k], p))
  }

  /** From `i` upwards to an element that is not less than the pivot. */
  method ScanUp<T(!new)>(a: array<T>, i0: nat, u: nat, p: T, lt: Order<T>) returns (ok: bool, i: nat)
    requires i0 < u && u + 1 < a.Length
    ensures i0 < i <= u + 1 && forall k | i0 < k < i :: lt(a[k], p)
    ensures if ok then !lt(a[i], p) else i == u + 1 && lt(a[i], p)
  {
    i := i0 + 1;
    while lt(a[i], p)
      invariant i0 < i <= u + 1
      invariant forall k | i0 < k < i :: lt(a[k], p)
      decreases u + 1 - i
    {
      if i > u { return false, i; }
      i := i + 1;
    }
    ok := true;
  }

  /** From `j` downwards to an element that is not greater than the pivot. */
  method ScanDown<T(!new)>(a: array<T>, j0: nat, l: nat, p: T, lt: Order<T>) returns (ok: bool, j: nat)
    requires 1 <= l < j0 < a.Length
    ensures l - 1 <= j < j0 && forall k | j < k < j0 :: lt(p, a[k])
    ensures if ok then !lt(p, a[j]) else j == l - 1 && lt(p, a[j])
  {
    j := j0 - 1;
    while lt(p, a[j])
      invariant l - 1 <= j < j0
      invariant forall k | j < k < j0 :: lt(p, a[k])
      decreases j
    {
      if j < l { return false, j; }
      j := j - 1;
    }
    ok := true;
  }

  /** Both scans.  A strict weak order stops them inside the range. */
  method Scan<T(!new)>(a: array<T>, l: nat, i0: nat, j0: nat, u: nat, p: T, lt: Order<T>) returns (ok: bool, i: nat, j: nat)
    requires 1 <= l <= i0 <= u - 2 && l < j0 <= u - 1 && u + 1 < a.Length && a[u - 1] == p
    requires StrictWeak(lt) ==> Parted(a[..], l, i0, j0, u, p, lt)
    ensures i0 < i <= u + 1 && l - 1 <= j < j0 && (Irreflexive(lt) ==> i <= u - 1)
    ensures StrictWeak(lt) ==> ok && Parted(a[..], l, i - 1, j + 1, u, p, lt) && !lt(a[i], p) && !lt(p, a[j])
  {
    hide Parted;
    j := j0 - 1;
    ok, i := ScanUp(a, i0, u, p, lt);
    if i > u - 1 { assert lt(a[u - 1], p); }
    if !ok { return; }
    ok, j := ScanDown(a, j0, l, p, lt);
    if StrictWeak(lt) { Scanned(a[..], l, i0, j0, u, p, lt, i, j); }
  }

  lemma Scanned<T(!new)>(s: seq<T>, l: nat, i0: nat, j0: nat, u: nat, p: T, lt: Order<T>, i: nat, j: nat)
    requires StrictWeak(lt) && Parted(s, l, i0, j0, u, p, lt) && u < |s|
    requires l <= i0 < i <= u + 1 && l - 1 <= j < j0 <= u && l < j0
    requires (forall k | i0 < k < i :: lt(s[k], p)) && (forall k | j < k < j0 :: lt(p, s[k]))
    ensures l <= j && Parted(s, l, i - 1, j + 1, u, p, lt)
  {
    assert !lt(p, s[l]);
  }

  lemma Exchanged<T(!new)>(s: seq<T>, l: nat, i: nat, j: nat, u: nat, p: T, lt: Order<T>)
    requires Parted(s, l, i - 1, j + 1, u, p, lt) && l <= i <= j <= u < |s| && !lt(s[i], p) && !lt(p, s[j])
    ensures Parted(s[i := s[j]][j := s[i]], l, i, j, u, p, lt)
  {
  }

  lemma Narrower<T(!new)>(s: seq<T>, l: nat, i: nat, j: nat, u: nat, p: T, lt: Order<T>)
    requires Parted(s, l, i - 1, j + 1, u, p, lt) && j < i
    ensures Parted(s, l, i - 1, i, u, p, lt)
  {
  }

  /** The loop that exchanges elements around the pivot, which waits in `a[u-1]`.  Whatever the order function
      says, the scans look no further than one element beyond the range and nothing outside it changes. */
  method Partition<T(!new)>(a: array<T>, l: nat, u: nat, p: T, lt: Order<T>) returns (ok: bool, i: nat)
    requires 1 <= l && l + 3 <= u && u + 1 < a.Length
    requires a[u - 1] == p && (StrictWeak(lt) ==> !lt(p, a[l]) && !lt(a[u], p))
    modifies a
    ensures Perm(old(a[..]), a[..], l, u) && a[u - 1] == p
    ensures StrictWeak(lt) ==> ok
    ensures ok ==> l < i <= u + 1 && (Irreflexive(lt) ==> i <= u - 1)
    ensures ok && StrictWeak(lt) ==> Parted(a[..], l, i - 1, i, u, p, lt)
  {
    hide Parted, Perm, StrictWeak, Irreflexive;
    PermRefl(a[..], l, u);
    i := l;
    var j := u - 1;
    PivotWaits(a[..], l, u, p, lt);
    while true
      invariant l <= i <= j <= u - 1 && i <= u - 2 && l + 1 <= j && a[u - 1] == p && Perm(old(a[..]), a[..], l, u)
      invariant StrictWeak(lt) ==> Parted(a[..], l, i, j, u, p, lt)
      decreases j - i
    {
      ok, i, j := Scan(a, l, i, j, u, p, lt);
      if !ok { return; }
      ghost var s := a[..];
      if j < i {
        if StrictWeak(lt) { Narrower(s, l, i, j, u, p, lt); }
        return true, i;
      }
      if StrictWeak(lt) { Exchanged(s, l, i, j, u, p, lt); }
      Set2(a, i, j, l, u);
      PermTrans(old(a[..]), s, a[..], l, u);
    }
  }

  lemma PivotWaits<T(!new)>(s: seq<T>, l: nat, u: nat, p: T, lt: Order<T>)
    requires l + 3 <= u < |s| && s[u - 1] == p && (StrictWeak(lt) ==> !lt(p, s[l]) && !lt(s[u], p))
    ensures StrictWeak(lt) ==> Parted(s, l, l, u - 1, u, p, lt)
  {
  }

  // ---------- sorting ----------

  /** Everything outside `l..u` is in its final place. */
  ghost predicate Placed<T(!new)>(s: seq<T>, l0: nat, u0: int, l: int, u: int, lt: Order<T>) {
    forall p, q | l0 <= p < q <= u0 < |s| && (p < l || q > u) :: !lt(s[q], s[p])
  }

  /** `s[i]` separates the elements from `l` to `u`. */
  ghost predicate Pivot<T(!new)>(s: seq<T>, l: nat, i: nat, u: nat, lt: Order<T>) {
    && l <= i <= u < |s|
    && (forall k | l <= k <= i :: !lt(s[i], s[k])) && (forall k | i <= k <= u :: !lt(s[k], s[i]))
  }

  lemma PlacedPerm<T(!new)>(s: seq<T>, t: seq<T>, l0: nat, u0: int, l: nat, u: int, lt: Order<T>)
    requires Placed(s, l0, u0, l, u, lt) && Perm(s, t, l, u) && l0 <= l && u <= u0 < |s|
    ensures Placed(t, l0, u0, l, u, lt)
  {
    forall p, q | l0 <= p < q <= u0 && (p < l || q > u) ensures !lt(t[q], t[p]) {
      if p < l {
        PermOutside(s, t, l, u, p);
        if l <= q <= u {
          PermAll(s, t, l, u, x => !lt(x, s[p]));
        } else {
          PermOutside(s, t, l, u, q);
        }
      } else {
        PermOutside(s, t, l, u, q);
        if p <= u {
          PermAll(s, t, l, u, x => !lt(s[q], x));
        } else {
          PermOutside(s, t, l, u, p);
        }
      }
    }
  }

  lemma PivotPerm<T(!new)>(s: seq<T>, t: seq<T>, l: nat, i: nat, u: nat, j: nat, k: int, lt: Order<T>)
    requires Pivot(s, l, i, u, lt) && Perm(s, t, j, k) && ((l == j && k == i - 1) || (j == i + 1 && k == u))
    ensures Pivot(t, l, i, u, lt)
  {
    PermOutside(s, t, j, k, i);
    forall x | l <= x <= u && !(j <= x <= k) ensures t[x] == s[x] { PermOutside(s, t, j, k, x); }
    if l == j && k == i - 1 {
      PermAll(s, t, j, k, x => !lt(s[i], x));
    } else {
      PermAll(s, t, j, k, x => !lt(x, s[i]));
    }
  }

  /** When one half is sorted only the other one is left. */
  lemma HalfPlaced<T(!new)>(s: seq<T>, l0: nat, u0: int, l: nat, i: nat, u: nat, lt: Order<T>)
    requires StrictWeak(lt) && Placed(s, l0, u0, l, u, lt) && Pivot(s, l, i, u, lt) && l0 <= l && u <= u0 < |s|
    ensures Sorted(s, l, i - 1, lt) ==> Placed(s, l0, u0, i + 1, u, lt)
    ensures Sorted(s, i + 1, u, lt) ==> Placed(s, l0, u0, l, i - 1, lt)
  {
    forall p, q | l <= p < q <= u && p <= i <= q ensures !lt(s[q], s[p]) {
      assert !lt(s[i], s[p]) && !lt(s[q], s[i]);
    }
  }

  lemma AllPlaced<T(!new)>(s: seq<T>, l0: nat, u0: int, l: int, u: int, lt: Order<T>)
    requires Placed(s, l0, u0, l, u, lt) && u <= u0 < |s| && 0 <= l
    requires u <= l || Sorted(s, l, u, lt)
    ensures Sorted(s, l0, u0, lt)
  {
    forall p, q | l0 <= p < q <= u0 ensures !lt(s[q], s[p]) {
      if p < l || q > u {
        assert !lt(s[q], s[p]);
      } else {
        assert Sorted(s, l, u, lt);
        assert !lt(s[q], s[p]);
      }
    }
  }

  /** The pivot goes from `u-1` to its place between the two halves. */
  method PlacePivot<T(!new)>(a: array<T>, l: nat, i: nat, u: nat, p: T, lt: Order<T>)
    requires l + 1 < u && l < i <= u + 1 < a.Length && a[u - 1] == p
    requires StrictWeak(lt) ==> i <= u - 1 && Parted(a[..], l, i - 1, i, u, p, lt)
    modifies a
    ensures Perm(old(a[..]), a[..], l, if i <= u then u else u + 1) && (StrictWeak(lt) ==> Pivot(a[..], l, i, u, lt))
  {
    Set2(a, u - 1, i, l, if i <= u then u else u + 1);
  }

  /** The first steps of `auxsort` on a range: true if they are all that is needed. */
  method Prepare<T(!new)>(a: array<T>, l: nat, u: nat, lt: Order<T>) returns (done: bool, i: nat)
    requires l < u < a.Length
    modifies a
    ensures Perm(old(a[..]), a[..], l, u) && done == (u - l <= 2)
    ensures done && StrictWeak(lt) ==> Sorted(a[..], l, u, lt)
    ensures !done ==> l < i < u - 1 && (StrictWeak(lt) ==> !lt(a[i], a[l]) && !lt(a[u], a[i]))
  {
    OrderEnds(a, l, u, lt);
    i := l;
    if u - l == 1 { return true, i; }
    ghost var s := a[..];
    i := OrderMiddle(a, l, u, lt);
    PermTrans(old(a[..]), s, a[..], l, u);
    done := u - l == 2;
  }

  /** The middle of `auxsort`: the pivot `a[i]` ends up between two halves, or the order function is found invalid.
      One that says that an element is less than itself can lead the pivot to the place beyond the range. */
  method Split<T(!new)>(a: array<T>, l: nat, u: nat, m: nat, lt: Order<T>) returns (ok: bool, i: nat)
    requires 1 <= l && l + 3 <= u && u + 1 < a.Length && l < m < u - 1
    requires StrictWeak(lt) ==> !lt(a[m], a[l]) && !lt(a[u], a[m])
    modifies a
    ensures Perm(old(a[..]), a[..], l, if ok && i > u then u + 1 else u) && (StrictWeak(lt) ==> ok)
    ensures ok ==> l < i <= u + 1 && (Irreflexive(lt) ==> i < u) && (StrictWeak(lt) ==> Pivot(a[..], l, i, u, lt))
  {
    var p := a[m];
    Set2(a, m, u - 1, l, u);
    ghost var s := a[..];
    ok, i := Partition(a, l, u, p, lt);
    ghost var t := a[..];
    PermTrans(old(a[..]), s, t, l, u);
    if ok {
      PlacePivot(a, l, i, u, p, lt);
      ghost var v := if i <= u then u else u + 1;
      PermWiden(old(a[..]), t, l, u, l, v);
      PermTrans(old(a[..]), t, a[..], l, v);
    }
  }

  /** What the loop of `auxsort` keeps for the range `l0..u0`, of which `l..u` is left. */
  ghost predicate Sorting<T(!new)>(orig: seq<T>, s: seq<T>, l0: nat, u0: nat, l: nat, u: int, lt: Order<T>) {
    && l0 <= l <= u + 1 && u <= u0 < |s| && Perm(orig, s, l0, u0)
    && (StrictWeak(lt) ==> Placed(s, l0, u0, l, u, lt))
  }

  /** One round of the loop on more than three elements: the range is split, the smaller half sorted by a call and
      the larger one left. */
  method Halve<T(!new)>(a: array<T>, l: nat, u: nat, m: nat, lt: Order<T>, ghost orig: seq<T>, ghost l0: nat, ghost u0: nat)
    returns (ok: bool, l': nat, u': nat, ghost d: nat)
    requires 1 <= l && l + 3 <= u && u0 + 1 < a.Length && Irreflexive(lt) && Sorting(orig, a[..], l0, u0, l, u, lt)
    requires l < m < u - 1 && (StrictWeak(lt) ==> !lt(a[m], a[l]) && !lt(a[u], a[m]))
    modifies a
    ensures Perm(orig, a[..], l0, u0) && (StrictWeak(lt) ==> ok)
    ensures ok ==> Sorting(orig, a[..], l0, u0, l', u', lt) && l <= l' && u' + 1 - l' < u + 1 - l
    ensures d == 0 || (u0 - l0 >= 3 && Pow2(d) <= u0 + 1 - l0)
    decreases u + 1 - l, 0
  {
    hide Perm, Placed, Sorted, Pivot, StrictWeak, Irreflexive, Pow2;
    ghost var s := a[..];
    d, l', u' := 0, l, u;
    var i;
    ok, i := Split(a, l, u, m, lt);
    Keep(orig, s, a[..], l0, u0, l, u, lt);
    if !ok { return; }
    var j, k;
    if i - l < u - i {
      j, k, l' := l, i - 1, i + 1;
    } else {
      j, k, u' := i + 1, u, i - 1;
    }
    s := a[..];
    ok, d := AuxSort(a, j, k, lt);
    HalfDepth(d, k + 1 - j, u0 + 1 - l0);
    HalfSorted(orig, s, a[..], l0, u0, l, i, u, j, k, lt);
  }

  /** One round of the loop of `auxsort`. */
  method Round<T(!new)>(a: array<T>, l: nat, u: nat, lt: Order<T>, ghost orig: seq<T>, ghost l0: nat, ghost u0: nat)
    returns (ok: bool, done: bool, l': nat, u': nat, ghost d: nat)
    requires 1 <= l < u && u0 + 1 < a.Length && Irreflexive(lt) && Sorting(orig, a[..], l0, u0, l, u, lt)
    modifies a
    ensures Perm(orig, a[..], l0, u0) && (StrictWeak(lt) ==> ok)
    ensures done && ok && StrictWeak(lt) ==> Sorted(a[..], l0, u0, lt)
    ensures !done && ok ==> Sorting(orig, a[..], l0, u0, l', u', lt) && l <= l' && u' + 1 - l' < u + 1 - l
    ensures d == 0 || (u0 - l0 >= 3 && Pow2(d) <= u0 + 1 - l0)
    decreases u + 1 - l, 1
  {
    hide Perm, Placed, Sorted, Pivot, StrictWeak, Irreflexive, Pow2;
    ghost var s := a[..];
    var m;
    ok, d, l', u' := true, 0, l, u;
    done, m := Prepare(a, l, u, lt);
    Keep(orig, s, a[..], l0, u0, l, u, lt);
    if done {
      if StrictWeak(lt) { AllPlaced(a[..], l0, u0, l, u, lt); }
    } else {
      ok, l', u', d := Halve(a, l, u, m, lt, orig, l0, u0);
    }
  }

  /** `auxsort`.  `ok` is false when the order function turned out to be invalid; `depth` counts the nested calls. */
  method AuxSort<T(!new)>(a: array<T>, l0: nat, u0: nat, lt: Order<T>) returns (ok: bool, ghost depth: nat)
    requires 1 <= l0 <= u0 + 1 && u0 + 1 < a.Length && Irreflexive(lt)
    modifies a
    ensures Perm(old(a[..]), a[..], l0, u0)
    ensures StrictWeak(lt) ==> ok && Sorted(a[..], l0, u0, lt)
    ensures depth >= 1 && Pow2(depth - 1) <= if u0 > l0 then u0 + 1 - l0 else 1
    decreases u0 + 1 - l0, 2
  {
    hide Perm, Placed, Sorted, StrictWeak, Irreflexive, Pow2;
    var l, u := l0, u0;
    ok := true;
    depth := 1;
    Pow2Zero();
    ghost var orig := a[..];
    AtFirst(orig, l0, u0, lt);
    PermRefl(orig, l0, u0);
    while l < u
      invariant ok && l0 <= l && Sorting(orig, a[..], l0, u0, l, u, lt)
      invariant depth >= 1 && Pow2(depth - 1) <= if u0 > l0 then u0 + 1 - l0 else 1
      decreases u + 1 - l
    {
      var done;
      ghost var d;
      ok, done, l, u, d := Round(a, l, u, lt, orig, l0, u0);
      if d + 1 > depth { depth := d + 1; }
      if done || !ok { return; }
    }
    if StrictWeak(lt) { AllPlaced(a[..], l0, u0, l, u, lt); }
  }

  lemma Pow2Zero()
    ensures Pow2(0) == 1
  {
  }

  lemma AtFirst<T(!new)>(s: seq<T>, l0: nat, u0: nat, lt: Order<T>)
    ensures Placed(s, l0, u0, l0, u0, lt)
  {
  }

  /** A step inside `l..u` keeps what the loop needs. */
  lemma Keep<T(!new)>(orig: seq<T>, s: seq<T>, t: seq<T>, l0: nat, u0: nat, l: nat, u: nat, lt: Order<T>)
    requires Perm(orig, s, l0, u0) && Perm(s, t, l, u) && l0 <= l && u <= u0 < |s| && l <= u + 1
    ensures Perm(orig, t, l0, u0) && (Placed(s, l0, u0, l, u, lt) ==> Placed(t, l0, u0, l, u, lt))
  {
    PermWiden(s, t, l, u, l0, u0);
    PermTrans(orig, s, t, l0, u0);
    if Placed(s, l0, u0, l, u, lt) { PlacedPerm(s, t, l0, u0, l, u, lt); }
  }

  /** One half of `l..u` has been sorted: the other one is left. */
  lemma HalfSorted<T(!new)>(orig: seq<T>, s: seq<T>, t: seq<T>, l0: nat, u0: nat, l: nat, i: nat, u: nat, j: nat, k: int, lt: Order<T>)
    requires Perm(orig, s, l0, u0) && Perm(s, t, j, k) && l0 <= l < i < u <= u0 < |s|
    requires (l == j && k == i - 1) || (j == i + 1 && k == u)
    requires StrictWeak(lt) ==> Placed(s, l0, u0, l, u, lt) && Pivot(s, l, i, u, lt) && Sorted(t, j, k, lt)
    ensures Perm(orig, t, l0, u0)
    ensures StrictWeak(lt) ==> if l == j && k == i - 1 then Placed(t, l0, u0, i + 1, u, lt) else Placed(t, l0, u0, l, i - 1, lt)
  {
    assert |t| == |s| by { hide Placed, Pivot, Sorted, StrictWeak; }
    hide Perm, Placed, Pivot, Sorted, StrictWeak;
    PermWiden(s, t, j, k, l, u);
    Keep(orig, s, t, l0, u0, l, u, lt);
    if StrictWeak(lt) {
      PivotPerm(s, t, l, i, u, j, k, lt);
      HalfPlaced(t, l0, u0, l, i, u, lt);
    }
  }

  /** The smaller half has less than half of the elements, so that one more call is never too deep. */
  lemma HalfDepth(d: nat, n: nat, total: nat)
    requires d >= 1 && Pow2(d - 1) <= (if n > 1 then n else 1) && 2 * n < total && total >= 4
    ensures Pow2(d) <= total
  {
  }

  /** `sort`: a table whose elements are at 1..n; what `rawget` finds at 0 and n+1 is looked at but not changed. */
  method Sort<T(!new)>(a: array<T>, lt: Order<T>) returns (ok: bool, ghost depth: nat)
    requires a.Length >= 2 && Irreflexive(lt)
    modifies a
    ensures a[0] == old(a[0]) && a[a.Length - 1] == old(a[a.Length - 1])
    ensures multiset(a[..]) == multiset(old(a[..]))
    ensures StrictWeak(lt) ==> ok && Sorted(a[..], 1, a.Length - 2, lt)
    ensures depth >= 1 && Pow2(depth - 1) <= if a.Length > 3 then a.Length - 2 else 1
  {
    ghost var s := a[..];
    ok, depth := AuxSort(a, 1, a.Length - 2, lt);
    PermOutside(s, a[..], 1, a.Length - 2, 0);
    PermOutside(s, a[..], 1, a.Length - 2, a.Length - 1);
    PermWiden(s, a[..], 1, a.Length - 2, 0, a.Length - 1);
    assert s[0..a.Length] == s && a[..][0..a.Length] == a[..];
  }
}
