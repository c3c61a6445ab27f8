/**
  The sizes that `rehash` gives to the two parts of a table (ltable.c:182-260): counting integer keys by slices
  between powers of two, and choosing the size of the array part.
  */
module TableSizes {

  /** `MAXBITS` on a machine with 32-bit integers, and `MAXASIZE`. */
  const MAXBITS: nat := 26
  const MAXASIZE: nat := 0x400_0000

  function Pow2(n: nat): (r: nat)
    ensures r >= 1
  {
    if n == 0 then 1 else 2 * Pow2(n - 1)
  }

  lemma {:induction false} Pow2Mono(i: nat, j: nat)
    requires i <= j
    ensures Pow2(i) <= Pow2(j)
    ensures i < j ==> 2 * Pow2(i) <= Pow2(j)
    decreases j - i
  {
    if i < j { Pow2Mono(i, j - 1); }
  }

  lemma MaxIsPow2()
    ensures MAXASIZE == Pow2(MAXBITS)
  {
    assert Pow2(10) == 1024;
    assert Pow2(20) == 0x10_0000;
  }

  /** `ceillog2`: the slice of `x`. */
  function CeilLog2(x: nat): (r: nat)
    requires x > 0
    ensures Low(r) < x <= Pow2(r)
  {
    if x == 1 then 0 else 1 + CeilLog2((x + 1) / 2)
  }

  function Low(j: nat): nat { if j == 0 then 0 else Pow2(j - 1) }

  lemma CeilLog2Bound(x: nat)
    requires 0 < x <= MAXASIZE
    ensures CeilLog2(x) <= MAXBITS
  {
    var l := CeilLog2(x);
    MaxIsPow2();
    if l > MAXBITS { Pow2Mono(MAXBITS, l - 1); }
  }

  // ---------- counting ----------

  ghost function UpTo(s: set<int>, n: int): set<int> { set i | i in s && 0 < i <= n }

  ghost function Slice(s: set<int>, j: nat): set<int> { set i | i in s && Low(j) < i <= Pow2(j) }

  /** The integers from 1 to `n`. */
  ghost function Range(n: nat): (r: set<int>)
    ensures |r| == n && forall i :: i in r <==> 0 < i <= n
  {
    if n == 0 then {} else Range(n - 1) + {n}
  }

  lemma UpToCard(s: set<int>, n: nat)
    ensures |UpTo(s, n)| <= n
  {
    CardSub(UpTo(s, n), Range(n));
  }

  lemma UpToSlice(s: set<int>, j: nat)
    ensures |UpTo(s, Pow2(j))| == |UpTo(s, Low(j))| + |Slice(s, j)|
  {
    assert UpTo(s, Pow2(j)) == UpTo(s, Low(j)) + Slice(s, j);
    assert UpTo(s, Low(j)) !! Slice(s, j);
  }

  /** `nums[j]` is the number of keys in slice `j`. */
  ghost predicate Tally(nums: seq<nat>, s: set<int>) {
    |nums| == MAXBITS + 1 && forall j | 0 <= j <= MAXBITS :: nums[j] == |Slice(s, j)|
  }

  lemma TallyNone(nums: seq<nat>)
    requires |nums| == MAXBITS + 1 && forall j | 0 <= j <= MAXBITS :: nums[j] == 0
    ensures Tally(nums, {})
  {
  }

  lemma OneSlice(x: nat, j: nat)
    requires x > 0
    ensures Low(j) < x <= Pow2(j) <==> j == CeilLog2(x)
  {
    var l := CeilLog2(x);
    if j < l { Pow2Mono(j, l - 1); }
    if l < j { Pow2Mono(l, j - 1); }
  }

  lemma SliceAdd(s: set<int>, x: nat, j: nat)
    requires x !in s && x > 0
    ensures |Slice(s + {x}, j)| == |Slice(s, j)| + (if j == CeilLog2(x) then 1 else 0)
  {
    OneSlice(x, j);
    hide CeilLog2, Pow2;
    assert Slice(s + {x}, j) == if j == CeilLog2(x) then Slice(s, j) + {x} else Slice(s, j);
  }

  lemma TallyAdd(nums: seq<nat>, s: set<int>, x: nat)
    requires Tally(nums, s) && x !in s && 0 < x <= MAXASIZE
    ensures CeilLog2(x) <= MAXBITS
    ensures var l := CeilLog2(x); Tally(nums[l := nums[l] + 1], s + {x})
  {
    CeilLog2Bound(x);
    hide Slice, CeilLog2;
    forall j | 0 <= j <= MAXBITS
      ensures |Slice(s + {x}, j)| == |Slice(s, j)| + (if j == CeilLog2(x) then 1 else 0)
    {
      SliceAdd(s, x, j);
    }
  }

  lemma TallyOut(nums: seq<nat>, s: set<int>, x: int)
    requires Tally(nums, s) && (x <= 0 || x > MAXASIZE)
    ensures Tally(nums, s + {x})
  {
    MaxIsPow2();
    forall j | 0 <= j <= MAXBITS ensures Slice(s + {x}, j) == Slice(s, j) {
      Pow2Mono(j, MAXBITS);
    }
  }

  // ---------- choosing the size ----------

  /** More than half of the slots `1..n` would be in use. */
  ghost predicate MoreThanHalf(s: set<int>, n: nat) { |UpTo(s, n)| > n / 2 }

  /** The largest power of two, within the limit, of whose slots more than half would be in use; zero if none. */
  ghost predicate Best(s: set<int>, n: nat) {
    && (n == 0 || exists j: nat :: j <= MAXBITS && n == Pow2(j) && MoreThanHalf(s, n))
    && forall j: nat :: j <= MAXBITS && Pow2(j) > n ==> !MoreThanHalf(s, Pow2(j))
  }

  lemma UpToMono(s: set<int>, n: int, m: int)
    requires n <= m
    ensures |UpTo(s, n)| <= |UpTo(s, m)|
  {
    assert UpTo(s, n) <= UpTo(s, m);
    CardSub(UpTo(s, n), UpTo(s, m));
  }

  lemma {:induction false} CardSub<T>(s: set<T>, t: set<T>)
    requires s <= t
    ensures |s| <= |t|
  {
    if s != {} {
      var x :| x in s;
      CardSub(s - {x}, t - {x});
    }
  }

  /** Slices beyond those looked at make no better size. */
  lemma NoneBeyond(s: set<int>, i: nat, j: nat, total: nat)
    requires total == |UpTo(s, MAXASIZE)| && i <= j <= MAXBITS
    requires Pow2(i) / 2 >= total || (|UpTo(s, Low(i))| == total)
    ensures !MoreThanHalf(s, Pow2(j))
  {
    MaxIsPow2();
    Pow2Mono(i, j);
    Pow2Mono(j, MAXBITS);
    UpToMono(s, Pow2(j), MAXASIZE);
    UpToCard(s, Low(i));
    if j > 0 && i > 0 { Pow2Mono(i - 1, j - 1); }
  }

  /** An empty slice makes no better size. */
  lemma NoneInEmpty(s: set<int>, i: nat)
    requires |Slice(s, i)| == 0
    ensures !MoreThanHalf(s, Pow2(i))
  {
    UpToSlice(s, i);
    UpToCard(s, Low(i));
  }

  /** The size found so far is the best among the slices below `i`. */
  ghost predicate BestBelow(s: set<int>, i: nat, n: nat) {
    && (n == 0 || exists j: nat :: j < i && j <= MAXBITS && n == Pow2(j) && MoreThanHalf(s, n))
    && forall j: nat :: j < i && Pow2(j) > n ==> !MoreThanHalf(s, Pow2(j))
  }

  lemma BestTaken(s: set<int>, i: nat, n: nat)
    requires BestBelow(s, i, n) && i <= MAXBITS && MoreThanHalf(s, Pow2(i))
    ensures BestBelow(s, i + 1, Pow2(i))
  {
    forall j: nat | j < i ensures Pow2(j) <= Pow2(i) { Pow2Mono(j, i); }
  }

  lemma BestPassed(s: set<int>, i: nat, n: nat)
    requires BestBelow(s, i, n) && !MoreThanHalf(s, Pow2(i))
    ensures BestBelow(s, i + 1, n)
  {
  }

  lemma BestAtEnd(s: set<int>, i: nat, n: nat, total: nat)
    requires BestBelow(s, i, n) && total == |UpTo(s, MAXASIZE)|
    requires Pow2(i) / 2 >= total || |UpTo(s, Low(i))| == total
    ensures Best(s, n) && n <= MAXASIZE
  {
    forall j: nat | i <= j <= MAXBITS ensures !MoreThanHalf(s, Pow2(j)) {
      NoneBeyond(s, i, j, total);
    }
    MaxIsPow2();
    forall j: nat | j <= MAXBITS ensures Pow2(j) <= MAXASIZE { Pow2Mono(j, MAXBITS); }
  }

  /** There is work left only in the slices that are counted. */
  lemma StillCounted(s: set<int>, i: nat, total: nat)
    requires i <= MAXBITS + 1 && total == |UpTo(s, MAXASIZE)| && Pow2(i) / 2 < total
    ensures i <= MAXBITS
  {
    UpToCard(s, MAXASIZE);
    MaxIsPow2();
  }

  /** `computesizes`: the size of the array part, and how many keys go there. */
  method ComputeSizes(nums: seq<nat>, total: nat, ghost s: set<int>) returns (na: nat, n: nat)
    requires Tally(nums, s) && total == |UpTo(s, MAXASIZE)|
    ensures Best(s, n) && na == |UpTo(s, n)| && n <= MAXASIZE
  {
    hide Best, BestBelow, MoreThanHalf, UpTo;
    var i, twotoi := 0, 1;
    var a := 0;
    na, n := 0, 0;
    NothingYet(s);
    while twotoi / 2 < total
      invariant twotoi == Pow2(i) && i <= MAXBITS + 1
      invariant a == |UpTo(s, Low(i))| && na == |UpTo(s, n)| && BestBelow(s, i, n)
      decreases MAXBITS + 1 - i
    {
      StillCounted(s, i, total);
      UpToSlice(s, i);
      HalfIs(s, Pow2(i));
      if nums[i] > 0 {
        a := a + nums[i];
        if a > twotoi / 2 {
          BestTaken(s, i, n);
          n := twotoi;
          na := a;
        } else {
          BestPassed(s, i, n);
        }
      } else {
        NoneInEmpty(s, i);
        BestPassed(s, i, n);
      }
      i := i + 1;
      if a == total {
        break;
      }
      twotoi := twotoi * 2;
    }
    BestAtEnd(s, i, n, total);
  }

  lemma NothingYet(s: set<int>)
    ensures UpTo(s, 0) == {} && BestBelow(s, 0, 0)
  {
  }

  lemma HalfIs(s: set<int>, n: nat)
    ensures MoreThanHalf(s, n) <==> |UpTo(s, n)| > n / 2
  {
  }
}
