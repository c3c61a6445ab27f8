/**
  References into a table (lauxlib.c:481-512): luaL_ref and luaL_unref keep a free list through the
  slots of the references that were given back, with its head in slot 0.

  The table is the map that Tables proves a table to be; lua_objlen, which may return any boundary of
  it (Tables.Table.Getn), is a parameter.
  */
module References {
  import opened TableNodes
  import opened TableContents

  const FREELIST_REF := 0
  const LUA_REFNIL := -1

  function RawGetI(t: Map, i: int): Value { Lookup(t, IntKey(i)) }

  function RawSetI(t: Map, i: int, v: Value): Map { Written(t, IntKey(i), v) }

  /** lua_tointeger on what a free slot holds */
  function ToInteger(v: Value): int { if v.Nil? then 0 else v.n }

  predicate IsBoundary(t: Map, n: nat) {
    (n == 0 || RawGetI(t, n) != Nil) && RawGetI(t, n + 1) == Nil
  }

  /** The link that slot i of the free list leads to: the next free slot, or 0 (or nothing) at the end. */
  predicate LinksTo(v: Value, free: seq<int>, i: nat) {
    ToInteger(v) == if i < |free| then free[i] else 0
  }

  predicate Distinct(s: seq<int>) {
    forall i, j | 0 <= i < j < |s| :: s[i] != s[j]
  }

  /** The live references: each is a slot that holds its object. */
  ghost predicate LiveOk(t: Map, live: map<int, Value>, n: nat) {
    forall r | r in live :: 1 <= r <= n && RawGetI(t, r) == live[r] != Nil
  }

  /** The free list, from slot 0. */
  ghost predicate FreeOk(t: Map, free: seq<int>, n: nat) {
    (forall i | 0 <= i < |free| :: 1 <= free[i] <= n && LinksTo(RawGetI(t, free[i]), free, i + 1)) &&
    Distinct(free) && LinksTo(RawGetI(t, 0), free, 0)
  }

  /** Every slot up to n is one or the other. */
  ghost predicate Shared(live: map<int, Value>, free: seq<int>, n: nat) {
    (forall r | r in live :: r !in free) && (forall r | 1 <= r <= n :: r in live || r in free)
  }

  ghost predicate NoneBeyond(t: Map, n: nat) {
    forall r | r > n :: RawGetI(t, r) == Nil
  }

  /** A table used for references only. */
  ghost predicate Kept(t: Map, live: map<int, Value>, free: seq<int>, n: nat) {
    LiveOk(t, live, n) && FreeOk(t, free, n) && Shared(live, free, n) && NoneBeyond(t, n)
  }

  /** When the free list is empty, slots 1..n are all in use, and every boundary of the table is n. */
  lemma BoundaryIsExact(t: Map, live: map<int, Value>, n: nat, b: nat)
    requires Kept(t, live, [], n) && IsBoundary(t, b)
    ensures b == n && forall r | 1 <= r <= n :: r in live
  {
    assert b + 1 <= n ==> b + 1 in live;
  }

  class Registry {
    var t: Map
    ghost var live: map<int, Value>  // the references given out, and their objects
    ghost var free: seq<int>
    ghost var size: nat

    ghost predicate Valid()
      reads this
    {
      Kept(t, live, free, size)
    }

    constructor ()
      ensures Valid() && live == map[]
    {
      t := map[];
      live := map[];
      free := [];
      size := 0;
    }

    /** luaL_ref */
    method Ref(v: Value, objlen: nat) returns (ref: int)
      requires Valid() && IsBoundary(t, objlen)
      modifies this
      ensures Valid()
      ensures v == Nil ==> ref == -1 && t == old(t) && live == old(live)
      ensures v != Nil ==> ref >= 1 && ref !in old(live) && live == old(live)[ref := v] && RawGetI(t, ref) == v
      ensures forall r | r in old(live) :: RawGetI(t, r) == old(live)[r]
    {
      hide RawGetI, RawSetI;
      if v == Nil {
        return LUA_REFNIL;
      }
      assert LinksTo(RawGetI(t, FREELIST_REF), free, 0);
      ref := ToInteger(RawGetI(t, FREELIST_REF));
      if ref != 0 {
        TakeKeeps(t, live, free, size, v);
        t := RawSetI(t, FREELIST_REF, RawGetI(t, ref));
        free := free[1..];
      } else {
        BoundaryIsExact(t, live, size, objlen);
        ref := objlen + 1;
        GrowKeeps(t, live, size, v);
        size := size + 1;
      }
      t := RawSetI(t, ref, v);
      live := live[ref := v];
    }

    /** luaL_unref; a negative reference is ignored. */
    method Unref(ref: int)
      requires Valid() && (ref >= 0 ==> ref in live)
      modifies this
      ensures Valid()
      ensures ref < 0 ==> t == old(t)
      ensures live == old(live) - {ref}
      ensures forall r | r in live :: RawGetI(t, r) == old(live)[r]
    {
      hide RawGetI, RawSetI;
      if ref >= 0 {
        GiveKeeps(t, live, free, size, ref);
        t := RawSetI(t, ref, RawGetI(t, FREELIST_REF));
        t := RawSetI(t, FREELIST_REF, Val(ref));
        free := [ref] + free;
      }
      live := live - {ref};
    }
  }

  // ---------- the three changes ----------

  /** u is t with two slots set. */
  ghost predicate Sets(t: Map, u: Map, a: int, x: Value, b: int, y: Value) {
    RawGetI(u, b) == y && (a != b ==> RawGetI(u, a) == x) &&
    forall r | r != a && r != b :: RawGetI(u, r) == RawGetI(t, r)
  }

  lemma SetsBoth(t: Map, a: int, x: Value, b: int, y: Value)
    ensures Sets(t, RawSetI(RawSetI(t, a, x), b, y), a, x, b, y)
  {
  }

  lemma TakeKeeps(t: Map, live: map<int, Value>, free: seq<int>, n: nat, v: Value)
    requires Kept(t, live, free, n) && free != [] && v != Nil
    ensures var u := RawSetI(t, FREELIST_REF, RawGetI(t, free[0]));
            Kept(RawSetI(u, free[0], v), live[free[0] := v], free[1..], n)
  {
    hide RawGetI, RawSetI, ToInteger;
    var u := RawSetI(RawSetI(t, FREELIST_REF, RawGetI(t, free[0])), free[0], v);
    SetsBoth(t, FREELIST_REF, RawGetI(t, free[0]), free[0], v);
    TakeFree(t, u, free, n, v);
    TakeShared(live, free, n, v);
  }

  lemma TakeFree(t: Map, u: Map, free: seq<int>, n: nat, v: Value)
    requires FreeOk(t, free, n) && free != [] && Sets(t, u, FREELIST_REF, RawGetI(t, free[0]), free[0], v)
    ensures FreeOk(u, free[1..], n)
  {
    hide RawGetI, ToInteger;
    var rest := free[1..];
    forall i | 0 <= i < |rest| ensures 1 <= rest[i] <= n && LinksTo(RawGetI(u, rest[i]), rest, i + 1) {
      assert rest[i] == free[i + 1] != free[0];
      assert LinksTo(RawGetI(t, free[i + 1]), free, i + 1 + 1);
    }
    assert LinksTo(RawGetI(t, free[0]), free, 1);
  }

  lemma TakeShared(live: map<int, Value>, free: seq<int>, n: nat, v: Value)
    requires Shared(live, free, n) && Distinct(free) && free != []
    ensures Shared(live[free[0] := v], free[1..], n)
  {
    forall r | 1 <= r <= n ensures r in live[free[0] := v] || r in free[1..] {
      assert r in live || r in free;
    }
  }

  lemma GrowKeeps(t: Map, live: map<int, Value>, n: nat, v: Value)
    requires Kept(t, live, [], n) && v != Nil
    ensures Kept(RawSetI(t, n + 1, v), live[n + 1 := v], [], n + 1)
  {
    hide RawGetI, RawSetI, ToInteger;
    var u := RawSetI(t, n + 1, v);
    SetsOne(t, n + 1, v);
  }

  lemma SetsOne(t: Map, a: int, x: Value)
    ensures var u := RawSetI(t, a, x); RawGetI(u, a) == x && forall r | r != a :: RawGetI(u, r) == RawGetI(t, r)
  {
  }

  lemma GiveKeeps(t: Map, live: map<int, Value>, free: seq<int>, n: nat, ref: int)
    requires Kept(t, live, free, n) && ref in live
    ensures var u := RawSetI(t, ref, RawGetI(t, FREELIST_REF));
            Kept(RawSetI(u, FREELIST_REF, Val(ref)), live - {ref}, [ref] + free, n)
  {
    hide RawGetI, RawSetI, ToInteger;
    var u := RawSetI(RawSetI(t, ref, RawGetI(t, FREELIST_REF)), FREELIST_REF, Val(ref));
    SetsBoth(t, ref, RawGetI(t, FREELIST_REF), FREELIST_REF, Val(ref));
    GiveFree(t, u, free, n, ref);
    GiveShared(live, free, n, ref);
  }

  lemma GiveFree(t: Map, u: Map, free: seq<int>, n: nat, ref: int)
    requires FreeOk(t, free, n) && 1 <= ref <= n && ref !in free
    requires Sets(t, u, ref, RawGetI(t, FREELIST_REF), FREELIST_REF, Val(ref))
    ensures FreeOk(u, [ref] + free, n)
  {
    hide RawGetI;
    var more := [ref] + free;
    forall i | 0 <= i < |more| ensures 1 <= more[i] <= n && LinksTo(RawGetI(u, more[i]), more, i + 1) {
      if i > 0 {
        assert more[i] == free[i - 1] && LinksTo(RawGetI(t, free[i - 1]), free, i);
      }
    }
  }

  lemma GiveShared(live: map<int, Value>, free: seq<int>, n: nat, ref: int)
    requires Shared(live, free, n) && ref in live
    ensures Shared(live - {ref}, [ref] + free, n)
  {
    forall r | 1 <= r <= n ensures r in live - {ref} || r in [ref] + free {
      assert r in live || r in free;
    }
  }
}
