/**
  Lists of pending jumps as lcode.c keeps them: threaded through the offsets of the jumps themselves, where the
  offset NO_JUMP, a jump to itself, ends a list.
  */
module LCodeChains {
  import opened LCodeVm
  import opened LCodeGen

  /** `getjump` */
  function Next(code: seq<Instr>, pc: nat): int
    requires pc < |code| && code[pc].Jmp?
  {
    if code[pc].sbx == NO_JUMP then NO_JUMP else pc + 1 + code[pc].sbx
  }

  /** The jumps of `list`, in this order, are reached from `head`. */
  ghost predicate Chain(code: seq<Instr>, head: int, list: seq<nat>)
    decreases |list|
  {
    if list == [] then head == NO_JUMP
    else
      && head == list[0] && list[0] < |code| && code[list[0]].Jmp?
      && Chain(code, Next(code, list[0]), list[1..])
  }

  ghost predicate Distinct(list: seq<nat>) { forall i, j | 0 <= i < j < |list| :: list[i] != list[j] }

  function Elems(list: seq<nat>): set<nat> { set j | j in list }

  /** The code with every pending jump written the same way, whatever list it is threaded on. */
  function Plainly(code: seq<Instr>, open: set<nat>): (r: seq<Instr>)
    ensures |r| == |code|
  {
    seq(|code|, i requires 0 <= i < |code| => if i in open then Jmp(NO_JUMP) else code[i])
  }

  lemma {:induction false} ChainJumps(code: seq<Instr>, head: int, list: seq<nat>)
    requires Chain(code, head, list)
    ensures forall j | j in list :: j < |code| && code[j].Jmp?
    decreases |list|
  {
    if list != [] {
      ChainJumps(code, Next(code, list[0]), list[1..]);
      assert list == [list[0]] + list[1..];
    }
  }

  /** A list depends on its own jumps only. */
  lemma {:induction false} ChainSame(code: seq<Instr>, code': seq<Instr>, head: int, list: seq<nat>)
    requires Chain(code, head, list)
    requires forall j | j in list :: j < |code'| && j < |code| && code'[j] == code[j]
    ensures Chain(code', head, list)
    decreases |list|
  {
    if list != [] {
      assert list[0] in list;
      assert forall j | j in list[1..] :: j in list;
      ChainSame(code, code', Next(code, list[0]), list[1..]);
    }
  }

  /** `luaK_concat`: linking the last jump of one list to the first of another. */
  lemma {:induction false} ChainConcat(code: seq<Instr>, h1: int, a: seq<nat>, h2: int, b: seq<nat>)
    requires Chain(code, h1, a) && Chain(code, h2, b) && a != [] && b != [] && Distinct(a + b)
    ensures var last := a[|a| - 1];
      last < |code| && Chain(code[last := Jmp(h2 - (last + 1))], h1, a + b)
    decreases |a|
  {
    var last := a[|a| - 1];
    ChainJumps(code, h1, a);
    assert last in a;
    var code' := code[last := Jmp(h2 - (last + 1))];
    assert (a + b)[|a| - 1] == last && (a + b)[|a|] == b[0] == h2;
    assert forall j | j in b :: j != last by {
      forall j | j in b ensures j != last {
        var k :| 0 <= k < |b| && b[k] == j;
        assert (a + b)[|a| + k] == j;
      }
    }
    ChainJumps(code, h2, b);
    ChainSame(code, code', h2, b);
    if |a| == 1 {
      assert (a + b)[1..] == b;
      assert Next(code', last) == h2;
    } else {
      var rest := a[1..];
      assert rest[|rest| - 1] == last;
      assert rest + b == (a + b)[1..];
      DistinctTail(a + b);
      ChainConcat(code, Next(code, a[0]), rest, h2, b);
      assert a[0] != last by { assert (a + b)[0] == a[0]; }
      assert Next(code', a[0]) == Next(code, a[0]);
    }
  }

  lemma DistinctTail(list: seq<nat>)
    requires Distinct(list) && list != []
    ensures Distinct(list[1..]) && list[0] !in list[1..]
  {
  }

  lemma ElemsConcat(a: seq<nat>, b: seq<nat>)
    ensures Elems(a + b) == Elems(a) + Elems(b)
  {
  }

  lemma DistinctConcat(a: seq<nat>, b: seq<nat>)
    requires Distinct(a) && Distinct(b) && Elems(a) !! Elems(b)
    ensures Distinct(a + b)
  {
    assert forall i | 0 <= i < |a| :: a[i] in Elems(a);
    assert forall i | 0 <= i < |b| :: b[i] in Elems(b);
  }

  // ---------- patching one jump after the other ----------

  /** One step of `patchlistaux`. */
  function PatchOne(code: seq<Instr>, j: nat, vtarget: int, reg: nat, dtarget: int): (r: seq<Instr>)
    requires j < |code|
    ensures |r| == |code|
  {
    if HasValue(code, j)
    then code[j - 1 := Settle(code[j - 1], reg)][j := Jmp(vtarget - (j + 1))]
    else code[j := Jmp(dtarget - (j + 1))]
  }

  lemma PatchEmpty(code: seq<Instr>, vtarget: int, reg: nat, dtarget: int)
    ensures Patch(code, {}, vtarget, reg, dtarget) == code
  {
  }

  /** Patching a list one jump at a time patches the list. */
  lemma PatchStep(code: seq<Instr>, list: set<nat>, j: nat, vtarget: int, reg: nat, dtarget: int)
    requires j < |code| && code[j].Jmp? && j !in list
    requires forall k | k in list :: k < |code| && code[k].Jmp?
    ensures PatchOne(Patch(code, list, vtarget, reg, dtarget), j, vtarget, reg, dtarget) ==
            Patch(code, list + {j}, vtarget, reg, dtarget)
  {
    var mid := Patch(code, list, vtarget, reg, dtarget);
    assert HasValue(mid, j) == HasValue(code, j);
    assert HasValue(code, j) ==> mid[j - 1] == code[j - 1];
    assert forall k | k in list :: k != j;
    var l := PatchOne(mid, j, vtarget, reg, dtarget);
    var r := Patch(code, list + {j}, vtarget, reg, dtarget);
    forall i | 0 <= i < |code| ensures l[i] == r[i] {
    }
  }

  lemma PatchOthers(code: seq<Instr>, list: set<nat>, vtarget: int, reg: nat, dtarget: int)
    ensures forall j | 0 <= j < |code| && code[j].Jmp? && j !in list :: Patch(code, list, vtarget, reg, dtarget)[j] == code[j]
  {
  }

  /** The next step of `patchlistaux`, and the link that it finds. */
  lemma NextListed(code: seq<Instr>, l: seq<nat>, k: nat, vtarget: int, reg: nat, dtarget: int)
    requires k < |l| && Distinct(l) && forall j | j in l :: j < |code| && code[j].Jmp?
    ensures var mid := Patch(code, Elems(l[..k]), vtarget, reg, dtarget);
      && l[k] in l && l[k] < |code| && mid[l[k]] == code[l[k]]
      && PatchOne(mid, l[k], vtarget, reg, dtarget) == Patch(code, Elems(l[..k + 1]), vtarget, reg, dtarget)
  {
    assert l[..k + 1] == l[..k] + [l[k]];
    ElemsConcat(l[..k], [l[k]]);
    assert l[k] in l && l[k] !in Elems(l[..k]);
    assert Elems([l[k]]) == {l[k]};
    hide Patch, PatchOne;
    PatchStep(code, Elems(l[..k]), l[k], vtarget, reg, dtarget);
    PatchOthers(code, Elems(l[..k]), vtarget, reg, dtarget);
  }

  lemma RemoveStep(code: seq<Instr>, list: set<nat>, j: nat)
    requires 0 <= j < |code| && code[j].Jmp?
    ensures var mid := RemoveValues(code, list);
      RemoveValues(code, list + {j}) == (if HasValue(mid, j) then mid[j - 1 := Settle(mid[j - 1], NO_REG)] else mid)
  {
    var mid := RemoveValues(code, list);
    var l := if HasValue(mid, j) then mid[j - 1 := Settle(mid[j - 1], NO_REG)] else mid;
    var r := RemoveValues(code, list + {j});
    forall i | 0 <= i < |code| ensures l[i] == r[i] {
    }
  }

  // ---------- the plain view ----------

  lemma PlainlyPatch(code: seq<Instr>, open: set<nat>, list: set<nat>, vtarget: int, reg: nat, dtarget: int)
    requires list <= open && (forall j | j in open :: j < |code| && code[j].Jmp?)
    ensures Plainly(Patch(code, list, vtarget, reg, dtarget), open - list) == Patch(Plainly(code, open), list, vtarget, reg, dtarget)
  {
    var l := Plainly(Patch(code, list, vtarget, reg, dtarget), open - list);
    var r := Patch(Plainly(code, open), list, vtarget, reg, dtarget);
    forall i | 0 <= i < |code| ensures l[i] == r[i] {
      assert HasValue(code, i) == HasValue(Plainly(code, open), i);
    }
  }

  lemma PlainlyRemove(code: seq<Instr>, open: set<nat>, list: set<nat>)
    requires forall j | j in open :: j < |code| && code[j].Jmp?
    ensures Plainly(RemoveValues(code, list), open) == RemoveValues(Plainly(code, open), list)
  {
  }

  lemma PlainlyAppend(code: seq<Instr>, open: set<nat>, i: Instr)
    requires forall j | j in open :: j < |code|
    ensures Plainly(code + [i], open) == Plainly(code, open) + [i]
    ensures i.Jmp? ==> Plainly(code + [i], open + {|code|}) == Plainly(code, open) + [Jmp(NO_JUMP)]
  {
  }
}
