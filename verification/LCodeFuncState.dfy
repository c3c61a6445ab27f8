/**
  The code generator of lcode.c as it works: an object whose code is patched in place, with the lists of pending
  jumps threaded through the code.  Every method does what the function of the same name in `LCodeGen` says, and
  leaves the jumps of enclosing expressions (`outer`) alone.
  */
module LCodeFuncState {
  import opened LCodeVm
  import G = LCodeGen
  import opened LCodeChains
  import LCodeRun
  import Shape = LCodeShape

  type Kind = G.Kind

  /** `expdesc`: kind, position of the pending instruction, heads of the lists of exits. */
  datatype ExpDesc = ExpDesc(k: Kind, info: int, t: int, f: int)

  class FuncState {
    var code: seq<Instr>
    var jpc: int
    var freereg: nat
    var nactvar: nat
    var fits: bool
    /** All pending jumps, and those of the list `jpc` in order. */
    ghost var open: set<nat>
    ghost var waiting: seq<nat>

    constructor (n: nat)
      ensures Valid() && A() == G.Func([], {}, n, n, true) && waiting == [] && open == {}
    {
      code, jpc, freereg, nactvar, fits := [], NO_JUMP, n, n, true;
      open, waiting := {}, [];
    }

    ghost function A(): G.Func
      reads this
    {
      G.Func(Plainly(code, open), Elems(waiting), freereg, nactvar, fits)
    }

    ghost predicate Linked(head: int, list: seq<nat>)
      reads this
    {
      Chain(code, head, list) && Distinct(list) && Elems(list) <= open
    }

    ghost predicate Valid()
      reads this
    {
      (forall j | j in open :: j < |code| && code[j].Jmp?) && Linked(jpc, waiting)
    }

    /** The descriptor `e` has the exits `tl` and `fl`. */
    ghost predicate Holds(e: ExpDesc, tl: seq<nat>, fl: seq<nat>)
      reads this
    {
      && Linked(e.t, tl) && Linked(e.f, fl)
      && (e.k.KReloc? || e.k.KJmp? ==> e.info == |code| - 1)
      && (e.k.KJmp? ==> e.info >= 0 && Linked(e.info, [e.info]))
    }

    /** The jumps `list` are pending and linked as they were in the code `c`. */
    ghost predicate Kept(c: seq<Instr>, list: set<nat>)
      reads this
    {
      list <= open && forall j | j in list :: j < |c| && j < |code| && code[j] == c[j]
    }

    lemma LinkedKept(c: seq<Instr>, head: int, list: seq<nat>, kept: set<nat>)
      requires Chain(c, head, list) && Distinct(list) && Elems(list) <= kept && Kept(c, kept)
      ensures Linked(head, list)
    {
      assert forall j | j in list :: j in Elems(list);
      ChainSame(c, code, head, list);
    }

    // ---------- jump lists ----------

    /** `getjump` */
    method GetJump(pc: nat) returns (next: int)
      requires pc < |code| && code[pc].Jmp?
      ensures next == Next(code, pc)
    {
      var offset := code[pc].sbx;
      if offset == NO_JUMP {
        next := NO_JUMP;
      } else {
        next := pc + 1 + offset;
      }
    }

    /** `getjumpcontrol`: the instruction on which it depends whether the jump is taken.  That is the jump itself if a run
        that gets there always takes it, and otherwise the test before it, from which a run takes the jump exactly if
        the test says so and else goes on after it. */
    method GetJumpControl(pc: nat) returns (at: nat)
      requires pc < |code|
      ensures at == if Controlled(code, pc) then pc - 1 else pc
      ensures at == pc && code[pc].Jmp? ==> forall env, r :: Run(env, code, pc, r) == LCodeVm.Leave(env, code, pc, r)
      ensures at != pc && code[pc].Jmp? ==>
                at + 1 == pc && IsTest(code[at]) &&
                forall env, r :: Run(env, code, at, r) ==
                  if Taken(env, code[at], r) then LCodeVm.Leave(env, code, pc, AfterTest(code[at], r)) else Run(env, code, pc + 1, r)
    {
      if pc >= 1 && IsTest(code[pc - 1]) {
        at := pc - 1;
      } else {
        at := pc;
      }
    }

    /** `fixjump` */
    method FixJump(pc: nat, dest: int)
      requires pc < |code|
      modifies this`code
      ensures code == old(code)[pc := Jmp(dest - (pc + 1))]
    {
      var offset := dest - (pc + 1);
      code := code[pc := Jmp(offset)];
    }

    /** `need_value` */
    method NeedValue(list: int, ghost l: seq<nat>) returns (need: bool)
      requires Chain(code, list, l)
      ensures need == G.NeedValue(code, Elems(l))
    {
      var at := list;
      ghost var k := 0;
      ChainJumps(code, list, l);
      while at != NO_JUMP
        invariant 0 <= k <= |l| && Chain(code, at, l[k..])
        invariant forall i | 0 <= i < k :: G.HasValue(code, l[i])
        decreases |l| - k
      {
        assert at == l[k] && l[k] in l;
        var control := GetJumpControl(at);
        if !code[control].TestSet? {
          assert at in Elems(l) && !G.HasValue(code, at);
          return true;
        }
        at := GetJump(at);
        assert l[k..][1..] == l[k + 1..];
        k := k + 1;
      }
      need := false;
    }

    /** `patchtestreg` */
    method PatchTestReg(node: nat, reg: nat) returns (b: bool)
      requires node < |code| && code[node].Jmp?
      modifies this`code
      ensures b == G.HasValue(old(code), node)
      ensures code == if b then old(code)[node - 1 := G.Settle(old(code)[node - 1], reg)] else old(code)
    {
      var at := GetJumpControl(node);
      var i := code[at];
      if !i.TestSet? {
        return false;
      }
      if reg != NO_REG && reg != i.b {
        code := code[at := TestSet(reg, i.b, i.c)];
      } else {
        code := code[at := Test(i.b, i.c)];
      }
      b := true;
    }

    /** `removevalues` */
    method RemoveValues(list: int, ghost l: seq<nat>)
      requires Chain(code, list, l)
      modifies this`code
      ensures code == G.RemoveValues(old(code), Elems(l))
    {
      var at := list;
      ghost var k := 0;
      ghost var c := code;
      ChainJumps(code, list, l);
      assert G.RemoveValues(c, Elems(l[..0])) == c;
      hide G.RemoveValues;
      while at != NO_JUMP
        invariant 0 <= k <= |l| && Chain(c, at, l[k..])
        invariant code == G.RemoveValues(c, Elems(l[..k]))
        decreases |l| - k
      {
        assert at == l[k] && l[k] in l;
        assert l[..k + 1] == l[..k] + [l[k]];
        ElemsConcat(l[..k], [l[k]]);
        RemoveStep(c, Elems(l[..k]), l[k]);
        var b := PatchTestReg(at, NO_REG);
        assert code[at] == c[at];
        at := GetJump(at);
        assert l[k..][1..] == l[k + 1..];
        k := k + 1;
      }
      assert l[..k] == l;
    }

    /** The body of the loop of `patchlistaux`. */
    method PatchJump(at: nat, vtarget: int, reg: nat, dtarget: int)
      requires at < |code| && code[at].Jmp?
      modifies this`code
      ensures code == PatchOne(old(code), at, vtarget, reg, dtarget)
    {
      var b := PatchTestReg(at, reg);
      if b {
        FixJump(at, vtarget);
      } else {
        FixJump(at, dtarget);
      }
    }

    /** `patchlistaux`: every jump of the list gets its target, and no other instruction changes but their tests. */
    method PatchListAux(list: int, vtarget: int, reg: nat, dtarget: int, ghost l: seq<nat>)
      requires Chain(code, list, l) && Distinct(l)
      modifies this`code
      ensures code == G.Patch(old(code), Elems(l), vtarget, reg, dtarget)
    {
      hide G.Patch, PatchOne;
      var at := list;
      ghost var k := 0;
      ghost var c := code;
      ChainJumps(code, list, l);
      PatchEmpty(c, vtarget, reg, dtarget);
      assert Elems(l[..0]) == {};
      while at != NO_JUMP
        invariant 0 <= k <= |l| && Chain(c, at, l[k..])
        invariant code == G.Patch(c, Elems(l[..k]), vtarget, reg, dtarget)
        decreases |l| - k
      {
        assert at == l[k] && l[k] in l;
        NextListed(c, l, k, vtarget, reg, dtarget);
        var next := GetJump(at);
        PatchJump(at, vtarget, reg, dtarget);
        at := next;
        assert l[k..][1..] == l[k + 1..];
        k := k + 1;
      }
      assert l[..k] == l;
    }

    /** `luaK_concat`: the second list is linked to the end of the first; the result is the head. */
    method Concat(l1: int, l2: int, ghost a: seq<nat>, ghost b: seq<nat>) returns (head: int)
      requires Valid() && Linked(l1, a) && Linked(l2, b) && Elems(a) !! Elems(b)
      modifies this`code
      ensures Linked(head, a + b) && |code| == |old(code)|
      ensures forall j | 0 <= j < |code| && j !in a :: code[j] == old(code)[j]
      ensures forall j | j in open :: j < |code| && code[j].Jmp?
      ensures Plainly(code, open) == old(Plainly(code, open))
    {
      DistinctConcat(a, b);
      ElemsConcat(a, b);
      if l2 == NO_JUMP {
        assert a + b == a;
        head := l1;
      } else if l1 == NO_JUMP {
        assert a + b == b;
        head := l2;
      } else {
        var list := l1;
        ghost var k := 0;
        ChainJumps(code, l1, a);
        assert a[0] in a;
        var next := GetJump(list);
        assert a == a[0..];
        while next != NO_JUMP
          invariant code == old(code)
          invariant 0 <= k < |a| && list == a[k] && Chain(code, list, a[k..])
          invariant list < |code| && code[list].Jmp? && next == Next(code, list)
          decreases |a| - k
        {
          assert a[k..][1..] == a[k + 1..];
          k := k + 1;
          list := next;
          assert a[k] in a;
          next := GetJump(list);
        }
        assert a[k..][1..] == a[k + 1..];
        assert k == |a| - 1;
        ChainConcat(code, l1, a, l2, b);
        assert list in Elems(a);
        FixJump(list, l2);
        head := l1;
      }
    }

    // ---------- emitting ----------

    /** `dischargejpc` */
    method DischargeJpc(ghost outer: set<nat>)
      requires Valid() && outer <= open && outer !! Elems(waiting)
      modifies this`code, this`jpc, this`open, this`waiting
      ensures Valid() && waiting == [] && open == old(open) - Elems(old(waiting))
      ensures A() == old(A()).(code := G.Patch(old(A()).code, old(A()).jpc, |old(code)|, NO_REG, |old(code)|), jpc := {})
      ensures |code| == |old(code)| && Kept(old(code), outer)
    {
      PlainlyPatch(code, open, Elems(waiting), |code|, NO_REG, |code|);
      PatchOthers(code, Elems(waiting), |code|, NO_REG, |code|);
      hide G.Patch;
      ghost var c := code;
      PatchListAux(jpc, |code|, NO_REG, |code|, waiting);
      open := open - Elems(waiting);
      waiting := [];
      jpc := NO_JUMP;
    }

    /** `luaK_code` with an instruction that is not a jump */
    method Code(i: Instr, ghost outer: set<nat>) returns (pc: nat)
      requires Valid() && !i.Jmp? && outer <= open && outer !! Elems(waiting)
      modifies this`code, this`jpc, this`open, this`waiting
      ensures Valid() && waiting == [] && open == old(open) - Elems(old(waiting))
      ensures A() == G.Code(old(A()), i) && pc == |old(code)| && |code| == pc + 1 && Kept(old(code), outer)
    {
      DischargeJpc(outer);
      hide G.Patch;
      PlainlyAppend(code, open, i);
      pc := |code|;
      code := code + [i];
    }

    /** `luaK_jump`: the new jump is the head of a list that the jumps to here follow. */
    method Jump(ghost outer: set<nat>) returns (head: int, ghost l: seq<nat>)
      requires Valid() && outer <= open && outer !! Elems(waiting)
      modifies this`code, this`jpc, this`open, this`waiting
      ensures Valid() && waiting == [] && open == old(open) + {|old(code)|}
      ensures G.Jump(old(A())) == G.Jumped(A(), Elems(l)) && Linked(head, l) && l == [|old(code)|] + old(waiting)
      ensures |code| == |old(code)| + 1 && Kept(old(code), outer)
    {
      ghost var c, w := code, waiting;
      var saved := jpc;
      PlainlyAppend(code, open, Jmp(NO_JUMP));
      jpc := NO_JUMP;
      waiting := [];
      var j := |code|;
      code := code + [Jmp(NO_JUMP)];
      open := open + {j};
      assert forall k | k in w :: k in Elems(w);
      ChainSame(c, code, saved, w);
      ElemsConcat([j], w);
      assert Elems([j]) == {j};
      assert Distinct([j]) && Linked(j, [j]);
      ghost var d := code;
      head := Concat(j, saved, [j], w);
      l := [j] + w;
      assert Kept(c, outer);
    }

    // ---------- the expression in hand ----------

    ghost function E(e: ExpDesc, tl: seq<nat>, fl: seq<nat>): G.Exp { G.Exp(e.k, Elems(tl), Elems(fl)) }

    /** The jumps of enclosing expressions are in other lists than those of `e`. */
    ghost predicate Free(e: G.Exp, outer: set<nat>)
      reads this
    {
      outer <= open && outer !! Elems(waiting) + Shape.Lists(e) && forall j | j in outer :: j < Shape.BodyLen(A(), e)
    }

    ghost predicate InHand(e: ExpDesc, tl: seq<nat>, fl: seq<nat>, outer: set<nat>)
      reads this
    {
      Valid() && Holds(e, tl, fl) && Free(E(e, tl, fl), outer) && Shape.Good(A(), E(e, tl, fl))
    }

    /** What an operation has to show to have the new expression in hand. */
    lemma NowInHand(fs: G.Func, x: G.Exp, e: ExpDesc, tl: seq<nat>, fl: seq<nat>, outer: set<nat>)
      requires Valid() && Holds(e, tl, fl) && outer <= open
      requires outer !! fs.jpc + Shape.Lists(x) && forall j | j in outer :: j < Shape.BodyLen(fs, x)
      requires Shape.Good(A(), E(e, tl, fl)) && Shape.Step(fs, x, A(), E(e, tl, fl))
      ensures InHand(e, tl, fl, outer)
    {
      hide Chain, Plainly, Shape.Good, Shape.SameJump, LCodeRun.Open;
      var x' := E(e, tl, fl);
      assert forall j | j in A().jpc + Shape.Lists(x') :: j >= Shape.BodyLen(fs, x) || j in fs.jpc + Shape.Lists(x);
    }

    /** The lists of the expression survive an operation that keeps them. */
    lemma StillHolds(c: seq<Instr>, e: ExpDesc, tl: seq<nat>, fl: seq<nat>, kept: set<nat>, e': ExpDesc)
      requires Chain(c, e.t, tl) && Distinct(tl) && Chain(c, e.f, fl) && Distinct(fl)
      requires Elems(tl) + Elems(fl) <= kept && Kept(c, kept) && e'.t == e.t && e'.f == e.f
      requires !e'.k.KJmp? && (e'.k.KReloc? ==> e'.info == |code| - 1)
      ensures Holds(e', tl, fl)
    {
      LinkedKept(c, e.t, tl, kept);
      LinkedKept(c, e.f, fl, kept);
    }

    /** Emitting an instruction for the expression in hand. */
    method CodeFor(i: Instr, e: ExpDesc, k: Kind, ghost tl: seq<nat>, ghost fl: seq<nat>, ghost outer: set<nat>) returns (e': ExpDesc)
      requires InHand(e, tl, fl, outer) && !Shape.Pending(E(e, tl, fl)) && !i.Jmp? && !IsTest(i)
      requires !k.KJmp? && (k.KReloc? ==> G.Relocatable(i))
      modifies this`code, this`jpc, this`open, this`waiting
      ensures InHand(e', tl, fl, outer) && e' == e.(k := k, info := |code| - 1) && Kept(old(code), outer)
      ensures A() == G.Code(old(A()), i)
    {
      hide G.Patch, Shape.Step, Plainly, Chain;
      ghost var fs, x, c := A(), E(e, tl, fl), code;
      Shape.CodeShape(fs, x, i, k);
      assert Elems(waiting) !! Shape.Lists(x) by { GoodApart(fs, x); }
      hide Shape.Good;
      ghost var kept := outer + Elems(tl) + Elems(fl);
      var pc := Code(i, kept);
      e' := e.(k := k, info := pc);
      StillHolds(c, e, tl, fl, kept, e');
      NowInHand(fs, x, e', tl, fl, outer);
    }

    lemma GoodApart(fs: G.Func, x: G.Exp)
      requires Shape.Good(fs, x)
      ensures fs.jpc !! Shape.Lists(x) && x.t !! x.f
    {
    }

    /** `luaK_dischargevars` */
    method DischargeVars(e: ExpDesc, ghost tl: seq<nat>, ghost fl: seq<nat>, ghost outer: set<nat>) returns (e': ExpDesc)
      requires InHand(e, tl, fl, outer)
      modifies this`code, this`jpc, this`open, this`waiting
      ensures InHand(e', tl, fl, outer) && e'.t == e.t && e'.f == e.f && Kept(old(code), outer)
      ensures G.DischargeVars(old(A()), E(e, tl, fl)) == G.Gen(A(), E(e', tl, fl))
    {
      hide G.Patch, Plainly, Chain, Shape.Step;
      ghost var fs, x := A(), E(e, tl, fl);
      Shape.DischargeVarsShape(fs, x);
      hide Shape.Good, G.Code;
      match e.k
      case KLocal(r) =>
        e' := e.(k := G.KReg(r));
        NowInHand(fs, x, e', tl, fl, outer);
      case KUpval(u) =>
        e' := CodeFor(GetUpval(0, u), e, G.KReloc, tl, fl, outer);
      case _ =>
        e' := e;
    }

    /** `luaK_reserveregs(fs, 1)`; running out of registers is an error of the source program. */
    method ReserveReg(e: ExpDesc, ghost tl: seq<nat>, ghost fl: seq<nat>, ghost outer: set<nat>)
      requires InHand(e, tl, fl, outer)
      modifies this`freereg, this`fits
      ensures InHand(e, tl, fl, outer) && A() == G.ReserveReg(old(A())) && freereg == old(freereg) + 1
    {
      hide Shape.Good, Shape.Step, Chain, Plainly;
      ghost var fs, x := A(), E(e, tl, fl);
      Shape.ReserveRegShape(fs, x);
      if freereg + 1 >= G.MAXSTACK {
        fits := false;
      }
      freereg := freereg + 1;
      NowInHand(fs, x, e, tl, fl, outer);
    }

    /** `freeexp` */
    method FreeExp(x: ExpDesc, e: ExpDesc, ghost tl: seq<nat>, ghost fl: seq<nat>, ghost outer: set<nat>)
      requires InHand(e, tl, fl, outer) && (x.k.KReg? && x.k.r >= nactvar ==> freereg > 0)
      modifies this`freereg
      ensures InHand(e, tl, fl, outer) && A() == G.FreeExp(old(A()), G.Exp(x.k, {}, {})) && Shape.OnlyRegs(old(A()), A())
      ensures forall y: G.Exp | y.k == x.k :: A() == G.FreeExp(old(A()), y)
    {
      ghost var fs, y := A(), E(e, tl, fl);
      if x.k.KReg? {
        if x.k.r >= nactvar {
          freereg := freereg - 1;
        }
      }
      Shape.OnlyRegsShape(fs, A(), y);
      hide Shape.Good, Shape.Step;
      NowInHand(fs, y, e, tl, fl, outer);
    }

    /** Giving the pending instruction its destination. */
    method SetDestination(e: ExpDesc, reg: nat, ghost tl: seq<nat>, ghost fl: seq<nat>, ghost outer: set<nat>) returns (e': ExpDesc)
      requires InHand(e, tl, fl, outer) && e.k.KReloc?
      modifies this`code
      ensures InHand(e', tl, fl, outer) && e' == e.(k := G.KReg(reg)) && Kept(old(code), outer)
      ensures A() == old(A()).(code := G.LastSetA(old(A()).code, reg))
    {
      ghost var fs, x, c := A(), E(e, tl, fl), code;
      Shape.RelocShape(fs, x, reg);
      assert fs.code[|code| - 1].GetUpval? || fs.code[|code| - 1].Not?;
      assert |code| - 1 !in open;
      hide Shape.Good, Shape.Step;
      var i := code[e.info];
      code := code[e.info := if i.GetUpval? then GetUpval(reg, i.u) else Not(reg, i.b)];
      assert A().code == G.LastSetA(fs.code, reg);
      e' := e.(k := G.KReg(reg));
      ghost var kept := open;
      assert Kept(c, kept);
      LinkedKept(c, jpc, waiting, kept);
      StillHolds(c, e, tl, fl, kept, e');
      NowInHand(fs, x, e', tl, fl, outer);
    }

    /** `discharge2reg` */
    method Discharge2Reg(e: ExpDesc, reg: nat, ghost tl: seq<nat>, ghost fl: seq<nat>, ghost outer: set<nat>) returns (e': ExpDesc)
      requires InHand(e, tl, fl, outer)
      modifies this`code, this`jpc, this`open, this`waiting
      ensures InHand(e', tl, fl, outer) && e'.t == e.t && e'.f == e.f && Kept(old(code), outer)
      ensures G.Discharge2Reg(old(A()), E(e, tl, fl), reg) == G.Gen(A(), E(e', tl, fl))
    {
      hide G.Patch, Plainly, Chain, Shape.Step, Shape.Good, InHand, G.DischargeVars;
      InHandGood(e, tl, fl, outer);
      Shape.DischargeVarsShape(A(), E(e, tl, fl));
      var g := DischargeVars(e, tl, fl, outer);
      hide G.Code, G.LastSetA;
      ghost var c := code;
      match g.k
      case KTrue => e' := CodeFor(LoadBool(reg, true, false), g, G.KReg(reg), tl, fl, outer);
      case KFalse => e' := CodeFor(LoadBool(reg, false, false), g, G.KReg(reg), tl, fl, outer);
      case KNum(n) => e' := CodeFor(LoadK(reg, Num(n)), g, G.KReg(reg), tl, fl, outer);
      case KReloc => e' := SetDestination(g, reg, tl, fl, outer);
      case KReg(r) =>
        if reg != r {
          e' := CodeFor(Move(reg, r), g, G.KReg(reg), tl, fl, outer);
        } else {
          e' := g;
        }
      case _ => e' := g;
    }

    lemma InHandGood(e: ExpDesc, tl: seq<nat>, fl: seq<nat>, outer: set<nat>)
      requires InHand(e, tl, fl, outer)
      ensures Shape.Good(A(), E(e, tl, fl)) && Valid() && Holds(e, tl, fl) && Free(E(e, tl, fl), outer)
    {
      hide Shape.Good;
    }

    // ---------- closing the lists ----------

    lemma PlainlyValues(list: set<nat>)
      requires Valid()
      ensures G.NeedValue(A().code, list) == G.NeedValue(code, list)
      ensures forall j :: G.HasValue(A().code, j) == G.HasValue(code, j)
    {
      assert forall j :: G.HasValue(A().code, j) == G.HasValue(code, j);
    }

    /** `luaK_patchtohere` */
    method PatchToHere(list: int, ghost l: seq<nat>, ghost outer: set<nat>)
      requires Valid() && Linked(list, l) && Elems(l) !! Elems(waiting) && outer <= open && outer !! Elems(waiting)
      modifies this`code, this`jpc, this`waiting
      ensures Valid() && waiting == old(waiting) + l && |code| == |old(code)| && Kept(old(code), outer)
      ensures A() == old(A()).(jpc := old(A()).jpc + Elems(l))
    {
      ElemsConcat(waiting, l);
      ghost var w := waiting;
      ChainJumps(code, jpc, waiting);
      assert forall j | j in waiting :: j in Elems(waiting);
      jpc := Concat(jpc, list, waiting, l);
      waiting := waiting + l;
    }

    /** `patchlistaux` on two lists, whose jumps are then no longer pending. */
    method PatchBoth(t: int, f: int, final: nat, reg: nat, pt: int, pf: int, ghost tl: seq<nat>, ghost fl: seq<nat>, ghost outer: set<nat>)
      requires Valid() && Linked(t, tl) && Linked(f, fl) && Elems(tl) !! Elems(fl)
      requires Elems(waiting) !! Elems(tl) + Elems(fl) && outer <= open && outer !! Elems(tl) + Elems(fl)
      modifies this`code, this`open
      ensures Valid() && open == old(open) - Elems(fl) - Elems(tl) && |code| == |old(code)| && Kept(old(code), outer)
      ensures A() == old(A()).(code := G.Patch(G.Patch(old(A()).code, Elems(fl), final, reg, pf), Elems(tl), final, reg, pt))
    {
      hide G.Patch, Chain;
      ghost var c, kept := code, outer + Elems(waiting) + Elems(tl);
      PlainlyPatch(code, open, Elems(fl), final, reg, pf);
      PatchOthers(code, Elems(fl), final, reg, pf);
      PatchListAux(f, final, reg, pf, fl);
      open := open - Elems(fl);
      assert Kept(c, kept);
      LinkedKept(c, t, tl, kept);
      LinkedKept(c, jpc, waiting, kept);
      ghost var d := code;
      PlainlyPatch(code, open, Elems(tl), final, reg, pt);
      PatchOthers(code, Elems(tl), final, reg, pt);
      PatchListAux(t, final, reg, pt, tl);
      open := open - Elems(tl);
      assert Kept(d, outer + Elems(waiting));
      LinkedKept(d, jpc, waiting, outer + Elems(waiting));
    }

    /** `code_label` for the two loads of booleans. */
    method CodeLoads(reg: nat, ghost outer: set<nat>) returns (pf: nat, pt: nat)
      requires Valid() && outer <= open && outer !! Elems(waiting)
      modifies this`code, this`jpc, this`open, this`waiting
      ensures Valid() && waiting == [] && Kept(old(code), outer) && pf == |code| - 2 && pt == |code| - 1
      ensures A() == G.Code(G.Code(old(A()), LoadBool(reg, false, true)), LoadBool(reg, true, false))
      ensures open == old(open) - Elems(old(waiting))
    {
      hide G.Patch, Chain, Plainly;
      pf := Code(LoadBool(reg, false, true), outer);
      pt := Code(LoadBool(reg, true, false), outer);
    }

    /** The lists of the value to be stored, ready to be closed. */
    ghost predicate Closing(t: int, f: int, tl: seq<nat>, fl: seq<nat>, outer: set<nat>)
      reads this
    {
      && Valid() && Linked(t, tl) && Linked(f, fl) && Elems(tl) !! Elems(fl)
      && Elems(waiting) !! Elems(tl) + Elems(fl) && outer <= open && outer !! Elems(waiting) + Elems(tl) + Elems(fl)
    }

    lemma StillClosing(c: seq<Instr>, t: int, f: int, tl: seq<nat>, fl: seq<nat>, outer: set<nat>, kept: set<nat>)
      requires Valid() && Chain(c, t, tl) && Distinct(tl) && Chain(c, f, fl) && Distinct(fl) && Elems(tl) !! Elems(fl)
      requires kept == outer + Elems(tl) + Elems(fl) && Kept(c, kept) && outer !! Elems(tl) + Elems(fl)
      requires kept !! Elems(waiting)
      ensures Closing(t, f, tl, fl, outer)
    {
      LinkedKept(c, t, tl, kept);
      LinkedKept(c, f, fl, kept);
    }

    /** The loads of the booleans, after a jump around them unless the expression is itself a jump. */
    method CodeLabels(isJmp: bool, reg: nat, t: int, f: int, ghost tl: seq<nat>, ghost fl: seq<nat>, ghost outer: set<nat>)
      returns (pf: nat, pt: nat)
      requires Closing(t, f, tl, fl, outer)
      modifies this`code, this`jpc, this`open, this`waiting
      ensures Closing(t, f, tl, fl, outer) && Kept(old(code), outer) && pf == |code| - 2 && pt == |code| - 1
      ensures var j := if isJmp then G.Jumped(old(A()), {}) else G.Jump(old(A()));
        var g := G.Code(G.Code(j.fs, LoadBool(reg, false, true)), LoadBool(reg, true, false));
        A() == g.(jpc := j.list)
    {
      hide G.Patch, Chain, Plainly, G.Code, G.Jump;
      ghost var c, kept := code, outer + Elems(tl) + Elems(fl);
      var fj := NO_JUMP;
      ghost var l: seq<nat> := [];
      if !isJmp {
        fj, l := Jump(kept);
        StillClosing(c, t, f, tl, fl, outer, kept);
        JumpElems(c, l);
      }
      assert Linked(fj, l) by { LinkedNone(); }
      assert kept !! Elems(l);
      ghost var d := code;
      pf, pt := CodeLoads(reg, kept + Elems(l));
      LinkedKept(d, fj, l, kept + Elems(l));
      assert Kept(d, kept);
      StillClosing(d, t, f, tl, fl, outer, kept);
      ghost var b := code;
      PatchToHere(fj, l, kept);
      StillClosing(b, t, f, tl, fl, outer, kept);
    }

    lemma LinkedNone()
      ensures Linked(NO_JUMP, [])
    {
    }

    lemma JumpElems(c: seq<Instr>, l: seq<nat>)
      requires l != [] && l[0] == |c|
      ensures Elems(l) == {|c|} + Elems(l[1..])
    {
      assert l == [l[0]] + l[1..];
      ElemsConcat([l[0]], l[1..]);
    }

    /** The second half of `exp2reg`. */
    method CloseLists(isJmp: bool, t: int, f: int, reg: nat, ghost tl: seq<nat>, ghost fl: seq<nat>, ghost outer: set<nat>)
      requires Closing(t, f, tl, fl, outer)
      modifies this`code, this`jpc, this`open, this`waiting
      ensures Valid() && outer <= open && Kept(old(code), outer)
      ensures A() == G.CloseLists(old(A()), isJmp, Elems(tl), Elems(fl), reg)
    {
      hide G.Patch, Chain, G.Code, G.Jump, G.NeedValue;
      ghost var fs := A();
      PlainlyValues(Elems(tl));
      PlainlyValues(Elems(fl));
      var need := NeedValue(t, tl);
      if !need {
        need := NeedValue(f, fl);
      }
      hide Plainly;
      var pf, pt := NO_JUMP, NO_JUMP;
      if need {
        pf, pt := CodeLabels(isJmp, reg, t, f, tl, fl, outer);
      }
      var final := |code|;
      PatchBoth(t, f, final, reg, pt, pf, tl, fl, outer);
    }

    lemma HeadsEqual(t: int, f: int, tl: seq<nat>, fl: seq<nat>)
      requires Linked(t, tl) && Linked(f, fl) && Elems(tl) !! Elems(fl)
      ensures t == f <==> Elems(tl) + Elems(fl) == {}
    {
      assert tl != [] ==> tl[0] == t && tl[0] in Elems(tl) && tl[0] in Elems(tl) + Elems(fl);
      assert fl != [] ==> fl[0] == f && fl[0] in Elems(fl) && fl[0] in Elems(tl) + Elems(fl);
    }

    /** The list of exits when true, with the jump of a comparison in hand. */
    method WithJump(e: ExpDesc, ghost tl: seq<nat>, ghost fl: seq<nat>, ghost outer: set<nat>) returns (t: int, ghost l: seq<nat>)
      requires InHand(e, tl, fl, outer)
      modifies this`code
      ensures Closing(t, e.f, l, fl, outer) && Kept(old(code), outer) && A() == old(A())
      ensures Elems(l) == if e.k.KJmp? && |A().code| > 0 then Elems(tl) + {|A().code| - 1} else Elems(tl)
    {
      ghost var c := code;
      Separation(e, tl, fl, outer);
      hide Shape.Good;
      if e.k.KJmp? {
        ElemsConcat(tl, [e.info]);
        assert Elems([e.info]) == {e.info};
        ghost var kept := outer + Elems(fl) + Elems(waiting);
        assert forall j | j in tl :: j in Elems(tl);
        OpenJumps(kept);
        t := Concat(e.t, e.info, tl, [e.info]);
        l := tl + [e.info];
        hide Chain;
        assert Kept(c, kept);
        LinkedKept(c, e.f, fl, kept);
        LinkedKept(c, jpc, waiting, kept);
      } else {
        t, l := e.t, tl;
      }
    }

    lemma OpenJumps(list: set<nat>)
      requires Valid() && list <= open
      ensures forall j | j in list :: j < |code|
    {
    }

    lemma Separation(e: ExpDesc, tl: seq<nat>, fl: seq<nat>, outer: set<nat>)
      requires InHand(e, tl, fl, outer)
      ensures Elems(tl) !! Elems(fl) && Elems(waiting) !! Elems(tl) + Elems(fl) && outer !! Elems(waiting) + Elems(tl) + Elems(fl)
      ensures e.k.KJmp? ==> e.info >= 0 && e.info !in Elems(tl) + Elems(fl) + Elems(waiting) + outer && e.info == |code| - 1
    {
      var fs, x := A(), E(e, tl, fl);
      assert forall j | j in fs.jpc + Shape.Lists(x) :: LCodeRun.Open(Shape.Body(fs, x), j);
      assert forall j | j in fs.jpc + Shape.Lists(x) :: j < Shape.BodyLen(fs, x);
    }

    /** `exp2reg` */
    method Exp2Reg(e: ExpDesc, reg: nat, ghost tl: seq<nat>, ghost fl: seq<nat>, ghost outer: set<nat>) returns (e': ExpDesc)
      requires InHand(e, tl, fl, outer)
      modifies this`code, this`jpc, this`open, this`waiting
      ensures InHand(e', [], [], outer) && e' == ExpDesc(G.KReg(reg), reg, NO_JUMP, NO_JUMP) && Kept(old(code), outer)
      ensures G.Exp2Reg(old(A()), E(e, tl, fl), reg) == G.Gen(A(), E(e', [], []))
    {
      hide G.Patch, Chain, Plainly, Shape.Good, Shape.Step, G.CloseLists, G.Discharge2Reg, InHand;
      ghost var fs, x := A(), E(e, tl, fl);
      InHandGood(e, tl, fl, outer);
      Shape.Exp2RegShape(fs, x, reg);
      var g := Discharge2Reg(e, reg, tl, fl, outer);
      InHandGood(g, tl, fl, outer);
      ghost var c := code;
      var t, l := WithJump(g, tl, fl, outer);
      HeadsEqual(t, g.f, l, fl);
      ghost var d := code;
      if t != g.f {
        CloseLists(g.k.KJmp?, t, g.f, reg, l, fl, outer);
      }
      e' := ExpDesc(G.KReg(reg), reg, NO_JUMP, NO_JUMP);
      assert Elems([]) == {};
      LinkedNone();
      NowInHand(fs, x, e', [], [], outer);
    }

    // ---------- values in registers ----------

    /** The rest of `luaK_exp2nextreg`, on a value that is not a variable. */
    method ToReg(e: ExpDesc, ghost base: nat, ghost tl: seq<nat>, ghost fl: seq<nat>, ghost outer: set<nat>) returns (e': ExpDesc)
      requires InHand(e, tl, fl, outer) && Shape.RegsOk(A(), E(e, tl, fl), base) && !e.k.KLocal? && !e.k.KUpval?
      modifies this`code, this`jpc, this`open, this`waiting, this`freereg, this`fits
      ensures InHand(e', [], [], outer) && Shape.RegsOk(A(), E(e', [], []), base) && Kept(old(code), outer)
      ensures e' == ExpDesc(G.KReg(base), base, NO_JUMP, NO_JUMP)
      ensures var fs1 := G.FreeExp(old(A()), E(e, tl, fl));
        G.Exp2Reg(G.ReserveReg(fs1), E(e, tl, fl), fs1.freereg) == G.Gen(A(), E(e', [], []))
    {
      hide G.Patch, Chain, Plainly, Shape.Good, Shape.Step, G.Exp2Reg, InHand;
      ghost var fs, x := A(), E(e, tl, fl);
      InHandGood(e, tl, fl, outer);
      Shape.ToRegShape(fs, x, base);
      FreeExp(e, e, tl, fl, outer);
      assert A() == G.FreeExp(fs, x);
      ReserveReg(e, tl, fl, outer);
      e' := Exp2Reg(e, freereg - 1, tl, fl, outer);
    }

    /** `luaK_exp2nextreg` */
    method Exp2NextReg(e: ExpDesc, ghost base: nat, ghost tl: seq<nat>, ghost fl: seq<nat>, ghost outer: set<nat>) returns (e': ExpDesc)
      requires InHand(e, tl, fl, outer) && Shape.RegsOk(A(), E(e, tl, fl), base)
      modifies this`code, this`jpc, this`open, this`waiting, this`freereg, this`fits
      ensures InHand(e', [], [], outer) && Shape.RegsOk(A(), E(e', [], []), base) && Kept(old(code), outer)
      ensures e' == ExpDesc(G.KReg(base), base, NO_JUMP, NO_JUMP)
      ensures G.Exp2NextReg(old(A()), E(e, tl, fl)) == G.Gen(A(), E(e', [], []))
    {
      hide G.Patch, Chain, Plainly, Shape.Good, Shape.Step, G.Exp2Reg, InHand, G.DischargeVars;
      InHandGood(e, tl, fl, outer);
      Shape.DischargeVarsShape(A(), E(e, tl, fl));
      var g := DischargeVars(e, tl, fl, outer);
      ghost var c := code;
      e' := ToReg(g, base, tl, fl, outer);
    }

    /** `luaK_exp2anyreg` */
    method Exp2AnyReg(e: ExpDesc, ghost base: nat, ghost tl: seq<nat>, ghost fl: seq<nat>, ghost outer: set<nat>) returns (e': ExpDesc)
      requires InHand(e, tl, fl, outer) && Shape.RegsOk(A(), E(e, tl, fl), base)
      modifies this`code, this`jpc, this`open, this`waiting, this`freereg, this`fits
      ensures InHand(e', [], [], outer) && Shape.RegsOk(A(), E(e', [], []), base) && Kept(old(code), outer)
      ensures e'.k.KReg? && e'.t == e'.f == NO_JUMP
      ensures G.Exp2AnyReg(old(A()), E(e, tl, fl)) == G.Gen(A(), E(e', [], []))
    {
      hide G.Patch, Chain, Plainly, Shape.Good, Shape.Step, G.Exp2Reg, InHand, G.DischargeVars;
      InHandGood(e, tl, fl, outer);
      ghost var fs := A();
      Shape.DischargeVarsShape(fs, E(e, tl, fl));
      Shape.Exp2AnyRegShape(fs, E(e, tl, fl), base);
      var g := DischargeVars(e, tl, fl, outer);
      InHandGood(g, tl, fl, outer);
      Separation(g, tl, fl, outer);
      HeadsEqual(g.t, g.f, tl, fl);
      Shape.ReDischarge(A(), E(g, tl, fl));
      ghost var c := code;
      if g.k.KReg? && g.t == g.f {
        e' := g;
        NothingLinked(g, tl, fl);
      } else if g.k.KReg? && g.k.r >= nactvar {
        e' := Exp2Reg(g, g.k.r, tl, fl, outer);
      } else {
        e' := Exp2NextReg(g, base, tl, fl, outer);
      }
    }

    lemma NothingLinked(e: ExpDesc, tl: seq<nat>, fl: seq<nat>)
      requires Holds(e, tl, fl) && Elems(tl) + Elems(fl) == {}
      ensures tl == [] && fl == [] && e.t == NO_JUMP && e.f == NO_JUMP
    {
      NoElems(tl, Elems(fl));
      NoElems(fl, Elems(tl));
      assert Elems(fl) + Elems(tl) == {};
    }

    static lemma NoElems(l: seq<nat>, more: set<nat>)
      requires Elems(l) + more == {}
      ensures l == []
    {
      SomeElem(l, more);
    }

    static lemma SomeElem(l: seq<nat>, more: set<nat>)
      ensures l != [] ==> l[0] in Elems(l) + more
    {
    }

    /** `luaK_exp2val` */
    method Exp2Val(e: ExpDesc, ghost base: nat, ghost tl: seq<nat>, ghost fl: seq<nat>, ghost outer: set<nat>) returns (e': ExpDesc)
      requires InHand(e, tl, fl, outer) && Shape.RegsOk(A(), E(e, tl, fl), base)
      modifies this`code, this`jpc, this`open, this`waiting, this`freereg, this`fits
      ensures InHand(e', [], [], outer) && Shape.RegsOk(A(), E(e', [], []), base) && Kept(old(code), outer)
      ensures e'.t == e'.f == NO_JUMP
      ensures G.Exp2Val(old(A()), E(e, tl, fl)) == G.Gen(A(), E(e', [], []))
    {
      hide G.Patch, Chain, Plainly, Shape.Good, Shape.Step, G.Exp2AnyReg, InHand, G.DischargeVars;
      InHandGood(e, tl, fl, outer);
      Separation(e, tl, fl, outer);
      HeadsEqual(e.t, e.f, tl, fl);
      Shape.DischargeVarsShape(A(), E(e, tl, fl));
      if e.t != e.f {
        e' := Exp2AnyReg(e, base, tl, fl, outer);
      } else {
        NothingLinked(e, tl, fl);
        e' := DischargeVars(e, tl, fl, outer);
      }
    }

    /** `luaK_exp2RK` */
    method Exp2RK(e: ExpDesc, ghost base: nat, ghost tl: seq<nat>, ghost fl: seq<nat>, ghost outer: set<nat>) returns (e': ExpDesc, o: RK)
      requires InHand(e, tl, fl, outer) && Shape.RegsOk(A(), E(e, tl, fl), base)
      modifies this`code, this`jpc, this`open, this`waiting, this`freereg, this`fits
      ensures InHand(e', [], [], outer) && Shape.RegsOk(A(), E(e', [], []), base) && Kept(old(code), outer)
      ensures e'.t == e'.f == NO_JUMP
      ensures G.Exp2RK(old(A()), E(e, tl, fl)) == G.Operanded(A(), E(e', [], []), o)
    {
      hide G.Patch, Chain, Plainly, Shape.Good, Shape.Step, G.Exp2AnyReg, G.Exp2Val, InHand;
      InHandGood(e, tl, fl, outer);
      Shape.Exp2ValShape(A(), E(e, tl, fl), base);
      var g := Exp2Val(e, base, tl, fl, outer);
      ghost var c := code;
      if g.k.KNum? {
        e', o := g, Const(Num(g.k.n));
      } else if g.k.KTrue? || g.k.KFalse? {
        e', o := g, Const(Bool(g.k.KTrue?));
      } else {
        e' := Exp2AnyReg(g, base, [], [], outer);
        o := Reg(e'.k.r);
      }
    }

    /** `discharge2anyreg` */
    method Discharge2AnyReg(e: ExpDesc, ghost base: nat, ghost tl: seq<nat>, ghost fl: seq<nat>, ghost outer: set<nat>) returns (e': ExpDesc)
      requires InHand(e, tl, fl, outer) && Shape.RegsOk(A(), E(e, tl, fl), base)
      requires !e.k.KLocal? && !e.k.KUpval? && !e.k.KJmp?
      modifies this`code, this`jpc, this`open, this`waiting, this`freereg, this`fits
      ensures InHand(e', tl, fl, outer) && Shape.RegsOk(A(), E(e', tl, fl), base) && Kept(old(code), outer)
      ensures e'.k.KReg? && e'.t == e.t && e'.f == e.f
      ensures G.Discharge2AnyReg(old(A()), E(e, tl, fl)) == G.Gen(A(), E(e', tl, fl))
    {
      hide G.Patch, Chain, Plainly, Shape.Good, Shape.Step, G.Discharge2Reg, InHand;
      InHandGood(e, tl, fl, outer);
      Shape.Discharge2AnyRegShape(A(), E(e, tl, fl), base);
      e' := e;
      if !e.k.KReg? {
        ReserveReg(e, tl, fl, outer);
        e' := Discharge2Reg(e, freereg - 1, tl, fl, outer);
      }
    }

    // ---------- conditions ----------

    /** `condjump`: a test and its jump, which is a list of its own. */
    method CondJump(i: Instr, ghost outer: set<nat>) returns (pc: nat)
      requires Valid() && IsTest(i) && outer <= open && outer !! Elems(waiting)
      modifies this`code, this`jpc, this`open, this`waiting
      ensures Valid() && waiting == [] && Kept(old(code), outer)
      ensures G.CondJump(old(A()), i) == G.Jumped(A(), {pc}) && pc == |code| - 1 && pc == |old(code)| + 1
      ensures Linked(pc, [pc]) && pc in open && pc !in outer
    {
      hide G.Patch, Chain, Plainly, G.Code, G.Jump;
      var at := Code(i, outer);
      assert |code| !in outer by { OpenJumps(outer); }
      ghost var c := code;
      var head, l := Jump(outer);
      assert l == [|c|];
      assert Elems(l) == {|c|};
      pc := |code| - 1;
      ChainHead(code, head, l);
    }

    static lemma ChainHead(c: seq<Instr>, head: int, l: seq<nat>)
      requires Chain(c, head, l) && l != []
      ensures head == l[0]
    {
    }

    /** `invertjump` */
    method InvertJump(e: ExpDesc, ghost tl: seq<nat>, ghost fl: seq<nat>, ghost outer: set<nat>)
      requires InHand(e, tl, fl, outer) && e.k.KJmp?
      modifies this`code
      ensures InHand(e, tl, fl, outer) && Kept(old(code), outer) && A() == G.InvertJump(old(A()))
    {
      ghost var fs, x, c := A(), E(e, tl, fl), code;
      Shape.InvertShape(fs, x);
      assert fs.code[|code| - 2].Compare? && |code| - 2 !in open;
      hide Shape.Good, Shape.Step;
      var at := GetJumpControl(e.info);
      code := code[at := code[at].(cond := !code[at].cond)];
      assert A().code == G.InvertJump(fs).code;
      assert Kept(c, open);
      hide Plainly, Chain;
      assert Elems([e.info]) <= open;
      LinkedKept(c, jpc, waiting, open);
      LinkedKept(c, e.t, tl, open);
      LinkedKept(c, e.f, fl, open);
      LinkedKept(c, e.info, [e.info], open);
      NowInHand(fs, x, e, tl, fl, outer);
    }

    /** The lists of `e` and a new list are apart from each other, from `jpc` and from enclosing lists. */
    ghost predicate Forked(e: ExpDesc, tl: seq<nat>, fl: seq<nat>, head: int, l: seq<nat>, outer: set<nat>)
      reads this
    {
      && Valid() && Linked(e.t, tl) && Linked(e.f, fl) && Linked(head, l) && outer <= open
      && Elems(l) !! Elems(tl) + Elems(fl) + Elems(waiting) + outer
      && Elems(tl) !! Elems(fl) && Elems(waiting) !! Elems(tl) + Elems(fl)
      && outer !! Elems(waiting) + Elems(tl) + Elems(fl)
    }

    /** A test for the expression in hand. */
    method TestFor(i: Instr, e: ExpDesc, ghost tl: seq<nat>, ghost fl: seq<nat>, ghost outer: set<nat>) returns (pc: nat)
      requires Valid() && IsTest(i) && Linked(e.t, tl) && Linked(e.f, fl) && outer <= open
      requires Elems(tl) !! Elems(fl) && Elems(waiting) !! Elems(tl) + Elems(fl) && outer !! Elems(waiting) + Elems(tl) + Elems(fl)
      modifies this`code, this`jpc, this`open, this`waiting
      ensures Forked(e, tl, fl, pc, [pc], outer) && Kept(old(code), outer)
      ensures G.CondJump(old(A()), i) == G.Jumped(A(), Elems([pc]))
    {
      hide G.Patch, Chain, Plainly, G.CondJump;
      ghost var c, kept := code, outer + Elems(tl) + Elems(fl);
      pc := CondJump(i, kept);
      LinkedKept(c, e.t, tl, kept);
      LinkedKept(c, e.f, fl, kept);
      assert Elems([pc]) == {pc};
    }

    /** `fs->pc--`: dropping the `not` in hand. */
    method DropNot(e: ExpDesc, ghost tl: seq<nat>, ghost fl: seq<nat>, ghost outer: set<nat>)
      requires InHand(e, tl, fl, outer) && e.k.KReloc?
      modifies this`code
      ensures Valid() && Linked(e.t, tl) && Linked(e.f, fl) && Kept(old(code), outer)
      ensures old(A()).code != [] && A() == old(A()).(code := old(A()).code[..|old(code)| - 1])
    {
      ghost var fs, x, c := A(), E(e, tl, fl), code;
      assert Shape.PendingOk(fs, x) && |code| - 1 !in open;
      Separation(e, tl, fl, outer);
      Shape.OpenInside(Shape.Body(fs, x), fs.jpc + Shape.Lists(x));
      ghost var kept := outer + Elems(tl) + Elems(fl);
      assert forall j | j in kept :: j < |code| - 1;
      hide Shape.Good;
      code := code[..|code| - 1];
      assert A().code == fs.code[..|c| - 1];
      assert waiting == [] by { SomeElem(waiting, {}); }
      LinkedKept(c, e.t, tl, kept);
      LinkedKept(c, e.f, fl, kept);
    }

    /** `jumponcond` */
    method JumpOnCond(e: ExpDesc, cond: bool, ghost base: nat, ghost tl: seq<nat>, ghost fl: seq<nat>, ghost outer: set<nat>) returns (pc: nat)
      requires InHand(e, tl, fl, outer) && Shape.RegsOk(A(), E(e, tl, fl), base)
      requires !e.k.KLocal? && !e.k.KUpval? && !e.k.KJmp?
      modifies this`code, this`jpc, this`open, this`waiting, this`freereg, this`fits
      ensures Forked(e, tl, fl, pc, [pc], outer) && Kept(old(code), outer)
      ensures G.JumpOnCond(old(A()), E(e, tl, fl), cond) == G.Jumped(A(), Elems([pc]))
    {
      hide G.Patch, Chain, Shape.Good, Shape.Step, G.CondJump, G.Discharge2AnyReg, InHand;
      InHandGood(e, tl, fl, outer);
      Separation(e, tl, fl, outer);
      PendingPlain(e, tl, fl, outer);
      hide Plainly;
      if e.k.KReloc? && code[e.info].Not? {
        var b := code[e.info].b;
        ghost var c := code;
        DropNot(e, tl, fl, outer);
        pc := TestFor(Test(b, !cond), e, tl, fl, outer);
      } else {
        var g := Discharge2AnyReg(e, base, tl, fl, outer);
        InHandGood(g, tl, fl, outer);
        FreeExp(g, g, tl, fl, outer);
        InHandGood(g, tl, fl, outer);
        Separation(g, tl, fl, outer);
        pc := TestFor(TestSet(NO_REG, g.k.r, cond), g, tl, fl, outer);
      }
    }

    /** The pending instruction is the same in both views of the code. */
    lemma PendingPlain(e: ExpDesc, tl: seq<nat>, fl: seq<nat>, outer: set<nat>)
      requires InHand(e, tl, fl, outer)
      ensures e.k.KReloc? ==> 0 <= e.info == |code| - 1 && A().code[e.info] == code[e.info]
    {
    }

    /** The unconditional jump of `luaK_goiftrue` and `luaK_goiffalse`. */
    method AlwaysJump(e: ExpDesc, ghost tl: seq<nat>, ghost fl: seq<nat>, ghost outer: set<nat>) returns (head: int, ghost l: seq<nat>)
      requires InHand(e, tl, fl, outer)
      modifies this`code, this`jpc, this`open, this`waiting
      ensures Forked(e, tl, fl, head, l, outer) && Kept(old(code), outer)
      ensures G.Jump(old(A())) == G.Jumped(A(), Elems(l))
    {
      hide G.Patch, Chain, Shape.Good, G.Jump;
      Separation(e, tl, fl, outer);
      ghost var fs, c, kept, w := A(), code, outer + Elems(tl) + Elems(fl), waiting;
      PlainlyValues(Elems(waiting));
      hide Plainly;
      OpenJumps(kept);
      head, l := Jump(kept);
      ElemsConcat([|c|], w);
      assert Elems([|c|]) == {|c|};
      LinkedKept(c, e.t, tl, kept);
      LinkedKept(c, e.f, fl, kept);
    }

    /** The new jump, if any, of `luaK_goiftrue` (`stay`) and `luaK_goiffalse`. */
    method ConditionalJump(e: ExpDesc, stay: bool, ghost base: nat, ghost tl: seq<nat>, ghost fl: seq<nat>, ghost outer: set<nat>)
      returns (head: int, ghost l: seq<nat>)
      requires InHand(e, tl, fl, outer) && Shape.RegsOk(A(), E(e, tl, fl), base) && !e.k.KLocal? && !e.k.KUpval?
      modifies this`code, this`jpc, this`open, this`waiting, this`freereg, this`fits
      ensures Forked(e, tl, fl, head, l, outer) && Kept(old(code), outer)
      ensures G.ConditionalJump(old(A()), E(e, tl, fl), stay) == G.Jumped(A(), Elems(l))
    {
      hide G.Patch, Chain, Plainly, Shape.Good, G.Jump, G.JumpOnCond, G.InvertJump;
      Separation(e, tl, fl, outer);
      assert Elems([]) == {};
      LinkedNone();
      if ((e.k.KTrue? || e.k.KNum?) && stay) || (e.k.KFalse? && !stay) {
        head, l := NO_JUMP, [];
      } else if e.k.KTrue? || e.k.KFalse? {
        head, l := AlwaysJump(e, tl, fl, outer);
      } else if e.k.KJmp? {
        if stay {
          InvertJump(e, tl, fl, outer);
        }
        head, l := e.info, [e.info];
        assert Elems([e.info]) == {e.info};
      } else {
        head := JumpOnCond(e, if e.k.KNum? then true else !stay, base, tl, fl, outer);
        l := [head];
      }
    }

    /** After `luaK_goiftrue` or `luaK_goiffalse`: the list of exits is `fl`, and no expression is in hand. */
    ghost predicate Gone(head: int, l: seq<nat>, outer: set<nat>)
      reads this
    {
      && InHand(ExpDesc(G.KTrue, 0, NO_JUMP, NO_JUMP), [], [], outer + Elems(l))
      && Linked(head, l) && outer !! Elems(l)
    }

    lemma NowGone(fs: G.Func, x: G.Exp, stay: bool, base: nat, head: int, l: seq<nat>, outer: set<nat>)
      requires Shape.Good(fs, x) && Shape.RegsOk(fs, x, base)
      requires G.GoIf(fs, x, stay) == G.Jumped(A(), Elems(l))
      requires Valid() && Linked(head, l) && outer <= open && outer !! Elems(waiting) + Elems(l)
      requires Elems(waiting) !! Elems(l)
      ensures Gone(head, l, outer) && Shape.RegsOk(A(), G.NONE, base)
    {
      Shape.GoIfShape(fs, x, stay, base);
      hide Shape.Good, G.GoIf, Chain, Plainly;
      LinkedNone();
      assert Elems([]) == {};
      assert E(ExpDesc(G.KTrue, 0, NO_JUMP, NO_JUMP), [], []) == G.NONE;
      OpenJumps(outer + Elems(l));
    }

    /** `luaK_goiftrue`: what follows runs when the expression is true; the other jumps stay in the `f` list. */
    method GoIfTrue(e: ExpDesc, ghost base: nat, ghost tl: seq<nat>, ghost fl: seq<nat>, ghost outer: set<nat>)
      returns (f: int, ghost l: seq<nat>)
      requires InHand(e, tl, fl, outer) && Shape.RegsOk(A(), E(e, tl, fl), base)
      modifies this`code, this`jpc, this`open, this`waiting, this`freereg, this`fits
      ensures Gone(f, l, outer) && Shape.RegsOk(A(), G.NONE, base) && Kept(old(code), outer)
      ensures G.GoIf(old(A()), E(e, tl, fl), true) == G.Jumped(A(), Elems(l))
    {
      hide G.Patch, Chain, Plainly, Shape.Good, Shape.Step, G.ConditionalJump, G.DischargeVars, InHand;
      InHandGood(e, tl, fl, outer);
      ghost var fs, x := A(), E(e, tl, fl);
      Shape.DischargeVarsShape(fs, x);
      var g := DischargeVars(e, tl, fl, outer);
      var pc, j := ConditionalJump(g, true, base, tl, fl, outer);
      f, l := Leave(g.f, pc, g.t, fl, j, tl, outer);
      NowGone(fs, x, true, base, f, l, outer);
    }

    /** `luaK_goiffalse`: what follows runs when the expression is false; the other jumps stay in the `t` list. */
    method GoIfFalse(e: ExpDesc, ghost base: nat, ghost tl: seq<nat>, ghost fl: seq<nat>, ghost outer: set<nat>)
      returns (t: int, ghost l: seq<nat>)
      requires InHand(e, tl, fl, outer) && Shape.RegsOk(A(), E(e, tl, fl), base)
      modifies this`code, this`jpc, this`open, this`waiting, this`freereg, this`fits
      ensures Gone(t, l, outer) && Shape.RegsOk(A(), G.NONE, base) && Kept(old(code), outer)
      ensures G.GoIf(old(A()), E(e, tl, fl), false) == G.Jumped(A(), Elems(l))
    {
      hide G.Patch, Chain, Plainly, Shape.Good, Shape.Step, G.ConditionalJump, G.DischargeVars, InHand;
      InHandGood(e, tl, fl, outer);
      ghost var fs, x := A(), E(e, tl, fl);
      Shape.DischargeVarsShape(fs, x);
      var g := DischargeVars(e, tl, fl, outer);
      var pc, j := ConditionalJump(g, false, base, tl, fl, outer);
      t, l := Leave(g.t, pc, g.f, tl, j, fl, outer);
      NowGone(fs, x, false, base, t, l, outer);
    }

    /** The new jump goes to the end of one list, the other list leads to the next instruction. */
    method Leave(stay: int, pc: int, here: int, ghost sl: seq<nat>, ghost j: seq<nat>, ghost hl: seq<nat>, ghost outer: set<nat>)
      returns (head: int, ghost l: seq<nat>)
      requires Valid() && Linked(stay, sl) && Linked(pc, j) && Linked(here, hl) && outer <= open
      requires Elems(j) !! Elems(sl) + Elems(hl) + Elems(waiting) + outer && Elems(sl) !! Elems(hl)
      requires Elems(waiting) !! Elems(sl) + Elems(hl) && outer !! Elems(waiting) + Elems(sl) + Elems(hl)
      modifies this`code, this`jpc, this`waiting
      ensures Valid() && Linked(head, l) && Elems(l) == Elems(sl) + Elems(j) && outer <= open && Kept(old(code), outer)
      ensures A() == old(A()).(jpc := old(A()).jpc + Elems(hl))
      ensures Elems(waiting) == old(Elems(waiting)) + Elems(hl)
    {
      hide Chain, Plainly;
      ghost var c, kept := code, outer + Elems(hl) + Elems(waiting);
      assert forall k | k in sl :: k in Elems(sl);
      OpenJumps(kept);
      head := Concat(stay, pc, sl, j);
      l := sl + j;
      ElemsConcat(sl, j);
      assert Kept(c, kept);
      LinkedKept(c, jpc, waiting, kept);
      LinkedKept(c, here, hl, kept);
      ghost var d := code;
      ElemsConcat(waiting, hl);
      PatchToHere(here, hl, outer + Elems(l));
      LinkedKept(d, head, l, outer + Elems(l));
    }

    // ---------- negation ----------

    /** `codenot` before the lists are exchanged. */
    method Negate(e: ExpDesc, ghost base: nat, ghost tl: seq<nat>, ghost fl: seq<nat>, ghost outer: set<nat>) returns (e': ExpDesc)
      requires InHand(e, tl, fl, outer) && Shape.RegsOk(A(), E(e, tl, fl), base) && !e.k.KLocal? && !e.k.KUpval?
      modifies this`code, this`jpc, this`open, this`waiting, this`freereg, this`fits
      ensures InHand(e', tl, fl, outer) && Kept(old(code), outer)
      ensures Shape.Negated(old(A()), E(e, tl, fl)) == G.Gen(A(), E(e', tl, fl))
    {
      hide G.Patch, Chain, Plainly, Shape.Good, Shape.Step, G.Code, G.Discharge2AnyReg, G.InvertJump, InHand;
      InHandGood(e, tl, fl, outer);
      ghost var fs, x := A(), E(e, tl, fl);
      if e.k.KFalse? {
        e' := e.(k := G.KTrue);
        Shape.LiteralShape(fs, x, G.KTrue);
        NowInHand(fs, x, e', tl, fl, outer);
      } else if e.k.KTrue? || e.k.KNum? {
        e' := e.(k := G.KFalse);
        Shape.LiteralShape(fs, x, G.KFalse);
        NowInHand(fs, x, e', tl, fl, outer);
      } else if e.k.KJmp? {
        InvertJump(e, tl, fl, outer);
        e' := e;
      } else {
        var g := Discharge2AnyReg(e, base, tl, fl, outer);
        InHandGood(g, tl, fl, outer);
        ghost var d := A();
        FreeExp(g, g, tl, fl, outer);
        assert A() == G.FreeExp(d, E(g, tl, fl));
        e' := CodeFor(Not(0, g.k.r), g, G.KReloc, tl, fl, outer);
      }
    }

    /** `removevalues` leaves the lists as they are. */
    method DropValues(list: int, e: ExpDesc, ghost l: seq<nat>, ghost tl: seq<nat>, ghost fl: seq<nat>, ghost outer: set<nat>)
      requires Valid() && Holds(e, tl, fl) && Linked(list, l) && outer <= open
      modifies this`code
      ensures Valid() && Holds(e, tl, fl) && Linked(list, l) && Kept(old(code), outer)
      ensures A() == old(A()).(code := G.RemoveValues(old(A()).code, Elems(l)))
    {
      ghost var c := code;
      PlainlyRemove(code, open, Elems(l));
      RemoveValues(list, l);
      assert Kept(c, open);
      hide Chain, Plainly, G.RemoveValues;
      LinkedKept(c, jpc, waiting, open);
      LinkedKept(c, e.t, tl, open);
      LinkedKept(c, e.f, fl, open);
      LinkedKept(c, list, l, open);
      if e.k.KJmp? {
        LinkedKept(c, e.info, [e.info], open);
      }
    }

    /** `codenot` */
    method CodeNot(e: ExpDesc, ghost base: nat, ghost tl: seq<nat>, ghost fl: seq<nat>, ghost outer: set<nat>) returns (e': ExpDesc)
      requires InHand(e, tl, fl, outer) && Shape.RegsOk(A(), E(e, tl, fl), base)
      modifies this`code, this`jpc, this`open, this`waiting, this`freereg, this`fits
      ensures InHand(e', fl, tl, outer) && Shape.RegsOk(A(), E(e', fl, tl), base) && Kept(old(code), outer)
      ensures G.CodeNot(old(A()), E(e, tl, fl)) == G.Gen(A(), E(e', fl, tl))
    {
      hide G.Patch, Chain, Plainly, Shape.Good, Shape.Step, G.RemoveValues, G.DischargeVars, G.CodeNot, Shape.Negated, InHand;
      InHandGood(e, tl, fl, outer);
      ghost var fs, x := A(), E(e, tl, fl);
      Shape.CodeNotIs(fs, x);
      Shape.CodeNotShape(fs, x, base);
      Shape.DischargeVarsShape(fs, x);
      var g := DischargeVars(e, tl, fl, outer);
      var h := Negate(g, base, tl, fl, outer);
      InHandGood(h, tl, fl, outer);
      ghost var c := code;
      DropValues(h.t, h, tl, tl, fl, outer);
      DropValues(h.f, h, fl, tl, fl, outer);
      e' := h.(t := h.f, f := h.t);
      NowInHand(fs, x, e', fl, tl, outer);
    }

    // ---------- comparisons ----------

    /** `codecomp`, whose first operand has been made ready by `luaK_infix`. */
    method CodeComp(op: CmpOp, cond: bool, e1: ExpDesc, ghost o1: RK, e2: ExpDesc, ghost base: nat, ghost tl: seq<nat>, ghost fl: seq<nat>, ghost outer: set<nat>)
      returns (e': ExpDesc)
      requires InHand(e2, tl, fl, outer) && Shape.IsOperand(A(), E(e1, [], []), o1, base)
      requires Shape.RegsOk(A(), E(e2, tl, fl), Shape.Above(A(), o1, base)) && e1.t == e1.f == NO_JUMP
      modifies this`code, this`jpc, this`open, this`waiting, this`freereg, this`fits
      ensures InHand(e', [], [], outer) && Shape.RegsOk(A(), E(e', [], []), base) && Kept(old(code), outer)
      ensures G.CodeComp(old(A()), op, cond, E(e1, [], []), E(e2, tl, fl)) == G.Gen(A(), E(e', [], []))
    {
      hide G.Patch, Chain, Plainly, Shape.Good, Shape.Step, G.Exp2RK, G.CondJump, InHand;
      InHandGood(e2, tl, fl, outer);
      ghost var fs, x, top := A(), E(e2, tl, fl), Shape.Above(A(), o1, base);
      Shape.OperandAgain(fs, E(e1, [], []), o1, base);
      Shape.CodeCompShape(fs, op, cond, E(e1, [], []), o1, x, base);
      Shape.Exp2RKShape(fs, x, top);
      var p1 := Operand(e1, o1, base);
      var b, p2 := Exp2RK(e2, top, tl, fl, outer);
      Shape.StepVars(fs, x, A(), E(b, [], []));
      ghost var d := A();
      FreeExp(b, b, [], [], outer);
      assert A() == G.FreeExp(d, E(b, [], []));
      FreeExp(e1, b, [], [], outer);
      assert A() == G.FreeExp(G.FreeExp(d, E(b, [], [])), E(e1, [], []));
      InHandGood(b, [], [], outer);
      var i := if !cond && op != OpEq then Compare(op, true, p2, p1) else Compare(op, cond, p1, p2);
      var pc := CondJump(i, outer);
      e' := e1.(k := G.KJmp, info := pc);
      LinkedNone();
      NowInHand(fs, x, e', [], [], outer);
    }

    /** `luaK_exp2RK` on an operand that is ready gives it again. */
    method Operand(e: ExpDesc, ghost o: RK, ghost base: nat) returns (p: RK)
      requires Shape.IsOperand(A(), E(e, [], []), o, base)
      ensures p == o
    {
      match e.k {
        case KNum(n) => p := Const(Num(n));
        case KTrue => p := Const(Bool(true));
        case KFalse => p := Const(Bool(false));
        case KReg(r) => p := Reg(r);
      }
    }

    /** The comparison cases of `luaK_posfix` */
    method CodeRel(op: G.RelOp, e1: ExpDesc, ghost o1: RK, e2: ExpDesc, ghost base: nat, ghost tl: seq<nat>, ghost fl: seq<nat>, ghost outer: set<nat>)
      returns (e': ExpDesc)
      requires InHand(e2, tl, fl, outer) && Shape.IsOperand(A(), E(e1, [], []), o1, base)
      requires Shape.RegsOk(A(), E(e2, tl, fl), Shape.Above(A(), o1, base)) && e1.t == e1.f == NO_JUMP
      modifies this`code, this`jpc, this`open, this`waiting, this`freereg, this`fits
      ensures InHand(e', [], [], outer) && Shape.RegsOk(A(), E(e', [], []), base) && Kept(old(code), outer)
      ensures G.CodeRel(old(A()), op, E(e1, [], []), E(e2, tl, fl)) == G.Gen(A(), E(e', [], []))
    {
      hide Chain, Plainly, Shape.Good, G.CodeComp, InHand;
      match op
      case EQ => e' := CodeComp(OpEq, true, e1, o1, e2, base, tl, fl, outer);
      case NE => e' := CodeComp(OpEq, false, e1, o1, e2, base, tl, fl, outer);
      case LT => e' := CodeComp(OpLt, true, e1, o1, e2, base, tl, fl, outer);
      case LE => e' := CodeComp(OpLe, true, e1, o1, e2, base, tl, fl, outer);
      case GT => e' := CodeComp(OpLt, false, e1, o1, e2, base, tl, fl, outer);
      case GE => e' := CodeComp(OpLe, false, e1, o1, e2, base, tl, fl, outer);
    }

    // ---------- expressions ----------

    /** `simpleexp` on a variable or a literal: nothing is emitted yet. */
    method Atom(k: Kind, ghost outer: set<nat>) returns (e: ExpDesc)
      requires InHand(ExpDesc(G.KTrue, 0, NO_JUMP, NO_JUMP), [], [], outer) && !k.KReloc? && !k.KJmp?
      ensures e == ExpDesc(k, 0, NO_JUMP, NO_JUMP) && InHand(e, [], [], outer)
    {
      hide Chain, Plainly, Shape.Good, Shape.Step;
      e := ExpDesc(k, 0, NO_JUMP, NO_JUMP);
      assert E(ExpDesc(G.KTrue, 0, NO_JUMP, NO_JUMP), [], []) == G.NONE;
      assert E(e, [], []) == G.Exp(k, {}, {});
      Shape.AtomShape(A(), k);
      NowInHand(A(), G.NONE, e, [], [], outer);
    }

    /** `luaK_posfix` for `and` and `or`: the exits of the left operand join those of the right one. */
    method Join(e: ExpDesc, stay: bool, head: int, ghost tl: seq<nat>, ghost fl: seq<nat>, ghost l: seq<nat>, ghost outer: set<nat>)
      returns (e': ExpDesc, ghost tl': seq<nat>, ghost fl': seq<nat>)
      requires InHand(e, tl, fl, outer + Elems(l)) && Linked(head, l) && outer !! Elems(l)
      modifies this`code
      ensures Valid() && Holds(e', tl', fl') && Kept(old(code), outer) && A() == old(A())
      ensures e' == (if stay then e.(f := e'.f) else e.(t := e'.t))
      ensures tl' == (if stay then tl else tl + l) && fl' == (if stay then fl + l else fl)
      ensures Free(E(e, tl, fl), outer + Elems(l))
    {
      Separation(e, tl, fl, outer + Elems(l));
      InHandGood(e, tl, fl, outer + Elems(l));
      hide Chain, Plainly, Shape.Good, Shape.Step, InHand;
      ghost var c := code;
      assert forall j | j in fl :: j in Elems(fl);
      assert forall j | j in tl :: j in Elems(tl);
      ghost var same := if stay then Elems(tl) else Elems(fl);
      ghost var kept := outer + Elems(waiting) + same + (if e.k.KJmp? then {e.info} else {});
      OpenJumps(kept) by { assert e.k.KJmp? ==> e.info in Elems([e.info]); }
      tl', fl' := tl, fl;
      if stay {
        var f := Concat(e.f, head, fl, l);
        e', fl' := e.(f := f), fl + l;
      } else {
        var t := Concat(e.t, head, tl, l);
        e', tl' := e.(t := t), tl + l;
      }
      assert Kept(c, kept);
      LinkedKept(c, jpc, waiting, kept);
      if stay { LinkedKept(c, e.t, tl, kept); } else { LinkedKept(c, e.f, fl, kept); }
      if e.k.KJmp? {
        assert Elems([e.info]) == {e.info};
        LinkedKept(c, e.info, [e.info], kept);
      }
    }

    /** The calls that `subexpr` makes for an expression (lparser.c:827-853). */
    method Compile(x: G.Expr, ghost base: nat, ghost outer: set<nat>) returns (e: ExpDesc, ghost tl: seq<nat>, ghost fl: seq<nat>)
      requires InHand(ExpDesc(G.KTrue, 0, NO_JUMP, NO_JUMP), [], [], outer) && Shape.RegsOk(A(), G.NONE, base)
      requires Shape.LocalsBelow(x, nactvar)
      modifies this`code, this`jpc, this`open, this`waiting, this`freereg, this`fits
      ensures InHand(e, tl, fl, outer) && Shape.RegsOk(A(), E(e, tl, fl), base) && Kept(old(code), outer)
      ensures G.Compile(old(A()), x) == G.Gen(A(), E(e, tl, fl))
      decreases x, 1
    {
      hide Chain, Plainly, Shape.Good, Shape.Step, G.DischargeVars, G.CodeNot, G.GoIf, G.Exp2RK, G.CodeRel, InHand;
      tl, fl := [], [];
      ghost var fs, c := A(), code;
      NoneGood(outer);
      match x {
        case Local(r) => e := Atom(G.KLocal(r), outer); AtomKept(c, outer);
        case Upval(i) => e := Atom(G.KUpval(i), outer); AtomKept(c, outer);
        case True => e := Atom(G.KTrue, outer); AtomKept(c, outer);
        case False => e := Atom(G.KFalse, outer); AtomKept(c, outer);
        case Number(n) => e := Atom(G.KNum(n), outer); AtomKept(c, outer);
        case Paren(y) =>
          e, tl, fl := Compile(y, base, outer);
          InHandGood(e, tl, fl, outer);
          Shape.DischargeVarsShape(A(), E(e, tl, fl));
          e := DischargeVars(e, tl, fl, outer);
        case NotOf(y) =>
          e, tl, fl := Compile(y, base, outer);
          e := CodeNot(e, base, tl, fl, outer);
          tl, fl := fl, tl;
        case And(_, _) => e, tl, fl := CompileLogic(x, base, outer);
        case Or(_, _) => e, tl, fl := CompileLogic(x, base, outer);
        case Rel(_, _, _) => e := CompileRel(x, base, outer); tl, fl := [], [];
      }
    }

    lemma NoneGood(outer: set<nat>)
      requires InHand(ExpDesc(G.KTrue, 0, NO_JUMP, NO_JUMP), [], [], outer)
      ensures Shape.Good(A(), G.NONE) && Free(G.NONE, outer) && Valid()
    {
      assert E(ExpDesc(G.KTrue, 0, NO_JUMP, NO_JUMP), [], []) == G.NONE;
    }

    lemma AtomKept(c: seq<Instr>, outer: set<nat>)
      requires c == code && Valid() && outer <= open
      ensures Kept(c, outer)
    {
    }

    /** `and` and `or`: `luaK_infix`, the right operand, `luaK_posfix`. */
    method CompileLogic(x: G.Expr, ghost base: nat, ghost outer: set<nat>) returns (e: ExpDesc, ghost tl: seq<nat>, ghost fl: seq<nat>)
      requires InHand(ExpDesc(G.KTrue, 0, NO_JUMP, NO_JUMP), [], [], outer) && Shape.RegsOk(A(), G.NONE, base)
      requires Shape.LocalsBelow(x, nactvar) && (x.And? || x.Or?)
      modifies this`code, this`jpc, this`open, this`waiting, this`freereg, this`fits
      ensures InHand(e, tl, fl, outer) && Shape.RegsOk(A(), E(e, tl, fl), base) && Kept(old(code), outer)
      ensures G.Compile(old(A()), x) == G.Gen(A(), E(e, tl, fl))
      decreases x, 0
    {
      hide Chain, Plainly, Shape.Good, Shape.Step, G.DischargeVars, G.GoIf, InHand, Free;
      ghost var fs, c := A(), code;
      NoneGood(outer);
      Shape.CompileShape(fs, x, base);
      Shape.CompileShape(fs, x.left, base);
      var e1;
      ghost var tl1, fl1;
      e1, tl1, fl1 := Compile(x.left, base, outer);
      ghost var g := A();
      InHandGood(e1, tl1, fl1, outer);
      Shape.StepVars(fs, G.NONE, g, E(e1, tl1, fl1));
      Shape.GoIfVars(g, E(e1, tl1, fl1), x.And?, base);
      ghost var c1 := code;
      var head;
      ghost var l;
      if x.And? {
        head, l := GoIfTrue(e1, base, tl1, fl1, outer);
      } else {
        head, l := GoIfFalse(e1, base, tl1, fl1, outer);
      }
      ghost var j, c2, more := A(), code, outer + Elems(l);
      NoneGood(more);
      Shape.CompileShape(j, x.right, base);
      assert Linked(head, l);
      var e2;
      ghost var tl2, fl2;
      e2, tl2, fl2 := Compile(x.right, base, more);
      ghost var c3 := code;
      InHandGood(e2, tl2, fl2, more);
      Shape.DischargeVarsShape(A(), E(e2, tl2, fl2));
      var d := DischargeVars(e2, tl2, fl2, more);
      assert Kept(c2, more);
      LinkedKept(c2, head, l, more);
      ghost var c4, q := code, A();
      e, tl, fl := Join(d, x.And?, head, tl2, fl2, l, outer);
      ElemsConcat(tl2, l);
      ElemsConcat(fl2, l);
      assert G.Compile(fs, x) == G.Gen(A(), E(e, tl, fl));
      KeptAlong(c, c1, c2, c4, outer);
      NowInHand(fs, G.NONE, e, tl, fl, outer);
    }

    lemma KeptAlong(c: seq<Instr>, c1: seq<Instr>, c2: seq<Instr>, c4: seq<Instr>, outer: set<nat>)
      requires Kept(c4, outer)
      requires forall j | j in outer :: j < |c| && j < |c1| && c1[j] == c[j]
      requires forall j | j in outer :: j < |c1| && j < |c2| && c2[j] == c1[j]
      requires forall j | j in outer :: j < |c2| && j < |c4| && c4[j] == c2[j]
      ensures Kept(c, outer)
    {
    }

    /** Comparisons: the left operand is made ready before the right one is compiled. */
    method CompileRel(x: G.Expr, ghost base: nat, ghost outer: set<nat>) returns (e: ExpDesc)
      requires InHand(ExpDesc(G.KTrue, 0, NO_JUMP, NO_JUMP), [], [], outer) && Shape.RegsOk(A(), G.NONE, base)
      requires Shape.LocalsBelow(x, nactvar) && x.Rel?
      modifies this`code, this`jpc, this`open, this`waiting, this`freereg, this`fits
      ensures InHand(e, [], [], outer) && Shape.RegsOk(A(), E(e, [], []), base) && Kept(old(code), outer)
      ensures G.Compile(old(A()), x) == G.Gen(A(), E(e, [], []))
      decreases x, 0
    {
      hide Chain, Plainly, Shape.Good, Shape.Step, G.Exp2RK, G.CodeRel, InHand, Free;
      ghost var fs, c := A(), code;
      NoneGood(outer);
      Shape.CompileShape(fs, x.left, base);
      var e1;
      ghost var tl1, fl1;
      e1, tl1, fl1 := Compile(x.left, base, outer);
      ghost var g, c1 := A(), code;
      InHandGood(e1, tl1, fl1, outer);
      Shape.StepVars(fs, G.NONE, g, E(e1, tl1, fl1));
      Shape.OperandShape(g, E(e1, tl1, fl1), base);
      var a, o := Exp2RK(e1, base, tl1, fl1, outer);
      ghost var b, c2 := A(), code;
      NowNone(a, o, base, outer);
      Shape.CompileShape(b, x.right, b.freereg);
      var e2;
      ghost var tl2, fl2;
      e2, tl2, fl2 := Compile(x.right, b.freereg, outer);
      Shape.StepVars(b, G.NONE, A(), E(e2, tl2, fl2));
      ghost var c3 := code;
      e := CodeRel(x.op, a, o, e2, base, tl2, fl2, outer);
    }

    lemma NowNone(e: ExpDesc, o: RK, base: nat, outer: set<nat>)
      requires InHand(e, [], [], outer) && Shape.IsOperand(A(), E(e, [], []), o, base)
      ensures InHand(ExpDesc(G.KTrue, 0, NO_JUMP, NO_JUMP), [], [], outer)
    {
      hide Chain, Plainly, Shape.Good, Shape.Step;
      LinkedNone();
      Shape.StepRefl(A(), E(e, [], []));
      assert Elems([]) == {};
      Shape.SpentShape(A(), E(e, [], []), A(), E(e, [], []));
      assert E(ExpDesc(G.KTrue, 0, NO_JUMP, NO_JUMP), [], []) == G.NONE;
    }

    /** An expression compiled into a register, up to the point where the next instruction would be emitted. */
    method CompileInto(x: G.Expr, reg: nat)
      requires InHand(ExpDesc(G.KTrue, 0, NO_JUMP, NO_JUMP), [], [], {}) && Shape.RegsOk(A(), G.NONE, freereg)
      requires Shape.LocalsBelow(x, nactvar)
      modifies this
      ensures Valid() && waiting == []
      ensures var g := G.Compile(old(A()), x);
        var h := G.Exp2Reg(g.fs, g.e, reg).fs;
        A() == h.(code := G.Patch(h.code, h.jpc, |h.code|, NO_REG, |h.code|), jpc := {})
    {
      hide Chain, Plainly, Shape.Good, Shape.Step, G.Patch, G.Compile, G.Exp2Reg, InHand;
      var e;
      ghost var tl, fl;
      e, tl, fl := Compile(x, freereg, {});
      var v := Exp2Reg(e, reg, tl, fl, {});
      InHandGood(v, [], [], {});
      assert |A().code| == |code|;
      DischargeJpc({});
    }

    lemma StartInHand()
      requires Valid() && open == {} && A() == G.Func([], {}, nactvar, nactvar, true)
      ensures InHand(ExpDesc(G.KTrue, 0, NO_JUMP, NO_JUMP), [], [], {})
    {
    }
  }
}
