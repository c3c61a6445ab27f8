/**
  What every operation of the code generator keeps: tests are followed by their jumps, the pending jumps are
  shared out among disjoint lists, an expression uses one register above the active ones, and the pending
  jumps of enclosing expressions are not touched.
  */
module LCodeShape {
  import opened LCodeVm
  import opened LCodeGen
  import opened LCodeRun

  predicate Pending(e: Exp) { e.k.KReloc? || e.k.KJmp? }

  /** The code without the instructions that wait for the destination or the use of their result. */
  function BodyLen(fs: Func, e: Exp): nat {
    if e.k.KReloc? && |fs.code| >= 1 then |fs.code| - 1
    else if e.k.KJmp? && |fs.code| >= 2 then |fs.code| - 2
    else |fs.code|
  }

  function Body(fs: Func, e: Exp): seq<Instr> { fs.code[..BodyLen(fs, e)] }

  function Lists(e: Exp): set<nat> { e.t + e.f }

  ghost predicate AllOpen(code: seq<Instr>, list: set<nat>) { forall j | j in list :: Open(code, j) }

  predicate PendingOk(fs: Func, e: Exp) {
    var n := |fs.code|;
    && (e.k.KReloc? ==> n >= 1 && Relocatable(fs.code[n - 1]))
    && (e.k.KJmp? ==> n >= 2 && fs.code[n - 2].Compare? && fs.code[n - 1] == Jmp(NO_JUMP))
    && (Pending(e) ==> fs.jpc == {})
  }

  /** The generator is in a consistent state with the expression `e` in hand. */
  ghost predicate Good(fs: Func, e: Exp) {
    && Paired(fs.code) && PendingOk(fs, e)
    && AllOpen(Body(fs, e), fs.jpc + Lists(e))
    && fs.jpc !! e.t && fs.jpc !! e.f && e.t !! e.f
  }

  /** The expression holds at most the register `base`, and there are registers left if there ever were. */
  predicate RegsOk(fs: Func, e: Exp, base: nat) {
    && fs.nactvar <= base && (fs.fits ==> fs.freereg < MAXSTACK)
    && (e.k.KLocal? ==> e.k.r < fs.nactvar)
    && (if e.k.KReg? && e.k.r >= fs.nactvar then e.k.r == base && fs.freereg == base + 1 else fs.freereg == base)
  }

  /** The same test, or no test at all. */
  predicate SameControl(i: Instr, i': Instr) { i == i' || (!IsTest(i) && !IsTest(i')) }

  predicate SameJump(fs: Func, gs: Func, j: nat) {
    && j < |fs.code| && j < |gs.code|
    && gs.code[j] == fs.code[j] && (j > 0 ==> SameControl(fs.code[j - 1], gs.code[j - 1]))
  }

  /** From `fs` to `gs`, pending jumps below `n` that are in none of the lists stay as they are, and the lists
      gain new jumps only. */
  ghost predicate Keeps(n: nat, fs: Func, lists: set<nat>, gs: Func, lists': set<nat>) {
    && gs.nactvar == fs.nactvar && (gs.fits ==> fs.fits)
    && (forall j | j in gs.jpc + lists' :: j >= n || j in fs.jpc + lists)
    && (forall j: nat | j < n && j !in fs.jpc + lists && Open(fs.code, j) :: SameJump(fs, gs, j))
  }

  ghost predicate Step(fs: Func, e: Exp, gs: Func, e': Exp) {
    BodyLen(fs, e) <= BodyLen(gs, e') && Keeps(BodyLen(fs, e), fs, Lists(e), gs, Lists(e'))
  }

  lemma StepRefl(fs: Func, e: Exp)
    requires Good(fs, e)
    ensures Step(fs, e, fs, e)
  {
  }

  lemma OpenSame(fs: Func, gs: Func, j: nat)
    requires Open(fs.code, j) && SameJump(fs, gs, j)
    ensures Open(gs.code, j)
  {
  }

  lemma KeepsTrans(n: nat, m: nat, fs: Func, l: set<nat>, gs: Func, l': set<nat>, hs: Func, l'': set<nat>)
    requires Keeps(n, fs, l, gs, l') && Keeps(m, gs, l', hs, l'') && n <= m
    ensures Keeps(n, fs, l, hs, l'')
  {
    hide Open, SameJump;
    forall j: nat | j < n && j !in fs.jpc + l && Open(fs.code, j) ensures SameJump(fs, hs, j) {
      assert SameJump(fs, gs, j);
      OpenSame(fs, gs, j);
      assert SameJump(gs, hs, j);
      SameJumpTrans(fs, gs, hs, j);
    }
  }

  lemma SameJumpTrans(fs: Func, gs: Func, hs: Func, j: nat)
    requires SameJump(fs, gs, j) && SameJump(gs, hs, j)
    ensures SameJump(fs, hs, j)
  {
  }

  lemma StepTrans(fs: Func, e: Exp, gs: Func, e': Exp, hs: Func, e'': Exp)
    requires Step(fs, e, gs, e') && Step(gs, e', hs, e'')
    ensures Step(fs, e, hs, e'')
  {
    hide Keeps;
    KeepsTrans(BodyLen(fs, e), BodyLen(gs, e'), fs, Lists(e), gs, Lists(e'), hs, Lists(e''));
  }

  // ---------- emitting ----------

  /** Emitting an instruction that is not a test, after an expression with nothing pending. */
  lemma CodeShape(fs: Func, e: Exp, i: Instr, k: Kind)
    requires Good(fs, e) && !Pending(e) && !IsTest(i) && !i.Jmp?
    requires !k.KJmp? && (k.KReloc? ==> Relocatable(i))
    ensures Good(Code(fs, i), e.(k := k)) && Step(fs, e, Code(fs, i), e.(k := k))
  {
    var n := |fs.code|;
    var gs := Code(fs, i);
    var e' := e.(k := k);
    assert Body(fs, e) == fs.code;
    PatchOpen(fs.code, fs.jpc, n, NO_REG, n, [i], Lists(e));
    assert n <= BodyLen(gs, e');
    assert AllOpen(Body(gs, e'), Lists(e));
    forall j: nat | j < n && j !in fs.jpc + Lists(e) && Open(fs.code, j) ensures SameJump(fs, gs, j) {
      PatchOpen(fs.code, fs.jpc, n, NO_REG, n, [i], {j});
    }
  }

  /** Patching leaves the jumps of other lists alone. */
  lemma PatchOpen(code: seq<Instr>, list: set<nat>, vtarget: int, reg: nat, dtarget: int, more: seq<Instr>, other: set<nat>)
    requires AllOpen(code, list) && AllOpen(code, other) && list !! other
    requires Paired(code)
    ensures Paired(Patch(code, list, vtarget, reg, dtarget))
    ensures AllOpen(Patch(code, list, vtarget, reg, dtarget), other)
    ensures AllOpen(Patch(code, list, vtarget, reg, dtarget) + more, other)
    ensures forall j | j in other :: Patch(code, list, vtarget, reg, dtarget)[j] == code[j]
    ensures forall j | j in other && j > 0 :: SameControl(code[j - 1], Patch(code, list, vtarget, reg, dtarget)[j - 1])
  {
    var done := Patch(code, list, vtarget, reg, dtarget);
    forall j | j in other
      ensures done[j] == code[j] && (j > 0 ==> SameControl(code[j - 1], done[j - 1]))
      ensures Open(done, j) && Open(done + more, j)
    {
      assert Open(code, j);
      if j - 1 in list { assert Open(code, j - 1); }
    }
    forall i | 0 <= i < |done| && IsTest(done[i]) ensures i + 1 < |done| && done[i + 1].Jmp? {
      assert IsTest(code[i]);
    }
  }

  /** Registers and flags: a discharge changes neither. */
  predicate SameRegs(fs: Func, gs: Func) {
    gs.freereg == fs.freereg && gs.nactvar == fs.nactvar && gs.fits == fs.fits
  }

  lemma DischargeVarsShape(fs: Func, e: Exp)
    requires Good(fs, e)
    ensures var g := DischargeVars(fs, e);
      && Good(g.fs, g.e) && Step(fs, e, g.fs, g.e)
      && g.e.t == e.t && g.e.f == e.f && !g.e.k.KLocal? && !g.e.k.KUpval? && SameRegs(fs, g.fs)
      && forall base :: RegsOk(fs, e, base) ==> RegsOk(g.fs, g.e, base)
  {
    hide Keeps, Good, Patch;
    match e.k
    case KLocal(r) => LocalShape(fs, e);
    case KUpval(i) => CodeShape(fs, e, GetUpval(0, i), KReloc);
    case _ => StepRefl(fs, e);
  }

  lemma LocalShape(fs: Func, e: Exp)
    requires Good(fs, e) && e.k.KLocal?
    ensures Good(fs, e.(k := KReg(e.k.r))) && Step(fs, e, fs, e.(k := KReg(e.k.r)))
  {
    assert Body(fs, e) == Body(fs, e.(k := KReg(e.k.r)));
  }

  lemma RelocShape(fs: Func, e: Exp, reg: nat)
    requires Good(fs, e) && e.k.KReloc?
    ensures var gs := fs.(code := LastSetA(fs.code, reg)); var e' := e.(k := KReg(reg));
      Good(gs, e') && Step(fs, e, gs, e')
  {
    var gs := fs.(code := LastSetA(fs.code, reg));
    var e' := e.(k := KReg(reg));
    forall j | j in Lists(e) ensures Open(gs.code, j) {
      assert Open(Body(fs, e), j);
    }
    assert Body(gs, e') == gs.code;
  }

  lemma Discharge2RegShape(fs: Func, e: Exp, reg: nat)
    requires Good(fs, e)
    ensures var g := Discharge2Reg(fs, e, reg);
      && Good(g.fs, g.e) && Step(fs, e, g.fs, g.e) && SameRegs(fs, g.fs)
      && g.e == e.(k := if e.k.KJmp? then KJmp else KReg(reg))
  {
    hide Keeps, Good, Patch;
    var g := DischargeVars(fs, e);
    DischargeVarsShape(fs, e);
    match g.e.k {
      case KTrue => CodeShape(g.fs, g.e, LoadBool(reg, true, false), KReg(reg));
      case KFalse => CodeShape(g.fs, g.e, LoadBool(reg, false, false), KReg(reg));
      case KNum(n) => CodeShape(g.fs, g.e, LoadK(reg, Num(n)), KReg(reg));
      case KReloc => RelocShape(g.fs, g.e, reg);
      case KReg(r) =>
        if reg != r {
          CodeShape(g.fs, g.e, Move(reg, r), KReg(reg));
        } else {
          StepRefl(g.fs, g.e);
        }
      case KJmp => StepRefl(g.fs, g.e);
    }
    StepTrans(fs, e, g.fs, g.e, Discharge2Reg(fs, e, reg).fs, Discharge2Reg(fs, e, reg).e);
  }

  /** Only registers differ. */
  predicate OnlyRegs(fs: Func, gs: Func) {
    gs == fs.(freereg := gs.freereg, fits := gs.fits) && (gs.fits ==> fs.fits)
  }

  lemma OnlyRegsShape(fs: Func, gs: Func, e: Exp)
    requires Good(fs, e) && OnlyRegs(fs, gs)
    ensures Good(gs, e) && Step(fs, e, gs, e)
  {
    assert Body(gs, e) == Body(fs, e);
  }

  // ---------- closing the lists ----------

  ghost predicate Separate(fs: Func, t: set<nat>, f: set<nat>) {
    Paired(fs.code) && AllOpen(fs.code, fs.jpc + t + f) && fs.jpc !! t && fs.jpc !! f && t !! f
  }

  lemma PatchBothShape(code: seq<Instr>, t: set<nat>, f: set<nat>, n: int, reg: nat, pt: int, pf: int, other: set<nat>)
    requires Paired(code) && AllOpen(code, t + f) && AllOpen(code, other) && t !! f && other !! t + f
    ensures var done := Patch(Patch(code, f, n, reg, pf), t, n, reg, pt);
      && Paired(done) && AllOpen(done, other)
      && forall j | j in other :: done[j] == code[j] && (j > 0 ==> SameControl(code[j - 1], done[j - 1]))
  {
    hide Open;
    var mid := Patch(code, f, n, reg, pf);
    assert AllOpen(code, f) && AllOpen(code, t);
    PatchOpen(code, f, n, reg, pf, [], other);
    PatchOpen(code, f, n, reg, pf, [], t);
    hide Patch;
    assert AllOpen(mid, t);
    PatchOpen(mid, t, n, reg, pt, [], other);
    OpenInside(code, other);
  }

  lemma OpenInside(code: seq<Instr>, list: set<nat>)
    requires AllOpen(code, list)
    ensures forall j | j in list :: j < |code|
  {
    forall j | j in list ensures j < |code| { assert Open(code, j); }
  }

  lemma OpenAppend(code: seq<Instr>, more: seq<Instr>, list: set<nat>)
    requires AllOpen(code, list)
    ensures AllOpen(code + more, list)
  {
    forall j | j in list ensures Open(code + more, j) { assert Open(code, j); }
  }

  /** Appending a jump to code that ends with no test. */
  lemma JumpShape(fs: Func)
    requires Paired(fs.code)
    ensures Paired(Jump(fs).fs.code) && Open(Jump(fs).fs.code, |fs.code|)
  {
  }

  /** The two instructions that load booleans, emitted one after the other. */
  lemma LoadBoolsShape(fs: Func, reg: nat, lists: set<nat>)
    requires Paired(fs.code) && AllOpen(fs.code, fs.jpc) && AllOpen(fs.code, lists) && fs.jpc !! lists
    ensures var n := |fs.code|; var g := Code(Code(fs, LoadBool(reg, false, true)), LoadBool(reg, true, false));
      && g == fs.(code := Patch(fs.code, fs.jpc, n, NO_REG, n) + [LoadBool(reg, false, true), LoadBool(reg, true, false)],
                  jpc := {})
      && Paired(g.code) && AllOpen(g.code, lists)
      && forall j | j in lists :: g.code[j] == fs.code[j] && (j > 0 ==> SameControl(fs.code[j - 1], g.code[j - 1]))
  {
    var n := |fs.code|;
    var i0, i1 := LoadBool(reg, false, true), LoadBool(reg, true, false);
    var g0 := Code(fs, i0);
    assert Patch(g0.code, {}, n + 1, NO_REG, n + 1) == g0.code;
    PatchOpen(fs.code, fs.jpc, n, NO_REG, n, [i0, i1], lists);
    OpenInside(fs.code, lists);
  }

  ghost predicate SameOn(code: seq<Instr>, done: seq<Instr>, list: set<nat>) {
    forall j | j in list ::
      j < |code| && j < |done| && done[j] == code[j] && (j > 0 ==> SameControl(code[j - 1], done[j - 1]))
  }

  lemma SameOnTrans(a: seq<Instr>, b: seq<Instr>, c: seq<Instr>, list: set<nat>)
    requires SameOn(a, b, list) && SameOn(b, c, list)
    ensures SameOn(a, c, list)
  {
  }

  /** Closing the lists with the two instructions that load booleans. */
  lemma CloseWithLoads(fs: Func, t: set<nat>, f: set<nat>, reg: nat, outer: set<nat>)
    requires Paired(fs.code) && AllOpen(fs.code, fs.jpc) && AllOpen(fs.code, t + f) && AllOpen(fs.code, outer)
    requires t !! f && fs.jpc !! t + f + outer && outer !! t + f
    ensures var g := Code(Code(fs, LoadBool(reg, false, true)), LoadBool(reg, true, false));
      var n := |g.code|;
      var done := Patch(Patch(g.code, f, n, reg, n - 2), t, n, reg, n - 1);
      && n == |fs.code| + 2 && Paired(done) && AllOpen(done, outer) && SameOn(fs.code, done, outer)
  {
    hide Open, Patch;
    var g := Code(Code(fs, LoadBool(reg, false, true)), LoadBool(reg, true, false));
    var n := |g.code|;
    LoadBoolsShape(fs, reg, t + f + outer);
    OpenInside(fs.code, outer);
    assert AllOpen(g.code, t + f) && AllOpen(g.code, outer);
    PatchBothShape(g.code, t, f, n, reg, n - 1, n - 2, outer);
    var done := Patch(Patch(g.code, f, n, reg, n - 2), t, n, reg, n - 1);
    assert SameOn(fs.code, g.code, outer);
    assert SameOn(g.code, done, outer) by { OpenInside(g.code, outer); }
    SameOnTrans(fs.code, g.code, done, outer);
  }

  lemma CloseListsOuter(fs: Func, isJmp: bool, t: set<nat>, f: set<nat>, reg: nat, outer: set<nat>)
    requires Separate(fs, t, f) && AllOpen(fs.code, outer) && outer !! fs.jpc + t + f
    ensures var gs := CloseLists(fs, isJmp, t, f, reg);
      && Paired(gs.code) && AllOpen(gs.code, gs.jpc) && SameOn(fs.code, gs.code, outer)
      && gs == fs.(code := gs.code, jpc := gs.jpc)
      && |gs.code| >= |fs.code|
      && forall j | j in gs.jpc :: j >= |fs.code| || j in fs.jpc
  {
    hide Open, Patch, NeedValue;
    assert AllOpen(fs.code, t + f) && AllOpen(fs.code, fs.jpc);
    OpenInside(fs.code, outer);
    if NeedValue(fs.code, t) || NeedValue(fs.code, f) {
      if isJmp {
        CloseWithLoads(fs, t, f, reg, outer);
      } else {
        var j := Jump(fs);
        JumpShape(fs);
        OpenAppend(fs.code, [Jmp(NO_JUMP)], fs.jpc);
        OpenAppend(fs.code, [Jmp(NO_JUMP)], t + f);
        OpenAppend(fs.code, [Jmp(NO_JUMP)], outer);
        OpenInside(fs.code, t + f);
        OpenInside(fs.code, fs.jpc);
        CloseWithLoads(j.fs, t, f, reg, outer + j.list);
        assert SameOn(fs.code, j.fs.code, outer);
        SameOnTrans(fs.code, j.fs.code, CloseLists(fs, isJmp, t, f, reg).code, outer);
      }
    } else {
      PatchBothShape(fs.code, t, f, |fs.code|, reg, NO_JUMP, NO_JUMP, outer);
      PatchBothShape(fs.code, t, f, |fs.code|, reg, NO_JUMP, NO_JUMP, fs.jpc);
    }
  }

  lemma CloseListsShape(fs: Func, isJmp: bool, t: set<nat>, f: set<nat>, reg: nat)
    requires Separate(fs, t, f)
    ensures var gs := CloseLists(fs, isJmp, t, f, reg);
      Good(gs, Exp(KReg(reg), {}, {})) && Keeps(|fs.code|, fs, t + f, gs, {}) && |gs.code| >= |fs.code|
      && gs.freereg == fs.freereg && gs.nactvar == fs.nactvar
  {
    var gs := CloseLists(fs, isJmp, t, f, reg);
    hide CloseLists, Open;
    CloseListsOuter(fs, isJmp, t, f, reg, {});
    forall j: nat | j < |fs.code| && j !in fs.jpc + (t + f) && Open(fs.code, j) ensures SameJump(fs, gs, j) {
      CloseListsOuter(fs, isJmp, t, f, reg, {j});
      assert j in {j};
    }
    assert Body(gs, Exp(KReg(reg), {}, {})) == gs.code;
  }

  lemma Exp2RegShape(fs: Func, e: Exp, reg: nat)
    requires Good(fs, e)
    ensures var g := Exp2Reg(fs, e, reg);
      && Good(g.fs, g.e) && Step(fs, e, g.fs, g.e) && g.e == Exp(KReg(reg), {}, {})
      && g.fs.freereg == fs.freereg && g.fs.nactvar == fs.nactvar
  {
    hide CloseLists, Open, Keeps, Paired;
    var g := Discharge2Reg(fs, e, reg);
    Discharge2RegShape(fs, e, reg);
    hide Discharge2Reg;
    var t := if g.e.k.KJmp? && |g.fs.code| > 0 then g.e.t + {|g.fs.code| - 1} else g.e.t;
    SeparateLists(g.fs, g.e, t);
    if t + g.e.f == {} {
      EmptyLists(g.fs, g.e);
    } else {
      var hs := CloseLists(g.fs, g.e.k.KJmp?, t, g.e.f, reg);
      CloseListsShape(g.fs, g.e.k.KJmp?, t, g.e.f, reg);
      KeepsLess(BodyLen(g.fs, g.e), |g.fs.code|, g.fs, Lists(g.e), t + g.e.f, hs, {});
      assert Lists(Exp(KReg(reg), {}, {})) == {};
      StepTrans(fs, e, g.fs, g.e, hs, Exp(KReg(reg), {}, {}));
    }
  }

  lemma EmptyLists(fs: Func, e: Exp)
    requires Good(fs, e) && e.t + e.f == {}
    ensures e == Exp(e.k, {}, {})
  {
    assert e.t <= e.t + e.f && e.f <= e.t + e.f;
  }

  lemma SeparateLists(fs: Func, e: Exp, t: set<nat>)
    requires Good(fs, e)
    requires t == if e.k.KJmp? && |fs.code| > 0 then e.t + {|fs.code| - 1} else e.t
    ensures Separate(fs, t, e.f)
    ensures e.k.KJmp? ==> t + e.f != {}
  {
    forall j | j in fs.jpc + t + e.f ensures Open(fs.code, j) {
      if j in fs.jpc + Lists(e) {
        assert Open(Body(fs, e), j);
      }
    }
    forall j | j in fs.jpc + Lists(e) ensures j < BodyLen(fs, e) {
      assert Open(Body(fs, e), j);
    }
    assert e.k.KJmp? ==> |fs.code| - 1 in t + e.f;
  }

  lemma KeepsLess(n: nat, m: nat, fs: Func, l: set<nat>, l': set<nat>, gs: Func, lists: set<nat>)
    requires Keeps(m, fs, l', gs, lists) && n <= m
    requires forall j | j in l' :: j in l || j >= n
    ensures Keeps(n, fs, l, gs, lists)
  {
    hide SameJump, Open;
  }

  // ---------- values in registers ----------

  lemma FreeExpShape(fs: Func, e: Exp, base: nat)
    requires Good(fs, e) && RegsOk(fs, e, base)
    ensures var gs := FreeExp(fs, e);
      gs.freereg == base && OnlyRegs(fs, gs) && gs.fits == fs.fits && Good(gs, e) && Step(fs, e, gs, e)
  {
    hide Good, Step;
    OnlyRegsShape(fs, FreeExp(fs, e), e);
  }

  lemma ReserveRegShape(fs: Func, e: Exp)
    requires Good(fs, e)
    ensures Good(ReserveReg(fs), e) && Step(fs, e, ReserveReg(fs), e)
  {
    hide Good, Step;
    OnlyRegsShape(fs, ReserveReg(fs), e);
  }

  /** `exp2reg` after making room for one register. */
  lemma ToRegShape(fs: Func, e: Exp, base: nat)
    requires Good(fs, e) && RegsOk(fs, e, base) && !e.k.KLocal? && !e.k.KUpval?
    ensures var fs1 := FreeExp(fs, e);
      var g := Exp2Reg(ReserveReg(fs1), e, fs1.freereg);
      fs1.freereg == base && Good(g.fs, g.e) && RegsOk(g.fs, g.e, base) && Step(fs, e, g.fs, g.e) && g.e == Exp(KReg(base), {}, {})
  {
    hide Good, Step, Exp2Reg;
    var fs1 := FreeExp(fs, e);
    FreeExpShape(fs, e, base);
    var fs2 := ReserveReg(fs1);
    ReserveRegShape(fs1, e);
    StepTrans(fs, e, fs1, e, fs2, e);
    var g := Exp2Reg(fs2, e, base);
    Exp2RegShape(fs2, e, base);
    StepVars(fs2, e, g.fs, g.e);
    StepTrans(fs, e, fs2, e, g.fs, g.e);
  }

  /** `luaK_exp2anyreg`: the value is in a local variable or in the first free register, with no jumps left. */
  lemma Exp2AnyRegShape(fs: Func, e: Exp, base: nat)
    requires Good(fs, e) && RegsOk(fs, e, base)
    ensures var g := Exp2AnyReg(fs, e);
      && Good(g.fs, g.e) && RegsOk(g.fs, g.e, base) && Step(fs, e, g.fs, g.e)
      && g.e == Exp(KReg(RegOf(g.e)), {}, {})
  {
    hide Good, Step, Exp2Reg;
    var g := DischargeVars(fs, e);
    DischargeVarsShape(fs, e);
    ReDischarge(g.fs, g.e);
    if g.e.k.KReg? && !HasJumps(g.e) {
      NoLists(g.e);
    } else if g.e.k.KReg? && g.e.k.r >= g.fs.nactvar {
      Exp2RegShape(g.fs, g.e, g.e.k.r);
      var h := Exp2Reg(g.fs, g.e, g.e.k.r);
      StepVars(g.fs, g.e, h.fs, h.e);
      StepTrans(fs, e, g.fs, g.e, h.fs, h.e);
    } else {
      ToRegShape(g.fs, g.e, base);
      var h := Exp2NextReg(g.fs, g.e);
      StepTrans(fs, e, g.fs, g.e, h.fs, h.e);
    }
  }

  lemma ReDischarge(fs: Func, e: Exp)
    requires !e.k.KLocal? && !e.k.KUpval?
    ensures DischargeVars(fs, e) == Gen(fs, e)
  {
  }

  lemma NoLists(e: Exp)
    requires !HasJumps(e)
    ensures e == Exp(e.k, {}, {})
  {
    assert e.t <= e.t + e.f && e.f <= e.t + e.f;
  }

  lemma Exp2ValShape(fs: Func, e: Exp, base: nat)
    requires Good(fs, e) && RegsOk(fs, e, base)
    ensures var g := Exp2Val(fs, e);
      && Good(g.fs, g.e) && RegsOk(g.fs, g.e, base) && Step(fs, e, g.fs, g.e)
      && g.e == Exp(g.e.k, {}, {}) && !g.e.k.KLocal? && !g.e.k.KUpval?
  {
    hide Good, Step, Exp2AnyReg;
    if HasJumps(e) {
      Exp2AnyRegShape(fs, e, base);
    } else {
      NoLists(e);
      DischargeVarsShape(fs, e);
    }
  }

  /** `luaK_exp2RK`: an operand is a constant, a local variable or the first free register. */
  lemma Exp2RKShape(fs: Func, e: Exp, base: nat)
    requires Good(fs, e) && RegsOk(fs, e, base)
    ensures var g := Exp2RK(fs, e);
      && Good(g.fs, g.e) && RegsOk(g.fs, g.e, base) && Step(fs, e, g.fs, g.e)
      && g.e == Exp(g.e.k, {}, {})
      && IsOperand(g.fs, g.e, g.o, base)
  {
    hide Good, Step, Exp2Val, Exp2AnyReg;
    var g := Exp2Val(fs, e);
    Exp2ValShape(fs, e, base);
    if !g.e.k.KNum? && !g.e.k.KTrue? && !g.e.k.KFalse? {
      Exp2AnyRegShape(g.fs, g.e, base);
      var h := Exp2AnyReg(g.fs, g.e);
      StepVars(g.fs, g.e, h.fs, h.e);
      StepTrans(fs, e, g.fs, g.e, h.fs, h.e);
    }
  }

  lemma Discharge2AnyRegShape(fs: Func, e: Exp, base: nat)
    requires Good(fs, e) && RegsOk(fs, e, base) && !e.k.KLocal? && !e.k.KUpval? && !e.k.KJmp?
    ensures var g := Discharge2AnyReg(fs, e);
      && Good(g.fs, g.e) && RegsOk(g.fs, g.e, base) && Step(fs, e, g.fs, g.e)
      && g.e == e.(k := KReg(RegOf(g.e)))
  {
    hide Good, Step, Discharge2Reg;
    if e.k.KReg? {
      StepRefl(fs, e);
    } else {
      var fs1 := ReserveReg(fs);
      ReserveRegShape(fs, e);
      var g := Discharge2Reg(fs1, e, base);
      Discharge2RegShape(fs1, e, base);
      StepTrans(fs, e, fs1, e, g.fs, g.e);
    }
  }

  // ---------- conditions ----------

  /** The lists of an expression and a list of new jumps, with the jumps to the next instruction, are apart. */
  ghost predicate Apart(fs: Func, e: Exp, list: set<nat>) {
    && Paired(fs.code) && AllOpen(fs.code, fs.jpc + Lists(e) + list)
    && fs.jpc !! Lists(e) + list && e.t !! e.f && list !! Lists(e)
  }

  lemma CondJumpShape(fs: Func, e: Exp, i: Instr)
    requires Good(fs, e) && !Pending(e) && IsTest(i) && (i.TestSet? ==> i.a == NO_REG)
    ensures var j := CondJump(fs, i);
      var n := |fs.code|;
      && j.fs == fs.(code := Patch(fs.code, fs.jpc, n, NO_REG, n) + [i, Jmp(NO_JUMP)], jpc := {}) && j.list == {n + 1}
      && Apart(j.fs, e, j.list) && Keeps(n, fs, Lists(e), j.fs, Lists(e) + j.list)
  {
    var n := |fs.code|;
    var j := CondJump(fs, i);
    assert Body(fs, e) == fs.code;
    var more := [i, Jmp(NO_JUMP)];
    assert j.fs.code == Patch(fs.code, fs.jpc, n, NO_REG, n) + more;
    PatchOpen(fs.code, fs.jpc, n, NO_REG, n, more, Lists(e));
    assert j.list == {n + 1};
    OpenInside(fs.code, Lists(e));
    CondJumpPaired(Patch(fs.code, fs.jpc, n, NO_REG, n), i);
    forall k: nat | k < n && k !in fs.jpc + Lists(e) && Open(fs.code, k) ensures SameJump(fs, j.fs, k) {
      PatchOpen(fs.code, fs.jpc, n, NO_REG, n, more, {k});
      assert k in {k};
    }
  }

  lemma CondJumpPaired(code: seq<Instr>, i: Instr)
    requires Paired(code) && IsTest(i) && (i.TestSet? ==> i.a == NO_REG)
    ensures Paired(code + [i, Jmp(NO_JUMP)]) && Open(code + [i, Jmp(NO_JUMP)], |code| + 1)
  {
  }

  /** What the jumps on a condition establish. */
  ghost predicate Branched(fs: Func, e: Exp, j: Jumped, base: nat) {
    && Apart(j.fs, e, j.list) && Keeps(BodyLen(fs, e), fs, Lists(e), j.fs, Lists(e) + j.list)
    && BodyLen(fs, e) <= |j.fs.code| && j.fs.freereg == base && j.fs.nactvar == fs.nactvar
  }

  lemma WithoutNot(fs: Func, e: Exp)
    requires Good(fs, e) && e.k.KReloc?
    ensures var n := |fs.code|; var gs := fs.(code := fs.code[..n - 1]);
      n > 0 && Good(gs, e.(k := KTrue)) && Keeps(n - 1, fs, Lists(e), gs, Lists(e))
  {
    var n := |fs.code|;
    var gs := fs.(code := fs.code[..n - 1]);
    assert Body(gs, e.(k := KTrue)) == Body(fs, e);
  }

  lemma JumpOnCondShape(fs: Func, e: Exp, cond: bool, base: nat)
    requires Good(fs, e) && RegsOk(fs, e, base) && !e.k.KLocal? && !e.k.KUpval? && !e.k.KJmp?
    ensures Branched(fs, e, JumpOnCond(fs, e, cond), base)
  {
    hide Good, Apart, Keeps, Patch, Discharge2AnyReg, CondJump;
    var n := |fs.code|;
    var j := JumpOnCond(fs, e, cond);
    if e.k.KReloc? && n > 0 && fs.code[n - 1].Not? {
      var gs := fs.(code := fs.code[..n - 1]);
      WithoutNot(fs, e);
      CondJumpShape(gs, e.(k := KTrue), Test(fs.code[n - 1].b, !cond));
      KeepsTrans(n - 1, n - 1, fs, Lists(e), gs, Lists(e), j.fs, Lists(e) + j.list);
      ApartLists(j.fs, e.(k := KTrue), e, j.list);
    } else {
      var g := Discharge2AnyReg(fs, e);
      Discharge2AnyRegShape(fs, e, base);
      FreeExpShape(g.fs, g.e, base);
      var hs := FreeExp(g.fs, g.e);
      StepTrans(fs, e, g.fs, g.e, hs, g.e);
      CondJumpShape(hs, g.e, TestSet(NO_REG, RegOf(g.e), cond));
      KeepsTrans(BodyLen(fs, e), |hs.code|, fs, Lists(e), hs, Lists(e), j.fs, Lists(e) + j.list);
      ApartLists(j.fs, g.e, e, j.list);
      KeepsRegs(BodyLen(fs, e), fs, Lists(e), j.fs, Lists(e) + j.list);
    }
  }

  lemma KeepsRegs(n: nat, fs: Func, l: set<nat>, gs: Func, l': set<nat>)
    requires Keeps(n, fs, l, gs, l')
    ensures gs.nactvar == fs.nactvar && (gs.fits ==> fs.fits)
  {
  }

  lemma ApartLists(fs: Func, e: Exp, e': Exp, list: set<nat>)
    requires Apart(fs, e, list) && e'.t == e.t && e'.f == e.f
    ensures Apart(fs, e', list)
  {
  }

  lemma JumpApart(fs: Func, e: Exp)
    requires Good(fs, e) && !Pending(e)
    ensures var j := Jump(fs);
      Apart(j.fs, e, j.list) && Keeps(|fs.code|, fs, Lists(e), j.fs, Lists(e) + j.list)
  {
    var j := Jump(fs);
    assert Body(fs, e) == fs.code;
    JumpShape(fs);
    OpenInside(fs.code, fs.jpc + Lists(e));
    OpenAppend(fs.code, [Jmp(NO_JUMP)], fs.jpc + Lists(e));
  }

  lemma NothingShape(fs: Func, e: Exp)
    requires Good(fs, e) && !Pending(e)
    ensures Apart(fs, e, {}) && Keeps(|fs.code|, fs, Lists(e), fs, Lists(e) + {})
  {
    assert Body(fs, e) == fs.code;
    assert Lists(e) + {} == Lists(e);
  }

  lemma KJmpShape(fs: Func, e: Exp, gs: Func)
    requires Good(fs, e) && e.k.KJmp? && gs in {fs, InvertJump(fs)}
    ensures var n := |fs.code|;
      n >= 2 && Apart(gs, e, {n - 1}) && Keeps(n - 2, fs, Lists(e), gs, Lists(e) + {n - 1}) && |gs.code| == n
  {
    var n := |fs.code|;
    forall k | k in Lists(e) + {n - 1} ensures Open(gs.code, k) {
      if k in Lists(e) { assert Open(Body(fs, e), k); }
    }
    OpenInside(Body(fs, e), Lists(e));
  }

  lemma ConditionalJumpShape(fs: Func, e: Exp, stay: bool, base: nat)
    requires Good(fs, e) && RegsOk(fs, e, base) && !e.k.KLocal? && !e.k.KUpval?
    ensures Branched(fs, e, ConditionalJump(fs, e, stay), base)
  {
    hide Good, Apart, Keeps, JumpOnCond, Jump, InvertJump;
    match e.k {
      case KTrue => if stay { NothingShape(fs, e); } else { JumpApart(fs, e); JumpRegs(fs); }
      case KFalse => if stay { JumpApart(fs, e); JumpRegs(fs); } else { NothingShape(fs, e); }
      case KNum(_) => if stay { NothingShape(fs, e); } else { JumpOnCondShape(fs, e, true, base); }
      case KJmp =>
        InvertRegs(fs);
        KJmpShape(fs, e, if stay then InvertJump(fs) else fs);
      case _ => JumpOnCondShape(fs, e, !stay, base);
    }
  }

  lemma JumpRegs(fs: Func)
    ensures SameRegs(fs, Jump(fs).fs) && |Jump(fs).fs.code| == |fs.code| + 1
  {
  }

  lemma InvertRegs(fs: Func)
    ensures SameRegs(fs, InvertJump(fs)) && InvertJump(fs).jpc == fs.jpc && |InvertJump(fs).code| == |fs.code|
  {
  }

  /** `luaK_goiftrue` and `luaK_goiffalse` leave one list pending; the jumps of the other one lead here. */
  lemma GoIfShape(fs: Func, e: Exp, stay: bool, base: nat)
    requires Good(fs, e) && RegsOk(fs, e, base)
    ensures var j := GoIf(fs, e, stay);
      && Good(j.fs, NONE) && RegsOk(j.fs, NONE, base) && Apart(j.fs, NONE, j.list)
      && Keeps(BodyLen(fs, e), fs, Lists(e), j.fs, j.list) && BodyLen(fs, e) <= |j.fs.code|
  {
    hide Good, Apart, Keeps, ConditionalJump, DischargeVars;
    var g := DischargeVars(fs, e);
    DischargeVarsShape(fs, e);
    var j := ConditionalJump(g.fs, g.e, stay);
    ConditionalJumpShape(g.fs, g.e, stay, base);
    var exits := (if stay then g.e.f else g.e.t) + j.list;
    var gs := j.fs.(jpc := j.fs.jpc + (if stay then g.e.t else g.e.f));
    SettleLists(j.fs, g.e, j.list, stay);
    KeepsTrans(BodyLen(fs, e), BodyLen(g.fs, g.e), fs, Lists(e), g.fs, Lists(e), j.fs, Lists(e) + j.list);
    SettleKeeps(BodyLen(fs, e), fs, Lists(e), j.fs, g.e, j.list, stay);
    KeepsRegs(BodyLen(fs, e), fs, Lists(e), j.fs, Lists(e) + j.list);
  }

  lemma SettleLists(fs: Func, e: Exp, list: set<nat>, stay: bool)
    requires Apart(fs, e, list)
    ensures var gs := fs.(jpc := fs.jpc + (if stay then e.t else e.f));
      Good(gs, NONE) && Apart(gs, NONE, (if stay then e.f else e.t) + list)
  {
    var gs := fs.(jpc := fs.jpc + (if stay then e.t else e.f));
    assert Body(gs, NONE) == fs.code;
  }

  lemma SettleKeeps(n: nat, fs: Func, l: set<nat>, gs: Func, e: Exp, list: set<nat>, stay: bool)
    requires Keeps(n, fs, l, gs, Lists(e) + list)
    ensures Keeps(n, fs, l, gs.(jpc := gs.jpc + (if stay then e.t else e.f)), (if stay then e.f else e.t) + list)
  {
    hide Open;
  }

  // ---------- negation ----------

  lemma RemoveTwice(code: seq<Instr>, t: set<nat>, f: set<nat>)
    ensures RemoveValues(RemoveValues(code, t), f) == RemoveValues(code, t + f)
  {
  }

  lemma RemoveShape(fs: Func, e: Exp)
    requires Good(fs, e)
    ensures var gs := fs.(code := RemoveValues(RemoveValues(fs.code, e.t), e.f));
      Good(gs, Exp(e.k, e.f, e.t)) && Step(fs, e, gs, Exp(e.k, e.f, e.t))
  {
    RemoveTwice(fs.code, e.t, e.f);
    var list := Lists(e);
    var code := RemoveValues(fs.code, list);
    var gs := fs.(code := code);
    OpenInside(Body(fs, e), fs.jpc + list);
    forall j: nat | j < BodyLen(fs, e) && Open(fs.code, j) ensures Open(code, j) {
    }
    RemovePending(fs, e, list);
    forall j | j in fs.jpc + list ensures Open(Body(gs, e), j) {
      assert Open(Body(fs, e), j);
      assert Open(fs.code, j);
    }
    assert Keeps(BodyLen(fs, e), fs, list, gs, list);
  }

  lemma RemovePending(fs: Func, e: Exp, list: set<nat>)
    requires Good(fs, e) && (forall j | j in list :: j < BodyLen(fs, e))
    ensures var gs := fs.(code := RemoveValues(fs.code, list));
      Paired(gs.code) && PendingOk(gs, e)
  {
    var gs := fs.(code := RemoveValues(fs.code, list));
    forall i | 0 <= i < |gs.code| && IsTest(gs.code[i]) ensures i + 1 < |gs.code| && gs.code[i + 1].Jmp? {
      assert IsTest(fs.code[i]);
    }
  }

  /** The value of `codenot` before the lists are exchanged. */
  function Negated(fs: Func, e: Exp): Gen {
    match e.k
    case KFalse => Gen(fs, e.(k := KTrue))
    case KTrue => Gen(fs, e.(k := KFalse))
    case KNum(_) => Gen(fs, e.(k := KFalse))
    case KJmp => Gen(InvertJump(fs), e)
    case _ =>
      var d := Discharge2AnyReg(fs, e);
      Gen(Code(FreeExp(d.fs, d.e), Not(0, RegOf(d.e))), d.e.(k := KReloc))
  }

  lemma LiteralShape(fs: Func, e: Exp, k: Kind)
    requires Good(fs, e) && !Pending(e) && (k.KTrue? || k.KFalse?)
    ensures Good(fs, e.(k := k)) && Step(fs, e, fs, e.(k := k))
  {
    assert Body(fs, e) == Body(fs, e.(k := k));
  }

  lemma InvertShape(fs: Func, e: Exp)
    requires Good(fs, e) && e.k.KJmp?
    ensures Good(InvertJump(fs), e) && Step(fs, e, InvertJump(fs), e)
  {
    assert Body(InvertJump(fs), e) == Body(fs, e);
  }

  lemma NegatedShape(fs: Func, e: Exp, base: nat)
    requires Good(fs, e) && RegsOk(fs, e, base) && !e.k.KLocal? && !e.k.KUpval?
    ensures var g := Negated(fs, e);
      && Good(g.fs, g.e) && RegsOk(g.fs, g.e, base) && Step(fs, e, g.fs, g.e)
      && g.e.t == e.t && g.e.f == e.f && !g.e.k.KReg? && !g.e.k.KLocal?
  {
    hide Good, Step, Discharge2AnyReg, Code, InvertJump;
    if e.k.KFalse? {
      LiteralShape(fs, e, KTrue);
    } else if e.k.KTrue? || e.k.KNum? {
      LiteralShape(fs, e, KFalse);
    } else if e.k.KJmp? {
      InvertShape(fs, e);
      InvertRegs(fs);
    } else {
        var d := Discharge2AnyReg(fs, e);
        Discharge2AnyRegShape(fs, e, base);
        var gs := FreeExp(d.fs, d.e);
        FreeExpShape(d.fs, d.e, base);
        StepTrans(fs, e, d.fs, d.e, gs, d.e);
        var i := Not(0, RegOf(d.e));
        CodeShape(gs, d.e, i, KReloc);
        CodeRegs(gs, i);
        StepTrans(fs, e, gs, d.e, Code(gs, i), d.e.(k := KReloc));
        StepVars(fs, e, Code(gs, i), d.e.(k := KReloc));
    }
  }

  lemma CodeRegs(fs: Func, i: Instr)
    ensures SameRegs(fs, Code(fs, i))
  {
  }

  lemma StepVars(fs: Func, e: Exp, gs: Func, e': Exp)
    requires Step(fs, e, gs, e')
    ensures gs.nactvar == fs.nactvar && (gs.fits ==> fs.fits)
  {
  }

  lemma CodeNotIs(fs: Func, e: Exp)
    ensures var g := DischargeVars(fs, e); var h := Negated(g.fs, g.e);
      CodeNot(fs, e) == Gen(h.fs.(code := RemoveValues(RemoveValues(h.fs.code, h.e.t), h.e.f)), Exp(h.e.k, h.e.f, h.e.t))
  {
  }

  lemma CodeNotShape(fs: Func, e: Exp, base: nat)
    requires Good(fs, e) && RegsOk(fs, e, base)
    ensures var g := CodeNot(fs, e);
      Good(g.fs, g.e) && RegsOk(g.fs, g.e, base) && Step(fs, e, g.fs, g.e)
  {
    CodeNotIs(fs, e);
    hide Good, Step, CodeNot, DischargeVars, Negated, RemoveValues;
    var g := DischargeVars(fs, e);
    DischargeVarsShape(fs, e);
    var h := Negated(g.fs, g.e);
    NegatedShape(g.fs, g.e, base);
    RemoveShape(h.fs, h.e);
    var r := CodeNot(fs, e);
    StepTrans(fs, e, g.fs, g.e, h.fs, h.e);
    StepTrans(fs, e, h.fs, h.e, r.fs, r.e);
  }

  // ---------- comparisons ----------

  /** An operand that has been put where a comparison can use it. */
  predicate IsOperand(fs: Func, e: Exp, o: RK, base: nat) {
    && e == Exp(e.k, {}, {})
    && fs.nactvar <= base
    && match o
       case Reg(r) => e.k == KReg(r) && (r < fs.nactvar || r == base)
       case Const(v) => (e.k.KNum? && v == Num(e.k.n)) || (e.k.KTrue? && v == Bool(true)) || (e.k.KFalse? && v == Bool(false))
  }

  /** The register after the operand. */
  function Above(fs: Func, o: RK, base: nat): nat { if o.Reg? && o.r >= fs.nactvar then base + 1 else base }

  /** An operand is not discharged again. */
  lemma OperandAgain(fs: Func, e: Exp, o: RK, base: nat)
    requires IsOperand(fs, e, o, base)
    ensures Exp2RK(fs, e) == Operanded(fs, e, o)
  {
    assert !HasJumps(e);
  }

  lemma CompareShape(fs: Func, e: Exp, i: Instr)
    requires Good(fs, e) && !Pending(e) && e == Exp(e.k, {}, {}) && i.Compare?
    ensures var g := CondJump(fs, i).fs; var e' := Exp(KJmp, {}, {});
      Good(g, e') && Step(fs, e, g, e') && SameRegs(fs, g)
      && BodyLen(g, e') == |fs.code| && g.jpc == {}
      && g.code == Patch(fs.code, fs.jpc, |fs.code|, NO_REG, |fs.code|) + [i, Jmp(NO_JUMP)]
  {
    CondJumpShape(fs, e, i);
    hide Patch, Open;
    var g := CondJump(fs, i).fs;
    var n := |fs.code|;
    assert Lists(e) == {};
    assert Lists(Exp(KJmp, {}, {})) == {};
    forall j: nat | j < n && j !in fs.jpc + {} && Open(fs.code, j) ensures SameJump(fs, g, j) {
      assert j !in fs.jpc + Lists(e);
    }
  }

  lemma CodeCompShape(fs: Func, op: CmpOp, cond: bool, e1: Exp, o1: RK, e2: Exp, base: nat)
    requires Good(fs, e2) && IsOperand(fs, e1, o1, base) && RegsOk(fs, e2, Above(fs, o1, base))
    ensures var g := CodeComp(fs, op, cond, e1, e2);
      Good(g.fs, g.e) && RegsOk(g.fs, g.e, base) && Step(fs, e2, g.fs, g.e) && g.e == Exp(KJmp, {}, {})
  {
    hide Good, Step, Exp2RK, CondJump;
    OperandAgain(fs, e1, o1, base);
    var b := Exp2RK(fs, e2);
    Exp2RKShape(fs, e2, Above(fs, o1, base));
    StepVars(fs, e2, b.fs, b.e);
    var gs := FreeExp(b.fs, b.e);
    FreeExpShape(b.fs, b.e, Above(fs, o1, base));
    var hs := FreeExp(gs, e1);
    OnlyRegsShape(gs, hs, b.e);
    StepTrans(fs, e2, b.fs, b.e, gs, b.e);
    StepTrans(fs, e2, gs, b.e, hs, b.e);
    var i := if !cond && op != OpEq then Compare(op, true, b.o, o1) else Compare(op, cond, o1, b.o);
    CompareShape(hs, b.e, i);
    var r := CondJump(hs, i).fs;
    StepTrans(fs, e2, hs, b.e, r, Exp(KJmp, {}, {}));
  }

  lemma CodeRelShape(fs: Func, op: RelOp, e1: Exp, o1: RK, e2: Exp, base: nat)
    requires Good(fs, e2) && IsOperand(fs, e1, o1, base) && RegsOk(fs, e2, Above(fs, o1, base))
    ensures var g := CodeRel(fs, op, e1, e2);
      Good(g.fs, g.e) && RegsOk(g.fs, g.e, base) && Step(fs, e2, g.fs, g.e)
  {
    hide Good, Step, CodeComp;
    match op
    case EQ => CodeCompShape(fs, OpEq, true, e1, o1, e2, base);
    case NE => CodeCompShape(fs, OpEq, false, e1, o1, e2, base);
    case LT => CodeCompShape(fs, OpLt, true, e1, o1, e2, base);
    case LE => CodeCompShape(fs, OpLe, true, e1, o1, e2, base);
    case GT => CodeCompShape(fs, OpLt, false, e1, o1, e2, base);
    case GE => CodeCompShape(fs, OpLe, false, e1, o1, e2, base);
  }

  // ---------- expressions ----------

  /** The locals of the expression are active variables. */
  predicate LocalsBelow(x: Expr, n: nat) {
    match x
    case Local(r) => r < n
    case Paren(y) => LocalsBelow(y, n)
    case NotOf(y) => LocalsBelow(y, n)
    case And(y, z) => LocalsBelow(y, n) && LocalsBelow(z, n)
    case Or(y, z) => LocalsBelow(y, n) && LocalsBelow(z, n)
    case Rel(_, y, z) => LocalsBelow(y, n) && LocalsBelow(z, n)
    case _ => true
  }

  lemma AtomShape(fs: Func, k: Kind)
    requires Good(fs, NONE) && !k.KReloc? && !k.KJmp?
    ensures Good(fs, Exp(k, {}, {})) && Step(fs, NONE, fs, Exp(k, {}, {}))
  {
    assert Body(fs, NONE) == Body(fs, Exp(k, {}, {}));
  }

  /** The list `l` of the left operand joins a list of the right one. */
  lemma JoinLists(js: Func, l: set<nat>, ds: Func, e: Exp, e': Exp)
    requires Apart(js, NONE, l) && Good(ds, e) && Step(js, NONE, ds, e)
    requires e' == e.(f := e.f + l) || e' == e.(t := e.t + l)
    ensures Good(ds, e')
  {
    assert Lists(NONE) == {};
    OpenInside(js.code, l);
    forall j | j in l ensures Open(Body(ds, e), j) {
      assert Open(js.code, j);
      assert SameJump(js, ds, j);
    }
    assert Body(ds, e') == Body(ds, e);
  }

  lemma JoinKeeps(n: nat, fs: Func, js: Func, l: set<nat>, ds: Func, e: Exp, e': Exp)
    requires Keeps(n, fs, {}, js, l) && n <= |js.code|
    requires Step(js, NONE, ds, e)
    requires e' == e.(f := e.f + l) || e' == e.(t := e.t + l)
    ensures Keeps(n, fs, {}, ds, Lists(e'))
  {
    hide Open, SameJump;
    assert Lists(NONE) == {};
    assert Lists(e') == Lists(e) + l;
    forall j | j in ds.jpc + Lists(e') ensures j >= n || j in fs.jpc + {} {
      if j !in l {
        assert j in ds.jpc + Lists(e);
        assert j >= |js.code| || j in js.jpc + {};
      }
    }
    forall j: nat | j < n && j !in fs.jpc + {} && Open(fs.code, j) ensures SameJump(fs, ds, j) {
      assert SameJump(fs, js, j);
      OpenSame(fs, js, j);
      assert j !in js.jpc + {};
      assert SameJump(js, ds, j);
      SameJumpTrans(fs, js, ds, j);
    }
  }

  lemma LogicShape(fs: Func, g: Gen, stay: bool, h: Gen, base: nat)
    requires Good(fs, NONE) && Good(g.fs, g.e) && RegsOk(g.fs, g.e, base) && Step(fs, NONE, g.fs, g.e)
    requires var j := GoIf(g.fs, g.e, stay);
      Good(h.fs, h.e) && RegsOk(h.fs, h.e, base) && Step(j.fs, NONE, h.fs, h.e)
    ensures var j := GoIf(g.fs, g.e, stay);
      var d := DischargeVars(h.fs, h.e);
      var e := if stay then d.e.(f := d.e.f + j.list) else d.e.(t := d.e.t + j.list);
      Good(d.fs, e) && RegsOk(d.fs, e, base) && Step(fs, NONE, d.fs, e)
  {
    hide Good, Keeps, GoIf, DischargeVars, Apart;
    var j := GoIf(g.fs, g.e, stay);
    GoIfShape(g.fs, g.e, stay, base);
    assert Lists(NONE) == {};
    KeepsTrans(|fs.code|, BodyLen(g.fs, g.e), fs, {}, g.fs, Lists(g.e), j.fs, j.list);
    var d := DischargeVars(h.fs, h.e);
    DischargeVarsShape(h.fs, h.e);
    StepTrans(j.fs, NONE, h.fs, h.e, d.fs, d.e);
    var e := if stay then d.e.(f := d.e.f + j.list) else d.e.(t := d.e.t + j.list);
    JoinLists(j.fs, j.list, d.fs, d.e, e);
    JoinKeeps(|fs.code|, fs, j.fs, j.list, d.fs, d.e, e);
  }

  lemma RelShape(fs: Func, g: Gen, op: RelOp, h: Gen, base: nat)
    requires Good(g.fs, g.e) && RegsOk(g.fs, g.e, base) && Step(fs, NONE, g.fs, g.e)
    requires var a := Exp2RK(g.fs, g.e);
      Good(h.fs, h.e) && RegsOk(h.fs, h.e, a.fs.freereg) && Step(a.fs, NONE, h.fs, h.e)
    ensures var a := Exp2RK(g.fs, g.e);
      var r := CodeRel(h.fs, op, a.e, h.e);
      Good(r.fs, r.e) && RegsOk(r.fs, r.e, base) && Step(fs, NONE, r.fs, r.e)
  {
    hide Good, Exp2RK, CodeRel, Keeps;
    var a := Exp2RK(g.fs, g.e);
    OperandShape(g.fs, g.e, base);
    StepVars(a.fs, NONE, h.fs, h.e);
    CodeRelShape(h.fs, op, a.e, a.o, h.e, base);
    var r := CodeRel(h.fs, op, a.e, h.e);
    StepTrans(fs, NONE, g.fs, g.e, a.fs, NONE);
    StepTrans(fs, NONE, a.fs, NONE, h.fs, h.e);
    StepTrans(fs, NONE, h.fs, h.e, r.fs, r.e);
  }

  /** The left operand of a comparison, ready, and the state in which the right one is compiled. */
  lemma OperandShape(fs: Func, e: Exp, base: nat)
    requires Good(fs, e) && RegsOk(fs, e, base)
    ensures var a := Exp2RK(fs, e);
      && Good(a.fs, NONE) && RegsOk(a.fs, NONE, a.fs.freereg) && IsOperand(a.fs, a.e, a.o, base)
      && a.fs.freereg == Above(a.fs, a.o, base) && Step(fs, e, a.fs, NONE) && a.fs.nactvar == fs.nactvar
  {
    hide Exp2RK, Good, Step;
    var a := Exp2RK(fs, e);
    Exp2RKShape(fs, e, base);
    StepVars(fs, e, a.fs, a.e);
    SpentShape(fs, e, a.fs, a.e);
  }

  lemma SpentShape(fs: Func, e: Exp, gs: Func, e': Exp)
    requires Good(gs, e') && Step(fs, e, gs, e') && !Pending(e') && e' == Exp(e'.k, {}, {})
    ensures Good(gs, NONE) && Step(fs, e, gs, NONE)
  {
    assert Body(gs, e') == Body(gs, NONE);
    assert Lists(e') == Lists(NONE);
  }

  /** Compiling any expression keeps the generator consistent and leaves the enclosing lists alone. */
  lemma {:induction false} CompileShape(fs: Func, x: Expr, base: nat)
    requires Good(fs, NONE) && RegsOk(fs, NONE, base) && LocalsBelow(x, fs.nactvar)
    ensures var g := Compile(fs, x);
      Good(g.fs, g.e) && RegsOk(g.fs, g.e, base) && Step(fs, NONE, g.fs, g.e)
    decreases x
  {
    hide Good, Step, CodeNot, DischargeVars, GoIf, Exp2RK, CodeRel;
    match x {
      case Local(r) => AtomShape(fs, KLocal(r));
      case Upval(i) => AtomShape(fs, KUpval(i));
      case True => AtomShape(fs, KTrue);
      case False => AtomShape(fs, KFalse);
      case Number(n) => AtomShape(fs, KNum(n));
      case Paren(y) =>
        CompileShape(fs, y, base);
        var g := Compile(fs, y);
        DischargeVarsShape(g.fs, g.e);
        var d := DischargeVars(g.fs, g.e);
        StepTrans(fs, NONE, g.fs, g.e, d.fs, d.e);
      case NotOf(y) =>
        CompileShape(fs, y, base);
        var g := Compile(fs, y);
        CodeNotShape(g.fs, g.e, base);
        var d := CodeNot(g.fs, g.e);
        StepTrans(fs, NONE, g.fs, g.e, d.fs, d.e);
      case And(_, _) => LogicCompile(fs, x, base);
      case Or(_, _) => LogicCompile(fs, x, base);
      case Rel(op, y, z) =>
        CompileShape(fs, y, base);
        var g := Compile(fs, y);
        StepVars(fs, NONE, g.fs, g.e);
        OperandShape(g.fs, g.e, base);
        var a := Exp2RK(g.fs, g.e);
        CompileShape(a.fs, z, a.fs.freereg);
        RelShape(fs, g, op, Compile(a.fs, z), base);
    }
  }

  lemma {:induction false} LogicCompile(fs: Func, x: Expr, base: nat)
    requires Good(fs, NONE) && RegsOk(fs, NONE, base) && LocalsBelow(x, fs.nactvar)
    requires x.And? || x.Or?
    ensures var g := Compile(fs, x);
      Good(g.fs, g.e) && RegsOk(g.fs, g.e, base) && Step(fs, NONE, g.fs, g.e)
    decreases x, 0
  {
    hide Good, Step, CodeNot, DischargeVars, GoIf, Exp2RK, CodeRel;
    CompileShape(fs, x.left, base);
    var g := Compile(fs, x.left);
    StepVars(fs, NONE, g.fs, g.e);
    GoIfShape(g.fs, g.e, x.And?, base);
    var j := GoIf(g.fs, g.e, x.And?);
    GoIfVars(g.fs, g.e, x.And?, base);
    CompileShape(j.fs, x.right, base);
    LogicShape(fs, g, x.And?, Compile(j.fs, x.right), base);
  }

  lemma GoIfVars(fs: Func, e: Exp, stay: bool, base: nat)
    requires Good(fs, e) && RegsOk(fs, e, base)
    ensures GoIf(fs, e, stay).fs.nactvar == fs.nactvar
  {
    GoIfShape(fs, e, stay, base);
  }
}
