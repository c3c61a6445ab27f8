/**
  Nothing is forgotten: every pending jump and every TESTSET without a destination belongs to a list, so that
  the code of a finished expression is complete.
  */
module LCodeClosed {
  import opened LCodeVm
  import opened LCodeGen
  import opened LCodeRun
  import opened LCodeShape

  /** Below `n`, what is unfinished belongs to the list. */
  predicate Listed(code: seq<Instr>, n: nat, list: set<nat>) {
    forall j | 0 <= j < n && j < |code| ::
      && (code[j] == Jmp(NO_JUMP) ==> j in list)
      && (code[j].TestSet? && code[j].a == NO_REG ==> j + 1 in list)
  }

  predicate AllListed(fs: Func, e: Exp, outer: set<nat>) { Listed(fs.code, BodyLen(fs, e), fs.jpc + Lists(e) + outer) }

  lemma ListedMore(code: seq<Instr>, n: nat, list: set<nat>, more: seq<Instr>, m: nat, all: set<nat>)
    requires Listed(code, n, list) && list <= all && n == |code|
    requires forall j | 0 <= j < |more| ::
      && (more[j] == Jmp(NO_JUMP) ==> n + j in all)
      && (more[j].TestSet? && more[j].a == NO_REG ==> n + j + 1 in all)
    ensures Listed(code + more, m, all)
  {
  }

  lemma ListedKeep(code: seq<Instr>, n: nat, list: set<nat>, more: seq<Instr>)
    requires Listed(code, n, list) && n == |code|
    ensures Listed(code + more, n, list)
  {
  }

  lemma PatchedAt(code: seq<Instr>, list: set<nat>, vtarget: int, reg: nat, dtarget: int, rest: set<nat>, j: nat)
    requires j < |code| && (j in list ==> j < (if HasValue(code, j) then vtarget else dtarget))
    requires code[j] == Jmp(NO_JUMP) ==> j in list + rest
    requires code[j].TestSet? && code[j].a == NO_REG ==> j + 1 in list + rest
    ensures var c := Patch(code, list, vtarget, reg, dtarget)[j];
            (c == Jmp(NO_JUMP) ==> j in rest) && (c.TestSet? && c.a == NO_REG ==> j + 1 in rest)
  {
  }

  /** Patched jumps need no list any more. */
  lemma ListedPatch(code: seq<Instr>, n: nat, list: set<nat>, vtarget: int, reg: nat, dtarget: int, rest: set<nat>)
    requires Listed(code, n, list + rest)
    requires forall j | j in list :: j < (if HasValue(code, j) then vtarget else dtarget)
    ensures Listed(Patch(code, list, vtarget, reg, dtarget), n, rest)
  {
    var new' := Patch(code, list, vtarget, reg, dtarget);
    hide Patch, HasValue;
    forall j | 0 <= j < n && j < |new'|
      ensures (new'[j] == Jmp(NO_JUMP) ==> j in rest) && (new'[j].TestSet? && new'[j].a == NO_REG ==> j + 1 in rest)
    {
      PatchedAt(code, list, vtarget, reg, dtarget, rest, j);
    }
  }

  lemma CodeListed(fs: Func, e: Exp, i: Instr, k: Kind, outer: set<nat>)
    requires Good(fs, e) && !Pending(e) && AllListed(fs, e, outer) && !i.Jmp? && !IsTest(i)
    ensures AllListed(Code(fs, i), e.(k := k), outer)
  {
    var n := |fs.code|;
    assert Body(fs, e) == fs.code;
    OpenInside(fs.code, fs.jpc);
    assert fs.jpc + Lists(e) + outer == fs.jpc + (Lists(e) + outer);
    ListedPatch(fs.code, n, fs.jpc, n, NO_REG, n, Lists(e) + outer);
    hide Patch, Good;
    ListedMore(Patch(fs.code, fs.jpc, n, NO_REG, n), n, Lists(e) + outer, [i], BodyLen(Code(fs, i), e.(k := k)), {} + Lists(e) + outer);
  }

  lemma DischargeVarsListed(fs: Func, e: Exp, outer: set<nat>)
    requires Good(fs, e) && AllListed(fs, e, outer)
    ensures var g := DischargeVars(fs, e); AllListed(g.fs, g.e, outer)
  {
    if e.k.KUpval? {
      CodeListed(fs, e, GetUpval(0, e.k.i), KReloc, outer);
    }
  }

  lemma SetAListed(fs: Func, e: Exp, reg: nat, outer: set<nat>)
    requires Good(fs, e) && e.k.KReloc? && AllListed(fs, e, outer)
    ensures AllListed(fs.(code := LastSetA(fs.code, reg)), e.(k := KReg(reg)), outer)
  {
  }

  lemma Discharge2RegListed(fs: Func, e: Exp, reg: nat, outer: set<nat>)
    requires Good(fs, e) && AllListed(fs, e, outer)
    ensures var g := Discharge2Reg(fs, e, reg); AllListed(g.fs, g.e, outer)
  {
    hide Good, AllListed, Code, LastSetA;
    var g := DischargeVars(fs, e);
    DischargeVarsListed(fs, e, outer);
    DischargeVarsShape(fs, e);
    match g.e.k {
      case KTrue => CodeListed(g.fs, g.e, LoadBool(reg, true, false), KReg(reg), outer);
      case KFalse => CodeListed(g.fs, g.e, LoadBool(reg, false, false), KReg(reg), outer);
      case KNum(n) => CodeListed(g.fs, g.e, LoadK(reg, Num(n)), KReg(reg), outer);
      case KReloc => SetAListed(g.fs, g.e, reg, outer);
      case KReg(i) =>
        if reg != i {
          CodeListed(g.fs, g.e, Move(reg, i), KReg(reg), outer);
        } else {
          assert g.e.(k := KReg(reg)) == g.e;
        }
      case _ =>
    }
  }

  /** Patching both lists of an expression at the end of the code. */
  lemma PatchBothListed(code: seq<Instr>, t: set<nat>, f: set<nat>, n: int, reg: nat, pt: int, pf: int, rest: set<nat>)
    requires n == |code| && Paired(code) && AllOpen(code, t + f) && t !! f && Listed(code, n, t + f + rest)
    requires forall j | j in f :: HasValue(code, j) || j < pf
    requires forall j | j in t :: HasValue(code, j) || j < pt
    ensures Listed(Patch(Patch(code, f, n, reg, pf), t, n, reg, pt), n, rest)
  {
    var mid := Patch(code, f, n, reg, pf);
    OpenInside(code, t + f);
    assert t + f + rest == f + (t + rest);
    ListedPatch(code, n, f, n, reg, pf, t + rest);
    assert AllOpen(code, f) && AllOpen(code, t);
    PatchOpen(code, f, n, reg, pf, [], t);
    assert forall j | j in t :: HasValue(mid, j) == HasValue(code, j) by { hide Patch; }
    hide Patch, Listed;
    ListedPatch(mid, n, t, n, reg, pt, rest);
  }

  lemma LoadsListed(fs: Func, reg: nat, lists: set<nat>, outer: set<nat>)
    requires Paired(fs.code) && AllOpen(fs.code, fs.jpc) && AllOpen(fs.code, lists) && fs.jpc !! lists
    requires Listed(fs.code, |fs.code|, fs.jpc + (lists + outer))
    ensures var g := Code(Code(fs, LoadBool(reg, false, true)), LoadBool(reg, true, false));
      Listed(g.code, |g.code|, lists + outer)
  {
    var n := |fs.code|;
    LoadBoolsShape(fs, reg, lists);
    OpenInside(fs.code, fs.jpc);
    ListedPatch(fs.code, n, fs.jpc, n, NO_REG, n, lists + outer);
    hide Patch;
    ListedMore(Patch(fs.code, fs.jpc, n, NO_REG, n), n, lists + outer, [LoadBool(reg, false, true), LoadBool(reg, true, false)], n + 2, lists + outer);
  }

  lemma CloseLoadsListed(fs: Func, t: set<nat>, f: set<nat>, reg: nat, rest: set<nat>)
    requires Paired(fs.code) && AllOpen(fs.code, fs.jpc) && AllOpen(fs.code, t + f)
    requires t !! f && fs.jpc !! t + f && Listed(fs.code, |fs.code|, fs.jpc + (t + f + rest))
    ensures var g := Code(Code(fs, LoadBool(reg, false, true)), LoadBool(reg, true, false));
      var n := |g.code|;
      Listed(Patch(Patch(g.code, f, n, reg, n - 2), t, n, reg, n - 1), n, rest)
  {
    hide Open, Patch, Listed;
    var g := Code(Code(fs, LoadBool(reg, false, true)), LoadBool(reg, true, false));
    var n := |g.code|;
    LoadsListed(fs, reg, t + f, rest);
    LoadBoolsShape(fs, reg, t + f);
    OpenInside(fs.code, t + f);
    PatchBothListed(g.code, t, f, n, reg, n - 1, n - 2, rest);
  }

  lemma CloseListsListed(fs: Func, isJmp: bool, t: set<nat>, f: set<nat>, reg: nat, outer: set<nat>)
    requires Separate(fs, t, f) && Listed(fs.code, |fs.code|, fs.jpc + t + f + outer)
    ensures var gs := CloseLists(fs, isJmp, t, f, reg); AllListed(gs, Exp(KReg(reg), {}, {}), outer)
  {
    hide Open, Patch, NeedValue, Listed;
    var gs := CloseLists(fs, isJmp, t, f, reg);
    assert AllOpen(fs.code, t + f) && AllOpen(fs.code, fs.jpc);
    var n := |fs.code|;
    if NeedValue(fs.code, t) || NeedValue(fs.code, f) {
      if isJmp {
        assert fs.jpc + t + f + outer == fs.jpc + (t + f + outer);
        CloseLoadsListed(fs, t, f, reg, outer);
      } else {
        var j := Jump(fs);
        JumpShape(fs);
        OpenAppend(fs.code, [Jmp(NO_JUMP)], t + f);
        assert {} + (t + f + (j.list + outer)) == {n} + (fs.jpc + t + f + outer);
        ListedMore(fs.code, n, fs.jpc + t + f + outer, [Jmp(NO_JUMP)], n + 1, {} + (t + f + (j.list + outer)));
        CloseLoadsListed(j.fs, t, f, reg, j.list + outer);
      }
      assert gs.jpc + Lists(Exp(KReg(reg), {}, {})) + outer == gs.jpc + outer;
      assert isJmp ==> {} + outer == outer;
    } else {
      assert forall j | j in t + f :: HasValue(fs.code, j) by { hide HasValue; NoNeed(fs.code, t); NoNeed(fs.code, f); }
      assert fs.jpc + t + f + outer == t + f + (fs.jpc + outer);
      PatchBothListed(fs.code, t, f, n, reg, NO_JUMP, NO_JUMP, fs.jpc + outer);
      assert gs.jpc + Lists(Exp(KReg(reg), {}, {})) + outer == fs.jpc + outer;
    }
  }

  lemma NoNeed(code: seq<Instr>, list: set<nat>)
    requires !NeedValue(code, list)
    ensures forall j | j in list :: HasValue(code, j)
  {
  }

  lemma Exp2RegListed(fs: Func, e: Exp, reg: nat, outer: set<nat>)
    requires Good(fs, e) && AllListed(fs, e, outer)
    ensures var g := Exp2Reg(fs, e, reg); AllListed(g.fs, g.e, outer)
  {
    hide Good, CloseLists, Discharge2Reg;
    var g := Discharge2Reg(fs, e, reg);
    Discharge2RegShape(fs, e, reg);
    Discharge2RegListed(fs, e, reg, outer);
    var t := if g.e.k.KJmp? && |g.fs.code| > 0 then g.e.t + {|g.fs.code| - 1} else g.e.t;
    SeparateLists(g.fs, g.e, t);
    if t + g.e.f == {} {
      EmptyLists(g.fs, g.e);
    } else {
      JmpListed(g.fs, g.e, t, outer);
      hide AllListed, Listed;
      CloseListsListed(g.fs, g.e.k.KJmp?, t, g.e.f, reg, outer);
    }
  }

  lemma JmpListed(fs: Func, e: Exp, t: set<nat>, outer: set<nat>)
    requires Good(fs, e) && AllListed(fs, e, outer) && !e.k.KReloc?
    requires t == if e.k.KJmp? && |fs.code| > 0 then e.t + {|fs.code| - 1} else e.t
    ensures Listed(fs.code, |fs.code|, fs.jpc + t + e.f + outer)
  {
    var n := |fs.code|;
    var all := fs.jpc + t + e.f + outer;
    assert fs.jpc + Lists(e) + outer <= all;
    assert e.k.KJmp? ==> n >= 2 && n - 1 in all;
    forall j | 0 <= j < n
      ensures (fs.code[j] == Jmp(NO_JUMP) ==> j in all) && (fs.code[j].TestSet? && fs.code[j].a == NO_REG ==> j + 1 in all)
    {
      if j < BodyLen(fs, e) {
        assert fs.code[j] == Jmp(NO_JUMP) ==> j in fs.jpc + Lists(e) + outer;
      }
    }
  }

  lemma ToRegListed(fs: Func, e: Exp, base: nat, outer: set<nat>)
    requires Good(fs, e) && RegsOk(fs, e, base) && AllListed(fs, e, outer)
    ensures var fs1 := FreeExp(fs, e);
      var g := Exp2Reg(ReserveReg(fs1), e, fs1.freereg);
      AllListed(g.fs, g.e, outer)
  {
    var fs1 := FreeExp(fs, e);
    FreeExpShape(fs, e, base);
    ReserveRegShape(fs1, e);
    hide Good, Exp2Reg;
    Exp2RegListed(ReserveReg(fs1), e, fs1.freereg, outer);
  }

  lemma Exp2AnyRegListed(fs: Func, e: Exp, base: nat, outer: set<nat>)
    requires Good(fs, e) && RegsOk(fs, e, base) && AllListed(fs, e, outer)
    ensures var g := Exp2AnyReg(fs, e); AllListed(g.fs, g.e, outer)
  {
    hide Good, Exp2Reg, AllListed;
    var g := DischargeVars(fs, e);
    DischargeVarsShape(fs, e);
    DischargeVarsListed(fs, e, outer);
    ReDischarge(g.fs, g.e);
    if g.e.k.KReg? && !HasJumps(g.e) {
    } else if g.e.k.KReg? && g.e.k.r >= g.fs.nactvar {
      Exp2RegListed(g.fs, g.e, g.e.k.r, outer);
    } else {
      ToRegListed(g.fs, g.e, base, outer);
    }
  }

  lemma Exp2RKListed(fs: Func, e: Exp, base: nat, outer: set<nat>)
    requires Good(fs, e) && RegsOk(fs, e, base) && AllListed(fs, e, outer)
    ensures var g := Exp2RK(fs, e); AllListed(g.fs, g.e, outer)
  {
    hide Good, Exp2AnyReg, AllListed, DischargeVars;
    var g := Exp2Val(fs, e);
    Exp2ValShape(fs, e, base);
    if HasJumps(e) {
      Exp2AnyRegListed(fs, e, base, outer);
    } else {
      DischargeVarsListed(fs, e, outer);
    }
    if !g.e.k.KNum? && !g.e.k.KTrue? && !g.e.k.KFalse? {
      Exp2AnyRegListed(g.fs, g.e, base, outer);
    }
  }

  lemma Discharge2AnyRegListed(fs: Func, e: Exp, outer: set<nat>)
    requires Good(fs, e) && AllListed(fs, e, outer)
    ensures var g := Discharge2AnyReg(fs, e); AllListed(g.fs, g.e, outer)
  {
    ReserveRegShape(fs, e);
    hide Good, Discharge2Reg;
    if !e.k.KReg? {
      Discharge2RegListed(ReserveReg(fs), e, fs.freereg, outer);
    }
  }

  // ---------- conditions ----------

  lemma CondJumpListed(fs: Func, e: Exp, i: Instr, outer: set<nat>)
    requires Good(fs, e) && !Pending(e) && IsTest(i) && (i.TestSet? ==> i.a == NO_REG) && AllListed(fs, e, outer)
    ensures var j := CondJump(fs, i);
      Listed(j.fs.code, |j.fs.code|, Lists(e) + j.list + outer) && j.fs.jpc == {} && |j.fs.code| == |fs.code| + 2
      && Listed(j.fs.code, |fs.code|, Lists(e) + outer)
  {
    hide Patch, CondJump, Keeps, Apart, Listed;
    var n := |fs.code|;
    var code := Patch(fs.code, fs.jpc, n, NO_REG, n);
    CondJumpShape(fs, e, i);
    PatchedListed(fs, e, outer);
    hide Good;
    var j := CondJump(fs, i);
    TwoListed(code, n, Lists(e) + outer, i, Lists(e) + j.list + outer);
    ListedKeep(code, n, Lists(e) + outer, [i, Jmp(NO_JUMP)]);
  }

  lemma PatchedListed(fs: Func, e: Exp, outer: set<nat>)
    requires Good(fs, e) && !Pending(e) && AllListed(fs, e, outer)
    ensures var n := |fs.code|; Listed(Patch(fs.code, fs.jpc, n, NO_REG, n), n, Lists(e) + outer)
  {
    var n := |fs.code|;
    assert Body(fs, e) == fs.code;
    OpenInside(fs.code, fs.jpc);
    assert fs.jpc + Lists(e) + outer == fs.jpc + (Lists(e) + outer);
    hide Patch, Good, Listed;
    ListedPatch(fs.code, n, fs.jpc, n, NO_REG, n, Lists(e) + outer);
  }

  lemma TwoListed(code: seq<Instr>, n: nat, list: set<nat>, i: Instr, all: set<nat>)
    requires n == |code| && Listed(code, n, list) && list <= all && n + 1 in all && !i.Jmp?
    ensures Listed(code + [i, Jmp(NO_JUMP)], n + 2, all)
  {
    ListedMore(code, n, list, [i, Jmp(NO_JUMP)], n + 2, all);
  }

  lemma JumpOnCondListed(fs: Func, e: Exp, cond: bool, base: nat, outer: set<nat>)
    requires Good(fs, e) && RegsOk(fs, e, base) && !e.k.KLocal? && !e.k.KUpval? && !e.k.KJmp? && AllListed(fs, e, outer)
    ensures var j := JumpOnCond(fs, e, cond);
      Listed(j.fs.code, |j.fs.code|, Lists(e) + j.list + outer) && j.fs.jpc == {}
  {
    hide Good, CondJump, Discharge2AnyReg;
    var n := |fs.code|;
    if e.k.KReloc? && n > 0 && fs.code[n - 1].Not? {
      WithoutNot(fs, e);
      var gs := fs.(code := fs.code[..n - 1]);
      CondJumpListed(gs, e.(k := KTrue), Test(fs.code[n - 1].b, !cond), outer);
    } else {
      var g := Discharge2AnyReg(fs, e);
      Discharge2AnyRegShape(fs, e, base);
      Discharge2AnyRegListed(fs, e, outer);
      FreeExpShape(g.fs, g.e, base);
      CondJumpListed(FreeExp(g.fs, g.e), g.e, TestSet(NO_REG, RegOf(g.e), cond), outer);
    }
  }

  lemma JumpListed(fs: Func, e: Exp, outer: set<nat>)
    requires Good(fs, e) && !Pending(e) && AllListed(fs, e, outer)
    ensures var j := Jump(fs); Listed(j.fs.code, |j.fs.code|, Lists(e) + j.list + outer) && j.fs.jpc == {}
  {
    var n := |fs.code|;
    var j := Jump(fs);
    assert Body(fs, e) == fs.code;
    ListedMore(fs.code, n, fs.jpc + Lists(e) + outer, [Jmp(NO_JUMP)], n + 1, Lists(e) + j.list + outer);
  }

  lemma InvertListed(fs: Func, n: nat, list: set<nat>)
    requires Listed(fs.code, n, list)
    ensures Listed(InvertJump(fs).code, n, list)
  {
  }

  lemma ConditionalJumpListed(fs: Func, e: Exp, stay: bool, base: nat, outer: set<nat>)
    requires Good(fs, e) && RegsOk(fs, e, base) && !e.k.KLocal? && !e.k.KUpval? && AllListed(fs, e, outer)
    ensures var j := ConditionalJump(fs, e, stay);
      Listed(j.fs.code, |j.fs.code|, j.fs.jpc + Lists(e) + j.list + outer)
  {
    hide Good, JumpOnCond, Jump, InvertJump;
    var j := ConditionalJump(fs, e, stay);
    if ((e.k.KTrue? || e.k.KNum?) && stay) || (e.k.KFalse? && !stay) {
      assert fs.jpc + Lists(e) + {} + outer == fs.jpc + Lists(e) + outer;
    } else if e.k.KTrue? || e.k.KFalse? {
      JumpListed(fs, e, outer);
      assert {} + Lists(e) + j.list + outer == Lists(e) + j.list + outer;
    } else if e.k.KJmp? {
      PendingListed(fs, e, outer);
      InvertRegs(fs);
      if stay { InvertListed(fs, |fs.code|, fs.jpc + Lists(e) + {|fs.code| - 1} + outer); }
    } else {
      JumpOnCondListed(fs, e, if e.k.KNum? then true else !stay, base, outer);
      assert {} + Lists(e) + j.list + outer == Lists(e) + j.list + outer;
    }
  }

  lemma PendingListed(fs: Func, e: Exp, outer: set<nat>)
    requires Good(fs, e) && e.k.KJmp? && AllListed(fs, e, outer)
    ensures |fs.code| >= 2 && Listed(fs.code, |fs.code|, fs.jpc + Lists(e) + {|fs.code| - 1} + outer)
  {
    var n := |fs.code|;
    JmpListed(fs, e, e.t + {n - 1}, outer);
    assert fs.jpc + Lists(e) + {n - 1} + outer == fs.jpc + (e.t + {n - 1}) + e.f + outer;
  }

  lemma GoIfListed(fs: Func, e: Exp, stay: bool, base: nat, outer: set<nat>)
    requires Good(fs, e) && RegsOk(fs, e, base) && AllListed(fs, e, outer)
    ensures var j := GoIf(fs, e, stay); AllListed(j.fs, NONE, j.list + outer)
  {
    hide Good, ConditionalJump, DischargeVars, Listed;
    var g := DischargeVars(fs, e);
    DischargeVarsShape(fs, e);
    DischargeVarsListed(fs, e, outer);
    var c := ConditionalJump(g.fs, g.e, stay);
    ConditionalJumpListed(g.fs, g.e, stay, base, outer);
    var j := GoIf(fs, e, stay);
    assert j.fs.jpc + Lists(NONE) + (j.list + outer) == c.fs.jpc + Lists(g.e) + c.list + outer;
  }

  // ---------- negation and comparisons ----------

  lemma NegatedListed(fs: Func, e: Exp, base: nat, outer: set<nat>)
    requires Good(fs, e) && RegsOk(fs, e, base) && !e.k.KLocal? && !e.k.KUpval? && AllListed(fs, e, outer)
    ensures var g := Negated(fs, e); AllListed(g.fs, g.e, outer)
  {
    hide Good, Code, Discharge2AnyReg, InvertJump;
    if e.k.KJmp? {
      InvertRegs(fs);
      InvertListed(fs, BodyLen(fs, e), fs.jpc + Lists(e) + outer);
    } else if e.k.KReg? || e.k.KReloc? {
      var g := Discharge2AnyReg(fs, e);
      Discharge2AnyRegShape(fs, e, base);
      Discharge2AnyRegListed(fs, e, outer);
      FreeExpShape(g.fs, g.e, base);
      CodeListed(FreeExp(g.fs, g.e), g.e, Not(0, RegOf(g.e)), KReloc, outer);
    }
  }

  lemma CodeNotListed(fs: Func, e: Exp, base: nat, outer: set<nat>)
    requires Good(fs, e) && RegsOk(fs, e, base) && AllListed(fs, e, outer)
    ensures var g := CodeNot(fs, e); AllListed(g.fs, g.e, outer)
  {
    CodeNotIs(fs, e);
    hide Good, CodeNot, DischargeVars, Negated;
    var g := DischargeVars(fs, e);
    DischargeVarsShape(fs, e);
    DischargeVarsListed(fs, e, outer);
    var h := Negated(g.fs, g.e);
    NegatedListed(g.fs, g.e, base, outer);
    RemoveTwice(h.fs.code, h.e.t, h.e.f);
    RemoveListed(h.fs.code, BodyLen(h.fs, h.e), Lists(h.e), h.fs.jpc + Lists(h.e) + outer);
    assert Lists(Exp(h.e.k, h.e.f, h.e.t)) == Lists(h.e);
  }

  lemma RemoveListed(code: seq<Instr>, n: nat, list: set<nat>, all: set<nat>)
    requires Listed(code, n, all)
    ensures Listed(RemoveValues(code, list), n, all)
  {
  }

  lemma CodeCompListed(fs: Func, op: CmpOp, cond: bool, e1: Exp, o1: RK, e2: Exp, base: nat, outer: set<nat>)
    requires Good(fs, e2) && IsOperand(fs, e1, o1, base) && RegsOk(fs, e2, Above(fs, o1, base)) && AllListed(fs, e2, outer)
    ensures var g := CodeComp(fs, op, cond, e1, e2); AllListed(g.fs, g.e, outer)
  {
    hide Good, Exp2RK, CondJump, Step;
    OperandAgain(fs, e1, o1, base);
    var top := Above(fs, o1, base);
    var b := Exp2RK(fs, e2);
    Exp2RKShape(fs, e2, top);
    Exp2RKListed(fs, e2, top, outer);
    StepVars(fs, e2, b.fs, b.e);
    var gs := FreeExp(b.fs, b.e);
    FreeExpShape(b.fs, b.e, top);
    var hs := FreeExp(gs, e1);
    OnlyRegsShape(gs, hs, b.e);
    var i := if !cond && op != OpEq then Compare(op, true, b.o, o1) else Compare(op, cond, o1, b.o);
    CondJumpListed(hs, b.e, i, outer);
  }

  lemma CodeRelListed(fs: Func, op: RelOp, e1: Exp, o1: RK, e2: Exp, base: nat, outer: set<nat>)
    requires Good(fs, e2) && IsOperand(fs, e1, o1, base) && RegsOk(fs, e2, Above(fs, o1, base)) && AllListed(fs, e2, outer)
    ensures var g := CodeRel(fs, op, e1, e2); AllListed(g.fs, g.e, outer)
  {
    hide Good, CodeComp, AllListed;
    match op
    case EQ => CodeCompListed(fs, OpEq, true, e1, o1, e2, base, outer);
    case NE => CodeCompListed(fs, OpEq, false, e1, o1, e2, base, outer);
    case LT => CodeCompListed(fs, OpLt, true, e1, o1, e2, base, outer);
    case LE => CodeCompListed(fs, OpLe, true, e1, o1, e2, base, outer);
    case GT => CodeCompListed(fs, OpLt, false, e1, o1, e2, base, outer);
    case GE => CodeCompListed(fs, OpLe, false, e1, o1, e2, base, outer);
  }

  // ---------- expressions ----------

  /** Compiling an expression forgets no jump. */
  lemma {:induction false} CompileListed(fs: Func, x: Expr, base: nat, outer: set<nat>)
    requires Good(fs, NONE) && RegsOk(fs, NONE, base) && LocalsBelow(x, fs.nactvar) && AllListed(fs, NONE, outer)
    ensures var g := Compile(fs, x); AllListed(g.fs, g.e, outer)
    decreases x, 1
  {
    hide Good, Step, CodeNot, DischargeVars, GoIf, Exp2RK, CodeRel, Listed;
    match x {
      case Paren(y) =>
        CompileShape(fs, y, base);
        CompileListed(fs, y, base, outer);
        DischargeVarsListed(Compile(fs, y).fs, Compile(fs, y).e, outer);
      case NotOf(y) =>
        CompileShape(fs, y, base);
        CompileListed(fs, y, base, outer);
        CodeNotListed(Compile(fs, y).fs, Compile(fs, y).e, base, outer);
      case And(_, _) => LogicListed(fs, x, base, outer);
      case Or(_, _) => LogicListed(fs, x, base, outer);
      case Rel(op, y, z) =>
        var g := Compile(fs, y);
        CompileShape(fs, y, base);
        CompileListed(fs, y, base, outer);
        StepVars(fs, NONE, g.fs, g.e);
        var a := Exp2RK(g.fs, g.e);
        OperandShape(g.fs, g.e, base);
        Exp2RKListed(g.fs, g.e, base, outer);
        assert Lists(a.e) == Lists(NONE);
        var h := Compile(a.fs, z);
        CompileShape(a.fs, z, a.fs.freereg);
        CompileListed(a.fs, z, a.fs.freereg, outer);
        StepVars(a.fs, NONE, h.fs, h.e);
        CodeRelListed(h.fs, op, a.e, a.o, h.e, base, outer);
      case _ =>
    }
  }

  lemma {:induction false} LogicListed(fs: Func, x: Expr, base: nat, outer: set<nat>)
    requires Good(fs, NONE) && RegsOk(fs, NONE, base) && LocalsBelow(x, fs.nactvar) && AllListed(fs, NONE, outer)
    requires x.And? || x.Or?
    ensures var g := Compile(fs, x); AllListed(g.fs, g.e, outer)
    decreases x, 0
  {
    hide Good, Step, DischargeVars, GoIf, Listed;
    var g := Compile(fs, x.left);
    CompileShape(fs, x.left, base);
    CompileListed(fs, x.left, base, outer);
    StepVars(fs, NONE, g.fs, g.e);
    var j := GoIf(g.fs, g.e, x.And?);
    GoIfShape(g.fs, g.e, x.And?, base);
    GoIfVars(g.fs, g.e, x.And?, base);
    GoIfListed(g.fs, g.e, x.And?, base, outer);
    var h := Compile(j.fs, x.right);
    CompileShape(j.fs, x.right, base);
    CompileListed(j.fs, x.right, base, j.list + outer);
    DischargeVarsListed(h.fs, h.e, j.list + outer);
    var d := DischargeVars(h.fs, h.e);
    var q := Compile(fs, x);
    assert d.fs.jpc + Lists(d.e) + (j.list + outer) == q.fs.jpc + Lists(q.e) + outer;
  }
}
