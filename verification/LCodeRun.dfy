/**
  How a run changes when code is appended, when pending jumps get a target, and when they lose their values.
  */
module LCodeRun {
  import opened LCodeVm
  import opened LCodeGen

  /** A pending jump; the TESTSET that controls it, if any, has no destination yet. */
  predicate Open(code: seq<Instr>, j: nat) {
    && j < |code| && code[j] == Jmp(NO_JUMP)
    && (j > 0 && code[j - 1].TestSet? ==> code[j - 1].a == NO_REG)
  }

  /** Every test is followed by the jump that it controls. */
  predicate Paired(code: seq<Instr>) {
    forall i :: 0 <= i < |code| && IsTest(code[i]) ==> i + 1 < |code| && code[i + 1].Jmp?
  }

  /** What a run of `code` becomes when it goes on into the code that follows. */
  function Onward(env: Env, code: seq<Instr>, more: seq<Instr>, o: Outcome): Outcome {
    if o.Fall? then Run(env, code + more, |code|, o.regs) else o
  }

  lemma {:induction false} AppendRun(env: Env, code: seq<Instr>, more: seq<Instr>, pc: nat, r: Regs)
    requires !Run(env, code, pc, r).Stuck?
    ensures Run(env, code + more, pc, r) == Onward(env, code, more, Run(env, code, pc, r))
    decreases |code| - pc
  {
    var all := code + more;
    if pc < |code| {
      var i := code[pc];
      assert all[pc] == i;
      if IsTest(i) {
        assert all[pc + 1] == code[pc + 1];
        if Taken(env, i, r) {
          AppendLeave(env, code, more, pc + 1, AfterTest(i, r));
        } else {
          AppendRun(env, code, more, pc + 2, r);
        }
      } else if i.Jmp? {
        AppendLeave(env, code, more, pc, r);
      } else if i.LoadBool? && i.skip {
        AppendRun(env, code, more, pc + 2, Effect(env, i, r));
      } else {
        AppendRun(env, code, more, pc + 1, Effect(env, i, r));
      }
    }
  }

  lemma {:induction false} AppendLeave(env: Env, code: seq<Instr>, more: seq<Instr>, j: nat, r: Regs)
    requires j < |code| && code[j].Jmp?
    requires !Leave(env, code, j, r).Stuck?
    ensures Leave(env, code + more, j, r) == Onward(env, code, more, Leave(env, code, j, r))
    decreases |code| - j, 0
  {
    var sbx := code[j].sbx;
    assert (code + more)[j] == code[j];
    if sbx >= 0 {
      AppendRun(env, code, more, j + 1 + sbx, r);
    }
  }

  // ---------- giving jumps a target ----------

  predicate Patchable(code: seq<Instr>, list: set<nat>, vtarget: int, dtarget: int) {
    forall j | j in list ::
      Open(code, j) && j < (if HasValue(code, j) then vtarget else dtarget)
  }

  /** The registers after a jump whose TESTSET has been settled for `reg`. */
  function Stored(code: seq<Instr>, j: nat, reg: nat, r: Regs): Regs {
    if HasValue(code, j) && reg != NO_REG && reg != code[j - 1].b then r[reg := Get(r, code[j - 1].b)] else r
  }

  function Patched(env: Env, code: seq<Instr>, list: set<nat>, vtarget: nat, reg: nat, dtarget: int, o: Outcome): Outcome
    requires Patchable(code, list, vtarget, dtarget)
  {
    if o.Exit? && o.jump in list then
      Run(env, Patch(code, list, vtarget, reg, dtarget),
          if HasValue(code, o.jump) then vtarget else dtarget, Stored(code, o.jump, reg, o.regs))
    else o
  }

  lemma {:induction false} PatchRun(env: Env, code: seq<Instr>, list: set<nat>, vtarget: nat, reg: nat, dtarget: int, pc: nat, r: Regs)
    requires Patchable(code, list, vtarget, dtarget)
    requires !Run(env, code, pc, r).Stuck?
    ensures Run(env, Patch(code, list, vtarget, reg, dtarget), pc, r) ==
            Patched(env, code, list, vtarget, reg, dtarget, Run(env, code, pc, r))
    decreases |code| - pc
  {
    hide Patched, Patchable;
    if pc >= |code| {
      PatchedOther(env, code, list, vtarget, reg, dtarget, Run(env, code, pc, r));
    } else {
      var i := code[pc];
      PatchKeeps(code, list, vtarget, reg, dtarget, pc);
      if IsTest(i) {
        PatchTest(env, code, list, vtarget, reg, dtarget, pc, r);
        if Taken(env, i, r) && pc + 1 in list {
          PatchTaken(env, code, list, vtarget, reg, dtarget, pc, r);
        } else if !Taken(env, i, r) {
          PatchRun(env, code, list, vtarget, reg, dtarget, pc + 2, r);
        } else {
          PatchLeave(env, code, list, vtarget, reg, dtarget, pc + 1, AfterTest(i, r));
        }
      } else if i.Jmp? {
        if pc in list {
          PatchListed(env, code, list, vtarget, reg, dtarget, pc, r);
        } else {
          PatchLeave(env, code, list, vtarget, reg, dtarget, pc, r);
        }
      } else if i.LoadBool? && i.skip {
        PatchRun(env, code, list, vtarget, reg, dtarget, pc + 2, Effect(env, i, r));
      } else {
        PatchRun(env, code, list, vtarget, reg, dtarget, pc + 1, Effect(env, i, r));
      }
    }
  }

  lemma PatchedOther(env: Env, code: seq<Instr>, list: set<nat>, vtarget: nat, reg: nat, dtarget: int, o: Outcome)
    requires Patchable(code, list, vtarget, dtarget)
    requires o.Exit? ==> o.jump !in list
    ensures Patched(env, code, list, vtarget, reg, dtarget, o) == o
  {
  }

  /** Patching changes jumps of the list and the TESTSETs that control them, nothing else. */
  lemma PatchKeeps(code: seq<Instr>, list: set<nat>, vtarget: nat, reg: nat, dtarget: int, i: nat)
    requires Patchable(code, list, vtarget, dtarget)
    requires i < |code|
    ensures !code[i].Jmp? && !code[i].TestSet? ==> Patch(code, list, vtarget, reg, dtarget)[i] == code[i]
    ensures i !in list && i + 1 !in list ==> Patch(code, list, vtarget, reg, dtarget)[i] == code[i]
    ensures code[i].Jmp? ==> Patch(code, list, vtarget, reg, dtarget)[i].Jmp?
    ensures IsTest(code[i]) <==> IsTest(Patch(code, list, vtarget, reg, dtarget)[i])
  {
  }

  /** A jump of the list, reached without a test. */
  lemma PatchListed(env: Env, code: seq<Instr>, list: set<nat>, vtarget: nat, reg: nat, dtarget: int, j: nat, r: Regs)
    requires Patchable(code, list, vtarget, dtarget)
    requires j in list && !Controlled(code, j)
    ensures Run(env, code, j, r) == Exit(j, r)
    ensures Run(env, Patch(code, list, vtarget, reg, dtarget), j, r) ==
            Patched(env, code, list, vtarget, reg, dtarget, Exit(j, r))
  {
    var done := Patch(code, list, vtarget, reg, dtarget);
    assert Open(code, j);
    assert done[j] == Jmp(dtarget - (j + 1));
    if j > 0 {
      PatchKeeps(code, list, vtarget, reg, dtarget, j - 1);
    }
  }

  /** A patched test jumps when it did before. */
  lemma PatchTest(env: Env, code: seq<Instr>, list: set<nat>, vtarget: nat, reg: nat, dtarget: int, pc: nat, r: Regs)
    requires Patchable(code, list, vtarget, dtarget)
    requires pc + 1 < |code| && IsTest(code[pc]) && code[pc + 1].Jmp?
    ensures IsTest(Patch(code, list, vtarget, reg, dtarget)[pc])
    ensures Taken(env, Patch(code, list, vtarget, reg, dtarget)[pc], r) == Taken(env, code[pc], r)
    ensures pc + 1 !in list ==> Patch(code, list, vtarget, reg, dtarget)[pc] == code[pc]
  {
    assert pc !in list;
  }

  /** A test whose jump is in the list stores its value. */
  lemma PatchListedTest(env: Env, code: seq<Instr>, list: set<nat>, vtarget: nat, reg: nat, dtarget: int, pc: nat, r: Regs)
    requires Patchable(code, list, vtarget, dtarget)
    requires pc + 1 in list && pc < |code| && IsTest(code[pc])
    ensures pc + 1 < |code|
    ensures Patch(code, list, vtarget, reg, dtarget)[pc + 1] ==
            Jmp((if HasValue(code, pc + 1) then vtarget else dtarget) - (pc + 2))
    ensures AfterTest(code[pc], r) == r && code[pc + 1] == Jmp(NO_JUMP)
    ensures IsTest(Patch(code, list, vtarget, reg, dtarget)[pc])
    ensures AfterTest(Patch(code, list, vtarget, reg, dtarget)[pc], r) == Stored(code, pc + 1, reg, r)
  {
    assert Open(code, pc + 1);
    assert pc !in list;
  }

  lemma PatchTaken(env: Env, code: seq<Instr>, list: set<nat>, vtarget: nat, reg: nat, dtarget: int, pc: nat, r: Regs)
    requires Patchable(code, list, vtarget, dtarget)
    requires pc + 1 in list && pc < |code| && IsTest(code[pc]) && Taken(env, code[pc], r)
    ensures Run(env, code, pc, r) == Exit(pc + 1, r)
    ensures Run(env, Patch(code, list, vtarget, reg, dtarget), pc, r) ==
            Patched(env, code, list, vtarget, reg, dtarget, Exit(pc + 1, r))
  {
    PatchListedTest(env, code, list, vtarget, reg, dtarget, pc, r);
    PatchTest(env, code, list, vtarget, reg, dtarget, pc, r);
    PatchForward(code, list, vtarget, dtarget, pc + 1);
    hide Patchable, Patch, Stored, HasValue;
  }

  lemma PatchForward(code: seq<Instr>, list: set<nat>, vtarget: nat, dtarget: int, j: nat)
    requires Patchable(code, list, vtarget, dtarget) && j in list
    ensures j < (if HasValue(code, j) then vtarget else dtarget)
  {
  }

  lemma {:induction false} PatchLeave(env: Env, code: seq<Instr>, list: set<nat>, vtarget: nat, reg: nat, dtarget: int, j: nat, r: Regs)
    requires Patchable(code, list, vtarget, dtarget)
    requires j < |code| && code[j].Jmp? && j !in list
    requires !Leave(env, code, j, r).Stuck?
    ensures Patch(code, list, vtarget, reg, dtarget)[j] == code[j]
    ensures Leave(env, Patch(code, list, vtarget, reg, dtarget), j, r) ==
            Patched(env, code, list, vtarget, reg, dtarget, Leave(env, code, j, r))
    decreases |code| - j, 0
  {
    var sbx := code[j].sbx;
    if sbx >= 0 {
      hide Patched;
      PatchRun(env, code, list, vtarget, reg, dtarget, j + 1 + sbx, r);
    }
  }

  // ---------- dropping the values ----------

  lemma {:induction false} RemoveRun(env: Env, code: seq<Instr>, list: set<nat>, pc: nat, r: Regs)
    requires forall j :: j in list ==> Open(code, j)
    requires !Run(env, code, pc, r).Stuck?
    ensures Run(env, RemoveValues(code, list), pc, r) == Run(env, code, pc, r)
    decreases |code| - pc
  {
    var done := RemoveValues(code, list);
    if pc < |code| {
      var i := code[pc];
      if IsTest(i) {
        if Taken(env, i, r) {
          RemoveLeave(env, code, list, pc + 1, AfterTest(i, r));
        } else {
          RemoveRun(env, code, list, pc + 2, r);
        }
      } else if i.Jmp? {
        RemoveLeave(env, code, list, pc, r);
      } else if i.LoadBool? && i.skip {
        RemoveRun(env, code, list, pc + 2, Effect(env, i, r));
      } else {
        RemoveRun(env, code, list, pc + 1, Effect(env, i, r));
      }
    }
  }

  lemma {:induction false} RemoveLeave(env: Env, code: seq<Instr>, list: set<nat>, j: nat, r: Regs)
    requires forall k :: k in list ==> Open(code, k)
    requires j < |code| && code[j].Jmp?
    requires !Leave(env, code, j, r).Stuck?
    ensures Leave(env, RemoveValues(code, list), j, r) == Leave(env, code, j, r)
    decreases |code| - j, 0
  {
    var sbx := code[j].sbx;
    assert RemoveValues(code, list)[j] == code[j];
    if sbx >= 0 {
      RemoveRun(env, code, list, j + 1 + sbx, r);
    }
  }
}
