/**
  The wrapper itself, as the generated code runs it (mkwrapfuns.py:22-49, mkcallfuns.py:10-74):
  methods over the process that perform the steps of Hooks for one thread, with the scoped objects
  of C++ written out as their constructor's step and, on every way out, their destructor's.
  */
module HookWrapper {
  import opened Hooks
  import opened HookSteps

  ghost predicate OthersSame(w: World, x: World, me: nat) {
    |x.threads| == |w.threads| &&
    forall u | 0 <= u < |w.threads| && u != me :: x.threads[u] == w.threads[u]
  }

  /** A process in which thread `me` is scheduled. */
  class Process {
    const fs: Functions
    const me: nat
    var world: World

    constructor (fs: Functions, threads: nat, me: nat)
      requires me < threads
      ensures this.fs == fs && this.me == me && world == Initial(threads) && Valid() && Thread().stack == Program
    {
      this.fs := fs;
      this.me := me;
      world := Initial(threads);
      new;
      InitialInv(fs, threads);
    }

    ghost predicate Valid()
      reads this
    {
      Inv(fs, world) && me < |world.threads| &&
      (world.owner == Free || world.owner == By(me)) && !HasScript(world.threads[me].stack)
    }

    ghost function Thread(): Thread
      reads this
      requires me < |world.threads|
    {
      world.threads[me]
    }

    method Perform(a: Act)
      requires Valid() && Enabled(fs, world, me, a) && !a.StartScript?
      modifies this`world
      ensures Valid() && world == Step(fs, old(world), me, a)
      ensures Took([a])
    {
      RunsOne(fs, world, me, a);
      StepKeeps(fs, world, me, a);
      world := Step(fs, world, me, a);
    }

    /** Exactly these steps have been taken. */
    twostate predicate Took(acts: seq<Act>)
      reads this
    {
      Runs(fs, old(world), me, acts, world)
    }

    /** The contract of everything that runs between two steps of its caller: control is back, the
        mutex is as it was, the other threads are untouched, and `done` have been called outermost. */
    twostate predicate Returned(stack: Stack, done: seq<nat>)
      reads this
      requires old(me < |world.threads|)
    {
      Valid() && OthersSame(old(world), world, me) && world.owner == old(world.owner) &&
      Thread().stack == stack && Thread().flag == HasCall(stack) && Thread().done == old(Thread().done) + done
    }

    /** wrapper<Rv, ...>(name, ...) */
    method Wrapper(c: Native)
      requires Valid() && Code(Thread().stack)
      modifies this`world
      ensures Returned(old(Thread().stack), if old(Thread().flag) then [] else [c.f])
      ensures Thread().flag == old(Thread().flag)
      ensures Thread().log == old(Thread().log) + if old(Thread().flag) then [] else Whole(fs, c.f)
      ensures Took(if old(Thread().flag) then NestedActs(c) else OutermostActs(fs, c, old(Thread().hasState)))
      ensures old(Thread().flag) ==> Thread().hasState == old(Thread().hasState)
      decreases c, 1
    {
      hide Inv, Enabled, Move, Step, Stacked, HasScript, Holds, HasCall, ThreadOk, Record, Current, Whole;
      hide Runs, NestedActs, OutermostActs, AdviceActs, MainActs, OriginalActs;
      ghost var w0, has := world, Thread().hasState;
      Begin(c.f);
      ghost var w1 := world;
      if !world.threads[me].stack.ready {
        RunOriginal(c);
        ghost var w2 := world;
        End();
        NestedRuns(fs, me, c, w0, w1, w2, world);
      } else {
        RunAdvice(Before, c.f, c.before);
        ghost var w2 := world;
        RunMain(c);
        ghost var w3 := world;
        RunAdvice(After, c.f, c.after);
        ghost var w4 := world;
        End();
        OutermostRuns(fs, me, c, has, w0, w1, w2, w3, w4, world);
      }
      LogGrew(fs, w0, world, me, c.f);
    }

    /** The constructor and the destructor of LuaInvocation */
    method Begin(f: nat)
      requires Valid() && Code(Thread().stack)
      modifies this`world
      ensures var ready := !old(Thread().flag);
              Returned(Call(f, ready, if ready then DoBefore else DoMain, old(Thread().stack)), [])
      ensures old(Thread().flag) == HasCall(old(Thread().stack))
      ensures Took([Enter(f)]) && Thread().hasState == old(Thread().hasState)
    {
      hide Runs, Record, Current, Whole, UpTo, Part;
      Perform(Enter(f));
    }

    method End()
      requires Valid() && Thread().stack.Call? && Thread().stack.next == Return
      modifies this`world
      ensures Returned(old(Thread().stack.below), if old(Thread().stack.ready) then [old(Thread().stack.f)] else [])
      ensures Took([Leave]) && Thread().hasState == old(Thread().hasState)
    {
      hide Runs, Record, Current, Whole, UpTo, Part;
      Perform(Leave);
    }

    /** if (func->has_before) and if (func->has_after) */
    method RunAdvice(kind: Kind, f: nat, code: seq<Lua>)
      requires Valid() && (kind == Before || kind == After) && Thread().stack.Call? && Thread().stack.ready
      requires Thread().stack.f == f && Thread().stack.next == PhaseOf(kind)
      modifies this`world
      ensures Returned(old(Thread().stack.(next := NextPhase(PhaseOf(kind)))), [])
      ensures Took(AdviceActs(fs, kind, f, code, old(Thread().hasState)))
      ensures Thread().hasState == (old(Thread().hasState) || Has(fs, kind, f))
      decreases code, 2
    {
      hide Runs, HookActs, Record, Current, Whole, UpTo, Part;
      if Has(fs, kind, f) {
        RunHook(kind, f, code);
      } else {
        Perform(SkipHook);
      }
    }

    /** if (func->has_around) */
    method RunMain(c: Native)
      requires Valid() && Thread().stack.Call? && Thread().stack.ready
      requires Thread().stack.f == c.f && Thread().stack.next == DoMain
      modifies this`world
      ensures Returned(old(Thread().stack.(next := DoAfter)), [])
      ensures Took(MainActs(fs, c, old(Thread().hasState)))
      ensures Thread().hasState == (old(Thread().hasState) || fs(c.f).around)
      decreases c, 0, 1
    {
      hide Runs, HookActs, OriginalActs, Inv, Move, Step, Stacked, HasScript, Holds, HasCall, ThreadOk, Record, Current, Whole;
      if fs(c.f).around {
        RunHook(Around, c.f, c.around);
      } else {
        RunOriginal(c);
      }
    }

    /** invoke<Rv, ...>(func, ...) within the wrapper */
    method RunOriginal(c: Native)
      requires Valid() && Thread().stack.Call? && Thread().stack.f == c.f && Thread().stack.next == DoMain
      requires Thread().stack.ready ==> !fs(c.f).around
      modifies this`world
      ensures Returned(old(Thread().stack.(next := if Thread().stack.ready then DoAfter else Return)), [])
      ensures Took(OriginalActs(c)) && Thread().hasState == old(Thread().hasState)
      decreases c, 0, 0
    {
      hide Runs, OriginalActs, NativeActs, Record, Current, Whole, UpTo, Part;
      ghost var w0 := world;
      Perform(StartOriginal);
      ghost var w1 := world;
      RunNative(c.body);
      ghost var w2 := world;
      Perform(FinishOriginal);
      OriginalRuns(fs, me, c, w0, w1, w2, world);
    }

    method RunNative(body: seq<Native>)
      requires Valid() && Code(Thread().stack) && HasCall(Thread().stack) && Thread().flag
      modifies this`world
      ensures Returned(old(Thread().stack), [])
      ensures Took(NativeActs(body)) && Thread().hasState == old(Thread().hasState)
      decreases body, 1
    {
      hide Inv, Enabled, Move, Step, Stacked, HasScript, Holds, HasCall, ThreadOk, Record, Current, Whole;
      hide Runs, NativeActs, NestedActs, OutermostActs;
      ghost var w := world;
      NothingYet(fs, me, w);
      assert body[..0] == [];
      for i := 0 to |body|
        invariant Returned(old(Thread().stack), []) && Thread().hasState == old(Thread().hasState)
        invariant Took(NativeActs(body[..i]))
      {
        ghost var x := world;
        Wrapper(body[i]);
        OneMoreNative(fs, me, body, i, w, x, world);
      }
      assert body[..|body|] == body;
    }

    /** before_call, around_call and after_call */
    method RunHook(kind: Kind, f: nat, code: seq<Lua>)
      requires Valid() && kind != Body && Thread().stack.Call? && Thread().stack.f == f
      requires Thread().stack.next == PhaseOf(kind) && Enabled(fs, world, me, StartHook)
      modifies this`world
      ensures Returned(old(Thread().stack.(next := NextPhase(PhaseOf(kind)))), [])
      ensures Took(HookActs(code, old(Thread().hasState))) && Thread().hasState
      decreases code, 1
    {
      hide Inv, Enabled, Move, Step, Stacked, HasScript, Holds, HasCall, ThreadOk, Record, Current, Whole;
      hide Runs, HookActs, StateActs, LuaActs;
      ghost var w0, has := world, Thread().hasState;
      OpenHook(kind, f);
      ghost var w1 := world;
      GetLuaState();
      ghost var w2 := world;
      TakeLock();
      ghost var w3 := world;
      RunLua(code);
      ghost var w4 := world;
      DropLock();
      HookRuns(fs, me, code, has, w0, w1, w2, w3, w4, world);
    }

    method OpenHook(kind: Kind, f: nat)
      requires Valid() && kind != Body && Thread().stack.Call? && Thread().stack.f == f
      requires Thread().stack.next == PhaseOf(kind) && Enabled(fs, world, me, StartHook)
      modifies this`world
      ensures Returned(Hook(kind, f, NeedState, old(Thread().stack.(next := NextPhase(PhaseOf(kind))))), [])
      ensures world.owner == Free
      ensures Took([StartHook]) && Thread().hasState == old(Thread().hasState)
    {
      hide Runs, Record, Current, Whole, UpTo, Part;
      NotHeld(fs, world.threads[me].stack);
      Perform(StartHook);
    }

    /** getLuaState */
    method GetLuaState()
      requires Valid() && world.owner == Free && Thread().stack.Hook? && Thread().stack.stage == NeedState
      modifies this`world
      ensures Returned(Hook(old(Thread().stack.kind), old(Thread().stack.f), NeedLock, old(Thread().stack.below)), [])
      ensures world.owner == Free && Thread().hasState
      ensures Took(StateActs(old(Thread().hasState)))
    {
      hide Runs, Record, Current, Whole, UpTo, Part;
      if world.threads[me].hasState {
        Perform(FindState);
      } else {
        ghost var w0 := world;
        Perform(LockForState);
        ghost var w1 := world;
        Perform(MadeState);
        RunsBoth(fs, w0, me, [LockForState], w1, [MadeState], world);
        assert [LockForState] + [MadeState] == [LockForState, MadeState];
      }
    }

    /** The constructor and the destructor of LuaStateHolder */
    method TakeLock()
      requires Valid() && world.owner == Free && Thread().stack.Hook? && Thread().stack.stage == NeedLock
      modifies this`world
      ensures Valid() && OthersSame(old(world), world, me) && Thread().done == old(Thread().done)
      ensures Thread().stack == Hook(old(Thread().stack.kind), old(Thread().stack.f), Running, old(Thread().stack.below))
      ensures Thread().flag && HasCall(Thread().stack) && world.owner == By(me)
      ensures Took([Lock]) && Thread().hasState == old(Thread().hasState)
    {
      hide Runs, Record, Current, Whole, UpTo, Part;
      assert HasCall(world.threads[me].stack.below);
      Perform(Lock);
    }

    method DropLock()
      requires Valid() && Thread().stack.Hook? && Thread().stack.stage == Running
      modifies this`world
      ensures Valid() && OthersSame(old(world), world, me) && Thread().done == old(Thread().done)
      ensures Thread().stack == old(Thread().stack.below)
      ensures Thread().flag == HasCall(Thread().stack) && world.owner == Free
      ensures Took([FinishLua]) && Thread().hasState == old(Thread().hasState)
    {
      hide Runs, Record, Current, Whole, UpTo, Part;
      Perform(FinishLua);
    }

    /** lua_pcall of a hook */
    method RunLua(code: seq<Lua>)
      requires Valid() && RunsScript(Thread().stack) && HasCall(Thread().stack) && Thread().flag
      modifies this`world
      ensures Returned(old(Thread().stack), [])
      ensures Took(LuaActs(code)) && Thread().hasState == old(Thread().hasState)
      decreases code, 0
    {
      hide Inv, Enabled, Move, Step, Stacked, HasScript, Holds, HasCall, ThreadOk, Record, Current, Whole;
      hide Runs, LuaActs, LuaCallActs;
      ghost var w := world;
      NothingYet(fs, me, w);
      assert code[..0] == [];
      for i := 0 to |code|
        invariant Returned(old(Thread().stack), []) && Thread().hasState == old(Thread().hasState)
        invariant Took(LuaActs(code[..i]))
      {
        ghost var x := world;
        RunLuaCall(code[i]);
        OneMoreLua(fs, me, code, i, w, x, world);
      }
      assert code[..|code|] == code;
    }

    /** do_invoke, do_usleep, or any other function that a script calls */
    method RunLuaCall(l: Lua)
      requires Valid() && RunsScript(Thread().stack) && HasCall(Thread().stack) && Thread().flag
      modifies this`world
      ensures Returned(old(Thread().stack), [])
      ensures Took(LuaCallActs(l)) && Thread().hasState == old(Thread().hasState)
      ensures l.Invokes? || (l.Sleeps? && l.howlong >= 1) ==> Took([Release] + NativeActs(l.body) + [Retake])
      ensures l.Sleeps? && l.howlong < 1 ==> world == old(world)
      decreases l
    {
      hide Runs, NestedActs, OutermostActs, NativeActs;
      NothingYet(fs, me, world);
      hide Record, Current, Whole, UpTo, Part;
      match l
      case Calls(call) => Wrapper(call);
      case Invokes(body) => RunReleased(body);
      case Sleeps(howlong, body) =>
        if howlong >= 1 {
          RunReleased(body);
        }
    }

    /** The extent of an AntiLockHolder */
    method RunReleased(body: seq<Native>)
      requires Valid() && RunsScript(Thread().stack) && HasCall(Thread().stack) && Thread().flag
      modifies this`world
      ensures Returned(old(Thread().stack), [])
      ensures Took(ReleasedActs(body)) && Thread().hasState == old(Thread().hasState)
      decreases body, 2
    {
      hide Runs, ReleasedActs, NativeActs, Record, Current, Whole, UpTo, Part;
      ghost var w0 := world;
      Perform(Release);
      ghost var w1 := world;
      RunNative(body);
      ghost var w2 := world;
      Perform(Retake);
      ReleasedRuns(fs, me, body, w0, w1, w2, world);
    }
  }

  /** Where a hook takes the mutex, the thread does not have it. */
  lemma NotHeld(fs: Functions, s: Stack)
    requires Stacked(fs, s) && s.Call? && s.ready && !HasScript(s)
    ensures !Holds(s)
  {
    if Holds(s) {
      LockedCode(fs, s);
    }
  }

  /** What the invariant says of the log, read across one call. */
  lemma LogGrew(fs: Functions, w: World, x: World, me: nat, f: nat)
    requires Inv(fs, w) && Inv(fs, x) && me < |w.threads| && me < |x.threads|
    requires x.threads[me].stack == w.threads[me].stack
    requires x.threads[me].done == w.threads[me].done + if w.threads[me].flag then [] else [f]
    ensures x.threads[me].log == w.threads[me].log + if w.threads[me].flag then [] else Whole(fs, f)
  {
    hide Whole, UpTo, Part;
    var was, now := w.threads[me], x.threads[me];
    assert ThreadOk(fs, was) && ThreadOk(fs, now);
    if !was.flag {
      NoCallNothingToTell(fs, was.stack);
      RecordOneMore(fs, was.done, f);
      assert now.done == was.done + [f];
    } else {
      assert now.done == was.done;
    }
  }
}
