/**
  The hook wrapper of labrea and the hand-off of the Lua mutex (mkwrapfuns.py, mkcallfuns.py,
  script_state.hh, scripting.cc, locks.hh), as a machine over the steps of any number of threads.

  A thread's control state is the stack of what it is inside of; the stack is written with its top
  frame outermost, so what is beneath a frame is the frame's last field.
  */
module Hooks {

  /** Which advice a script defines for an intercepted function; set while scripts are loaded. */
  datatype Advice = Advice(before: bool, around: bool, after: bool)

  type Functions = nat -> Advice

  datatype Kind = Before | Around | After | Body

  /** What the wrapper does next when control comes back to it. */
  datatype Phase = DoBefore | DoMain | DoAfter | Return

  /** Where a script callback is: getLuaState, lua_newthread under the lock, waiting for the lock, Lua. */
  datatype Stage = NeedState | Making | NeedLock | Running

  datatype Stack =
    | Program
    | Call(f: nat, ready: bool, next: Phase, below: Stack)
    | Original(f: nat, below: Stack)
    | Hook(kind: Kind, f: nat, stage: Stage, below: Stack)
    | Script(stage: Stage, below: Stack)  // labrea_periodic and labrea_exiting: locked, but the flag is not set
    | Released(below: Stack)              // labrea.invoke and labrea.usleep, under an AntiLockHolder

  datatype Event = Entered(f: nat) | Began(kind: Kind, f: nat) | Ended(kind: Kind, f: nat) | Left(f: nat)

  /** `log` and `done` are history: what outermost calls did, and which have returned. */
  datatype Thread = Thread(stack: Stack, flag: bool, hasState: bool, log: seq<Event>, done: seq<nat>)

  datatype Owner = Free | By(thread: nat)

  datatype World = World(threads: seq<Thread>, owner: Owner)

  datatype Act =
    | Enter(f: nat)     // a wrapper is called: the constructor of LuaInvocation
    | StartHook         // before_call, around_call or after_call
    | SkipHook          // the function has no before or no after advice
    | StartOriginal
    | FinishOriginal
    | Leave             // the wrapper returns: the destructor of LuaInvocation
    | FindState         // getLuaState finds the thread's Lua state
    | LockForState      // getLuaState takes the lock to make one
    | MadeState
    | Lock              // LuaStateHolder, or the LockHolder of a script
    | FinishLua
    | Release           // the constructor of AntiLockHolder
    | Retake            // its destructor
    | StartScript       // timerLoop and destroyScriptingState

  // ---------- steps ----------

  /** Running code that may call an intercepted function. */
  predicate Code(s: Stack) {
    s.Program? || s.Original? || s.Released? || RunsScript(s)
  }

  predicate RunsScript(s: Stack) {
    (s.Hook? || s.Script?) && s.stage == Running
  }

  /** Lua's global state is touched, by a script or by lua_newthread. */
  predicate RunsLua(s: Stack) {
    RunsScript(s) || (s.Hook? && s.stage == Making)
  }

  predicate Has(fs: Functions, kind: Kind, f: nat) {
    match kind
    case Before => fs(f).before
    case Around => fs(f).around
    case After => fs(f).after
    case Body => !fs(f).around
  }

  /** The hook which belongs to a phase, and the phase which follows. */
  function HookOf(p: Phase): Kind {
    if p == DoBefore then Before else if p == DoMain then Around else After
  }

  function NextPhase(p: Phase): Phase {
    if p == DoBefore then DoMain else if p == DoMain then DoAfter else Return
  }

  predicate Enabled(fs: Functions, w: World, t: nat, a: Act) {
    t < |w.threads| &&
    var me := w.threads[t];
    var s := me.stack;
    match a
    case Enter(f) => Code(s)
    case StartHook => s.Call? && s.ready && s.next != Return && Has(fs, HookOf(s.next), s.f)
    case SkipHook => s.Call? && s.ready && (s.next == DoBefore || s.next == DoAfter) && !Has(fs, HookOf(s.next), s.f)
    case StartOriginal => s.Call? && s.next == DoMain && (s.ready ==> !fs(s.f).around)
    case FinishOriginal => s.Original?
    case Leave => s.Call? && s.next == Return
    case FindState => s.Hook? && s.stage == NeedState && me.hasState
    case LockForState => s.Hook? && s.stage == NeedState && !me.hasState && w.owner == Free
    case MadeState => s.Hook? && s.stage == Making
    case Lock => (s.Hook? || s.Script?) && s.stage == NeedLock && w.owner == Free
    case FinishLua => RunsScript(s)
    case Release => RunsScript(s)
    case Retake => s.Released? && w.owner == Free
    case StartScript => Code(s)
  }

  /** What a step does to the thread that takes it. */
  function Move(fs: Functions, me: Thread, a: Act): Thread {
    var s := me.stack;
    match a
    case Enter(f) =>
      var ready := !me.flag;
      me.(stack := Call(f, ready, if ready then DoBefore else DoMain, s),
          flag := true,
          log := me.log + if ready then [Entered(f)] else [])
    case StartHook => if s.Call? then me.(stack := Hook(HookOf(s.next), s.f, NeedState, s.(next := NextPhase(s.next)))) else me
    case SkipHook => if s.Call? then me.(stack := s.(next := NextPhase(s.next))) else me
    case StartOriginal =>
      if s.Call? then
        me.(stack := Original(s.f, s.(next := if s.ready then DoAfter else Return)),
            log := me.log + if s.ready then [Began(Body, s.f)] else [])
      else me
    case FinishOriginal =>
      if s.Original? then
        me.(stack := s.below,
            log := me.log + if s.below.Call? && s.below.ready then [Ended(Body, s.f)] else [])
      else me
    case Leave =>
      if s.Call? then
        if s.ready then me.(stack := s.below, flag := false, log := me.log + [Left(s.f)], done := me.done + [s.f])
        else me.(stack := s.below)
      else me
    case FindState => if s.Hook? then me.(stack := Hook(s.kind, s.f, NeedLock, s.below)) else me
    case LockForState => if s.Hook? then me.(stack := Hook(s.kind, s.f, Making, s.below)) else me
    case MadeState => if s.Hook? then me.(stack := Hook(s.kind, s.f, NeedLock, s.below), hasState := true) else me
    case Lock =>
      if s.Hook? then me.(stack := Hook(s.kind, s.f, Running, s.below), log := me.log + [Began(s.kind, s.f)])
      else if s.Script? then me.(stack := Script(Running, s.below))
      else me
    case FinishLua =>
      if s.Hook? then me.(stack := s.below, log := me.log + [Ended(s.kind, s.f)])
      else if s.Script? then me.(stack := s.below)
      else me
    case Release => me.(stack := Released(s))
    case Retake => if s.Released? then me.(stack := s.below) else me
    case StartScript => me.(stack := Script(NeedLock, s))
  }

  predicate Takes(a: Act) { a.LockForState? || a.Lock? || a.Retake? }

  predicate LetsGo(a: Act) { a.MadeState? || a.FinishLua? || a.Release? }

  /** Unlocking is not checked here: that only the owner unlocks is proved (OnlyTheOwnerUnlocks). */
  function Step(fs: Functions, w: World, t: nat, a: Act): World
    requires Enabled(fs, w, t, a)
  {
    World(w.threads[t := Move(fs, w.threads[t], a)],
          if Takes(a) then By(t) else if LetsGo(a) then Free else w.owner)
  }

  function Initial(n: nat): World {
    World(seq(n, _ => Thread(Program, false, false, [], [])), Free)
  }

  /** Every interleaving of the threads: `w` leads to `x` by the steps `run`. */
  ghost predicate Leads(fs: Functions, w: World, run: seq<(nat, Act)>, x: World)
    decreases |run|
  {
    if run == [] then x == w
    else Enabled(fs, w, run[0].0, run[0].1) && Leads(fs, Step(fs, w, run[0].0, run[0].1), run[1..], x)
  }

  // ---------- the invariant ----------

  /** Does a thread with this stack hold the mutex? */
  predicate Holds(s: Stack) {
    match s
    case Program => false
    case Call(_, _, _, below) => Holds(below)
    case Original(_, below) => Holds(below)
    case Hook(_, _, stage, below) => stage == Running || stage == Making || Holds(below)
    case Script(stage, below) => stage == Running || Holds(below)
    case Released(_) => false
  }

  predicate HasCall(s: Stack) {
    match s
    case Program => false
    case Call(_, _, _, _) => true
    case Original(_, below) => HasCall(below)
    case Hook(_, _, _, below) => HasCall(below)
    case Script(_, below) => HasCall(below)
    case Released(below) => HasCall(below)
  }

  predicate HasScript(s: Stack) {
    match s
    case Program => false
    case Call(_, _, _, below) => HasScript(below)
    case Original(_, below) => HasScript(below)
    case Hook(_, _, _, below) => HasScript(below)
    case Script(_, _) => true
    case Released(below) => HasScript(below)
  }

  /** Each frame stands on one that can have pushed it; a call runs hooks exactly if it is the
      outermost one, a nested call goes straight to the original function, and no lock is taken twice. */
  predicate Stacked(fs: Functions, s: Stack) {
    match s
    case Program => true
    case Call(f, ready, next, below) =>
      Stacked(fs, below) && Code(below) && ready == !HasCall(below) &&
      (!ready ==> next == DoMain || next == Return)
    case Original(f, below) =>
      Stacked(fs, below) && below.Call? && below.f == f &&
      (if below.ready then below.next == DoAfter && !fs(f).around else below.next == Return)
    case Hook(kind, f, stage, below) =>
      Stacked(fs, below) && below.Call? && below.ready && below.f == f &&
      kind != Body && Has(fs, kind, f) && below.next == NextPhase(PhaseOf(kind)) &&
      (RunsLua(s) ==> !Holds(below))
    case Script(stage, below) =>
      Stacked(fs, below) && Code(below) && (stage == NeedLock || stage == Running) &&
      (RunsLua(s) ==> !Holds(below))
    case Released(below) =>
      Stacked(fs, below) && RunsScript(below)
  }

  function PhaseOf(kind: Kind): Phase {
    if kind == Before then DoBefore else if kind == After then DoAfter else DoMain
  }

  /** The history the wrapper promises for one outermost call of f. */
  function Part(fs: Functions, kind: Kind, f: nat): seq<Event> {
    if Has(fs, kind, f) then [Began(kind, f), Ended(kind, f)] else []
  }

  function Whole(fs: Functions, f: nat): seq<Event> {
    [Entered(f)] + Part(fs, Before, f) + Part(fs, Around, f) + Part(fs, Body, f) + Part(fs, After, f) + [Left(f)]
  }

  /** One call's history, written out: around advice stands in for the original function. */
  lemma WholeMeans(fs: Functions, f: nat)
    ensures Whole(fs, f) ==
            [Entered(f)] +
            (if fs(f).before then [Began(Before, f), Ended(Before, f)] else []) +
            (if fs(f).around then [Began(Around, f), Ended(Around, f)] else [Began(Body, f), Ended(Body, f)]) +
            (if fs(f).after then [Began(After, f), Ended(After, f)] else []) +
            [Left(f)]
  {
    assert Part(fs, Around, f) + Part(fs, Body, f) ==
           if fs(f).around then [Began(Around, f), Ended(Around, f)] else [Began(Body, f), Ended(Body, f)];
    assert [Entered(f)] + Part(fs, Before, f) + Part(fs, Around, f) + Part(fs, Body, f) ==
           [Entered(f)] + Part(fs, Before, f) + (Part(fs, Around, f) + Part(fs, Body, f));
  }

  function Record(fs: Functions, done: seq<nat>): seq<Event>
    decreases |done|
  {
    if done == [] then [] else Record(fs, done[..|done| - 1]) + Whole(fs, done[|done| - 1])
  }

  /** The part of it that is behind a call about to do `p`. */
  function UpTo(fs: Functions, f: nat, p: Phase): seq<Event> {
    [Entered(f)] +
    (if p == DoBefore then [] else Part(fs, Before, f)) +
    (if p == DoBefore || p == DoMain then [] else Part(fs, Around, f) + Part(fs, Body, f)) +
    (if p == Return then Part(fs, After, f) else [])
  }

  /** What the outermost call on the stack has done so far. */
  function Current(fs: Functions, s: Stack): seq<Event> {
    match s
    case Program => []
    case Call(f, ready, next, below) => if ready then UpTo(fs, f, next) else Current(fs, below)
    case Original(f, below) =>
      if below.Call? && below.ready then UpTo(fs, f, DoMain) + [Began(Body, f)] else Current(fs, below)
    case Hook(kind, f, stage, below) =>
      UpTo(fs, f, PhaseOf(kind)) + if stage == Running then [Began(kind, f)] else []
    case Script(_, below) => Current(fs, below)
    case Released(below) => Current(fs, below)
  }

  predicate ThreadOk(fs: Functions, me: Thread) {
    Stacked(fs, me.stack) &&
    me.flag == HasCall(me.stack) &&
    me.log == Record(fs, me.done) + Current(fs, me.stack)
  }

  predicate Inv(fs: Functions, w: World) {
    (forall t | 0 <= t < |w.threads| :: ThreadOk(fs, w.threads[t])) &&
    (forall t | 0 <= t < |w.threads| :: Holds(w.threads[t].stack) <==> w.owner == By(t))
  }

  // ---------- every run keeps it ----------

  lemma RecordOneMore(fs: Functions, done: seq<nat>, f: nat)
    ensures Record(fs, done + [f]) == Record(fs, done) + Whole(fs, f)
  {
    assert (done + [f])[..|done|] == done;
  }

  /** A step other than the return of an outermost call adds the same events to the log and to the
      account of the current call. */
  predicate Grows(fs: Functions, me: Thread, n: Thread) {
    n.done == me.done && me.log <= n.log &&
    Current(fs, n.stack) == Current(fs, me.stack) + n.log[|me.log|..]
  }

  lemma CurrentGrows(fs: Functions, w: World, t: nat, a: Act)
    requires Enabled(fs, w, t, a) && ThreadOk(fs, w.threads[t])
    requires !(a.Leave? && w.threads[t].stack.ready)
    ensures Grows(fs, w.threads[t], Move(fs, w.threads[t], a))
  {
    var me := w.threads[t];
    match a {
      case Enter(f) => EnterGrows(fs, me, f);
      case SkipHook => SkipGrows(fs, me);
      case StartHook => StartGrows(fs, w, t);
      case FinishLua => FinishGrows(fs, me);
      case FinishOriginal => OriginalGrows(fs, me);
      case StartOriginal => EnterOriginalGrows(fs, me);
      case _ => QuietGrows(fs, w, t, a);
    }
  }

  lemma QuietGrows(fs: Functions, w: World, t: nat, a: Act)
    requires Enabled(fs, w, t, a) && Stacked(fs, w.threads[t].stack)
    requires !(a.Enter? || a.SkipHook? || a.StartHook? || a.FinishLua? || a.FinishOriginal? || a.StartOriginal?)
    requires !(a.Leave? && w.threads[t].stack.ready)
    ensures Grows(fs, w.threads[t], Move(fs, w.threads[t], a))
  {
    hide Record, Whole, UpTo, Part;
    var me := w.threads[t];
    var n := Move(fs, me, a);
    if a.Lock? && me.stack.Hook? {
      assert n.log[|me.log|..] == [Began(me.stack.kind, me.stack.f)];
    } else {
      assert n.log[|me.log|..] == [];
    }
  }

  lemma EnterOriginalGrows(fs: Functions, me: Thread)
    requires me.stack.Call? && me.stack.next == DoMain
    ensures Grows(fs, me, Move(fs, me, StartOriginal))
  {
    hide Record, Whole, Part;
    var s := me.stack;
    var n := Move(fs, me, StartOriginal);
    if s.ready {
      assert n.log[|me.log|..] == [Began(Body, s.f)];
    } else {
      assert n.log[|me.log|..] == [];
      assert Current(fs, s.(next := Return)) == Current(fs, s.below) == Current(fs, s);
    }
  }

  lemma EnterGrows(fs: Functions, me: Thread, f: nat)
    requires ThreadOk(fs, me)
    ensures Grows(fs, me, Move(fs, me, Enter(f)))
  {
    hide Record, Whole, Part;
    if !me.flag {
      NoCallNothingToTell(fs, me.stack);
    }
  }

  lemma StartGrows(fs: Functions, w: World, t: nat)
    requires Enabled(fs, w, t, StartHook)
    ensures Grows(fs, w.threads[t], Move(fs, w.threads[t], StartHook))
  {
    hide Record, Whole, Part;
    var me := w.threads[t];
    var n := Move(fs, me, StartHook);
    assert PhaseOf(HookOf(me.stack.next)) == me.stack.next;
    assert n.log[|me.log|..] == [];
  }

  lemma SkipGrows(fs: Functions, me: Thread)
    requires me.stack.Call? && me.stack.ready && (me.stack.next == DoBefore || me.stack.next == DoAfter)
    requires !Has(fs, HookOf(me.stack.next), me.stack.f)
    ensures Grows(fs, me, Move(fs, me, SkipHook))
  {
    hide Record, Whole, ThreadOk;
    assert Part(fs, HookOf(me.stack.next), me.stack.f) == [];
  }

  lemma FinishGrows(fs: Functions, me: Thread)
    requires RunsScript(me.stack) && Stacked(fs, me.stack)
    ensures Grows(fs, me, Move(fs, me, FinishLua))
  {
    hide Record, Whole, ThreadOk;
    var s := me.stack;
    if s.Hook? {
      HookPart(fs, s.kind, s.f);
    }
  }

  lemma HookPart(fs: Functions, kind: Kind, f: nat)
    requires kind != Body && Has(fs, kind, f)
    ensures UpTo(fs, f, NextPhase(PhaseOf(kind))) == UpTo(fs, f, PhaseOf(kind)) + [Began(kind, f)] + [Ended(kind, f)]
  {
  }

  lemma OriginalGrows(fs: Functions, me: Thread)
    requires me.stack.Original? && Stacked(fs, me.stack)
    ensures Grows(fs, me, Move(fs, me, FinishOriginal))
  {
    hide Record, Whole, ThreadOk;
    var s := me.stack;
    if s.below.ready {
      assert Part(fs, Around, s.f) == [];
      assert UpTo(fs, s.f, DoAfter) == UpTo(fs, s.f, DoMain) + [Began(Body, s.f)] + [Ended(Body, s.f)];
    }
  }

  lemma {:induction false} NoCallNothingToTell(fs: Functions, s: Stack)
    requires Stacked(fs, s) && !HasCall(s)
    ensures Current(fs, s) == []
  {
    if !s.Program? {
      NoCallNothingToTell(fs, s.below);
    }
  }

  /** One thread's step keeps what is said of that thread. */
  lemma MoveKeeps(fs: Functions, w: World, t: nat, a: Act)
    requires Enabled(fs, w, t, a)
    requires ThreadOk(fs, w.threads[t]) && (Takes(a) ==> !Holds(w.threads[t].stack))
    ensures ThreadOk(fs, Move(fs, w.threads[t], a))
  {
    MoveKeepsStack(fs, w, t, a);
    MoveKeepsLog(fs, w, t, a);
  }

  lemma MoveKeepsStack(fs: Functions, w: World, t: nat, a: Act)
    requires Enabled(fs, w, t, a)
    requires ThreadOk(fs, w.threads[t]) && (Takes(a) ==> !Holds(w.threads[t].stack))
    ensures var n := Move(fs, w.threads[t], a); Stacked(fs, n.stack) && n.flag == HasCall(n.stack)
  {
    hide Record, Current, Whole, UpTo, Part;
  }

  lemma MoveKeepsLog(fs: Functions, w: World, t: nat, a: Act)
    requires Enabled(fs, w, t, a)
    requires ThreadOk(fs, w.threads[t])
    ensures var n := Move(fs, w.threads[t], a); n.log == Record(fs, n.done) + Current(fs, n.stack)
  {
    hide Record, Current, Whole, Stacked, HasCall, Move;
    var me := w.threads[t];
    if a.Leave? && me.stack.ready {
      LeaveKeepsLog(fs, me);
    } else {
      CurrentGrows(fs, w, t, a);
    }
  }

  lemma LeaveKeepsLog(fs: Functions, me: Thread)
    requires ThreadOk(fs, me) && me.stack.Call? && me.stack.ready && me.stack.next == Return
    ensures var n := Move(fs, me, Leave); n.log == Record(fs, n.done) + Current(fs, n.stack)
  {
    hide Whole, UpTo, Part, Record;
    var f := me.stack.f;
    RecordOneMore(fs, me.done, f);
    NoCallNothingToTell(fs, me.stack.below);
    WholeIsUpTo(fs, f);
    assert Current(fs, me.stack) == UpTo(fs, f, Return);
  }

  lemma WholeIsUpTo(fs: Functions, f: nat)
    ensures UpTo(fs, f, Return) + [Left(f)] == Whole(fs, f)
  {
    hide Part;
  }

  /** The stack says whether its thread holds the mutex, through every step; whoever unlocks holds it. */
  lemma HoldsMoves(fs: Functions, w: World, t: nat, a: Act)
    requires Enabled(fs, w, t, a) && Stacked(fs, w.threads[t].stack)
    requires Takes(a) ==> !Holds(w.threads[t].stack)
    ensures Holds(Move(fs, w.threads[t], a).stack) ==
            (if Takes(a) then true else if LetsGo(a) then false else Holds(w.threads[t].stack))
    ensures LetsGo(a) ==> Holds(w.threads[t].stack)
  {
    hide Record, Current, Whole, UpTo, Part;
  }

  lemma OnlyTheOwnerUnlocks(fs: Functions, w: World, t: nat, a: Act)
    requires Inv(fs, w) && Enabled(fs, w, t, a) && LetsGo(a)
    ensures w.owner == By(t)
  {
    hide Record, Current;
    HoldsMoves(fs, w, t, a);
  }

  lemma StepKeeps(fs: Functions, w: World, t: nat, a: Act)
    requires Inv(fs, w) && Enabled(fs, w, t, a)
    ensures Inv(fs, Step(fs, w, t, a))
  {
    hide Move, Stacked, Record, Current;
    MoveKeeps(fs, w, t, a);
    HoldsMoves(fs, w, t, a);
  }

  lemma InitialInv(fs: Functions, n: nat)
    ensures Inv(fs, Initial(n))
  {
  }

  lemma {:induction false} RunKeeps(fs: Functions, w: World, run: seq<(nat, Act)>, x: World)
    requires Inv(fs, w) && Leads(fs, w, run, x)
    ensures Inv(fs, x)
    decreases |run|
  {
    hide Inv, Step, Enabled;
    if run != [] {
      StepKeeps(fs, w, run[0].0, run[0].1);
      RunKeeps(fs, Step(fs, w, run[0].0, run[0].1), run[1..], x);
    }
  }

  // ---------- what every run promises ----------

  /** A frame somewhere on a stack. */
  predicate Within(s: Stack, part: Stack) {
    s == part ||
    match s
    case Program => false
    case Call(_, _, _, below) => Within(below, part)
    case Original(_, below) => Within(below, part)
    case Hook(_, _, _, below) => Within(below, part)
    case Script(_, below) => Within(below, part)
    case Released(below) => Within(below, part)
  }

  lemma {:induction false} PartsAreStacked(fs: Functions, s: Stack, part: Stack)
    requires Stacked(fs, s) && Within(s, part)
    ensures Stacked(fs, part)
  {
    if s != part {
      PartsAreStacked(fs, s.below, part);
    }
  }

  /** At most one thread is in Lua, and it owns the mutex. */
  lemma OneThreadInLua(fs: Functions, n: nat, run: seq<(nat, Act)>, w: World, t: nat, u: nat)
    requires Leads(fs, Initial(n), run, w)
    requires t < |w.threads| && RunsLua(w.threads[t].stack)
    requires u < |w.threads| && RunsLua(w.threads[u].stack)
    ensures t == u && w.owner == By(t)
  {
    InitialInv(fs, n);
    RunKeeps(fs, Initial(n), run, w);
  }

  /** Hooks run only for a thread's outermost call, of a function which has that advice; nested calls
      run none. */
  lemma HooksOnlyForTheOutermost(fs: Functions, n: nat, run: seq<(nat, Act)>, w: World, t: nat, hook: Stack)
    requires Leads(fs, Initial(n), run, w)
    requires t < |w.threads| && Within(w.threads[t].stack, hook) && hook.Hook?
    ensures hook.below.Call? && hook.below.ready && !HasCall(hook.below.below)
    ensures hook.below.f == hook.f && hook.kind != Body && Has(fs, hook.kind, hook.f)
  {
    InitialInv(fs, n);
    RunKeeps(fs, Initial(n), run, w);
    PartsAreStacked(fs, w.threads[t].stack, hook);
  }

  /** The history of a thread is that of its finished outermost calls, each of them whole and in the
      order before, around or original, after, and then that of the call it is in. */
  lemma HistoryIsInOrder(fs: Functions, n: nat, run: seq<(nat, Act)>, w: World, t: nat)
    requires Leads(fs, Initial(n), run, w) && t < |w.threads|
    ensures w.threads[t].log == Record(fs, w.threads[t].done) + Current(fs, w.threads[t].stack)
    ensures w.threads[t].stack == Program ==> w.threads[t].log == Record(fs, w.threads[t].done)
  {
    InitialInv(fs, n);
    RunKeeps(fs, Initial(n), run, w);
  }

  /** The flag is a function of what the thread is inside of: a wrapper that has returned left it as
      it found it. */
  lemma FlagIsRestored(fs: Functions, n: nat, run: seq<(nat, Act)>, w: World,
                       onward: seq<(nat, Act)>, x: World, t: nat)
    requires Leads(fs, Initial(n), run, w) && Leads(fs, w, onward, x)
    requires t < |w.threads| && t < |x.threads| && x.threads[t].stack == w.threads[t].stack
    ensures x.threads[t].flag == w.threads[t].flag == HasCall(w.threads[t].stack)
  {
    InitialInv(fs, n);
    RunKeeps(fs, Initial(n), run, w);
    RunKeeps(fs, w, onward, x);
  }

  // ---------- the original and the mutex ----------

  /** `s` is inside of `part`, perhaps through nested intercepted calls and their originals. */
  predicate Inside(s: Stack, part: Stack) {
    s == part || ((s.Call? || s.Original?) && Inside(s.below, part))
  }

  lemma {:induction false} InsideHolds(fs: Functions, s: Stack, part: Stack)
    requires Stacked(fs, s) && Inside(s, part)
    ensures Holds(s) == Holds(part) && Stacked(fs, part)
  {
    if s != part {
      InsideHolds(fs, s.below, part);
    }
  }

  /** While an outermost call is inside the original function, its thread holds the mutex if and only
      if the call was made by a script that runs without the flag, labrea_periodic or labrea_exiting. */
  lemma OriginalHoldsTheMutexIff(fs: Functions, n: nat, run: seq<(nat, Act)>, w: World, t: nat, call: Stack)
    requires Leads(fs, Initial(n), run, w) && t < |w.threads|
    requires call.Call? && call.ready && Inside(w.threads[t].stack, Original(call.f, call))
    ensures w.owner == By(t) <==> call.below.Script?
  {
    InitialInv(fs, n);
    RunKeeps(fs, Initial(n), run, w);
    hide Record, Current, Whole, UpTo, Part;
    InsideHolds(fs, w.threads[t].stack, Original(call.f, call));
    CallerHolds(fs, call);
  }

  lemma CallerHolds(fs: Functions, call: Stack)
    requires Stacked(fs, call) && call.Call? && call.ready
    ensures Holds(call.below) <==> call.below.Script?
  {
    assert call.below.Original? || call.below.Hook? ==> HasCall(call.below.below);
  }

  /** The same for what labrea.invoke and labrea.usleep do: the mutex is never held there. */
  lemma ReleasedHoldsNothing(fs: Functions, n: nat, run: seq<(nat, Act)>, w: World, t: nat, part: Stack)
    requires Leads(fs, Initial(n), run, w) && t < |w.threads|
    requires part.Released? && Inside(w.threads[t].stack, part)
    ensures w.owner != By(t)
  {
    InitialInv(fs, n);
    RunKeeps(fs, Initial(n), run, w);
    hide Record, Current, Whole, UpTo, Part;
    InsideHolds(fs, w.threads[t].stack, part);
  }

  // ---------- letting go of the mutex ----------

  /** The thread is at a place that takes the mutex. */
  predicate Waits(s: Stack) {
    s.Released? ||
    (s.Hook? && (s.stage == NeedState || s.stage == NeedLock)) ||
    (s.Script? && s.stage == NeedLock)
  }

  /** A thread waits for a mutex which it holds itself only through a script that ignores the flag. */
  lemma WaitsForItself(fs: Functions, n: nat, run: seq<(nat, Act)>, w: World, t: nat)
    requires Leads(fs, Initial(n), run, w) && t < |w.threads|
    requires Waits(w.threads[t].stack) && w.owner == By(t)
    ensures HasScript(w.threads[t].stack)
  {
    InitialInv(fs, n);
    RunKeeps(fs, Initial(n), run, w);
    hide Record, Current, Whole, UpTo, Part;
    if !HasScript(w.threads[t].stack) {
      LockedCode(fs, w.threads[t].stack);
    }
  }

  /** Without such a script, the only frames over Lua are nested calls and their originals. */
  lemma {:induction false} LockedCode(fs: Functions, s: Stack)
    requires Stacked(fs, s) && Holds(s) && !HasScript(s)
    ensures RunsLua(s) || (s.Original? && !s.below.ready && Holds(s.below)) || (s.Call? && !s.ready && Holds(s.below))
  {
    match s
    case Call(_, ready, _, below) =>
      CodeOverLua(fs, below);
    case Original(_, below) =>
      CodeOverLua(fs, below.below);
    case Hook(_, _, _, below) =>
      if !RunsLua(s) {
        CodeOverLua(fs, below.below);
      }
  }

  lemma {:induction false} CodeOverLua(fs: Functions, s: Stack)
    requires Stacked(fs, s) && Code(s) && Holds(s) && !HasScript(s)
    ensures HasCall(s)
  {
  }

  function ToDo(p: Phase): nat {
    match p
    case DoBefore => 4
    case DoMain => 3
    case DoAfter => 1
    case Return => 0
  }

  function Depth(s: Stack): nat {
    match s
    case Program => 0
    case Call(_, _, next, below) => Depth(below) + 2 + ToDo(next)
    case Original(_, below) => Depth(below) + 1
    case Hook(_, _, _, below) => Depth(below) + 1
    case Script(_, below) => Depth(below) + 1
    case Released(below) => Depth(below) + 1
  }

  predicate OnlyBy(t: nat, run: seq<(nat, Act)>) {
    forall i | 0 <= i < |run| :: run[i].0 == t
  }

  lemma AddStep(fs: Functions, w: World, t: nat, a: Act, run: seq<(nat, Act)>, x: World)
    requires Enabled(fs, w, t, a) && Leads(fs, Step(fs, w, t, a), run, x)
    ensures Leads(fs, w, [(t, a)] + run, x)
  {
    assert ([(t, a)] + run)[1..] == run;
  }

  lemma DepthDrops(fs: Functions, w: World, t: nat, a: Act)
    requires Enabled(fs, w, t, a) && (a.FinishOriginal? || a.Leave? || (a.StartOriginal? && !w.threads[t].stack.ready))
    ensures Depth(Move(fs, w.threads[t], a).stack) < Depth(w.threads[t].stack)
    ensures HasScript(Move(fs, w.threads[t], a).stack) == HasScript(w.threads[t].stack)
  {
    var s := w.threads[t].stack;
    if a.StartOriginal? {
      assert Depth(Original(s.f, s.(next := Return))) == Depth(s.(next := Return)) + 1;
    }
  }

  /** An owner that is not under such a script can always go on, by itself, until it lets go: hooks
      never wait for each other in a circle. */
  lemma {:induction false} OwnerLetsGo(fs: Functions, w: World, t: nat) returns (run: seq<(nat, Act)>, x: World)
    requires Inv(fs, w) && w.owner == By(t) && t < |w.threads| && !HasScript(w.threads[t].stack)
    ensures Leads(fs, w, run, x) && OnlyBy(t, run) && x.owner == Free
    decreases Depth(w.threads[t].stack)
  {
    hide Record, Current, Whole, UpTo, Part;
    var s := w.threads[t].stack;
    LockedCode(fs, s);
    if RunsLua(s) {
      var a := if s.stage == Making then MadeState else FinishLua;
      run, x := [(t, a)], Step(fs, w, t, a);
      AddStep(fs, w, t, a, [], x);
    } else {
      var a := if s.Original? then FinishOriginal else if s.next == Return then Leave else StartOriginal;
      StepKeeps(fs, w, t, a);
      DepthDrops(fs, w, t, a);
      var onward;
      onward, x := OwnerLetsGo(fs, Step(fs, w, t, a), t);
      AddStep(fs, w, t, a, onward, x);
      run := [(t, a)] + onward;
    }
  }

  /** A thread that waits for a mutex which it holds itself waits for ever, and with it everyone who
      needs the mutex. */
  lemma {:induction false} StuckForever(fs: Functions, w: World, run: seq<(nat, Act)>, x: World, t: nat)
    requires Inv(fs, w) && w.owner == By(t) && t < |w.threads| && Waits(w.threads[t].stack)
    requires Leads(fs, w, run, x)
    ensures x.owner == By(t) && t < |x.threads| && Waits(x.threads[t].stack) && x.threads[t].stack.below == w.threads[t].stack.below
    decreases |run|
  {
    hide Record, Current, Whole, UpTo, Part;
    if run != [] {
      var u, a := run[0].0, run[0].1;
      StepKeeps(fs, w, u, a);
      if LetsGo(a) {
        OnlyTheOwnerUnlocks(fs, w, u, a);
      }
      StuckForever(fs, Step(fs, w, u, a), run[1..], x, t);
    }
  }

  /** Is there advice which a call has not run yet? */
  predicate AdviceFrom(fs: Functions, f: nat, p: Phase) {
    (p == DoBefore && fs(f).before) ||
    ((p == DoBefore || p == DoMain) && fs(f).around) ||
    (p != Return && fs(f).after)
  }

  /** The step of a wrapper that is about to do s.next, or to return from the original function. */
  function NextAct(fs: Functions, s: Stack): Act
    requires s.Call? || s.Original?
  {
    if s.Original? then FinishOriginal
    else if s.next == Return then Leave
    else if Has(fs, HookOf(s.next), s.f) then StartHook
    else if s.next == DoMain then StartOriginal
    else SkipHook
  }

  /** Left to itself, a wrapper comes to its next hook, or returns if there is none. */
  lemma {:induction false} WrapperGoesOn(fs: Functions, w: World, t: nat, call: Stack)
    returns (run: seq<(nat, Act)>, x: World)
    requires Inv(fs, w) && t < |w.threads| && call.Call? && call.ready
    requires w.threads[t].stack == call || w.threads[t].stack == Original(call.f, call)
    ensures Leads(fs, w, run, x) && OnlyBy(t, run) && Inv(fs, x) && x.owner == w.owner && t < |x.threads|
    ensures if AdviceFrom(fs, call.f, call.next)
            then x.threads[t].stack.Hook? && x.threads[t].stack.stage == NeedState
            else x.threads[t].stack == call.below
    decreases Depth(w.threads[t].stack)
  {
    hide Inv, Stacked, Enabled, Move, Depth, Leads;
    var s := w.threads[t].stack;
    var a := NextAct(fs, s);
    NextActIsEnabled(fs, w, t);
    StepKeeps(fs, w, t, a);
    var y := Step(fs, w, t, a);
    NextActMoves(fs, w.threads[t], call);
    if a.StartHook? || a.Leave? {
      NoSteps(fs, y);
      run, x := [(t, a)] + [], y;
      AddStep(fs, w, t, a, [], x);
    } else {
      var n := y.threads[t].stack;
      var onward;
      onward, x := WrapperGoesOn(fs, y, t, if n.Original? then n.below else n);
      AddStep(fs, w, t, a, onward, x);
      run := [(t, a)] + onward;
    }
  }

  lemma NoSteps(fs: Functions, w: World)
    ensures Leads(fs, w, [], w)
  {
  }

  lemma NextActIsEnabled(fs: Functions, w: World, t: nat)
    requires t < |w.threads| && (w.threads[t].stack.Original? || (w.threads[t].stack.Call? && w.threads[t].stack.ready))
    ensures Enabled(fs, w, t, NextAct(fs, w.threads[t].stack))
  {
  }

  lemma NextActMoves(fs: Functions, me: Thread, call: Stack)
    requires call.Call? && call.ready && (me.stack == call || me.stack == Original(call.f, call))
    ensures var a := NextAct(fs, me.stack);
            var n := Move(fs, me, a).stack;
            !Takes(a) && !LetsGo(a) &&
            (a.StartHook? ==> n.Hook? && n.stage == NeedState && AdviceFrom(fs, call.f, call.next)) &&
            (a.Leave? ==> n == call.below && !AdviceFrom(fs, call.f, call.next)) &&
            (!a.StartHook? && !a.Leave? ==>
               Depth(n) < Depth(me.stack) &&
               var c := if n.Original? then n.below else n;
               c.Call? && c.ready && c.f == call.f && c.below == call.below && (n == c || n == Original(c.f, c)) &&
               AdviceFrom(fs, c.f, c.next) == AdviceFrom(fs, call.f, call.next))
  {
  }

  /** So labrea_periodic and labrea_exiting may call exactly the functions without advice: the call of
      one that has advice comes to wait for the mutex its own thread holds, and StuckForever applies. */
  lemma ScriptCallSticksIff(fs: Functions, w: World, t: nat, f: nat) returns (run: seq<(nat, Act)>, x: World)
    requires Inv(fs, w) && t < |w.threads| && !w.threads[t].flag
    requires w.threads[t].stack.Script? && RunsScript(w.threads[t].stack)
    ensures Leads(fs, w, [(t, Enter(f))] + run, x) && OnlyBy(t, run)
    ensures Inv(fs, x) && x.owner == By(t) && t < |x.threads|
    ensures Waits(x.threads[t].stack) <==> fs(f).before || fs(f).around || fs(f).after
    ensures !Waits(x.threads[t].stack) ==> x.threads[t].stack == w.threads[t].stack
  {
    hide Record, Current, Whole, UpTo, Part;
    StepKeeps(fs, w, t, Enter(f));
    var y := Step(fs, w, t, Enter(f));
    run, x := WrapperGoesOn(fs, y, t, y.threads[t].stack);
    AddStep(fs, w, t, Enter(f), run, x);
  }

  // ---------- such calls never come back ----------

  /** The thread is in a call that a script made from `base`, with advice still to run, or waits for
      the mutex in front of a hook; what it may be inside of besides are nested calls, originals and
      scripts that wait as well. */
  predicate Hung(fs: Functions, s: Stack, base: Stack) {
    match s
    case Call(f, ready, next, below) => if ready then below == base && AdviceFrom(fs, f, next) else Hung(fs, below, base)
    case Original(_, below) => Hung(fs, below, base)
    case Hook(_, _, stage, below) => !RunsLua(s) && below.Call? && below.below == base
    case Script(stage, below) => stage == NeedLock && Hung(fs, below, base)
    case _ => false
  }

  lemma {:induction false} HungHolds(fs: Functions, s: Stack, base: Stack)
    requires Hung(fs, s, base) && Holds(base)
    ensures Holds(s)
  {
    if !s.Hook? && !(s.Call? && s.ready) {
      HungHolds(fs, s.below, base);
    }
  }

  lemma {:induction false} HungHasCall(fs: Functions, s: Stack, base: Stack)
    requires Hung(fs, s, base)
    ensures HasCall(s)
  {
    if s.Script? || s.Original? {
      HungHasCall(fs, s.below, base);
    }
  }

  lemma HungStays(fs: Functions, w: World, t: nat, a: Act, base: Stack)
    requires Enabled(fs, w, t, a) && ThreadOk(fs, w.threads[t])
    requires w.owner != Free && Hung(fs, w.threads[t].stack, base)
    ensures Hung(fs, Move(fs, w.threads[t], a).stack, base)
  {
    hide Record, Current, Whole, UpTo, Part;
    HungHasCall(fs, w.threads[t].stack, base);
  }

  /** Whatever all threads do, a call of a function with advice, made by a script that ignores the
      flag, does not return, and the mutex stays taken. */
  lemma {:induction false} ScriptCallNeverReturns(fs: Functions, w: World, run: seq<(nat, Act)>, x: World, t: nat, base: Stack)
    requires Inv(fs, w) && t < |w.threads| && Holds(base) && Hung(fs, w.threads[t].stack, base)
    requires Leads(fs, w, run, x)
    ensures t < |x.threads| && x.owner == By(t) && Hung(fs, x.threads[t].stack, base) && x.threads[t].stack != base
    decreases |run|
  {
    hide Record, Current, Whole, UpTo, Part, Stacked, Move, Hung, HasCall;
    HungHolds(fs, w.threads[t].stack, base);
    if run != [] {
      var u, a := run[0].0, run[0].1;
      StepKeeps(fs, w, u, a);
      if u == t {
        HungStays(fs, w, t, a, base);
      }
      ScriptCallNeverReturns(fs, Step(fs, w, u, a), run[1..], x, t, base);
    } else {
      NotTheBase(fs, w.threads[t].stack, base);
    }
  }

  lemma NotTheBase(fs: Functions, s: Stack, base: Stack)
    requires Hung(fs, s, base)
    ensures s != base
  {
    HungIsAbove(fs, s, base);
  }

  lemma {:induction false} HungIsAbove(fs: Functions, s: Stack, base: Stack)
    requires Hung(fs, s, base)
    ensures Depth(s) > Depth(base)
  {
    if s.Hook? {
    } else if !(s.Call? && s.ready) {
      HungIsAbove(fs, s.below, base);
    }
  }

  /** So such a call can return if and only if the function has no advice. */
  lemma ScriptCallReturnsIff(fs: Functions, w: World, t: nat, f: nat)
    requires Inv(fs, w) && t < |w.threads| && !w.threads[t].flag
    requires w.threads[t].stack.Script? && RunsScript(w.threads[t].stack)
    ensures (exists run, x :: Leads(fs, Step(fs, w, t, Enter(f)), run, x) && t < |x.threads| && x.threads[t].stack == w.threads[t].stack)
            <==> !(fs(f).before || fs(f).around || fs(f).after)
  {
    hide Record, Current, Whole, UpTo, Part, Stacked;
    var base := w.threads[t].stack;
    var y := Step(fs, w, t, Enter(f));
    StepKeeps(fs, w, t, Enter(f));
    if fs(f).before || fs(f).around || fs(f).after {
      forall run, x | Leads(fs, y, run, x) && t < |x.threads| ensures x.threads[t].stack != base {
        ScriptCallNeverReturns(fs, y, run, x, t, base);
      }
    } else {
      var run, x := WrapperGoesOn(fs, y, t, y.threads[t].stack);
      assert Leads(fs, y, run, x);
    }
  }

  /** A script that ignores the flag, from the beginning of the program on. */
  lemma ScriptRuns(fs: Functions)
    ensures var script := Script(Running, Program);
            Leads(fs, Initial(1), [(0, StartScript), (0, Lock)], World([Thread(script, false, false, [], [])], By(0)))
  {
    var w := Initial(1);
    var w1 := Step(fs, w, 0, StartScript);
    assert w1 == World([Thread(Script(NeedLock, Program), false, false, [], [])], Free);
    var w2 := Step(fs, w1, 0, Lock);
    assert w2 == World([Thread(Script(Running, Program), false, false, [], [])], By(0));
    NoSteps(fs, w2);
    AddStep(fs, w1, 0, Lock, [], w2);
    AddStep(fs, w, 0, StartScript, [(0, Lock)], w2);
    assert [(0, StartScript)] + [(0, Lock)] == [(0, StartScript), (0, Lock)];
  }

  /** It happens: the original function of an outermost call runs with the mutex held. */
  lemma OriginalCanHoldTheMutex(fs: Functions, f: nat) returns (run: seq<(nat, Act)>, w: World)
    requires !fs(f).before && !fs(f).around
    ensures Leads(fs, Initial(1), run, w) && |w.threads| == 1 && w.owner == By(0)
    ensures w.threads[0].stack == Original(f, Call(f, true, DoAfter, Script(Running, Program)))
  {
    hide Leads, Record, Current, Whole, UpTo, Part;
    ScriptRuns(fs);
    var w0 := World([Thread(Script(Running, Program), false, false, [], [])], By(0));
    var w1 := Step(fs, w0, 0, Enter(f));
    var w2 := Step(fs, w1, 0, SkipHook);
    w := Step(fs, w2, 0, StartOriginal);
    NoSteps(fs, w);
    AddStep(fs, w2, 0, StartOriginal, [], w);
    AddStep(fs, w1, 0, SkipHook, [(0, StartOriginal)] + [], w);
    var onward := [(0, SkipHook)] + ([(0, StartOriginal)] + []);
    AddStep(fs, w0, 0, Enter(f), onward, w);
    run := [(0, StartScript), (0, Lock)] + ([(0, Enter(f))] + onward);
    LeadsOn(fs, Initial(1), [(0, StartScript), (0, Lock)], w0, [(0, Enter(f))] + onward, w);
  }

  /** It happens: a thread waits for the mutex it owns, and will for ever. */
  lemma ScriptCallCanStick(fs: Functions, f: nat) returns (run: seq<(nat, Act)>, w: World)
    requires fs(f).before || fs(f).around || fs(f).after
    ensures Leads(fs, Initial(1), run, w) && |w.threads| == 1 && w.owner == By(0) && Waits(w.threads[0].stack)
  {
    ScriptRuns(fs);
    var w0 := World([Thread(Script(Running, Program), false, false, [], [])], By(0));
    var start := [(0, StartScript), (0, Lock)];
    InitialInv(fs, 1);
    RunKeeps(fs, Initial(1), start, w0);
    var onward;
    onward, w := ScriptCallSticksIff(fs, w0, 0, f);
    run := start + ([(0, Enter(f))] + onward);
    LeadsOn(fs, Initial(1), start, w0, [(0, Enter(f))] + onward, w);
    SameThreads(fs, w0, [(0, Enter(f))] + onward, w);
  }

  lemma {:induction false} LeadsOn(fs: Functions, w: World, run: seq<(nat, Act)>, x: World, onward: seq<(nat, Act)>, y: World)
    requires Leads(fs, w, run, x) && Leads(fs, x, onward, y)
    ensures Leads(fs, w, run + onward, y)
    decreases |run|
  {
    hide Step, Enabled;
    if run == [] {
      assert run + onward == onward;
    } else {
      assert (run + onward)[1..] == run[1..] + onward;
      LeadsOn(fs, Step(fs, w, run[0].0, run[0].1), run[1..], x, onward, y);
    }
  }

  lemma {:induction false} SameThreads(fs: Functions, w: World, run: seq<(nat, Act)>, x: World)
    requires Leads(fs, w, run, x)
    ensures |x.threads| == |w.threads|
    decreases |run|
  {
    if run != [] {
      hide Move, Enabled;
      SameThreads(fs, Step(fs, w, run[0].0, run[0].1), run[1..], x);
    }
  }
}
