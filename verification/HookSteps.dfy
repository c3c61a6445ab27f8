/**
  The steps that a call takes when its thread runs by itself, as a sequence: what native code and Lua code do is a tree
  of intercepted calls, and every call of the tree is made, in order, inside of the steps of the one that makes it.
  */
module HookSteps {
  import opened Hooks

  /** What native code and Lua code do: a tree of intercepted calls, with what their original functions
      and their advice do in turn. */
  datatype Native = Native(f: nat, body: seq<Native>, before: seq<Lua>, around: seq<Lua>, after: seq<Lua>)

  datatype Lua =
    | Calls(call: Native)
    | Invokes(body: seq<Native>)               // labrea.invoke
    | Sleeps(howlong: int, body: seq<Native>)  // labrea.usleep

  // ---------- the steps of a tree ----------

  /** A call inside of another one goes straight to the original function. */
  ghost function NestedActs(c: Native): seq<Act>
    decreases c, 1
  {
    [Enter(c.f)] + OriginalActs(c) + [Leave]
  }

  ghost function OriginalActs(c: Native): seq<Act>
    decreases c, 0
  {
    [StartOriginal] + NativeActs(c.body) + [FinishOriginal]
  }

  ghost function NativeActs(body: seq<Native>): seq<Act>
    decreases body, 0
  {
    if body == [] then [] else NativeActs(body[..|body| - 1]) + NestedActs(body[|body| - 1])
  }

  /** The extent of an AntiLockHolder */
  ghost function ReleasedActs(body: seq<Native>): seq<Act> { [Release] + NativeActs(body) + [Retake] }

  ghost function LuaCallActs(l: Lua): seq<Act> {
    match l
    case Calls(call) => NestedActs(call)
    case Invokes(body) => ReleasedActs(body)
    case Sleeps(howlong, body) => if howlong >= 1 then ReleasedActs(body) else []
  }

  ghost function LuaActs(code: seq<Lua>): seq<Act>
    decreases |code|
  {
    if code == [] then [] else LuaActs(code[..|code| - 1]) + LuaCallActs(code[|code| - 1])
  }

  /** `has`: does the thread have a Lua state? */
  ghost function StateActs(has: bool): seq<Act> { if has then [FindState] else [LockForState, MadeState] }

  ghost function HookActs(code: seq<Lua>, has: bool): seq<Act> {
    [StartHook] + StateActs(has) + [Lock] + LuaActs(code) + [FinishLua]
  }

  ghost function AdviceActs(fs: Functions, kind: Kind, f: nat, code: seq<Lua>, has: bool): seq<Act> {
    if Has(fs, kind, f) then HookActs(code, has) else [SkipHook]
  }

  ghost function MainActs(fs: Functions, c: Native, has: bool): seq<Act> {
    if fs(c.f).around then HookActs(c.around, has) else OriginalActs(c)
  }

  /** An outermost call: its first hook makes the Lua state if the thread has none. */
  ghost function OutermostActs(fs: Functions, c: Native, has: bool): seq<Act> {
    [Enter(c.f)] +
    AdviceActs(fs, Before, c.f, c.before, has) +
    MainActs(fs, c, has || fs(c.f).before) +
    AdviceActs(fs, After, c.f, c.after, has || fs(c.f).before || fs(c.f).around) +
    [Leave]
  }

  // ---------- steps of one thread ----------

  ghost function Steps(t: nat, acts: seq<Act>): (run: seq<(nat, Act)>)
    ensures |run| == |acts| && forall i | 0 <= i < |run| :: run[i] == (t, acts[i])
    decreases |acts|
  {
    if acts == [] then [] else [(t, acts[0])] + Steps(t, acts[1..])
  }

  /** Thread `t` alone takes these steps, one after the other. */
  ghost predicate Runs(fs: Functions, w: World, t: nat, acts: seq<Act>, x: World) { Leads(fs, w, Steps(t, acts), x) }

  lemma NothingYet(fs: Functions, t: nat, w: World)
    ensures Runs(fs, w, t, [], w) && NativeActs([]) == [] && LuaActs([]) == []
  {
  }

  lemma RunsOne(fs: Functions, w: World, t: nat, a: Act)
    requires Enabled(fs, w, t, a)
    ensures Runs(fs, w, t, [a], Step(fs, w, t, a))
  {
    assert Steps(t, [a]) == [(t, a)] + [];
    AddStep(fs, w, t, a, [], Step(fs, w, t, a));
  }

  lemma {:induction false} LeadsJoin(fs: Functions, w: World, a: seq<(nat, Act)>, x: World, b: seq<(nat, Act)>, y: World)
    requires Leads(fs, w, a, x) && Leads(fs, x, b, y)
    ensures Leads(fs, w, a + b, y)
    decreases |a|
  {
    hide Enabled, Step;
    if a == [] {
      assert a + b == b;
    } else {
      LeadsJoin(fs, Step(fs, w, a[0].0, a[0].1), a[1..], x, b, y);
      assert (a + b)[1..] == a[1..] + b;
    }
  }

  lemma RunsBoth(fs: Functions, w: World, t: nat, a: seq<Act>, x: World, b: seq<Act>, y: World)
    requires Runs(fs, w, t, a, x) && Runs(fs, x, t, b, y)
    ensures Runs(fs, w, t, a + b, y)
  {
    hide Leads, Steps;
    LeadsJoin(fs, w, Steps(t, a), x, Steps(t, b), y);
    StepsJoin(t, a, b);
  }

  lemma StepsJoin(t: nat, a: seq<Act>, b: seq<Act>)
    ensures Steps(t, a + b) == Steps(t, a) + Steps(t, b)
  {
    hide Steps;
  }

  lemma NestedRuns(fs: Functions, t: nat, c: Native, w0: World, w1: World, w2: World, w3: World)
    requires Runs(fs, w0, t, [Enter(c.f)], w1) && Runs(fs, w1, t, OriginalActs(c), w2) && Runs(fs, w2, t, [Leave], w3)
    ensures Runs(fs, w0, t, NestedActs(c), w3)
  {
    hide Runs, OriginalActs;
    RunsBoth(fs, w0, t, [Enter(c.f)], w1, OriginalActs(c), w2);
    RunsBoth(fs, w0, t, [Enter(c.f)] + OriginalActs(c), w2, [Leave], w3);
  }

  lemma OutermostRuns(fs: Functions, t: nat, c: Native, has: bool, w0: World, w1: World, w2: World, w3: World, w4: World, w5: World)
    requires Runs(fs, w0, t, [Enter(c.f)], w1)
    requires Runs(fs, w1, t, AdviceActs(fs, Before, c.f, c.before, has), w2)
    requires Runs(fs, w2, t, MainActs(fs, c, has || fs(c.f).before), w3)
    requires Runs(fs, w3, t, AdviceActs(fs, After, c.f, c.after, has || fs(c.f).before || fs(c.f).around), w4)
    requires Runs(fs, w4, t, [Leave], w5)
    ensures Runs(fs, w0, t, OutermostActs(fs, c, has), w5)
  {
    hide Runs, AdviceActs, MainActs;
    var a := AdviceActs(fs, Before, c.f, c.before, has);
    var b := MainActs(fs, c, has || fs(c.f).before);
    var d := AdviceActs(fs, After, c.f, c.after, has || fs(c.f).before || fs(c.f).around);
    RunsBoth(fs, w0, t, [Enter(c.f)], w1, a, w2);
    RunsBoth(fs, w0, t, [Enter(c.f)] + a, w2, b, w3);
    RunsBoth(fs, w0, t, [Enter(c.f)] + a + b, w3, d, w4);
    RunsBoth(fs, w0, t, [Enter(c.f)] + a + b + d, w4, [Leave], w5);
  }

  lemma OriginalRuns(fs: Functions, t: nat, c: Native, w0: World, w1: World, w2: World, w3: World)
    requires Runs(fs, w0, t, [StartOriginal], w1) && Runs(fs, w1, t, NativeActs(c.body), w2) && Runs(fs, w2, t, [FinishOriginal], w3)
    ensures Runs(fs, w0, t, OriginalActs(c), w3)
  {
    hide Runs, NativeActs;
    RunsBoth(fs, w0, t, [StartOriginal], w1, NativeActs(c.body), w2);
    RunsBoth(fs, w0, t, [StartOriginal] + NativeActs(c.body), w2, [FinishOriginal], w3);
  }

  lemma ReleasedRuns(fs: Functions, t: nat, body: seq<Native>, w0: World, w1: World, w2: World, w3: World)
    requires Runs(fs, w0, t, [Release], w1) && Runs(fs, w1, t, NativeActs(body), w2) && Runs(fs, w2, t, [Retake], w3)
    ensures Runs(fs, w0, t, ReleasedActs(body), w3)
  {
    hide Runs, NativeActs;
    RunsBoth(fs, w0, t, [Release], w1, NativeActs(body), w2);
    RunsBoth(fs, w0, t, [Release] + NativeActs(body), w2, [Retake], w3);
  }

  lemma HookRuns(fs: Functions, t: nat, code: seq<Lua>, has: bool, w0: World, w1: World, w2: World, w3: World, w4: World, w5: World)
    requires Runs(fs, w0, t, [StartHook], w1) && Runs(fs, w1, t, StateActs(has), w2) && Runs(fs, w2, t, [Lock], w3)
    requires Runs(fs, w3, t, LuaActs(code), w4) && Runs(fs, w4, t, [FinishLua], w5)
    ensures Runs(fs, w0, t, HookActs(code, has), w5)
  {
    hide Runs, LuaActs, StateActs;
    var a, b := StateActs(has), LuaActs(code);
    RunsBoth(fs, w0, t, [StartHook], w1, a, w2);
    RunsBoth(fs, w0, t, [StartHook] + a, w2, [Lock], w3);
    RunsBoth(fs, w0, t, [StartHook] + a + [Lock], w3, b, w4);
    RunsBoth(fs, w0, t, [StartHook] + a + [Lock] + b, w4, [FinishLua], w5);
  }

  lemma OneMoreNative(fs: Functions, t: nat, body: seq<Native>, i: nat, w: World, x: World, y: World)
    requires i < |body| && Runs(fs, w, t, NativeActs(body[..i]), x) && Runs(fs, x, t, NestedActs(body[i]), y)
    ensures Runs(fs, w, t, NativeActs(body[..i + 1]), y)
  {
    hide Runs, NestedActs;
    assert body[..i + 1][..i] == body[..i];
    RunsBoth(fs, w, t, NativeActs(body[..i]), x, NestedActs(body[i]), y);
  }

  lemma OneMoreLua(fs: Functions, t: nat, code: seq<Lua>, i: nat, w: World, x: World, y: World)
    requires i < |code| && Runs(fs, w, t, LuaActs(code[..i]), x) && Runs(fs, x, t, LuaCallActs(code[i]), y)
    ensures Runs(fs, w, t, LuaActs(code[..i + 1]), y)
  {
    hide Runs, LuaCallActs;
    assert code[..i + 1][..i] == code[..i];
    RunsBoth(fs, w, t, LuaActs(code[..i]), x, LuaCallActs(code[i]), y);
  }

  // ---------- which calls are made ----------

  /** The functions whose wrappers are entered inside of `depth` others, in the order of their steps. */
  ghost function EnteredAt(acts: seq<Act>, depth: int): seq<nat>
    decreases |acts|
  {
    if acts == [] then []
    else
      match acts[0]
      case Enter(f) => (if depth == 0 then [f] else []) + EnteredAt(acts[1..], depth - 1)
      case Leave => EnteredAt(acts[1..], depth + 1)
      case _ => EnteredAt(acts[1..], depth)
  }

  /** The functions called at a depth of a tree, in the order in which they are listed. */
  ghost function CallAt(c: Native, depth: int): seq<nat>
    decreases c, 0
  {
    if depth == 0 then [c.f] else CallsAt(c.body, depth - 1)
  }

  ghost function CallsAt(body: seq<Native>, depth: int): seq<nat>
    decreases body, 1
  {
    if body == [] then [] else CallsAt(body[..|body| - 1], depth) + CallAt(body[|body| - 1], depth)
  }

  ghost function LuaAt(code: seq<Lua>, depth: int): seq<nat>
    decreases |code|
  {
    if code == [] then []
    else
      LuaAt(code[..|code| - 1], depth) +
      match code[|code| - 1]
      case Calls(call) => CallAt(call, depth)
      case Invokes(body) => CallsAt(body, depth)
      case Sleeps(howlong, body) => if howlong >= 1 then CallsAt(body, depth) else []
  }

  lemma {:induction false} ListedInOrder(body: seq<Native>)
    ensures |CallsAt(body, 0)| == |body| && forall i | 0 <= i < |body| :: CallsAt(body, 0)[i] == body[i].f
    decreases |body|
  {
    if body != [] { ListedInOrder(body[..|body| - 1]); }
  }

  lemma EnteredFirst(a: Act, acts: seq<Act>, depth: int)
    ensures EnteredAt([a] + acts, depth) ==
            if a.Enter? then (if depth == 0 then [a.f] else []) + EnteredAt(acts, depth - 1)
            else EnteredAt(acts, if a.Leave? then depth + 1 else depth)
  {
    assert ([a] + acts)[1..] == acts;
  }

  /** Steps that make the calls `made` and leave every wrapper that they enter. */
  ghost predicate Makes(acts: seq<Act>, made: seq<nat>, depth: int) {
    forall more: seq<Act> :: EnteredAt(acts + more, depth) == made + EnteredAt(more, depth)
  }

  lemma MakesBoth(a: seq<Act>, b: seq<Act>, x: seq<nat>, y: seq<nat>, depth: int)
    requires Makes(a, x, depth) && Makes(b, y, depth)
    ensures Makes(a + b, x + y, depth)
  {
    forall more: seq<Act> ensures EnteredAt(a + b + more, depth) == x + y + EnteredAt(more, depth) {
      assert a + b + more == a + (b + more);
      assert x + (y + EnteredAt(more, depth)) == x + y + EnteredAt(more, depth);
    }
  }

  lemma MakesNone(depth: int)
    ensures Makes([], [], depth)
  {
    forall more: seq<Act> ensures EnteredAt([] + more, depth) == [] + EnteredAt(more, depth) {
      assert [] + more == more;
    }
  }

  lemma MakesQuietly(a: Act, depth: int)
    requires !a.Enter? && !a.Leave?
    ensures Makes([a], [], depth)
  {
    hide EnteredAt;
    forall more: seq<Act> ensures EnteredAt([a] + more, depth) == [] + EnteredAt(more, depth) {
      EnteredFirst(a, more, depth);
    }
  }

  lemma MakesWithin(f: nat, acts: seq<Act>, x: seq<nat>, depth: int)
    requires Makes(acts, x, depth - 1)
    ensures Makes([Enter(f)] + acts + [Leave], (if depth == 0 then [f] else []) + x, depth)
  {
    hide EnteredAt;
    forall more: seq<Act>
      ensures EnteredAt([Enter(f)] + acts + [Leave] + more, depth) == (if depth == 0 then [f] else []) + x + EnteredAt(more, depth)
    {
      EnteredFirst(Enter(f), acts + ([Leave] + more), depth);
      EnteredFirst(Leave, more, depth - 1);
      assert [Enter(f)] + acts + [Leave] + more == [Enter(f)] + (acts + ([Leave] + more));
    }
  }

  lemma {:induction false} NativeMakes(body: seq<Native>, depth: int)
    ensures Makes(NativeActs(body), CallsAt(body, depth), depth)
    ensures depth < 0 ==> CallsAt(body, depth) == []
    decreases body, 1
  {
    hide Makes;
    if body == [] {
      MakesNone(depth);
    } else {
      var most, last := body[..|body| - 1], body[|body| - 1];
      NativeMakes(most, depth);
      NestedMakes(last, depth);
      MakesBoth(NativeActs(most), NestedActs(last), CallsAt(most, depth), CallAt(last, depth), depth);
    }
  }

  lemma {:induction false} OriginalMakes(c: Native, depth: int)
    ensures Makes(OriginalActs(c), CallsAt(c.body, depth), depth)
    ensures depth < 0 ==> CallsAt(c.body, depth) == []
    decreases c, 0
  {
    hide Makes, NativeActs, CallsAt;
    var x := CallsAt(c.body, depth);
    MakesQuietly(StartOriginal, depth);
    NativeMakes(c.body, depth);
    MakesQuietly(FinishOriginal, depth);
    MakesBoth([StartOriginal], NativeActs(c.body), [], x, depth);
    MakesBoth([StartOriginal] + NativeActs(c.body), [FinishOriginal], [] + x, [], depth);
    assert [] + x + [] == x;
  }

  lemma {:induction false} NestedMakes(c: Native, depth: int)
    ensures Makes(NestedActs(c), CallAt(c, depth), depth)
    ensures depth < 0 ==> CallAt(c, depth) == []
    decreases c, 1
  {
    hide Makes, OriginalActs, CallsAt;
    OriginalMakes(c, depth - 1);
    MakesWithin(c.f, OriginalActs(c), CallsAt(c.body, depth - 1), depth);
    assert CallAt(c, depth) == (if depth == 0 then [c.f] else []) + CallsAt(c.body, depth - 1);
  }

  lemma ReleasedMakes(body: seq<Native>, depth: int)
    ensures Makes(ReleasedActs(body), CallsAt(body, depth), depth)
  {
    hide Makes, NativeActs, CallsAt;
    var x := CallsAt(body, depth);
    MakesQuietly(Release, depth);
    NativeMakes(body, depth);
    MakesQuietly(Retake, depth);
    MakesBoth([Release], NativeActs(body), [], x, depth);
    MakesBoth([Release] + NativeActs(body), [Retake], [] + x, [], depth);
    assert [] + x + [] == x;
  }

  lemma {:induction false} LuaMakes(code: seq<Lua>, depth: int)
    ensures Makes(LuaActs(code), LuaAt(code, depth), depth)
    decreases |code|
  {
    hide Makes, NestedActs, ReleasedActs, CallAt, CallsAt;
    MakesNone(depth);
    if code != [] {
      var most, last := code[..|code| - 1], code[|code| - 1];
      LuaMakes(most, depth);
      match last {
        case Calls(call) =>
          NestedMakes(call, depth);
          MakesBoth(LuaActs(most), NestedActs(call), LuaAt(most, depth), CallAt(call, depth), depth);
        case Invokes(body) =>
          ReleasedMakes(body, depth);
          MakesBoth(LuaActs(most), ReleasedActs(body), LuaAt(most, depth), CallsAt(body, depth), depth);
        case Sleeps(howlong, body) =>
          ReleasedMakes(body, depth);
          MakesBoth(LuaActs(most), LuaCallActs(last), LuaAt(most, depth), if howlong >= 1 then CallsAt(body, depth) else [], depth);
      }
    }
  }

  lemma HookMakes(code: seq<Lua>, has: bool, depth: int)
    ensures Makes(HookActs(code, has), LuaAt(code, depth), depth)
  {
    hide Makes, LuaActs, LuaAt;
    var x := LuaAt(code, depth);
    StateMakes(has, depth);
    MakesQuietly(StartHook, depth);
    MakesQuietly(Lock, depth);
    LuaMakes(code, depth);
    MakesQuietly(FinishLua, depth);
    MakesBoth([StartHook], StateActs(has), [], [], depth);
    MakesBoth([StartHook] + StateActs(has), [Lock], [], [], depth);
    MakesBoth([StartHook] + StateActs(has) + [Lock], LuaActs(code), [], x, depth);
    MakesBoth([StartHook] + StateActs(has) + [Lock] + LuaActs(code), [FinishLua], [] + x, [], depth);
    assert [] + x + [] == x;
  }

  lemma StateMakes(has: bool, depth: int)
    ensures Makes(StateActs(has), [], depth)
  {
    hide Makes;
    MakesQuietly(FindState, depth);
    MakesQuietly(LockForState, depth);
    MakesQuietly(MadeState, depth);
    MakesBoth([LockForState], [MadeState], [], [], depth);
    assert [LockForState] + [MadeState] == [LockForState, MadeState];
    var none: seq<nat> := [];
    assert none + none == none;
  }

  /** What the wrapper of an outermost call has done inside of it: the calls of its before advice, those of its around
      advice or else of its original function, and those of its after advice. */
  ghost function Asked(fs: Functions, c: Native, depth: int): seq<nat> {
    (if fs(c.f).before then LuaAt(c.before, depth) else []) +
    (if fs(c.f).around then LuaAt(c.around, depth) else CallsAt(c.body, depth)) +
    (if fs(c.f).after then LuaAt(c.after, depth) else [])
  }

  lemma AdviceMakes(fs: Functions, kind: Kind, f: nat, code: seq<Lua>, has: bool, depth: int)
    ensures Makes(AdviceActs(fs, kind, f, code, has), if Has(fs, kind, f) then LuaAt(code, depth) else [], depth)
  {
    hide Makes, HookActs, LuaAt;
    HookMakes(code, has, depth);
    MakesQuietly(SkipHook, depth);
  }

  lemma MainMakes(fs: Functions, c: Native, has: bool, depth: int)
    ensures Makes(MainActs(fs, c, has), if fs(c.f).around then LuaAt(c.around, depth) else CallsAt(c.body, depth), depth)
  {
    hide Makes, HookActs, OriginalActs, LuaAt, CallsAt;
    HookMakes(c.around, has, depth);
    OriginalMakes(c, depth);
  }

  /** Every call of the tree is made, at its depth and in its place. */
  lemma EveryCallIsMade(fs: Functions, c: Native, has: bool, depth: int)
    ensures EnteredAt(OutermostActs(fs, c, has), depth) == (if depth == 0 then [c.f] else []) + Asked(fs, c, depth - 1)
    ensures EnteredAt(NestedActs(c), depth) == (if depth == 0 then [c.f] else []) + CallsAt(c.body, depth - 1)
  {
    hide AdviceActs, MainActs, LuaAt, CallsAt, NestedActs, EnteredAt;
    OutermostMakes(fs, c, has, depth);
    NestedMakes(c, depth);
    Alone(OutermostActs(fs, c, has), (if depth == 0 then [c.f] else []) + Asked(fs, c, depth - 1), depth);
    Alone(NestedActs(c), CallAt(c, depth), depth);
    NativeMakes(c.body, depth - 1);
    assert CallAt(c, depth) == (if depth == 0 then [c.f] else []) + CallsAt(c.body, depth - 1);
  }

  lemma Alone(acts: seq<Act>, made: seq<nat>, depth: int)
    requires Makes(acts, made, depth)
    ensures EnteredAt(acts, depth) == made
  {
    assert acts + [] == acts;
    assert EnteredAt(acts + [], depth) == made + EnteredAt([], depth);
  }

  lemma OutermostMakes(fs: Functions, c: Native, has: bool, depth: int)
    ensures Makes(OutermostActs(fs, c, has), (if depth == 0 then [c.f] else []) + Asked(fs, c, depth - 1), depth)
  {
    hide Makes, AdviceActs, MainActs, LuaAt, CallsAt;
    var before := AdviceActs(fs, Before, c.f, c.before, has);
    var main := MainActs(fs, c, has || fs(c.f).before);
    var after := AdviceActs(fs, After, c.f, c.after, has || fs(c.f).before || fs(c.f).around);
    AdviceMakes(fs, Before, c.f, c.before, has, depth - 1);
    MainMakes(fs, c, has || fs(c.f).before, depth - 1);
    AdviceMakes(fs, After, c.f, c.after, has || fs(c.f).before || fs(c.f).around, depth - 1);
    var x := if fs(c.f).before then LuaAt(c.before, depth - 1) else [];
    var y := if fs(c.f).around then LuaAt(c.around, depth - 1) else CallsAt(c.body, depth - 1);
    var z := if fs(c.f).after then LuaAt(c.after, depth - 1) else [];
    MakesBoth(before, main, x, y, depth - 1);
    MakesBoth(before + main, after, x + y, z, depth - 1);
    MakesWithin(c.f, before + main + after, x + y + z, depth);
    assert OutermostActs(fs, c, has) == [Enter(c.f)] + (before + main + after) + [Leave];
  }

  // ---------- the mutex while it is let go ----------

  lemma {:induction false} NativeIsQuiet(body: seq<Native>)
    ensures forall a | a in NativeActs(body) :: !Takes(a) && !LetsGo(a)
    decreases body, 1
  {
    if body != [] {
      var most, last := body[..|body| - 1], body[|body| - 1];
      NativeIsQuiet(most);
      NativeIsQuiet(last.body);
      forall a | a in NativeActs(body) ensures !Takes(a) && !LetsGo(a) {
        assert a in NativeActs(most) || a in NestedActs(last);
        assert a in NestedActs(last) ==> a == Enter(last.f) || a in OriginalActs(last) || a == Leave;
      }
    }
  }

  lemma {:induction false} QuietKeepsOwner(fs: Functions, w: World, t: nat, acts: seq<Act>, x: World)
    requires Runs(fs, w, t, acts, x) && forall a | a in acts :: !Takes(a) && !LetsGo(a)
    ensures x.owner == w.owner
    decreases |acts|
  {
    hide Move, Enabled;
    if acts != [] {
      assert Steps(t, acts)[1..] == Steps(t, acts[1..]);
      QuietKeepsOwner(fs, Step(fs, w, t, acts[0]), t, acts[1..], x);
    }
  }

  /** From the first step of an AntiLockHolder up to its last one nobody has the mutex, whatever its extent does. */
  lemma FreeInBetween(fs: Functions, w: World, t: nat, body: seq<Native>, k: nat, x: World)
    requires 1 <= k < |ReleasedActs(body)| && Runs(fs, w, t, ReleasedActs(body)[..k], x)
    ensures x.owner == Free
  {
    hide Move, Enabled, NativeActs;
    var acts := ReleasedActs(body)[..k];
    NativeIsQuiet(body);
    assert acts[1..] == NativeActs(body)[..k - 1];
    assert Steps(t, acts)[1..] == Steps(t, acts[1..]);
    QuietKeepsOwner(fs, Step(fs, w, t, Release), t, acts[1..], x);
  }
}
