/**
  Backtracking as a function, and the proof that it finds the preferred match: the one whose choices come first
  in the order of `Patterns.Prefers` among all choices that lead to a match.
  */
module Backtracking {
  import opened Patterns

  /** How many characters from `s` on the class takes at most. */
  function RunLength(m: Matcher, item: Item, s: nat): (n: nat)
    requires item.Single? && s <= |m.src|
    ensures s + n <= |m.src| && (forall i | s <= i < s + n :: Takes(m, item, i))
    ensures !Takes(m, item, s + n)
    decreases |m.src| - s
  {
    if Takes(m, item, s) then 1 + RunLength(m, item, s + 1) else 0
  }

  /** Matching the items at `s`: the first way that works. */
  function Best(m: Matcher, items: seq<Item>, s: nat, caps: seq<Capture>): Outcome
    requires s <= |m.src|
    decreases |items|, 0, 0
  {
    if items == [] then Hit(s, caps)
    else
      var item, rest := items[0], items[1..];
      if item.Single? then
        match item.rep
        case Once => if Takes(m, item, s) then Best(m, rest, s + 1, caps) else Miss
        case Optional =>
          var r := if Takes(m, item, s) then Best(m, rest, s + 1, caps) else Miss;
          if r.Miss? then Best(m, rest, s, caps) else r
        case Star => Longest(m, rest, s, RunLength(m, item, s), caps)
        case Plus => if Takes(m, item, s) then Longest(m, rest, s + 1, RunLength(m, item, s + 1), caps) else Miss
        case Minus => Shortest(m, item, rest, s, caps)
      else
        match Fixed(m, item, s, caps)
        case To(t, caps') => FixedInside(m, item, s, caps); Best(m, rest, t, caps')
        case Stop => Miss
        case Fault(err) => Raise(err)
  }

  /** `max_expand`: with `n` characters, or fewer if that fails. */
  function Longest(m: Matcher, rest: seq<Item>, s: nat, n: nat, caps: seq<Capture>): Outcome
    requires s + n <= |m.src|
    decreases |rest|, 1, n
  {
    var r := Best(m, rest, s + n, caps);
    if !r.Miss? || n == 0 then r else Longest(m, rest, s, n - 1, caps)
  }

  /** `min_expand`: without a character, or with more if that fails. */
  function Shortest(m: Matcher, item: Item, rest: seq<Item>, s: nat, caps: seq<Capture>): Outcome
    requires item.Single? && s <= |m.src|
    decreases |rest|, 1, |m.src| - s
  {
    var r := Best(m, rest, s, caps);
    if !r.Miss? then r
    else if Takes(m, item, s) then Shortest(m, item, rest, s + 1, caps)
    else Miss
  }

  // ---------- the preferred choices ----------

  /** `ks` leads to the outcome `o`, a match or an error, and whatever else leads somewhere is less preferred.  An error
      ends the choices: those that go on from `ks` never come to be made. */
  ghost predicate Preferred(m: Matcher, items: seq<Item>, s: nat, caps: seq<Capture>, ks: seq<nat>, o: Outcome)
    requires s <= |m.src|
  {
    && Follow(m, items, ks, s, caps) == o
    && forall js: seq<nat> :: Follow(m, items, js, s, caps) != Miss ==> js == ks || (o.Raise? && ks <= js) || Prefers(items, ks, js)
  }

  /** No choices lead anywhere. */
  ghost predicate Hopeless(m: Matcher, items: seq<Item>, s: nat, caps: seq<Capture>)
    requires s <= |m.src|
  {
    forall js: seq<nat> :: Follow(m, items, js, s, caps) == Miss
  }

  lemma FollowStep(m: Matcher, items: seq<Item>, s: nat, caps: seq<Capture>, js: seq<nat>)
    requires s <= |m.src| && items != [] && items[0].Single?
    ensures Follow(m, items, js, s, caps) != Miss ==>
      && js != [] && MayTake(m, items[0], s, js[0])
      && s + js[0] <= |m.src| && Follow(m, items[1..], js[1..], s + js[0], caps) != Miss
    ensures js != [] && MayTake(m, items[0], s, js[0]) ==>
      s + js[0] <= |m.src| && Follow(m, items, js, s, caps) == Follow(m, items[1..], js[1..], s + js[0], caps)
  {
    if js != [] && MayTake(m, items[0], s, js[0]) {
      TakenInside(m, items[0], s, js[0]);
    }
  }

  lemma LongerChoice(k: nat, ks: seq<nat>, js: seq<nat>)
    requires js != [] && js[0] == k
    ensures [k] + ks <= js <==> ks <= js[1..]
    ensures [k] + ks == js <==> ks == js[1..]
  {
    assert js == [k] + js[1..];
    if ks <= js[1..] {
      assert [k] + ks == js[..1 + |ks|];
    }
    if [k] + ks <= js {
      assert ks == js[1..][..|ks|];
    }
  }

  /** Taking `k` characters first works, and all better numbers are hopeless. */
  lemma Chosen(m: Matcher, items: seq<Item>, s: nat, caps: seq<Capture>, k: nat, ks: seq<nat>, o: Outcome)
    requires s <= |m.src| && items != [] && items[0].Single? && MayTake(m, items[0], s, k) && s + k <= |m.src|
    requires !o.Miss? && Preferred(m, items[1..], s + k, caps, ks, o)
    requires forall j: nat | MayTake(m, items[0], s, j) && j != k && (if items[0].rep == Minus then j < k else j > k) ::
      s + j <= |m.src| && Hopeless(m, items[1..], s + j, caps)
    ensures Preferred(m, items, s, caps, [k] + ks, o)
  {
    var all := [k] + ks;
    assert all[1..] == ks;
    FollowStep(m, items, s, caps, all);
    forall js: seq<nat> | Follow(m, items, js, s, caps) != Miss && js != all && !(o.Raise? && all <= js)
      ensures Prefers(items, all, js)
    {
      FollowStep(m, items, s, caps, js);
      assert js == [js[0]] + js[1..];
      if js[0] == k {
        LongerChoice(k, ks, js);
      }
      if js[0] != k {
        assert !Hopeless(m, items[1..], s + js[0], caps);
      }
    }
  }

  /** If every number of characters is hopeless then so is the item. */
  lemma NoneChosen(m: Matcher, items: seq<Item>, s: nat, caps: seq<Capture>)
    requires s <= |m.src| && items != [] && items[0].Single?
    requires forall j: nat | MayTake(m, items[0], s, j) :: s + j <= |m.src| && Hopeless(m, items[1..], s + j, caps)
    ensures Hopeless(m, items, s, caps)
  {
    forall js: seq<nat> ensures Follow(m, items, js, s, caps) == Miss {
      FollowStep(m, items, s, caps, js);
    }
  }

  /** What is shown of a match. */
  ghost predicate Found(m: Matcher, items: seq<Item>, s: nat, caps: seq<Capture>, ks: seq<nat>, o: Outcome)
    requires s <= |m.src|
  {
    (!o.Miss? ==> Preferred(m, items, s, caps, ks, o)) && (o.Miss? ==> Hopeless(m, items, s, caps))
  }

  lemma TakesAll(m: Matcher, item: Item, s: nat, j: nat, i: nat)
    requires item.Single? && MayTake(m, item, s, j) && s <= i
    ensures i < s + j ==> Takes(m, item, i)
  {
  }

  /** An item takes at most what its class matches in a row. */
  lemma TakesAtMost(m: Matcher, item: Item, s: nat, j: nat)
    requires item.Single? && s <= |m.src| && MayTake(m, item, s, j)
    ensures j <= RunLength(m, item, s)
  {
    var n := RunLength(m, item, s);
    TakesAll(m, item, s, j, s + n);
  }

  lemma TakesAny(m: Matcher, item: Item, s: nat, j: nat)
    requires item.Single? && s <= |m.src| && j <= RunLength(m, item, s)
    requires match item.rep case Once => j == 1 case Optional => j <= 1 case Plus => j >= 1 case _ => true
    ensures MayTake(m, item, s, j)
  {
  }

  lemma TakesOne(m: Matcher, item: Item, s: nat)
    requires item.Single? && s <= |m.src|
    ensures Takes(m, item, s) <==> RunLength(m, item, s) >= 1
  {
  }

  lemma {:induction false} FixedFound(m: Matcher, items: seq<Item>, s: nat, caps: seq<Capture>, t: nat, caps': seq<Capture>, ks: seq<nat>, o: Outcome)
    requires s <= |m.src| && t <= |m.src| && items != [] && !items[0].Single? && Fixed(m, items[0], s, caps) == To(t, caps')
    requires Found(m, items[1..], t, caps', ks, o)
    ensures Found(m, items, s, caps, [0] + ks, o)
  {
    var all := [0] + ks;
    assert all[1..] == ks;
    forall js: seq<nat> | Follow(m, items, js, s, caps) != Miss
      ensures js != [] && js[0] == 0 && Follow(m, items, js, s, caps) == Follow(m, items[1..], js[1..], t, caps')
    {
    }
    if !o.Miss? {
      forall js: seq<nat> | Follow(m, items, js, s, caps) != Miss && js != all && !(o.Raise? && all <= js)
        ensures Prefers(items, all, js)
      {
        LongerChoice(0, ks, js);
      }
    }
  }

  /** `max_expand` finds the preferred way among those with at most `base + n` characters. */
  lemma {:induction false} LongestFound(m: Matcher, items: seq<Item>, s: nat, caps: seq<Capture>, base: nat, n: nat) returns (ks: seq<nat>)
    requires s + base + n <= |m.src| && items != [] && items[0].Single?
    requires (items[0].rep == Star && base == 0) || (items[0].rep == Plus && base == 1)
    requires base + n <= RunLength(m, items[0], s)
    requires forall j: nat | MayTake(m, items[0], s, j) && j > base + n :: s + j <= |m.src| && Hopeless(m, items[1..], s + j, caps)
    ensures Found(m, items, s, caps, ks, Longest(m, items[1..], s + base, n, caps))
    decreases |items|, 0, n
  {
    var k := base + n;
    TakesAny(m, items[0], s, k);
    var r := Best(m, items[1..], s + k, caps);
    var ks' := BestFound(m, items[1..], s + k, caps);
    if !r.Miss? {
      ks := [k] + ks';
      Chosen(m, items, s, caps, k, ks', r);
    } else if n > 0 {
      ks := LongestFound(m, items, s, caps, base, n - 1);
    } else {
      forall j: nat | MayTake(m, items[0], s, j) ensures s + j <= |m.src| && Hopeless(m, items[1..], s + j, caps) {
      }
      NoneChosen(m, items, s, caps);
      ks := [];
    }
  }

  /** `min_expand` finds the preferred way among those with at least `i` characters. */
  lemma {:induction false} ShortestFound(m: Matcher, items: seq<Item>, s: nat, caps: seq<Capture>, i: nat) returns (ks: seq<nat>)
    requires s + i <= |m.src| && items != [] && items[0].Single? && items[0].rep == Minus
    requires i <= RunLength(m, items[0], s)
    requires forall j: nat | MayTake(m, items[0], s, j) && j < i :: s + j <= |m.src| && Hopeless(m, items[1..], s + j, caps)
    ensures Found(m, items, s, caps, ks, Shortest(m, items[0], items[1..], s + i, caps))
    decreases |items|, 0, |m.src| - (s + i)
  {
    TakesAny(m, items[0], s, i);
    var r := Best(m, items[1..], s + i, caps);
    var ks' := BestFound(m, items[1..], s + i, caps);
    ks := [];
    if !r.Miss? {
      ks := [i] + ks';
      Chosen(m, items, s, caps, i, ks', r);
    } else if Takes(m, items[0], s + i) {
      StillRuns(m, items[0], s, i);
      ks := ShortestFound(m, items, s, caps, i + 1);
    } else {
      forall j: nat | MayTake(m, items[0], s, j) ensures s + j <= |m.src| && Hopeless(m, items[1..], s + j, caps) {
        TakenInside(m, items[0], s, j);
        TakesAll(m, items[0], s, j, s + i);
      }
      NoneChosen(m, items, s, caps);
    }
  }

  lemma StillRuns(m: Matcher, item: Item, s: nat, i: nat)
    requires item.Single? && s + i <= |m.src| && i <= RunLength(m, item, s) && Takes(m, item, s + i)
    ensures i + 1 <= RunLength(m, item, s)
  {
  }

  /** THE PREFERRED MATCH.  Backtracking ends as the choices do that are preferred to all others which lead to a match
      or to an error, and finds nothing only if none lead anywhere. */
  lemma {:induction false} BestFound(m: Matcher, items: seq<Item>, s: nat, caps: seq<Capture>) returns (ks: seq<nat>)
    requires s <= |m.src|
    ensures Found(m, items, s, caps, ks, Best(m, items, s, caps))
    decreases |items|, 1, 0
  {
    ks := [];
    if items == [] {
      return;
    }
    var item, rest := items[0], items[1..];
    if !item.Single? {
      var f := Fixed(m, item, s, caps);
      if f.To? {
        FixedInside(m, item, s, caps);
        var ks' := BestFound(m, rest, f.s, f.caps);
        ks := [0] + ks';
        FixedFound(m, items, s, caps, f.s, f.caps, ks', Best(m, rest, f.s, f.caps));
      } else if f.Fault? {
        ks := [0];
      }
    } else {
      ks := SingleFound(m, items, s, caps);
    }
  }

  lemma {:induction false} SingleFound(m: Matcher, items: seq<Item>, s: nat, caps: seq<Capture>) returns (ks: seq<nat>)
    requires s <= |m.src| && items != [] && items[0].Single?
    ensures Found(m, items, s, caps, ks, Best(m, items, s, caps))
    decreases |items|, 0, |m.src| + 1
  {
    var item, rest := items[0], items[1..];
    TakesOne(m, item, s);
    forall j: nat | MayTake(m, item, s, j) ensures j <= RunLength(m, item, s) { TakesAtMost(m, item, s, j); }
    match item.rep {
      case Star =>
        ks := LongestFound(m, items, s, caps, 0, RunLength(m, item, s));
      case Plus =>
        if Takes(m, item, s) {
          ks := LongestFound(m, items, s, caps, 1, RunLength(m, item, s + 1));
        } else {
          NoneChosen(m, items, s, caps);
          ks := [];
        }
      case Minus =>
        ks := ShortestFound(m, items, s, caps, 0);
      case Once =>
        ks := FewFound(m, items, s, caps);
      case Optional =>
        ks := FewFound(m, items, s, caps);
    }
  }

  /** An item without repetition, or with `?`. */
  lemma {:induction false} FewFound(m: Matcher, items: seq<Item>, s: nat, caps: seq<Capture>) returns (ks: seq<nat>)
    requires s <= |m.src| && items != [] && items[0].Single? && (items[0].rep == Once || items[0].rep == Optional)
    ensures Found(m, items, s, caps, ks, Best(m, items, s, caps))
    decreases |items|, 0, 0
  {
    var item, rest := items[0], items[1..];
    TakesOne(m, item, s);
    ks := [];
    var one := if Takes(m, item, s) then Best(m, rest, s + 1, caps) else Miss;
    if Takes(m, item, s) {
      var ks' := BestFound(m, rest, s + 1, caps);
      TakesAny(m, item, s, 1);
      if !one.Miss? {
        ks := [1] + ks';
        Chosen(m, items, s, caps, 1, ks', one);
      }
    }
    if one.Miss? {
      assert forall j: nat | MayTake(m, item, s, j) && j > 0 :: j == 1 && Takes(m, item, s);
      if item.rep == Once {
        NoneChosen(m, items, s, caps);
      } else {
        var none := Best(m, rest, s, caps);
        var ks' := BestFound(m, rest, s, caps);
        TakesAny(m, item, s, 0);
        if !none.Miss? {
          ks := [0] + ks';
          Chosen(m, items, s, caps, 0, ks', none);
        } else {
          NoneChosen(m, items, s, caps);
        }
      }
    }
  }

  // ---------- there is one preferred outcome ----------

  lemma TailPrefix(ks: seq<nat>, js: seq<nat>)
    requires ks != [] && js != []
    ensures ks <= js ==> ks[1..] <= js[1..]
  {
  }

  lemma {:induction false} NotBoth(items: seq<Item>, ks: seq<nat>, js: seq<nat>)
    requires Prefers(items, ks, js)
    ensures !Prefers(items, js, ks) && !(ks <= js) && !(js <= ks)
    decreases |items|
  {
    if ks[0] == js[0] {
      NotBoth(items[1..], ks[1..], js[1..]);
      TailPrefix(ks, js);
      TailPrefix(js, ks);
    }
  }

  /** Choices after an error change nothing. */
  lemma {:induction false} ErrorStays(m: Matcher, items: seq<Item>, s: nat, caps: seq<Capture>, ks: seq<nat>, js: seq<nat>)
    requires s <= |m.src| && ks <= js && Follow(m, items, ks, s, caps).Raise?
    ensures Follow(m, items, js, s, caps) == Follow(m, items, ks, s, caps)
    decreases |items|
  {
    assert ks[1..] <= js[1..];
    if items[0].Single? {
      TakenInside(m, items[0], s, ks[0]);
      ErrorStays(m, items[1..], s + ks[0], caps, ks[1..], js[1..]);
    } else {
      var f := Fixed(m, items[0], s, caps);
      if f.To? {
        FixedInside(m, items[0], s, caps);
        ErrorStays(m, items[1..], f.s, f.caps, ks[1..], js[1..]);
      }
    }
  }

  /** Whatever is preferred to everything else is what backtracking yields. */
  lemma PreferredIsBest(m: Matcher, items: seq<Item>, s: nat, caps: seq<Capture>, ks: seq<nat>, o: Outcome)
    requires s <= |m.src|
    requires if o.Miss? then Hopeless(m, items, s, caps) else Preferred(m, items, s, caps, ks, o)
    ensures o == Best(m, items, s, caps)
  {
    var b := Best(m, items, s, caps);
    var js := BestFound(m, items, s, caps);
    if !o.Miss? {
      assert !b.Miss?;
      if Prefers(items, ks, js) { NotBoth(items, ks, js); }
      if Prefers(items, js, ks) { NotBoth(items, js, ks); }
      if b.Raise? && js <= ks { ErrorStays(m, items, s, caps, js, ks); }
      if o.Raise? && ks <= js { ErrorStays(m, items, s, caps, ks, js); }
    }
  }

  // ---------- patterns that raise no error ----------

  datatype Shape = OpenShape | PositionShape | ClosedShape

  function ShapeOf(c: Capture): Shape {
    if c.len == CAP_UNFINISHED then OpenShape else if c.len == CAP_POSITION then PositionShape else ClosedShape
  }

  function Shapes(caps: seq<Capture>): (r: seq<Shape>)
    ensures |r| == |caps|
  {
    seq(|caps|, i requires 0 <= i < |caps| => ShapeOf(caps[i]))
  }

  function LastOpenShape(shapes: seq<Shape>): (l: int)
    ensures -1 <= l < |shapes| && (l >= 0 ==> shapes[l].OpenShape?)
  {
    if shapes == [] then -1
    else if shapes[|shapes| - 1].OpenShape? then |shapes| - 1
    else LastOpenShape(shapes[..|shapes| - 1])
  }

  /** The captures that a match of the items leaves, open or closed. */
  function ShapesAfter(items: seq<Item>, shapes: seq<Shape>): seq<Shape>
    decreases |items|
  {
    if items == [] then shapes
    else match items[0]
      case Open(position) => ShapesAfter(items[1..], shapes + [if position then PositionShape else OpenShape])
      case Close =>
        var l := LastOpenShape(shapes);
        if l < 0 then shapes else ShapesAfter(items[1..], shapes[l := ClosedShape])
      case _ => ShapesAfter(items[1..], shapes)
  }

  lemma {:induction false} FollowShapes(m: Matcher, items: seq<Item>, ks: seq<nat>, s: nat, caps: seq<Capture>)
    requires s <= |m.src| && CapsIn(m, caps, s) && Follow(m, items, ks, s, caps).Hit?
    ensures Shapes(Follow(m, items, ks, s, caps).caps) == ShapesAfter(items, Shapes(caps))
    decreases |items|
  {
    if items != [] {
      if items[0].Single? {
        TakenInside(m, items[0], s, ks[0]);
        FollowShapes(m, items[1..], ks[1..], s + ks[0], caps);
      } else {
        var f := Fixed(m, items[0], s, caps);
        FixedInside(m, items[0], s, caps);
        FixedStaysIn(m, items[0], s, caps);
        FixedShapes(m, items, s, caps);
        FollowShapes(m, items[1..], ks[1..], f.s, f.caps);
      }
    }
  }

  lemma FixedShapes(m: Matcher, items: seq<Item>, s: nat, caps: seq<Capture>)
    requires s <= |m.src| && CapsIn(m, caps, s) && items != [] && !items[0].Single? && Fixed(m, items[0], s, caps).To?
    ensures ShapesAfter(items, Shapes(caps)) == ShapesAfter(items[1..], Shapes(Fixed(m, items[0], s, caps).caps))
  {
    var f := Fixed(m, items[0], s, caps);
    LastOpenSame(caps);
    match items[0] {
      case Open(position) =>
        assert Shapes(f.caps) == Shapes(caps) + [if position then PositionShape else OpenShape];
      case Close =>
        assert Shapes(f.caps) == Shapes(caps)[LastOpen(caps) := ClosedShape];
      case _ =>
    }
  }

  lemma {:induction false} FollowAfter(m: Matcher, items: seq<Item>, ks: seq<nat>, s: nat, caps: seq<Capture>)
    requires s <= |m.src| && Follow(m, items, ks, s, caps).Hit?
    ensures s <= Follow(m, items, ks, s, caps).e
    decreases |items|
  {
    if items != [] {
      if items[0].Single? {
        TakenInside(m, items[0], s, ks[0]);
        FollowAfter(m, items[1..], ks[1..], s + ks[0], caps);
      } else {
        FixedInside(m, items[0], s, caps);
        var f := Fixed(m, items[0], s, caps);
        FollowAfter(m, items[1..], ks[1..], f.s, f.caps);
      }
    }
  }

  lemma MatchAfter(m: Matcher, items: seq<Item>, s: nat)
    requires s <= |m.src| && Best(m, items, s, []).Hit?
    ensures s <= Best(m, items, s, []).e
  {
    var ks := BestFound(m, items, s, []);
    FollowAfter(m, items, ks, s, []);
  }

  /** Which captures a match leaves open is settled by the pattern alone. */
  lemma MatchShapes(m: Matcher, items: seq<Item>, s: nat)
    requires s <= |m.src| && Best(m, items, s, []).Hit?
    ensures Shapes(Best(m, items, s, []).caps) == ShapesAfter(items, [])
  {
    var ks := BestFound(m, items, s, []);
    FollowShapes(m, items, ks, s, []);
    assert Shapes([]) == [];
  }

  /** A well-formed pattern: complete items, balanced captures, not too many of them, and references only to
      captures that are complete. */
  predicate WellFormed(items: seq<Item>, shapes: seq<Shape>)
    decreases |items|
  {
    if items == [] then true
    else match items[0]
      case Bad(_) => false
      case Open(position) =>
        |shapes| < 32 && WellFormed(items[1..], shapes + [if position then PositionShape else OpenShape])
      case Close =>
        var l := LastOpenShape(shapes);
        l >= 0 && WellFormed(items[1..], shapes[l := ClosedShape])
      case BackRef(d) =>
        var l := (d as int) - ('1' as int);
        0 <= l < |shapes| && !shapes[l].OpenShape? && WellFormed(items[1..], shapes)
      case _ => WellFormed(items[1..], shapes)
  }

  /** Captures start before `s` and lie within the subject. */
  predicate CapsIn(m: Matcher, caps: seq<Capture>, s: nat) {
    forall i | 0 <= i < |caps| ::
      && caps[i].init <= s && caps[i].len >= CAP_POSITION
      && (caps[i].len >= 0 ==> caps[i].init + caps[i].len <= |m.src|)
  }

  lemma {:induction false} LastOpenSame(caps: seq<Capture>)
    ensures LastOpenShape(Shapes(caps)) == LastOpen(caps)
    decreases |caps|
  {
    if caps != [] {
      LastOpenSame(caps[..|caps| - 1]);
      assert Shapes(caps)[..|caps| - 1] == Shapes(caps[..|caps| - 1]);
    }
  }

  lemma FixedStaysIn(m: Matcher, item: Item, s: nat, caps: seq<Capture>)
    requires s <= |m.src| && !item.Single? && CapsIn(m, caps, s) && Fixed(m, item, s, caps).To?
    ensures s <= Fixed(m, item, s, caps).s && CapsIn(m, Fixed(m, item, s, caps).caps, Fixed(m, item, s, caps).s)
  {
    FixedInside(m, item, s, caps);
  }

  lemma {:induction false} WellFormedFixed(m: Matcher, items: seq<Item>, s: nat, caps: seq<Capture>)
    requires s <= |m.src| && items != [] && !items[0].Single? && CapsIn(m, caps, s) && WellFormed(items, Shapes(caps))
    ensures var f := Fixed(m, items[0], s, caps); !f.Fault? && (f.To? ==> WellFormed(items[1..], Shapes(f.caps)))
  {
    var f := Fixed(m, items[0], s, caps);
    LastOpenSame(caps);
    match items[0] {
      case Open(position) =>
        assert Shapes(f.caps) == Shapes(caps) + [if position then PositionShape else OpenShape];
      case Close =>
        var l := LastOpen(caps);
        assert Shapes(f.caps) == Shapes(caps)[l := ClosedShape];
      case _ =>
    }
  }

  /** A well-formed pattern is matched without an error. */
  lemma {:induction false} WellFormedRaisesNothing(m: Matcher, items: seq<Item>, s: nat, caps: seq<Capture>)
    requires s <= |m.src| && CapsIn(m, caps, s) && WellFormed(items, Shapes(caps))
    ensures !Best(m, items, s, caps).Raise?
    decreases |items|, 1, 0
  {
    if items != [] {
      var item, rest := items[0], items[1..];
      if !item.Single? {
        WellFormedFixed(m, items, s, caps);
        var f := Fixed(m, item, s, caps);
        if f.To? {
          FixedInside(m, item, s, caps);
          FixedStaysIn(m, item, s, caps);
          WellFormedRaisesNothing(m, rest, f.s, f.caps);
        }
      } else {
        RestRaisesNothing(m, rest, s, caps);
        if item.rep == Minus {
          ShortestRaisesNothing(m, item, rest, s, caps);
        } else if item.rep == Star {
          LongestRaisesNothing(m, rest, s, RunLength(m, item, s), caps);
        } else if item.rep == Plus && Takes(m, item, s) {
          LongestRaisesNothing(m, rest, s + 1, RunLength(m, item, s + 1), caps);
        }
      }
    }
  }

  lemma {:induction false} RestRaisesNothing(m: Matcher, rest: seq<Item>, s: nat, caps: seq<Capture>)
    requires s <= |m.src| && CapsIn(m, caps, s) && WellFormed(rest, Shapes(caps))
    ensures !Best(m, rest, s, caps).Raise?
    ensures s < |m.src| ==> !Best(m, rest, s + 1, caps).Raise?
    decreases |rest|, 2, 0
  {
    WellFormedRaisesNothing(m, rest, s, caps);
    if s < |m.src| {
      WellFormedRaisesNothing(m, rest, s + 1, caps);
    }
  }

  lemma {:induction false} LongestRaisesNothing(m: Matcher, rest: seq<Item>, s: nat, n: nat, caps: seq<Capture>)
    requires s + n <= |m.src| && CapsIn(m, caps, s) && WellFormed(rest, Shapes(caps))
    ensures !Longest(m, rest, s, n, caps).Raise?
    decreases |rest|, 3, n
  {
    WellFormedRaisesNothing(m, rest, s + n, caps);
    if n > 0 { LongestRaisesNothing(m, rest, s, n - 1, caps); }
  }

  lemma {:induction false} ShortestRaisesNothing(m: Matcher, item: Item, rest: seq<Item>, s: nat, caps: seq<Capture>)
    requires item.Single? && s <= |m.src| && CapsIn(m, caps, s) && WellFormed(rest, Shapes(caps))
    ensures !Shortest(m, item, rest, s, caps).Raise?
    decreases |rest|, 3, |m.src| - s
  {
    WellFormedRaisesNothing(m, rest, s, caps);
    if Takes(m, item, s) { ShortestRaisesNothing(m, item, rest, s + 1, caps); }
  }
}
