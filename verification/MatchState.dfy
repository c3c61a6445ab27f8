/**
  The pattern matcher of lstrlib.c: recursive, with captures kept in an array that is written in place and undone
  when a match fails.
  */
module MatchStates {
  import opened Patterns
  import opened Backtracking

  datatype Result = Found(e: nat) | NoMatch | Failed(err: Error)

  datatype CaptureValue = Text(t: string) | Position(p: nat) | NoCapture(err: Error)

  /** What a match yields to the caller of `string.match`. */
  datatype Matched =
    | Captures(start: nat, e: nat, values: seq<CaptureValue>)
    | OpenCapture(start: nat)
    | Unmatched
    | Broken(start: nat, err: Error)

  /** The text of a capture, or the position it marks. */
  function ValueOf(src: string, c: Capture): CaptureValue
    requires c.len >= CAP_POSITION && (c.len >= 0 ==> c.init + c.len <= |src|)
  {
    if c.len == CAP_UNFINISHED then NoCapture(InvalidCapture)
    else if c.len == CAP_POSITION then Position(c.init + 1)
    else Text(src[c.init..c.init + c.len])
  }

  /** The values of a match from `s` to `e` with these captures. */
  predicate PushedFrom(src: string, s: nat, e: nat, caps: seq<Capture>, values: seq<CaptureValue>) {
    if caps == [] then s <= e <= |src| && values == [Text(src[s..e])]
    else |values| == |caps| && forall i | 0 <= i < |caps| ::
           && caps[i].len >= CAP_POSITION && (caps[i].len >= 0 ==> caps[i].init + caps[i].len <= |src|)
           && values[i] == ValueOf(src, caps[i])
  }

  /** What `string.match` returns for the matches that the items have at each start from `init` on, or at `init` alone. */
  ghost predicate MatchesItems(m: Matcher, items: seq<Item>, anchored: bool, init: nat, r: Matched)
    requires init <= |m.src|
  {
    match r
    case Captures(start, e, values) =>
      && init <= start <= e <= |m.src| && (anchored ==> start == init) && OpenShape !in ShapesAfter(items, [])
      && (forall t | init <= t < start :: Best(m, items, t, []).Miss?)
      && exists caps :: Best(m, items, start, []) == Hit(e, caps) && CapsIn(m, caps, e) && PushedFrom(m.src, start, e, caps, values)
    case OpenCapture(start) =>
      && init <= start <= |m.src| && (anchored ==> start == init) && OpenShape in ShapesAfter(items, [])
      && (forall t | init <= t < start :: Best(m, items, t, []).Miss?) && Best(m, items, start, []).Hit?
    case Unmatched => forall t | init <= t <= |m.src| && (anchored ==> t == init) :: Best(m, items, t, []).Miss?
    case Broken(start, err) =>
      && init <= start <= |m.src| && (anchored ==> start == init) && Best(m, items, start, []) == Raise(err)
      && (forall t | init <= t < start :: Best(m, items, t, []).Miss?)
  }

  /** The same for a pattern, which is anchored if it begins with `^`. */
  ghost predicate Matches(m: Matcher, init: nat, r: Matched)
    requires init <= |m.src|
  {
    if At(m.pat, 0) == '^' then MatchesItems(m, Items(m.pat, 1), true, init, r) else MatchesItems(m, Items(m.pat, 0), false, init, r)
  }

  /** How `match` goes on after an item: it returns, or jumps to `init` with new positions. */
  datatype Go = Return(r: Result) | Goto(s: nat, p: nat)

  lemma OpenShapes(caps: seq<Capture>)
    ensures OpenShape in Shapes(caps) <==> exists i :: 0 <= i < |caps| && caps[i].len == CAP_UNFINISHED
  {
    if i :| 0 <= i < |caps| && caps[i].len == CAP_UNFINISHED {
      assert Shapes(caps)[i] == OpenShape;
    }
  }

  lemma LongestStep(m: Matcher, rest: seq<Item>, s: nat, n: nat, caps: seq<Capture>)
    requires s + n <= |m.src|
    ensures var r := Best(m, rest, s + n, caps);
            Longest(m, rest, s, n, caps) == if !r.Miss? then r else if n == 0 then Miss else Longest(m, rest, s, n - 1, caps)
  {
  }

  class MatchState {
    const m: Matcher
    var level: nat
    const capture: array<Capture>

    constructor (matcher: Matcher)
      ensures Valid() && Caps() == [] && m == matcher && fresh(capture)
    {
      m := matcher;
      level := 0;
      capture := new Capture[MAXCAPTURES](i => Capture(0, CAP_UNFINISHED));
    }

    ghost predicate Valid()
      reads this
    {
      level <= capture.Length == MAXCAPTURES
    }

    /** The captures of the match so far. */
    function Caps(): seq<Capture>
      requires Valid()
      reads this, capture
    {
      capture[..level]
    }

    // ---------- pattern items ----------

    /** `classend` */
    method ClassEnd(p: nat) returns (r: ClassEnd)
      requires p < |m.pat|
      ensures r == EndOfClass(m.pat, p)
    {
      var q := p + 1;
      match m.pat[p] {
        case '%' =>
          if q >= |m.pat| { return NoEnd(EndsWithPercent); }
          return EndAt(q + 1);
        case '[' =>
          if At(m.pat, q) == '^' { q := q + 1; }
          ghost var start := q;
          while true
            invariant SetEnd(m.pat, q) == SetEnd(m.pat, start)
            decreases |m.pat| - q
          {
            if q >= |m.pat| { return NoEnd(MissingBracket); }
            q := q + 1;
            if m.pat[q - 1] == '%' && q < |m.pat| { q := q + 1; }
            if q < |m.pat| && m.pat[q] == ']' { return EndAt(q + 1); }
          }
        case _ =>
          return EndAt(q);
      }
    }

    /** `matchbracketclass` */
    method MatchBracketClass(c: char, p0: nat, ec: nat) returns (b: bool)
      ensures b == InBrackets(m, p0, ec, c)
    {
      var sig, p := true, p0;
      if At(m.pat, p + 1) == '^' {
        sig := false;
        p := p + 1;
      }
      p := p + 1;
      while p < ec
        invariant InSet(m, p, ec, c) == InSet(m, if sig then p0 + 1 else p0 + 2, ec, c)
        decreases ec - p
      {
        if At(m.pat, p) == '%' {
          p := p + 1;
          if MatchClass(m, c, At(m.pat, p)) { return sig; }
        } else if At(m.pat, p + 1) == '-' && p + 2 < ec {
          p := p + 2;
          if At(m.pat, p - 2) <= c <= At(m.pat, p) { return sig; }
        } else if At(m.pat, p) == c {
          return sig;
        }
        p := p + 1;
      }
      return !sig;
    }

    /** `singlematch` */
    method SingleMatch(c: char, p: nat, ep: nat) returns (b: bool)
      requires ep > 0
      ensures b == InClass(m, p, ep, c)
    {
      match At(m.pat, p) {
        case '.' => b := true;
        case '%' => b := MatchClass(m, c, At(m.pat, p + 1));
        case '[' => b := MatchBracketClass(c, p, ep - 1);
        case x => b := x == c;
      }
    }

    /** `matchbalance` */
    method MatchBalance(s: nat, p: nat) returns (r: Result)
      requires s <= |m.src|
      ensures r == if p + 1 >= |m.pat| then Failed(UnbalancedPattern)
                   else match Fixed(m, Balance(m.pat[p], m.pat[p + 1]), s, [])
                        case To(t, _) => Found(t)
                        case _ => NoMatch
    {
      if p + 1 >= |m.pat| { return Failed(UnbalancedPattern); }
      if s >= |m.src| || m.src[s] != m.pat[p] { return NoMatch; }
      var b, e := m.pat[p], m.pat[p + 1];
      var cont := 1;
      var t := s + 1;
      while t < |m.src|
        invariant s < t <= |m.src| && cont >= 1
        invariant BalanceEnd(m.src, t, b, e, cont) == BalanceEnd(m.src, s + 1, b, e, 1)
      {
        if m.src[t] == e {
          cont := cont - 1;
          if cont == 0 { return Found(t + 1); }
        } else if m.src[t] == b {
          cont := cont + 1;
        }
        t := t + 1;
      }
      return NoMatch;
    }

    // ---------- captures ----------

    /** `check_capture`: a reference to a capture is an error exactly if there is no complete capture of that number. */
    method CheckCapture(d: char) returns (l: int)
      requires Valid()
      ensures -1 <= l < level && (l >= 0 ==> Caps()[l].len != CAP_UNFINISHED && d as int == '1' as int + l)
      ensures forall s: nat | s <= |m.src| :: Fixed(m, BackRef(d), s, Caps()).Fault? <==> l < 0
    {
      l := (d as int) - ('1' as int);
      if l < 0 || l >= level || capture[l].len == CAP_UNFINISHED { l := -1; }
    }

    /** `capture_to_close` */
    method CaptureToClose() returns (l: int)
      requires Valid()
      ensures l == LastOpen(Caps())
    {
      l := level - 1;
      while l >= 0
        invariant -1 <= l < level
        invariant LastOpen(capture[..l + 1]) == LastOpen(Caps())
      {
        if capture[l].len == CAP_UNFINISHED { return; }
        assert capture[..l + 1][..l] == capture[..l];
        l := l - 1;
      }
    }

    /** `match_capture` */
    method MatchCapture(s: nat, d: char) returns (r: Result)
      requires Valid() && s <= |m.src| && CapsIn(m, Caps(), s)
      ensures r == match Fixed(m, BackRef(d), s, Caps())
                   case To(t, _) => Found(t)
                   case Stop => NoMatch
                   case Fault(err) => Failed(err)
    {
      var l := CheckCapture(d);
      if l < 0 { return Failed(InvalidIndex); }
      var c := capture[l];
      assert c == Caps()[l];
      if c.len >= 0 && |m.src| - s >= c.len && m.src[c.init..c.init + c.len] == m.src[s..s + c.len] {
        return Found(s + c.len);
      }
      return NoMatch;
    }

    // ---------- matching ----------

    /** What a call of `match` has done: found the preferred match with its captures, undone every capture, or
        raised the error. */
    twostate predicate Does(o: Outcome, r: Result)
      requires old(Valid())
      reads this, capture
    {
      match o
      case Hit(e, caps) => r == Found(e) && Valid() && Caps() == caps && CapsIn(m, caps, e) && e <= |m.src|
      case Miss => r == NoMatch && Valid() && level == old(level) && Caps() == old(Caps())
      case Raise(err) => r == Failed(err)
    }

    /** The same, with the captures before the call as arguments. */
    ghost predicate Did(o: Outcome, r: Result, before: seq<Capture>, lv: nat)
      reads this, capture
    {
      match o
      case Hit(e, caps) => r == Found(e) && Valid() && Caps() == caps && CapsIn(m, caps, e) && e <= |m.src|
      case Miss => r == NoMatch && Valid() && level == lv && Caps() == before
      case Raise(err) => r == Failed(err)
    }

    /** `start_capture` */
    method StartCapture(s: nat, p: nat, what: int) returns (r: Result)
      requires Valid() && s <= |m.src| && p <= |m.pat| && CapsIn(m, Caps(), s) && what in {CAP_POSITION, CAP_UNFINISHED}
      modifies this`level, capture
      ensures Does(if |old(Caps())| >= 32 then Raise(TooManyCaptures)
                   else Best(m, Items(m.pat, p), s, old(Caps()) + [Capture(s, what)]), r)
      decreases |m.pat| - p, 5
    {
      if level >= MAXCAPTURES { return Failed(TooManyCaptures); }
      capture[level] := Capture(s, what);
      level := level + 1;
      ghost var caps := Caps();
      assert caps == old(Caps()) + [Capture(s, what)];
      r := Match(s, p);
      if r == NoMatch {
        assert Caps()[..level - 1] == caps[..level - 1] == old(Caps());
        level := level - 1;
      }
    }

    /** `end_capture` */
    method EndCapture(s: nat, p: nat) returns (r: Result)
      requires Valid() && s <= |m.src| && p <= |m.pat| && CapsIn(m, Caps(), s)
      modifies this`level, capture
      ensures var l := LastOpen(old(Caps()));
        Does(if l < 0 then Raise(InvalidCapture)
             else Best(m, Items(m.pat, p), s, old(Caps())[l := Capture(old(Caps())[l].init, s - old(Caps())[l].init)]), r)
      decreases |m.pat| - p, 5
    {
      var l := CaptureToClose();
      if l < 0 { return Failed(InvalidCapture); }
      capture[l] := Capture(capture[l].init, s - capture[l].init);
      ghost var caps := Caps();
      assert caps == old(Caps())[l := Capture(old(Caps())[l].init, s - old(Caps())[l].init)];
      hide Items, Best, CapsIn;
      r := Match(s, p);
      if r == NoMatch {
        Reopen(l, caps, old(Caps()));
      }
    }

    /** The capture is open again, as it was before. */
    method Reopen(l: nat, ghost closed: seq<Capture>, ghost before: seq<Capture>)
      requires Valid() && Caps() == closed && l < level == |before| && before[l].len == CAP_UNFINISHED
      requires closed == before[l := Capture(before[l].init, closed[l].len)]
      modifies capture
      ensures Caps() == before
    {
      assert capture[l] == closed[l];
      capture[l] := Capture(capture[l].init, CAP_UNFINISHED);
      assert forall i | 0 <= i < level && i != l :: Caps()[i] == closed[i] == before[i];
    }

    /** The first loop of `max_expand`: how far the class goes. */
    method CountRun(s: nat, p: nat, ep: nat, ghost rep: Rep) returns (i: int)
      requires s <= |m.src| && ep > 0
      ensures i == RunLength(m, Single(p, ep, rep), s)
    {
      ghost var item := Single(p, ep, rep);
      i := 0;
      while s + i < |m.src|
        invariant 0 <= i && s + i <= |m.src| && RunLength(m, item, s) == i + RunLength(m, item, s + i)
      {
        var b := SingleMatch(m.src[s + i], p, ep);
        if !b { break; }
        i := i + 1;
      }
    }

    /** `max_expand` */
    method MaxExpand(s: nat, p: nat, ep: nat, ghost rep: Rep) returns (r: Result)
      requires Valid() && s <= |m.src| && p < ep < |m.pat| && CapsIn(m, Caps(), s)
      modifies this`level, capture
      ensures Does(Longest(m, Items(m.pat, ep + 1), s, RunLength(m, Single(p, ep, rep), s), old(Caps())), r)
      decreases |m.pat| - p, 0
    {
      hide RunLength, Items, CapsIn, Best, Longest;
      var i := CountRun(s, p, ep, rep);
      r := TryLengths(s, ep, i, Caps(), level);
    }

    /** The second loop of `max_expand`: the longest run first. */
    method TryLengths(s: nat, ep: nat, n: nat, ghost caps: seq<Capture>, ghost lv: nat) returns (r: Result)
      requires Valid() && s + n <= |m.src| && ep < |m.pat| && CapsIn(m, caps, s) && Caps() == caps && level == lv
      modifies this`level, capture
      ensures Did(Longest(m, Items(m.pat, ep + 1), s, n, caps), r, caps, lv)
      decreases |m.pat| - ep, 0
    {
      ghost var rest := Items(m.pat, ep + 1);
      hide Items, Best, Longest, Did, CapsIn, Valid, Caps;
      var i: int := n;
      while i >= 0
        invariant -1 <= i <= n && Valid() && Caps() == caps && level == lv
        invariant Longest(m, rest, s, n, caps) == if i >= 0 then Longest(m, rest, s, i, caps) else Miss
      {
        r := TryLength(s, ep, i, caps, lv);
        if r != NoMatch { return; }
        i := i - 1;
      }
      r := NoMatch;
      DidMiss(caps, lv);
    }

    method TryLength(s: nat, ep: nat, i: nat, ghost caps: seq<Capture>, ghost lv: nat) returns (r: Result)
      requires Valid() && s + i <= |m.src| && ep < |m.pat| && CapsIn(m, caps, s) && Caps() == caps && level == lv
      modifies this`level, capture
      ensures r != NoMatch ==> Did(Longest(m, Items(m.pat, ep + 1), s, i, caps), r, caps, lv)
      ensures r == NoMatch ==> Valid() && Caps() == caps && level == lv
      ensures r == NoMatch ==>
                Longest(m, Items(m.pat, ep + 1), s, i, caps) ==
                if i == 0 then Miss else Longest(m, Items(m.pat, ep + 1), s, i - 1, caps)
      decreases |m.pat| - ep - 1, 4
    {
      hide Items, Best, Longest, Did;
      LongestStep(m, Items(m.pat, ep + 1), s, i, caps);
      r := Attempt(s + i, ep + 1, caps, lv);
    }

    lemma DidMiss(caps: seq<Capture>, lv: nat)
      requires Valid()
      ensures Did(Miss, NoMatch, caps, lv) <==> Caps() == caps && level == lv
    {
    }

    method Attempt(s: nat, p: nat, ghost caps: seq<Capture>, ghost lv: nat) returns (r: Result)
      requires Valid() && s <= |m.src| && p <= |m.pat| && CapsIn(m, caps, s) && Caps() == caps && level == lv
      modifies this`level, capture
      ensures Did(Best(m, Items(m.pat, p), s, caps), r, caps, lv)
      ensures r == NoMatch <==> Best(m, Items(m.pat, p), s, caps).Miss?
      ensures r == NoMatch ==> Valid() && Caps() == caps && level == lv
      decreases |m.pat| - p, 3
    {
      hide Items, Best;
      r := Match(s, p);
    }

    /** `min_expand` */
    method MinExpand(s0: nat, p: nat, ep: nat) returns (r: Result)
      requires Valid() && s0 <= |m.src| && p < ep < |m.pat| && CapsIn(m, Caps(), s0)
      modifies this`level, capture
      ensures Does(Shortest(m, Single(p, ep, Minus), Items(m.pat, ep + 1), s0, old(Caps())), r)
      decreases |m.pat| - p, 0
    {
      ghost var item, rest, caps := Single(p, ep, Minus), Items(m.pat, ep + 1), Caps();
      var s := s0;
      while true
        invariant s0 <= s <= |m.src| && Valid() && Caps() == caps && level == old(level)
        invariant Shortest(m, item, rest, s0, caps) == Shortest(m, item, rest, s, caps)
        decreases |m.src| - s
      {
        r := Match(s, ep + 1);
        if r != NoMatch { return; }
        if s < |m.src| {
          var b := SingleMatch(m.src[s], p, ep);
          if !b { return NoMatch; }
          s := s + 1;
        } else {
          return NoMatch;
        }
      }
    }

    /** Going on is right: the result is that of the items from `p`, or they are left for the new positions. */
    twostate predicate Goes(s: nat, p: nat, g: Go)
      requires old(Valid()) && s <= |m.src| && p <= |m.pat|
      reads this, capture
    {
      match g
      case Return(r) => Does(Best(m, Items(m.pat, p), s, old(Caps())), r)
      case Goto(s', p') =>
        && Valid() && Caps() == old(Caps()) && level == old(level) && s <= s' <= |m.src| && p < p' <= |m.pat|
        && Best(m, Items(m.pat, p), s, old(Caps())) == Best(m, Items(m.pat, p'), s', old(Caps()))
    }

    /** The items of the pattern, one after the other. */
    lemma FirstItem(p: nat)
      requires p < |m.pat|
      ensures var parsed := ItemAt(m.pat, p);
        Items(m.pat, p) != [] && Items(m.pat, p)[0] == parsed.item && Items(m.pat, p)[1..] == Items(m.pat, parsed.next)
    {
    }

    /** The cases of `match` whose item leaves no choice. */
    method MatchFixed(s: nat, p: nat) returns (g: Go)
      requires Valid() && s <= |m.src| && p < |m.pat| && CapsIn(m, Caps(), s)
      requires !ItemAt(m.pat, p).item.Single? && m.pat[p] == '%' && (At(m.pat, p + 1) in "bf" || IsDigit(At(m.pat, p + 1)))
      ensures Goes(s, p, g)
    {
      FirstItem(p);
      hide Items;
      var c1 := At(m.pat, p + 1);
      if c1 == 'b' {
        var r := MatchBalance(s, p + 2);
        g := if r.Found? then Goto(r.e, p + 4) else Return(r);
      } else if c1 == 'f' {
        g := MatchFrontier(s, p);
      } else {
        var r := MatchCapture(s, c1);
        g := if r.Found? then Goto(r.e, p + 2) else Return(r);
      }
    }

    /** The frontier `%f[set]`. */
    method MatchFrontier(s: nat, p: nat) returns (g: Go)
      requires Valid() && s <= |m.src| && p < |m.pat| && m.pat[p] == '%' && At(m.pat, p + 1) == 'f'
      ensures Goes(s, p, g)
    {
      FirstItem(p);
      hide Items;
      if p + 2 >= |m.pat| || m.pat[p + 2] != '[' { return Return(Failed(MissingFrontier)); }
      var ce := ClassEnd(p + 2);
      if ce.NoEnd? { return Return(Failed(ce.err)); }
      var ep := ce.ep;
      var previous := if s == 0 then '\0' else m.src[s - 1];
      var before := MatchBracketClass(previous, p + 2, ep - 1);
      if before { return Return(NoMatch); }
      var here := MatchBracketClass(At(m.src, s), p + 2, ep - 1);
      if !here { return Return(NoMatch); }
      return Goto(s, ep);
    }

    /** The default case of `match`: a single character class, perhaps with a repetition. */
    method MatchSingle(s: nat, p: nat) returns (g: Go)
      requires Valid() && s <= |m.src| && p < |m.pat| && CapsIn(m, Caps(), s)
      requires ItemAt(m.pat, p) == SingleAt(m.pat, p)
      modifies this`level, capture
      ensures Goes(s, p, g)
      decreases |m.pat| - p, 1
    {
      hide Items, Best, EndOfClass, InClass, ItemAt, SingleAt, RunLength, Longest, Shortest;
      var ce := ClassEnd(p);
      SingleBest(s, p, Caps());
      if ce.NoEnd? { return Return(Failed(ce.err)); }
      var ep := ce.ep;
      var taken := false;
      if s < |m.src| { taken := SingleMatch(m.src[s], p, ep); }
      var r: Result;
      match RepAt(m.pat, ep) {
        case Optional =>
          if taken {
            r := Match(s + 1, ep + 1);
            if r != NoMatch { return Return(r); }
          }
          g := Goto(s, ep + 1);
        case Star =>
          r := MaxExpand(s, p, ep, Star);
          g := Return(r);
        case Plus =>
          if !taken { return Return(NoMatch); }
          r := MaxExpand(s + 1, p, ep, Plus);
          g := Return(r);
        case Minus =>
          r := MinExpand(s, p, ep);
          g := Return(r);
        case Once =>
          g := if taken then Goto(s + 1, ep) else Return(NoMatch);
      }
    }

    /** The meaning of a single character class, by its repetition. */
    lemma SingleBest(s: nat, p: nat, caps: seq<Capture>)
      requires s <= |m.src| && p < |m.pat| && ItemAt(m.pat, p) == SingleAt(m.pat, p)
      ensures var all := Best(m, Items(m.pat, p), s, caps);
        match EndOfClass(m.pat, p)
        case NoEnd(err) => all == Raise(err)
        case EndAt(ep) =>
          var taken := s < |m.src| && InClass(m, p, ep, m.src[s]);
          && p < ep <= |m.pat| && (RepAt(m.pat, ep) != Once ==> ep < |m.pat|)
          && match RepAt(m.pat, ep)
             case Optional =>
               var one := if taken then Best(m, Items(m.pat, ep + 1), s + 1, caps) else Miss;
               all == if one.Miss? then Best(m, Items(m.pat, ep + 1), s, caps) else one
             case Star => all == Longest(m, Items(m.pat, ep + 1), s, RunLength(m, Single(p, ep, Star), s), caps)
             case Plus => all == if taken then Longest(m, Items(m.pat, ep + 1), s + 1, RunLength(m, Single(p, ep, Plus), s + 1), caps) else Miss
             case Minus => all == Shortest(m, Single(p, ep, Minus), Items(m.pat, ep + 1), s, caps)
             case Once => all == if taken then Best(m, Items(m.pat, ep), s + 1, caps) else Miss
    {
      FirstItem(p);
      hide Items, InClass, ItemAt;
    }

    /** The cases of `match` for captures. */
    method MatchParenthesis(s: nat, p: nat) returns (r: Result)
      requires Valid() && s <= |m.src| && p < |m.pat| && CapsIn(m, Caps(), s) && m.pat[p] in "()"
      modifies this`level, capture
      ensures Does(Best(m, Items(m.pat, p), s, old(Caps())), r)
      decreases |m.pat| - p, 1
    {
      FirstItem(p);
      hide Items;
      if m.pat[p] == '(' {
        if At(m.pat, p + 1) == ')' {
          r := StartCapture(s, p + 2, CAP_POSITION);
        } else {
          r := StartCapture(s, p + 1, CAP_UNFINISHED);
        }
      } else {
        r := EndCapture(s, p + 1);
      }
    }

    /** `match`: matches the pattern from `p0` on at `s0`. */
    method Match(s0: nat, p0: nat) returns (r: Result)
      requires Valid() && s0 <= |m.src| && p0 <= |m.pat| && CapsIn(m, Caps(), s0)
      modifies this`level, capture
      ensures Does(Best(m, Items(m.pat, p0), s0, old(Caps())), r)
      decreases |m.pat| - p0, 2
    {
      ghost var caps := Caps();
      var s, p := s0, p0;
      hide ItemAt, SingleAt;
      while p < |m.pat|
        invariant s0 <= s <= |m.src| && p0 <= p <= |m.pat| && Valid() && Caps() == caps && level == old(level)
        invariant Best(m, Items(m.pat, p0), s0, caps) == Best(m, Items(m.pat, p), s, caps)
        decreases |m.pat| - p
      {
        KindOfItem(p);
        FirstItem(p);
        var c, c1 := m.pat[p], At(m.pat, p + 1);
        var g: Go;
        if c == '(' || c == ')' {
          r := MatchParenthesis(s, p);
          return;
        } else if c == '%' && (c1 == 'b' || c1 == 'f' || IsDigit(c1)) {
          g := MatchFixed(s, p);
        } else if c == '$' && p + 1 == |m.pat| {
          return if s == |m.src| then Found(s) else NoMatch;
        } else {
          g := MatchSingle(s, p);
        }
        if g.Return? { return g.r; }
        s, p := g.s, g.p;
      }
      r := Found(s);
    }

    /** Which case of the switch is taken. */
    lemma KindOfItem(p: nat)
      requires p < |m.pat|
      ensures var c, c1 := m.pat[p], At(m.pat, p + 1);
        && (c == '%' && (c1 == 'b' || c1 == 'f' || IsDigit(c1)) ==> !ItemAt(m.pat, p).item.Single? && (c1 in "bf" || IsDigit(c1)))
        && (c == '$' && p + 1 == |m.pat| ==> ItemAt(m.pat, p) == Parsed(AtEnd, p + 1))
        && (c != '(' && c != ')' && !(c == '%' && (c1 == 'b' || c1 == 'f' || IsDigit(c1))) && !(c == '$' && p + 1 == |m.pat|) ==>
              ItemAt(m.pat, p) == SingleAt(m.pat, p))
    {
    }

    // ---------- finding ----------

    /** The matching loop of `str_find_aux`: the first position from `init` on at which the pattern matches, or
        `init` alone if the pattern starts with `^`. */
    method StrFind(init: nat) returns (start: nat, r: Result)
      requires Valid() && init <= |m.src|
      modifies this`level, capture
      ensures var p := if At(m.pat, 0) == '^' then 1 else 0;
        var items := Items(m.pat, p);
        && init <= start <= |m.src| && (p == 1 ==> start == init)
        && (forall t | init <= t < start :: Best(m, items, t, []).Miss?)
        && match r
           case Found(e) => Valid() && Best(m, items, start, []) == Hit(e, Caps()) && CapsIn(m, Caps(), e) && e <= |m.src|
           case NoMatch => Best(m, items, start, []).Miss? && (start == |m.src| || p == 1)
           case Failed(err) => Best(m, items, start, []) == Raise(err)
    {
      var anchor := At(m.pat, 0) == '^' && |m.pat| > 0;
      var p := if anchor then 1 else 0;
      start := init;
      while true
        invariant init <= start <= |m.src| && Valid() && (anchor ==> start == init)
        invariant forall t | init <= t < start :: Best(m, Items(m.pat, p), t, []).Miss?
        decreases |m.src| - start
      {
        level := 0;
        assert Caps() == [];
        r := Match(start, p);
        if r != NoMatch { return; }
        if start >= |m.src| || anchor { return; }
        start := start + 1;
      }
    }

    /** `push_onecapture` */
    method OneCapture(i: nat, s: nat, e: nat) returns (r: CaptureValue)
      requires Valid() && s <= e <= |m.src| && CapsIn(m, Caps(), e)
      ensures level == 0 ==> r == if i == 0 then Text(m.src[s..e]) else NoCapture(InvalidIndex)
      ensures i < level ==> r == ValueOf(m.src, Caps()[i])
    {
      if i >= level {
        return if i == 0 then Text(m.src[s..e]) else NoCapture(InvalidIndex);
      }
      assert capture[i] == Caps()[i];
      var l := capture[i].len;
      if l == CAP_UNFINISHED { return NoCapture(InvalidCapture); }
      if l == CAP_POSITION { return Position(capture[i].init + 1); }
      return Text(m.src[capture[i].init..capture[i].init + l]);
    }

    /** `push_captures`, which `string.find` calls without the bounds of the match: one value for each capture, in order;
        without captures the whole match.  A capture that is still open is an error. */
    method PushCaptures(whole: bool, s: nat, e: nat) returns (ok: bool, values: seq<CaptureValue>)
      requires Valid() && s <= e <= |m.src| && CapsIn(m, Caps(), e)
      ensures ok <==> forall i | 0 <= i < level :: Caps()[i].len != CAP_UNFINISHED
      ensures ok && level == 0 ==> values == if whole then [Text(m.src[s..e])] else []
      ensures ok && level > 0 ==> |values| == level && forall i | 0 <= i < level :: values[i] == ValueOf(m.src, Caps()[i])
    {
      var nlevels := if level == 0 && whole then 1 else level;
      values := [];
      for i := 0 to nlevels
        invariant |values| == i
        invariant level == 0 && i > 0 ==> values == [Text(m.src[s..e])]
        invariant level > 0 ==> forall k | 0 <= k < i :: values[k] == ValueOf(m.src, Caps()[k])
        invariant level > 0 ==> forall k | 0 <= k < i :: Caps()[k].len != CAP_UNFINISHED
      {
        var v := OneCapture(i, s, e);
        if v.NoCapture? {
          return false, values;
        }
        values := values + [v];
      }
      ok := true;
    }

    /** `string.match`: the captures of the first match, or no match, or an error.  Whether the captures of a match can
        be pushed is settled by the pattern: it must leave none open. */
    method StrMatch(init: nat) returns (r: Matched)
      requires Valid() && init <= |m.src|
      modifies this`level, capture
      ensures Matches(m, init, r)
    {
      hide Items, Best, ShapesAfter, PushedFrom;
      var start, f := StrFind(init);
      match f
      case NoMatch => r := Unmatched;
      case Failed(err) => r := Broken(start, err);
      case Found(e) =>
        ghost var items := Items(m.pat, if At(m.pat, 0) == '^' then 1 else 0);
        MatchAfter(m, items, start);
        MatchShapes(m, items, start);
        OpenShapes(Caps());
        var ok, values := PushCaptures(true, start, e);
        if ok {
          NowPushed(start, e, values);
          r := Captures(start, e, values);
        } else {
          r := OpenCapture(start);
        }
    }

    lemma NowPushed(s: nat, e: nat, values: seq<CaptureValue>)
      requires Valid() && s <= e <= |m.src| && CapsIn(m, Caps(), e)
      requires level == 0 ==> values == [Text(m.src[s..e])]
      requires level > 0 ==> |values| == level && forall i | 0 <= i < level :: values[i] == ValueOf(m.src, Caps()[i])
      ensures PushedFrom(m.src, s, e, Caps(), values)
    {
    }
  }
}
