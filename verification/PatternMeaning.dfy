/**
  What patterns match, said of the text of the pattern and of the subject: classes, balanced strings, frontiers and the
  text that a capture holds.
  */
module PatternMeaning {
  import opened Patterns
  import opened Backtracking
  import opened MatchStates
  import T = PatternText

  // ---------- a single class ----------

  /** The pattern is this one class. */
  predicate IsClass(m: Matcher, k: T.Class) {
    m.pat == T.ClassText(k) && T.ClassOk(k) && k != T.Plain('$') && k != T.Plain('^')
  }

  lemma OnlyClass(m: Matcher, k: T.Class)
    requires IsClass(m, k)
    ensures At(m.pat, 0) != '^' && T.AllRead(m, Items(m.pat, 0), [T.Single(k, Once)])
  {
    var parts := [T.Single(k, Once)];
    assert parts[1..] == [];
    assert T.Text(parts) == m.pat;
    assert T.Ok(parts);
    T.PatternRead(m, 0, parts);
  }

  /** At every position of the subject the pattern matches one character if the class has it, and nothing else. */
  lemma ClassBest(m: Matcher, k: T.Class, s: nat, caps: seq<Capture>)
    requires IsClass(m, k) && s <= |m.src|
    ensures Best(m, Items(m.pat, 0), s, caps) ==
            if s < |m.src| && T.ClassHas(m.ctype, k, m.src[s]) then Hit(s + 1, caps) else Miss
  {
    OnlyClass(m, k);
    hide T.ClassHas, T.ClassText, T.ClassOk, InClass, Items;
    var items := Items(m.pat, 0);
    assert T.Reads(m, items[0], T.Single(k, Once)) by { assert [T.Single(k, Once)][0] == T.Single(k, Once); }
    assert items[1..] == [];
  }

  lemma ClassShapes(m: Matcher, k: T.Class)
    requires IsClass(m, k)
    ensures ShapesAfter(Items(m.pat, 0), []) == []
  {
    OnlyClass(m, k);
    hide T.ClassHas, T.ClassText, T.ClassOk, InClass, Items;
    var items := Items(m.pat, 0);
    assert T.Reads(m, items[0], T.Single(k, Once)) by { assert [T.Single(k, Once)][0] == T.Single(k, Once); }
    assert items[1..] == [];
    assert ShapesAfter(items, []) == ShapesAfter(items[1..], []) == [];
  }

  /** The character at `i` is one that the class has. */
  predicate HasAt(m: Matcher, k: T.Class, i: nat) { i < |m.src| && T.ClassHas(m.ctype, k, m.src[i]) }

  /** Items that match one character wherever the class has it. */
  ghost predicate MatchesOne(m: Matcher, items: seq<Item>, k: T.Class) {
    && OpenShape !in ShapesAfter(items, [])
    && forall i: nat | i <= |m.src| :: Best(m, items, i, []) == if HasAt(m, k, i) then Hit(i + 1, []) else Miss
  }

  lemma FirstWins(m: Matcher, items: seq<Item>, r: Matched, k: T.Class)
    requires MatchesItems(m, items, false, 0, r) && MatchesOne(m, items, k)
    ensures r.Captures? || r.Unmatched?
    ensures r.Captures? ==>
      && HasAt(m, k, r.start) && r.e == r.start + 1 && r.values == [Text([m.src[r.start]])]
      && forall i: nat | i < r.start :: !HasAt(m, k, i)
    ensures r.Unmatched? ==> forall i: nat :: !HasAt(m, k, i)
  {
    hide ShapesAfter, Best, T.ClassHas;
    if r.Captures? {
      assert m.src[r.start..r.e] == [m.src[r.start]];
      forall i: nat | i < r.start ensures !HasAt(m, k, i) { assert Best(m, items, i, []).Miss?; }
    } else if r.Unmatched? {
      forall i: nat ensures !HasAt(m, k, i) { if i <= |m.src| { assert Best(m, items, i, []).Miss?; } }
    }
  }

  /** `string.match` with such a pattern yields the first character that the class has. */
  lemma ClassMatches(m: Matcher, k: T.Class, r: Matched)
    requires IsClass(m, k) && Matches(m, 0, r)
    ensures r.Captures? || r.Unmatched?
    ensures r.Captures? ==>
      && HasAt(m, k, r.start) && r.e == r.start + 1 && r.values == [Text([m.src[r.start]])]
      && forall i: nat | i < r.start :: !HasAt(m, k, i)
    ensures r.Unmatched? ==> forall i: nat :: !HasAt(m, k, i)
  {
    hide T.ClassHas, T.ClassText, T.ClassOk, T.AllRead, MatchesItems;
    OnlyClass(m, k);
    ClassShapes(m, k);
    forall i: nat | i <= |m.src| ensures Best(m, Items(m.pat, 0), i, []) == if HasAt(m, k, i) then Hit(i + 1, []) else Miss {
      ClassBest(m, k, i, []);
    }
    FirstWins(m, Items(m.pat, 0), r, k);
  }

  /** The pattern `[x-y]` matches a one-character subject exactly if the character is from `x` to `y`. */
  lemma RangeMatches(m: Matcher, x: char, y: char, r: Matched)
    requires m.pat == ['[', x, '-', y, ']'] && x !in "^%" && y !in "%]" && |m.src| == 1 && Matches(m, 0, r)
    ensures r == if x <= m.src[0] && m.src[0] <= y then Captures(0, 1, [Text(m.src)]) else Unmatched
  {
    var es := [T.Range(x, y)];
    var k := T.Set(false, es);
    assert es[1..] == [];
    assert T.ElementsText(es) == [x, '-', y] + T.ElementsText([]);
    assert T.SetText(false, es) == m.pat;
    assert T.ElementText(es[0])[0] == x;
    assert IsClass(m, k);
    ClassMatches(m, k, r);
    hide Matches, T.ElementsText, T.ElementText, Items, IsClass;
    assert es[0] == T.Range(x, y);
    assert HasAt(m, k, 0) <==> x <= m.src[0] && m.src[0] <= y;
    assert [m.src[0]] == m.src;
  }

  // ---------- balanced strings ----------

  /** How often `c` stands between `s` and `t`. */
  function Count(src: string, s: nat, t: nat, c: char): nat
    requires s <= t <= |src|
  {
    if s == t then 0 else Count(src, s, t - 1, c) + if src[t - 1] == c then 1 else 0
  }

  /** From `s` on there are more `b` than `e` in front of every position before `t`. */
  ghost predicate MoreOpen(src: string, s: nat, t: nat, b: char, e: char)
    requires t <= |src| + 1
  {
    forall i | s < i < t :: Count(src, s, i, b) > Count(src, s, i, e)
  }

  lemma {:induction false} BalanceEndMeans(src: string, s0: nat, s: nat, b: char, e: char, open: nat)
    requires b != e && s0 < s <= |src| && open >= 1 && Count(src, s0, s, b) == Count(src, s0, s, e) + open && MoreOpen(src, s0, s + 1, b, e)
    ensures var t := BalanceEnd(src, s, b, e, open);
      if t < 0 then MoreOpen(src, s0, |src| + 1, b, e)
      else s < t && MoreOpen(src, s0, t, b, e) && Count(src, s0, t, b) == Count(src, s0, t, e)
    decreases |src| - s
  {
    if s < |src| {
      assert Count(src, s0, s + 1, b) == Count(src, s0, s, b) + if src[s] == b then 1 else 0;
      assert Count(src, s0, s + 1, e) == Count(src, s0, s, e) + if src[s] == e then 1 else 0;
      if !(src[s] == e && open <= 1) {
        BalanceEndMeans(src, s0, s + 1, b, e, if src[s] == e then open - 1 else if src[s] == b then open + 1 else open);
      }
    }
  }

  /** `%bxy` for two different characters: it matches from an `x` to the first position at which as many `y` as `x` have
      come, and does not match if there is none. */
  lemma BalanceMeans(m: Matcher, s: nat, caps: seq<Capture>, b: char, e: char)
    requires s <= |m.src| && b != e
    ensures var r := Fixed(m, Balance(b, e), s, caps);
      if r.To? then
        && r.caps == caps && s < r.s <= |m.src| && m.src[s] == b
        && Count(m.src, s, r.s, b) == Count(m.src, s, r.s, e) && MoreOpen(m.src, s, r.s, b, e)
      else r == Stop && (s == |m.src| || m.src[s] != b || MoreOpen(m.src, s, |m.src| + 1, b, e))
  {
    if s < |m.src| && m.src[s] == b {
      assert Count(m.src, s, s + 1, b) == 1 && Count(m.src, s, s + 1, e) == 0;
      BalanceEndMeans(m.src, s, s + 1, b, e, 1);
    }
  }

  lemma {:induction false} TwiceMeans(src: string, s: nat, b: char)
    requires s <= |src|
    ensures var t := BalanceEnd(src, s, b, b, 1);
      if t < 0 then forall i | s <= i < |src| :: src[i] != b
      else s < t <= |src| && src[t - 1] == b && forall i | s <= i < t - 1 :: src[i] != b
    decreases |src| - s
  {
    if s < |src| && src[s] != b { TwiceMeans(src, s + 1, b); }
  }

  /** `%bxx`: from one `x` to the next. */
  lemma BalanceTwice(m: Matcher, s: nat, caps: seq<Capture>, b: char)
    requires s <= |m.src|
    ensures var r := Fixed(m, Balance(b, b), s, caps);
      if r.To? then
        && r.caps == caps && s + 1 < r.s <= |m.src| && m.src[s] == b && m.src[r.s - 1] == b
        && forall i | s < i < r.s - 1 :: m.src[i] != b
      else r == Stop && (s == |m.src| || m.src[s] != b || forall i | s < i < |m.src| :: m.src[i] != b)
  {
    if s < |m.src| { TwiceMeans(m.src, s + 1, b); }
  }

  // ---------- frontiers, captures ----------

  /** `%f[set]` matches the empty string between a character that the set does not have and one that it has; before the
      subject and after it stands a NUL. */
  lemma FrontierMeans(m: Matcher, item: Item, neg: bool, es: seq<T.Element>, s: nat, caps: seq<Capture>)
    requires s <= |m.src| && T.Reads(m, item, T.Frontier(neg, es))
    ensures var padded := ['\0'] + m.src + ['\0'];
      Fixed(m, item, s, caps) ==
      if !T.SetHas(m.ctype, neg, es, padded[s]) && T.SetHas(m.ctype, neg, es, padded[s + 1]) then To(s, caps) else Stop
  {
    hide T.SetHas, InBrackets;
  }

  /** The same character at the `k`th place after `i` and after `j`. */
  predicate SameAt(src: string, i: nat, j: nat, k: nat) { i + k < |src| && j + k < |src| && src[i + k] == src[j + k] }

  lemma RepeatsMeans(src: string, i: nat, j: nat, n: nat)
    requires i + n <= |src| && j + n <= |src|
    ensures Repeats(src, i, j, n) <==> forall k | 0 <= k < n :: SameAt(src, i, j, k)
  {
    var x, y := src[i..i + n], src[j..j + n];
    if forall k | 0 <= k < n :: SameAt(src, i, j, k) {
      forall k | 0 <= k < n ensures x[k] == y[k] { assert SameAt(src, i, j, k); }
    } else {
      var k :| 0 <= k < n && !SameAt(src, i, j, k);
      assert x[k] != y[k];
    }
  }

  /** `%1` to `%9` match the characters of a closed capture once more, one by one, and are an error for any other. */
  lemma RepeatMeans(m: Matcher, d: char, s: nat, caps: seq<Capture>)
    requires s <= |m.src| && IsDigit(d) && forall c | c in caps && c.len >= 0 :: c.init + c.len <= |m.src|
    ensures var r, l := Fixed(m, BackRef(d), s, caps), (d as int) - ('1' as int);
      && (r == Fault(InvalidIndex) <==> d == '0' || l >= |caps| || caps[l].len == CAP_UNFINISHED)
      && (r.To? <==>
          && d != '0' && l < |caps| && caps[l].len >= 0 && s + caps[l].len <= |m.src|
          && forall k | 0 <= k < caps[l].len :: SameAt(m.src, caps[l].init, s, k))
      && (r.To? ==> r == To(s + caps[l].len, caps)) && (r.Fault? ==> r.err == InvalidIndex)
  {
    hide Repeats, SameAt;
    var l := (d as int) - ('1' as int);
    if 0 <= l < |caps| && caps[l].len >= 0 && s + caps[l].len <= |m.src| {
      assert caps[l] in caps;
      RepeatsMeans(m.src, caps[l].init, s, caps[l].len);
    } else if 0 <= l < |caps| && caps[l].len >= 0 {
      NoRoom(m.src, caps[l].init, s, caps[l].len);
    }
  }

  lemma NoRoom(src: string, i: nat, j: nat, n: nat)
    requires j + n > |src|
    ensures !Repeats(src, i, j, n)
  {
  }

  /** Classes only, and then the end of a capture. */
  predicate ClassesThenClose(items: seq<Item>) {
    items != [] && items[|items| - 1] == Close && forall i | 0 <= i < |items| - 1 :: items[i].Single?
  }

  lemma {:induction false} CloseEnds(m: Matcher, items: seq<Item>, ks: seq<nat>, s: nat, caps: seq<Capture>)
    requires s <= |m.src| && ClassesThenClose(items) && |caps| > 0 && caps[|caps| - 1].len == CAP_UNFINISHED
    requires Follow(m, items, ks, s, caps).Hit?
    ensures var r, l := Follow(m, items, ks, s, caps), |caps| - 1;
      r.caps == caps[l := Capture(caps[l].init, r.e - caps[l].init)]
    decreases |items|
  {
    if |items| == 1 {
      assert items[0] == Close && items[1..] == [];
    } else {
      assert items[0].Single?;
      TakenInside(m, items[0], s, ks[0]);
      assert items[1..][|items| - 2] == Close;
      forall i | 0 <= i < |items| - 2 ensures items[1..][i].Single? { assert items[1..][i] == items[i + 1]; }
      CloseEnds(m, items[1..], ks[1..], s + ks[0], caps);
    }
  }

  /** A capture around any sequence of classes holds exactly the text that they match. */
  lemma CaptureHolds(m: Matcher, classes: seq<T.Part>, s: nat)
    requires s <= |m.src| && (forall i | 0 <= i < |classes| :: classes[i].Single?)
    requires var parts := [T.Open] + classes + [T.Close]; T.Ok(parts) && m.pat == T.Text(parts)
    requires Best(m, Items(m.pat, 0), s, []).Hit?
    ensures var r := Best(m, Items(m.pat, 0), s, []); r.caps == [Capture(s, r.e - s)]
  {
    var parts := [T.Open] + classes + [T.Close];
    hide T.Ok, T.Text, Items;
    T.PatternRead(m, 0, parts) by { assert m.pat[0..] == m.pat; }
    var items := Items(m.pat, 0);
    OpenThenClose(m, items, classes);
    var ks := BestFound(m, items, s, []);
    assert [] + [Capture(s, CAP_UNFINISHED)] == [Capture(s, CAP_UNFINISHED)];
    assert Fixed(m, items[0], s, []) == To(s, [Capture(s, CAP_UNFINISHED)]);
    assert Follow(m, items, ks, s, []) == Follow(m, items[1..], ks[1..], s, [Capture(s, CAP_UNFINISHED)]);
    CloseEnds(m, items[1..], ks[1..], s, [Capture(s, CAP_UNFINISHED)]);
  }

  lemma OpenThenClose(m: Matcher, items: seq<Item>, classes: seq<T.Part>)
    requires (forall i | 0 <= i < |classes| :: classes[i].Single?) && T.AllRead(m, items, [T.Open] + classes + [T.Close])
    ensures items != [] && items[0] == Open(false) && ClassesThenClose(items[1..])
  {
    hide InClass, T.ClassHas, InBrackets, T.SetHas;
    var parts := [T.Open] + classes + [T.Close];
    assert T.Reads(m, items[0], parts[0]) && T.Reads(m, items[|items| - 1], parts[|items| - 1]);
    assert parts[|items| - 1] == T.Close;
    forall i | 0 <= i < |classes| ensures items[1..][i].Single? {
      assert parts[i + 1] == classes[i] && T.Reads(m, items[i + 1], parts[i + 1]);
    }
  }

  /** `()` yields the position itself, counted from 1. */
  lemma PositionMatches(m: Matcher, init: nat, r: Matched)
    requires m.pat == "()" && init <= |m.src| && Matches(m, init, r)
    ensures r == Captures(init, init, [Position(init + 1)])
  {
    var items := Items(m.pat, 0);
    assert items == [Open(true)] by { assert Items(m.pat, 2) == []; }
    assert items[1..] == [];
    var c := Capture(init, CAP_POSITION);
    assert [] + [c] == [c];
    assert Best(m, items, init, []) == Best(m, [], init, [c]) == Hit(init, [c]);
    assert [] + [PositionShape] == [PositionShape];
    assert ShapesAfter(items, []) == ShapesAfter([], [PositionShape]) == [PositionShape];
    hide Items, Best, ShapesAfter;
    if r.Captures? { assert [c][0] == c; assert r.values == [ValueOf(m.src, c)]; }
  }
}
