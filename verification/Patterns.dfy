/**
  What Lua patterns mean (section 5.4.1 of the Lua 5.1 Reference Manual): the items of a pattern, the choices that
  a match makes for them, and which choices are preferred.
  */
module Patterns {

  /** `LUA_MAXCAPTURES` */
  const MAXCAPTURES: nat := 32

  const CAP_UNFINISHED: int := -1
  const CAP_POSITION: int := -2

  datatype Error =
    | EndsWithPercent | MissingBracket | MissingFrontier | UnbalancedPattern
    | InvalidIndex | InvalidCapture | TooManyCaptures

  /** A capture: where it starts, and its length or one of the two marks. */
  datatype Capture = Capture(init: nat, len: int)

  /** A subject, a pattern up to its first NUL, and the character classes of the locale. */
  datatype Matcher = Matcher(src: string, pat: string, ctype: (char, char) -> bool)

  /** Reading a C string: the character at the end is NUL. */
  function At(s: string, i: nat): char { if i < |s| then s[i] else '\0' }

  // ---------- single characters ----------

  predicate IsUpper(c: char) { 'A' <= c <= 'Z' }
  predicate IsLower(c: char) { 'a' <= c <= 'z' }
  predicate IsDigit(c: char) { '0' <= c <= '9' }

  function Lower(c: char): char { if IsUpper(c) then ((c as int) + 32) as char else c }

  /** `match_class`: a lower-case letter stands for a class, the upper-case letter for its complement. */
  predicate MatchClass(m: Matcher, c: char, cl: char) {
    if Lower(cl) in "acdlpsuwx" then m.ctype(Lower(cl), c) == IsLower(cl)
    else if Lower(cl) == 'z' then (c == '\0') == IsLower(cl)
    else cl == c
  }

  /** Some element of the set between `q` and `ec` has the character. */
  predicate InSet(m: Matcher, q: nat, ec: nat, c: char)
    decreases ec - q
  {
    if q >= ec then false
    else if At(m.pat, q) == '%' then MatchClass(m, c, At(m.pat, q + 1)) || InSet(m, q + 2, ec, c)
    else if At(m.pat, q + 1) == '-' && q + 2 < ec then At(m.pat, q) <= c <= At(m.pat, q + 2) || InSet(m, q + 3, ec, c)
    else At(m.pat, q) == c || InSet(m, q + 1, ec, c)
  }

  /** The set that starts at `p` and whose closing bracket is at `ec` has the character. */
  predicate InBrackets(m: Matcher, p: nat, ec: nat, c: char) {
    if At(m.pat, p + 1) == '^' then !InSet(m, p + 2, ec, c) else InSet(m, p + 1, ec, c)
  }

  /** The class from `p` to `ep` has the character. */
  predicate InClass(m: Matcher, p: nat, ep: nat, c: char) {
    match At(m.pat, p)
    case '.' => true
    case '%' => MatchClass(m, c, At(m.pat, p + 1))
    case '[' => ep > 0 && InBrackets(m, p, ep - 1, c)
    case x => x == c
  }

  // ---------- items ----------

  datatype Rep = Once | Optional | Star | Plus | Minus

  datatype Item =
    | Single(p: nat, ep: nat, rep: Rep)
    | Open(position: bool)
    | Close
    | Balance(b: char, e: char)
    | Frontier(p: nat, ep: nat)
    | BackRef(digit: char)
    | AtEnd
    | Bad(err: Error)

  /** The end of a set: the position after the first closing bracket that is not the first character, escaped
      ones apart; -1 if there is none. */
  function SetEnd(pat: string, q: nat): (r: int)
    ensures r == -1 || (q + 1 < r <= |pat| && pat[r - 1] == ']')
    decreases |pat| - q
  {
    if q >= |pat| then -1
    else
      var q1 := if pat[q] == '%' && q + 1 < |pat| then q + 2 else q + 1;
      if At(pat, q1) == ']' && q1 < |pat| then q1 + 1 else SetEnd(pat, q1)
  }

  /** The end of the class that starts at `p`, or an error. */
  datatype ClassEnd = EndAt(ep: nat) | NoEnd(err: Error)

  function EndOfClass(pat: string, p: nat): (r: ClassEnd)
    requires p < |pat|
    ensures r.EndAt? ==> p < r.ep <= |pat|
  {
    if pat[p] == '%' then
      if p + 1 >= |pat| then NoEnd(EndsWithPercent) else EndAt(p + 2)
    else if pat[p] == '[' then
      var q := SetEnd(pat, if At(pat, p + 1) == '^' then p + 2 else p + 1);
      if q < 0 then NoEnd(MissingBracket) else EndAt(q)
    else EndAt(p + 1)
  }

  function RepAt(pat: string, ep: nat): Rep {
    match At(pat, ep)
    case '?' => Optional
    case '*' => Star
    case '+' => Plus
    case '-' => Minus
    case _ => Once
  }

  /** An item and the position after it. */
  datatype Parsed = Parsed(item: Item, next: nat)

  function SingleAt(pat: string, p: nat): (r: Parsed)
    requires p < |pat|
    ensures r.next > p
  {
    match EndOfClass(pat, p)
    case NoEnd(err) => Parsed(Bad(err), |pat|)
    case EndAt(ep) =>
      var rep := RepAt(pat, ep);
      Parsed(Single(p, ep, rep), if rep == Once then ep else ep + 1)
  }

  /** The item that starts at `p`. */
  function ItemAt(pat: string, p: nat): (r: Parsed)
    requires p < |pat|
    ensures r.next > p
  {
    match pat[p]
    case '(' => if At(pat, p + 1) == ')' then Parsed(Open(true), p + 2) else Parsed(Open(false), p + 1)
    case ')' => Parsed(Close, p + 1)
    case '%' =>
      var c := At(pat, p + 1);
      if c == 'b' then
        if p + 3 >= |pat| then Parsed(Bad(UnbalancedPattern), |pat|) else Parsed(Balance(pat[p + 2], pat[p + 3]), p + 4)
      else if c == 'f' then
        if At(pat, p + 2) != '[' || p + 2 >= |pat| then Parsed(Bad(MissingFrontier), |pat|)
        else
          (match EndOfClass(pat, p + 2)
           case NoEnd(err) => Parsed(Bad(err), |pat|)
           case EndAt(ep) => Parsed(Frontier(p + 2, ep), ep))
      else if IsDigit(c) then Parsed(BackRef(c), p + 2)
      else SingleAt(pat, p)
    case '$' => if p + 1 == |pat| then Parsed(AtEnd, p + 1) else SingleAt(pat, p)
    case _ => SingleAt(pat, p)
  }

  /** The items of the pattern from `p` on. */
  function Items(pat: string, p: nat): seq<Item>
    decreases |pat| - p
  {
    if p >= |pat| then [] else [ItemAt(pat, p).item] + Items(pat, ItemAt(pat, p).next)
  }

  // ---------- what an item without choice does ----------

  datatype Step = To(s: nat, caps: seq<Capture>) | Stop | Fault(err: Error)

  /** The last capture that is still open, or -1. */
  function LastOpen(caps: seq<Capture>): (l: int)
    ensures -1 <= l < |caps| && (l >= 0 ==> caps[l].len == CAP_UNFINISHED)
    ensures forall i | l < i < |caps| :: caps[i].len != CAP_UNFINISHED
  {
    if caps == [] then -1
    else if caps[|caps| - 1].len == CAP_UNFINISHED then |caps| - 1
    else LastOpen(caps[..|caps| - 1])
  }

  /** The end of a balanced stretch: the first place where as many `e` as `b` have been seen; -1 if there is none. */
  function BalanceEnd(src: string, s: nat, b: char, e: char, open: nat): (r: int)
    ensures r == -1 || s < r <= |src|
    decreases |src| - s
  {
    if s >= |src| then -1
    else if src[s] == e then if open <= 1 then s + 1 else BalanceEnd(src, s + 1, b, e, open - 1)
    else if src[s] == b then BalanceEnd(src, s + 1, b, e, open + 1)
    else BalanceEnd(src, s + 1, b, e, open)
  }

  function Fixed(m: Matcher, item: Item, s: nat, caps: seq<Capture>): Step
    requires s <= |m.src| && !item.Single?
  {
    match item
    case Open(position) =>
      if |caps| >= MAXCAPTURES then Fault(TooManyCaptures)
      else To(s, caps + [Capture(s, if position then CAP_POSITION else CAP_UNFINISHED)])
    case Close =>
      var l := LastOpen(caps);
      if l < 0 then Fault(InvalidCapture) else To(s, caps[l := Capture(caps[l].init, s - caps[l].init)])
    case Balance(b, e) =>
      if At(m.src, s) != b || s >= |m.src| then Stop
      else var t := BalanceEnd(m.src, s + 1, b, e, 1); if t < 0 then Stop else To(t, caps)
    case Frontier(p, ep) =>
      var previous := if s == 0 then '\0' else m.src[s - 1];
      if ep > 0 && !InBrackets(m, p, ep - 1, previous) && InBrackets(m, p, ep - 1, At(m.src, s)) then To(s, caps) else Stop
    case BackRef(d) =>
      var l := (d as int) - ('1' as int);
      if l < 0 || l >= |caps| || caps[l].len == CAP_UNFINISHED then Fault(InvalidIndex)
      else if caps[l].len >= 0 && Repeats(m.src, caps[l].init, s, caps[l].len) then To(s + caps[l].len, caps)
      else Stop
    case AtEnd => if s == |m.src| then To(s, caps) else Stop
    case Bad(err) => Fault(err)
  }

  /** The `n` characters at `i` are also at `j`. */
  predicate Repeats(src: string, i: nat, j: nat, n: nat) {
    i + n <= |src| && j + n <= |src| && src[i..i + n] == src[j..j + n]
  }

  lemma FixedInside(m: Matcher, item: Item, s: nat, caps: seq<Capture>)
    requires s <= |m.src| && !item.Single? && Fixed(m, item, s, caps).To?
    ensures s <= Fixed(m, item, s, caps).s <= |m.src|
  {
  }

  // ---------- choices ----------

  datatype Outcome = Hit(e: nat, caps: seq<Capture>) | Miss | Raise(err: Error)

  /** The class of the item has the character at `s`. */
  predicate Takes(m: Matcher, item: Item, s: nat)
    requires item.Single?
  {
    s < |m.src| && InClass(m, item.p, item.ep, m.src[s])
  }

  /** The item can take exactly `k` characters from `s`. */
  predicate MayTake(m: Matcher, item: Item, s: nat, k: nat)
    requires item.Single?
  {
    && (forall i | s <= i < s + k :: Takes(m, item, i))
    && match item.rep
       case Once => k == 1
       case Optional => k <= 1
       case Plus => k >= 1
       case _ => true
  }

  lemma TakenInside(m: Matcher, item: Item, s: nat, k: nat)
    requires item.Single? && s <= |m.src| && forall i | s <= i < s + k :: Takes(m, item, i)
    ensures s + k <= |m.src|
  {
    if k > 0 { assert Takes(m, item, s + k - 1); }
  }

  /** Following the choices `ks`, one for each item: how many characters the item takes. */
  function Follow(m: Matcher, items: seq<Item>, ks: seq<nat>, s: nat, caps: seq<Capture>): Outcome
    requires s <= |m.src|
    decreases |items|
  {
    if items == [] then (if ks == [] then Hit(s, caps) else Miss)
    else if ks == [] then Miss
    else if items[0].Single? then
      if MayTake(m, items[0], s, ks[0]) then
        TakenInside(m, items[0], s, ks[0]);
        Follow(m, items[1..], ks[1..], s + ks[0], caps)
      else Miss
    else if ks[0] != 0 then Miss
    else match Fixed(m, items[0], s, caps)
      case To(t, caps') => FixedInside(m, items[0], s, caps); Follow(m, items[1..], ks[1..], t, caps')
      case Stop => Miss
      case Fault(err) => Raise(err)
  }

  /** The first choice that differs decides: `-` prefers fewer characters, all other repetitions prefer more. */
  predicate Prefers(items: seq<Item>, ks: seq<nat>, js: seq<nat>)
    decreases |items|
  {
    && items != [] && ks != [] && js != []
    && if ks[0] == js[0] then Prefers(items[1..], ks[1..], js[1..])
       else if items[0].Single? && items[0].rep == Minus then ks[0] < js[0]
       else ks[0] > js[0]
  }
}
