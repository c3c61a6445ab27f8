/**
  How patterns are written (section 5.4.1 of the Lua 5.1 Reference Manual): patterns as trees, the characters that each
  part has, their text, and the proof that the matcher reads the text as the tree it was written from.
  */
module PatternText {
  import P = Patterns

  // ---------- the characters of a class ----------

  /** An element of a set: a character, a range, or `%` and a character. */
  datatype Element = One(c: char) | Range(lo: char, hi: char) | Letter(l: char)

  datatype Class = AnyChar | Plain(c: char) | Escaped(l: char) | Set(neg: bool, es: seq<Element>)

  type Locale = (char, char) -> bool

  /** `%a` and the like: the classes of the locale, `%A` and the like their complements, `%z` and `%Z` by the NUL
      character; before any other character `%` has no meaning of its own. */
  predicate LetterHas(ctype: Locale, l: char, c: char) {
    match l
    case 'a' => ctype('a', c) case 'A' => !ctype('a', c)
    case 'c' => ctype('c', c) case 'C' => !ctype('c', c)
    case 'd' => ctype('d', c) case 'D' => !ctype('d', c)
    case 'l' => ctype('l', c) case 'L' => !ctype('l', c)
    case 'p' => ctype('p', c) case 'P' => !ctype('p', c)
    case 's' => ctype('s', c) case 'S' => !ctype('s', c)
    case 'u' => ctype('u', c) case 'U' => !ctype('u', c)
    case 'w' => ctype('w', c) case 'W' => !ctype('w', c)
    case 'x' => ctype('x', c) case 'X' => !ctype('x', c)
    case 'z' => c == '\0'     case 'Z' => c != '\0'
    case _ => c == l
  }

  predicate ElementHas(ctype: Locale, e: Element, c: char) {
    match e
    case One(x) => c == x
    case Range(lo, hi) => lo <= c && c <= hi
    case Letter(l) => LetterHas(ctype, l, c)
  }

  predicate SetHas(ctype: Locale, neg: bool, es: seq<Element>, c: char) {
    (exists i | 0 <= i < |es| :: ElementHas(ctype, es[i], c)) != neg
  }

  predicate ClassHas(ctype: Locale, k: Class, c: char) {
    match k
    case AnyChar => true
    case Plain(x) => c == x
    case Escaped(l) => LetterHas(ctype, l, c)
    case Set(neg, es) => SetHas(ctype, neg, es, c)
  }

  // ---------- the text of a set ----------

  function ElementText(e: Element): (s: string)
    ensures |s| > 0
  {
    match e
    case One(c) => [c]
    case Range(lo, hi) => [lo, '-', hi]
    case Letter(l) => ['%', l]
  }

  function ElementsText(es: seq<Element>): string {
    if es == [] then "" else ElementText(es[0]) + ElementsText(es[1..])
  }

  function SetText(neg: bool, es: seq<Element>): string { (if neg then "[^" else "[") + ElementsText(es) + "]" }

  predicate ElementOk(e: Element) {
    match e
    case One(c) => c != '%'
    case Range(lo, hi) => lo != '%' && hi != '%' && hi != ']'
    case Letter(_) => true
  }

  /** A bracket may only come first, and a hyphen after a character only last. */
  predicate RestOk(es: seq<Element>) {
    && (forall i | 0 <= i < |es| :: ElementOk(es[i]))
    && (forall i | 0 < i < |es| :: ElementText(es[i])[0] != ']')
    && (forall i | 0 < i < |es| && es[i - 1].One? && ElementText(es[i])[0] == '-' :: i + 1 == |es| && es[i] == One('-'))
  }

  predicate SetOk(neg: bool, es: seq<Element>) {
    es != [] && RestOk(es) && (!neg ==> ElementText(es[0])[0] != '^')
  }

  // ---------- reading a set ----------

  /** The text `t` stands at position `p` of `s`. */
  predicate Stands(s: string, p: nat, t: string) { p + |t| <= |s| && forall k | 0 <= k < |t| :: s[p + k] == t[k] }

  lemma StandsPart(s: string, p: nat, t: string, u: string)
    requires Stands(s, p, t + u)
    ensures Stands(s, p, t) && Stands(s, p + |t|, u)
  {
    forall k | 0 <= k < |t| ensures s[p + k] == t[k] { assert (t + u)[k] == t[k]; }
    forall k | 0 <= k < |u| ensures s[p + |t| + k] == u[k] { assert (t + u)[|t| + k] == u[k]; }
  }

  /** The elements stand at `q`, and the closing bracket after them. */
  predicate SetAt(s: string, q: nat, es: seq<Element>) { Stands(s, q, ElementsText(es) + "]") }

  lemma ElementsUnfold(es: seq<Element>)
    requires es != []
    ensures var t, u := ElementText(es[0]), ElementsText(es[1..]);
      && ElementsText(es) + "]" == t + (u + "]") && |ElementsText(es)| == |t| + |u|
      && (u + "]")[0] == if |es| == 1 then ']' else ElementText(es[1])[0]
  {
    var t, u := ElementText(es[0]), ElementsText(es[1..]);
    if |es| > 1 {
      assert es[1..][0] == es[1];
      assert u == ElementText(es[1]) + ElementsText(es[1..][1..]);
    }
  }

  lemma TailOk(es: seq<Element>)
    requires RestOk(es) && es != []
    ensures RestOk(es[1..])
  {
    hide ElementText, ElementOk;
    forall i | 0 <= i < |es[1..]| ensures es[1..][i] == es[i + 1] { }
  }

  /** What stands after the first element. */
  lemma SetTail(s: string, q: nat, es: seq<Element>)
    requires SetAt(s, q, es) && es != [] && RestOk(es)
    ensures var t, n := ElementText(es[0]), |ElementText(es[0])|;
      && Stands(s, q, t) && |ElementsText(es)| == n + |ElementsText(es[1..])| && SetAt(s, q + n, es[1..]) && RestOk(es[1..])
      && q + n < |s| && s[q + n] == if |es| == 1 then ']' else ElementText(es[1])[0]
  {
    hide ElementText, RestOk, ElementsText;
    var t, u := ElementText(es[0]), ElementsText(es[1..]);
    ElementsUnfold(es);
    TailOk(es);
    StandsPart(s, q, t, u + "]");
    assert s[q + |t| + 0] == (u + "]")[0];
  }

  lemma LetterMeans(m: P.Matcher, l: char, c: char)
    ensures P.MatchClass(m, c, l) <==> LetterHas(m.ctype, l, c)
  {
  }

  lemma HeadOrTail(ctype: Locale, es: seq<Element>, c: char)
    requires es != []
    ensures (exists i | 0 <= i < |es| :: ElementHas(ctype, es[i], c)) <==>
            ElementHas(ctype, es[0], c) || exists i | 0 <= i < |es[1..]| :: ElementHas(ctype, es[1..][i], c)
  {
    if i :| 0 <= i < |es| && ElementHas(ctype, es[i], c) {
      if i > 0 { assert es[1..][i - 1] == es[i]; }
    }
    if i :| 0 <= i < |es[1..]| && ElementHas(ctype, es[1..][i], c) {
      assert es[i + 1] == es[1..][i];
    }
  }

  /** A hyphen after a character is the last one before the bracket. */
  lemma HyphenIsLast(s: string, q: nat, es: seq<Element>)
    requires SetAt(s, q, es) && es != [] && RestOk(es) && es[0].One?
    ensures q + 1 < |s| && (s[q + 1] == '-' ==> |ElementsText(es)| <= 2)
  {
    SetTail(s, q, es);
    if s[q + 1] == '-' {
      assert |es| == 2 && es[1] == One('-');
      SetTail(s, q + 1, es[1..]);
      assert es[1..][1..] == [];
    }
  }

  /** One element is read. */
  lemma ElementRead(m: P.Matcher, q: nat, es: seq<Element>, c: char)
    requires es != [] && RestOk(es) && SetAt(m.pat, q, es)
    ensures var ec := q + |ElementsText(es)|; var n := |ElementText(es[0])|;
      P.InSet(m, q, ec, c) <==> ElementHas(m.ctype, es[0], c) || P.InSet(m, q + n, ec, c)
  {
    hide ElementsText, SetAt;
    SetTail(m.pat, q, es);
    var t := ElementText(es[0]);
    assert m.pat[q + 0] == t[0];
    match es[0] {
      case One(x) => HyphenIsLast(m.pat, q, es);
      case Range(lo, hi) => assert m.pat[q + 1] == t[1] && m.pat[q + 2] == t[2];
      case Letter(l) => assert m.pat[q + 1] == t[1]; LetterMeans(m, l, c); hide P.MatchClass, LetterHas;
    }
  }

  /** Every set is read as its elements. */
  lemma {:induction false} SetRead(m: P.Matcher, q: nat, es: seq<Element>, c: char)
    requires RestOk(es) && SetAt(m.pat, q, es)
    ensures P.InSet(m, q, q + |ElementsText(es)|, c) <==> exists i | 0 <= i < |es| :: ElementHas(m.ctype, es[i], c)
    decreases |es|
  {
    if es != [] {
      hide P.InSet, ElementHas, ElementsText, SetAt, RestOk, ElementText;
      SetTail(m.pat, q, es);
      ElementRead(m, q, es, c);
      SetRead(m, q + |ElementText(es[0])|, es[1..], c);
      HeadOrTail(m.ctype, es, c);
    }
  }

  lemma ElementSkipped(pat: string, q: nat, e: Element)
    requires ElementOk(e) && Stands(pat, q, ElementText(e)) && q + |ElementText(e)| < |pat|
    ensures var p := q + |ElementText(e)|; P.SetEnd(pat, q) == if pat[p] == ']' then p + 1 else P.SetEnd(pat, p)
  {
    var t := ElementText(e);
    assert pat[q + 0] == t[0];
    if e.Range? {
      assert pat[q + 1] == t[1] && pat[q + 2] == t[2];
      assert P.SetEnd(pat, q) == P.SetEnd(pat, q + 1);
      assert P.SetEnd(pat, q + 1) == P.SetEnd(pat, q + 2);
    }
  }

  /** No element but the first begins with a bracket. */
  lemma NoBracket(es: seq<Element>)
    requires RestOk(es) && |es| > 1
    ensures ElementText(es[1])[0] != ']'
  {
    hide ElementText, ElementOk;
  }

  /** The closing bracket is found. */
  lemma {:induction false} SetEnds(pat: string, q: nat, es: seq<Element>)
    requires es != [] && RestOk(es) && SetAt(pat, q, es)
    ensures P.SetEnd(pat, q) == q + |ElementsText(es)| + 1
    decreases |es|
  {
    hide P.SetEnd, ElementText, ElementsText, SetAt, Stands, ElementOk;
    var n := |ElementText(es[0])|;
    SetTail(pat, q, es);
    ElementSkipped(pat, q, es[0]);
    hide RestOk;
    if |es| == 1 {
      assert es[1..] == [];
      NoElements();
    } else {
      NoBracket(es);
      SetEnds(pat, q + n, es[1..]);
    }
  }

  lemma NoElements()
    ensures ElementsText([]) == ""
  {
  }

  /** The brackets of a set. */
  lemma BracketsStand(s: string, p: nat, neg: bool, es: seq<Element>)
    requires SetOk(neg, es) && Stands(s, p, SetText(neg, es))
    ensures var n := if neg then 2 else 1;
      && |SetText(neg, es)| == n + |ElementsText(es)| + 1 && p + n < |s| && s[p] == '[' && SetAt(s, p + n, es)
      && (s[p + 1] == '^' <==> neg)
  {
    hide ElementText, ElementsText, RestOk;
    var h := if neg then "[^" else "[";
    assert SetText(neg, es) == h + (ElementsText(es) + "]");
    StandsPart(s, p, h, ElementsText(es) + "]");
    assert s[p + 0] == h[0];
    var q := p + |h|;
    SetTail(s, q, es);
    assert s[q + 0] == ElementText(es[0])[0];
    if neg { assert s[p + 1] == h[1]; }
  }

  /** A whole set: where it ends, and what it has. */
  lemma BracketsRead(m: P.Matcher, p: nat, neg: bool, es: seq<Element>)
    requires SetOk(neg, es) && Stands(m.pat, p, SetText(neg, es))
    ensures P.EndOfClass(m.pat, p) == P.EndAt(p + |SetText(neg, es)|)
    ensures forall c :: P.InBrackets(m, p, p + |SetText(neg, es)| - 1, c) <==> SetHas(m.ctype, neg, es, c)
  {
    hide SetText, ElementsText, ElementText, RestOk, Stands, SetAt, P.InSet, P.SetEnd;
    BracketsStand(m.pat, p, neg, es);
    var q := p + if neg then 2 else 1;
    SetEnds(m.pat, q, es);
    forall c ensures P.InBrackets(m, p, p + |SetText(neg, es)| - 1, c) <==> SetHas(m.ctype, neg, es, c) {
      SetRead(m, q, es, c);
    }
  }

  // ---------- patterns ----------

  /** The parts of a pattern: a class with its repetition, `(`, `()`, `)`, `%bxy`, `%f[set]`, `%1` and `$`. */
  datatype Part =
    | Single(k: Class, rep: P.Rep)
    | Open
    | Position
    | Close
    | Balance(b: char, e: char)
    | Frontier(neg: bool, es: seq<Element>)
    | BackRef(d: char)
    | AtEnd

  function ClassText(k: Class): (s: string)
    ensures |s| > 0
  {
    match k
    case AnyChar => "."
    case Plain(c) => [c]
    case Escaped(l) => ['%', l]
    case Set(neg, es) => SetText(neg, es)
  }

  function RepText(rep: P.Rep): string {
    match rep
    case Once => ""
    case Optional => "?"
    case Star => "*"
    case Plus => "+"
    case Minus => "-"
  }

  function PartText(part: Part): string {
    match part
    case Single(k, rep) => ClassText(k) + RepText(rep)
    case Open => "("
    case Position => "()"
    case Close => ")"
    case Balance(b, e) => ['%', 'b', b, e]
    case Frontier(neg, es) => "%f" + SetText(neg, es)
    case BackRef(d) => ['%', d]
    case AtEnd => "$"
  }

  function Text(parts: seq<Part>): string { if parts == [] then "" else PartText(parts[0]) + Text(parts[1..]) }

  predicate ClassOk(k: Class) {
    match k
    case AnyChar => true
    case Plain(c) => c !in "(.%[)"
    case Escaped(l) => l != 'b' && l != 'f' && !('0' <= l <= '9')
    case Set(neg, es) => SetOk(neg, es)
  }

  /** The part can be told from what follows it. */
  predicate PartOk(part: Part, rest: string) {
    match part
    case Single(k, rep) =>
      && ClassOk(k) && (rep == P.Once ==> rest == "" || rest[0] !in "?*+-")
      && (k == Plain('$') && rep == P.Once ==> rest != "")
    case Open => rest == "" || rest[0] != ')'
    case Frontier(neg, es) => SetOk(neg, es)
    case BackRef(d) => '0' <= d <= '9'
    case AtEnd => rest == ""
    case _ => true
  }

  predicate Ok(parts: seq<Part>) { parts == [] || (PartOk(parts[0], Text(parts[1..])) && Ok(parts[1..])) }

  /** The item is that of the part. */
  ghost predicate Reads(m: P.Matcher, item: P.Item, part: Part) {
    match part
    case Single(k, rep) =>
      item.Single? && item.rep == rep && forall c :: P.InClass(m, item.p, item.ep, c) <==> ClassHas(m.ctype, k, c)
    case Open => item == P.Open(false)
    case Position => item == P.Open(true)
    case Close => item == P.Close
    case Balance(b, e) => item == P.Balance(b, e)
    case Frontier(neg, es) =>
      item.Frontier? && item.ep > 0 && forall c :: P.InBrackets(m, item.p, item.ep - 1, c) <==> SetHas(m.ctype, neg, es, c)
    case BackRef(d) => item == P.BackRef(d)
    case AtEnd => item == P.AtEnd
  }

  /** From `q` on the text of the pattern is `t`. */
  predicate Rest(s: string, q: nat, t: string) { |s| == q + |t| && Stands(s, q, t) }

  lemma RestPart(s: string, q: nat, t: string, u: string)
    requires Rest(s, q, t + u)
    ensures Stands(s, q, t) && Rest(s, q + |t|, u)
  {
    StandsPart(s, q, t, u);
  }

  lemma ClassRead(m: P.Matcher, q: nat, k: Class)
    requires ClassOk(k) && Stands(m.pat, q, ClassText(k))
    ensures var ep := q + |ClassText(k)|;
      && q < |m.pat| && P.EndOfClass(m.pat, q) == P.EndAt(ep) && m.pat[q] == ClassText(k)[0]
      && forall c :: P.InClass(m, q, ep, c) <==> ClassHas(m.ctype, k, c)
  {
    var t := ClassText(k);
    assert m.pat[q + 0] == t[0];
    match k {
      case AnyChar =>
      case Plain(_) =>
      case Escaped(l) =>
        assert m.pat[q + 1] == t[1];
        forall c ensures P.MatchClass(m, c, l) <==> LetterHas(m.ctype, l, c) { LetterMeans(m, l, c); }
        hide P.MatchClass, LetterHas;
      case Set(neg, es) =>
        BracketsRead(m, q, neg, es);
        hide P.InBrackets, SetHas, P.EndOfClass, SetText, Stands, SetOk;
    }
  }

  lemma SingleRead(m: P.Matcher, q: nat, k: Class, rep: P.Rep, rest: string)
    requires PartOk(Single(k, rep), rest) && Rest(m.pat, q, ClassText(k) + RepText(rep) + rest)
    ensures q < |m.pat| && P.SingleAt(m.pat, q) == P.Parsed(P.Single(q, q + |ClassText(k)|, rep), q + |ClassText(k)| + |RepText(rep)|)
    ensures m.pat[q] == ClassText(k)[0] && (|ClassText(k)| > 1 ==> q + 1 < |m.pat| && m.pat[q + 1] == ClassText(k)[1])
    ensures forall c :: P.InClass(m, q, q + |ClassText(k)|, c) <==> ClassHas(m.ctype, k, c)
  {
    var t, u := ClassText(k), RepText(rep);
    assert t + u + rest == t + (u + rest);
    RestPart(m.pat, q, t, u + rest);
    ClassRead(m, q, k);
    if |t| > 1 { assert m.pat[q + 1] == t[1]; }
    hide P.EndOfClass, P.InClass, ClassHas, ClassText, ClassOk, Stands;
    RepRead(m.pat, q + |t|, rep, rest);
  }

  lemma RepRead(pat: string, ep: nat, rep: P.Rep, rest: string)
    requires Rest(pat, ep, RepText(rep) + rest) && (rep == P.Once ==> rest == "" || rest[0] !in "?*+-")
    ensures P.RepAt(pat, ep) == rep && |RepText(rep)| == if rep == P.Once then 0 else 1
  {
    var t := RepText(rep) + rest;
    if t != "" { assert pat[ep + 0] == t[0]; }
  }

  lemma SingleItem(m: P.Matcher, q: nat, k: Class, rep: P.Rep, rest: string)
    requires PartOk(Single(k, rep), rest) && Rest(m.pat, q, ClassText(k) + RepText(rep) + rest)
    ensures q < |m.pat| && P.ItemAt(m.pat, q).next == q + |ClassText(k)| + |RepText(rep)|
    ensures Reads(m, P.ItemAt(m.pat, q).item, Single(k, rep))
  {
    SingleRead(m, q, k, rep, rest);
    assert P.ItemAt(m.pat, q) == P.SingleAt(m.pat, q) by {
      hide P.SingleAt, P.EndOfClass, SetOk, ElementsText, Stands;
      var c := m.pat[q];
      assert k.Escaped? ==> m.pat[q + 1] == k.l;
      assert c == '$' ==> k == Plain('$');
    }
    hide P.SingleAt, P.ItemAt, P.InClass, ClassHas, ClassOk;
  }

  lemma FrontierItem(m: P.Matcher, q: nat, neg: bool, es: seq<Element>, rest: string)
    requires SetOk(neg, es) && Rest(m.pat, q, "%f" + SetText(neg, es) + rest)
    ensures q < |m.pat| && P.ItemAt(m.pat, q).next == q + 2 + |SetText(neg, es)|
    ensures Reads(m, P.ItemAt(m.pat, q).item, Frontier(neg, es))
  {
    hide SetText, SetOk, SetHas, Stands, P.EndOfClass, P.InBrackets;
    var t := SetText(neg, es);
    assert "%f" + t + rest == "%f" + (t + rest);
    RestPart(m.pat, q, "%f", t + rest);
    RestPart(m.pat, q + 2, t, rest);
    StandsFirst(m.pat, q, "%f");
    BracketsStand(m.pat, q + 2, neg, es);
    BracketsRead(m, q + 2, neg, es);
  }

  lemma StandsFirst(s: string, q: nat, t: string)
    requires Stands(s, q, t) && |t| >= 2
    ensures q + 1 < |s| && s[q] == t[0] && s[q + 1] == t[1]
  {
    assert s[q + 0] == t[0];
  }

  /** One part is read. */
  lemma PartRead(m: P.Matcher, q: nat, part: Part, rest: string)
    requires PartOk(part, rest) && Rest(m.pat, q, PartText(part) + rest)
    ensures q < |m.pat| && P.ItemAt(m.pat, q).next == q + |PartText(part)| && Reads(m, P.ItemAt(m.pat, q).item, part)
  {
    hide SetOk, SetHas, ClassHas, ClassOk, ClassText, SetText;
    match part {
      case Single(k, rep) => hide P.ItemAt; SingleItem(m, q, k, rep, rest);
      case Frontier(neg, es) => hide P.ItemAt; FrontierItem(m, q, neg, es, rest);
      case _ => OtherRead(m, q, part, rest);
    }
  }

  lemma OtherRead(m: P.Matcher, q: nat, part: Part, rest: string)
    requires PartOk(part, rest) && Rest(m.pat, q, PartText(part) + rest) && !part.Single? && !part.Frontier?
    ensures q < |m.pat| && P.ItemAt(m.pat, q).next == q + |PartText(part)| && Reads(m, P.ItemAt(m.pat, q).item, part)
  {
    hide P.SingleAt, P.InClass, P.EndOfClass;
    var t := PartText(part) + rest;
    assert m.pat[q + 0] == t[0];
    if |t| > 1 { assert m.pat[q + 1] == t[1]; }
    if part.Balance? { assert m.pat[q + 2] == t[2] && m.pat[q + 3] == t[3]; }
  }

  /** The items are those of the parts, in order. */
  ghost predicate AllRead(m: P.Matcher, items: seq<P.Item>, parts: seq<Part>) {
    |items| == |parts| && forall i | 0 <= i < |parts| :: Reads(m, items[i], parts[i])
  }

  lemma OneMoreRead(m: P.Matcher, items: seq<P.Item>, parts: seq<Part>)
    requires items != [] && parts != [] && Reads(m, items[0], parts[0]) && AllRead(m, items[1..], parts[1..])
    ensures AllRead(m, items, parts)
  {
    hide Reads;
    forall i | 0 <= i < |parts| ensures Reads(m, items[i], parts[i]) {
      if i > 0 { assert parts[i] == parts[1..][i - 1] && items[i] == items[1..][i - 1]; }
    }
  }

  lemma ItemsUnfold(pat: string, q: nat)
    requires q < |pat|
    ensures var items := P.Items(pat, q);
      items != [] && items[0] == P.ItemAt(pat, q).item && items[1..] == P.Items(pat, P.ItemAt(pat, q).next)
  {
    hide P.ItemAt;
  }

  /** THE PATTERN IS READ AS WRITTEN. */
  lemma {:induction false} PatternRead(m: P.Matcher, q: nat, parts: seq<Part>)
    requires Ok(parts) && Rest(m.pat, q, Text(parts))
    ensures AllRead(m, P.Items(m.pat, q), parts)
    decreases |parts|
  {
    hide P.ItemAt, Reads, PartOk, PartText, Stands, AllRead;
    if parts == [] {
      NothingLeft(m, q);
    } else {
      var t := PartText(parts[0]);
      PartRead(m, q, parts[0], Text(parts[1..]));
      RestPart(m.pat, q, t, Text(parts[1..]));
      PatternRead(m, q + |t|, parts[1..]);
      ItemsUnfold(m.pat, q);
      OneMoreRead(m, P.Items(m.pat, q), parts);
    }
  }

  lemma NothingLeft(m: P.Matcher, q: nat)
    requires |m.pat| == q
    ensures AllRead(m, P.Items(m.pat, q), [])
  {
  }

  /** What is cut off is an error: `%` at the end, `%b` without two characters, `%f` without a set, a set without its
      bracket. */
  lemma CutOff(pat: string, p: nat)
    requires p < |pat|
    ensures pat[p] == '%' && p + 1 == |pat| ==> P.ItemAt(pat, p).item == P.Bad(P.EndsWithPercent)
    ensures pat[p] == '%' && p + 1 < |pat| && pat[p + 1] == 'b' && p + 3 >= |pat| ==> P.ItemAt(pat, p).item == P.Bad(P.UnbalancedPattern)
    ensures pat[p] == '%' && p + 1 < |pat| && pat[p + 1] == 'f' && (p + 2 == |pat| || pat[p + 2] != '[') ==>
      P.ItemAt(pat, p).item == P.Bad(P.MissingFrontier)
    ensures pat[p] == '[' && (forall i | p + 1 < i < |pat| :: pat[i] != ']') ==> P.ItemAt(pat, p).item == P.Bad(P.MissingBracket)
  {
  }
}
