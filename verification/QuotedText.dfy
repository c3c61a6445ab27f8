/**
  What a string literal means (llex.c:276-329), part by part: a literal is a list of plain bytes and escapes, its value
  is that of its parts, and what is not such a list is an error.
  */
module QuotedText {
  import opened Quoted

  datatype Part =
    | Plain(c: Byte)
    | Escaped(c: Byte)             // a backslash and a byte
    | Decimal(digits: seq<Byte>)   // a backslash and digits
    | LineEnd(bytes: seq<Byte>)    // a backslash and a line break

  /** Alert, backspace, form feed, newline, carriage return, tab, vertical tab. */
  const ESCAPES: map<int, Byte> := map[97 := 7, 98 := 8, 102 := 12, 110 := 10, 114 := 13, 116 := 9, 118 := 11]

  predicate AllDigits(d: seq<Byte>) { forall i | 0 <= i < |d| :: 48 <= d[i] <= 57 }

  /** The number that one, two or three digits write. */
  function Number(d: seq<Byte>): int
    requires 1 <= |d| <= 3
  {
    var ones: int := d[|d| - 1] as int - 48;
    if |d| == 1 then ones
    else
      var tens: int := d[|d| - 2] as int - 48;
      if |d| == 2 then 10 * tens + ones else 100 * (d[0] as int - 48) + 10 * tens + ones
  }

  /** Digits that end where they must: there are three, or no further digit follows. */
  predicate DigitsEnd(d: seq<Byte>, next: seq<Byte>) {
    1 <= |d| <= 3 && AllDigits(d) && (|d| == 3 || next == [] || !(48 <= next[0] <= 57))
  }

  /** May this part stand before `next` in a literal with this delimiter? */
  predicate PartOk(p: Part, next: seq<Byte>, del: Byte) {
    match p
    case Plain(c) => c != del && c != 92 && c != 10 && c != 13
    case Escaped(c) => c != 10 && c != 13 && !(48 <= c <= 57)
    case Decimal(d) => DigitsEnd(d, next) && Number(d) <= 255
    case LineEnd(b) =>
      b == [10, 13] || b == [13, 10] ||
      (b == [10] && (next == [] || next[0] != 13)) || (b == [13] && (next == [] || next[0] != 10))
  }

  function PartText(p: Part): seq<Byte> {
    match p
    case Plain(c) => [c]
    case Escaped(c) => [92, c]
    case Decimal(d) => [92] + d
    case LineEnd(b) => [92] + b
  }

  function PartByte(p: Part): Byte {
    match p
    case Plain(c) => c
    case Escaped(c) => if c in ESCAPES then ESCAPES[c] else c
    case Decimal(d) => if 1 <= |d| <= 3 && AllDigits(d) && Number(d) <= 255 then Number(d) else 0
    case LineEnd(b) => 10
  }

  function Text(ps: seq<Part>): seq<Byte>
    decreases |ps|
  {
    if ps == [] then [] else PartText(ps[0]) + Text(ps[1..])
  }

  predicate AllOk(ps: seq<Part>, next: seq<Byte>, del: Byte)
    decreases |ps|
  {
    ps == [] || (PartOk(ps[0], Text(ps[1..]) + next, del) && AllOk(ps[1..], next, del))
  }

  function Values(ps: seq<Part>): (v: seq<Byte>)
    ensures |v| == |ps| && forall i | 0 <= i < |v| :: v[i] == PartByte(ps[i])
    decreases |ps|
  {
    if ps == [] then [] else [PartByte(ps[0])] + Values(ps[1..])
  }

  function LineEnds(ps: seq<Part>): nat
    decreases |ps|
  {
    if ps == [] then 0 else (if ps[0].LineEnd? then 1 else 0) + LineEnds(ps[1..])
  }

  // ---------- one part ----------

  lemma EscapedRead(c: Byte, t: seq<Byte>, del: Byte, line: int)
    requires del != 92 && PartOk(Escaped(c), t, del)
    ensures ReadFrom([92, c] + t, del, line) == Prepend([if c in ESCAPES then ESCAPES[c] else c], ReadFrom(t, del, line))
  {
    assert ([92, c] + t)[1..] == [c] + t && ([c] + t)[1..] == t;
  }

  lemma NumberIsValue(d: seq<Byte>)
    requires 1 <= |d| <= 3 && AllDigits(d)
    ensures Value(d) == Number(d)
  {
    assert forall i | 0 <= i < |d| :: IsDigit(d[i]);
    assert Value([]) == 0;
    assert d[..1][..0] == [];
    assert Value(d[..1]) == d[0] - 48;
    if |d| >= 2 {
      assert d[..2][..1] == d[..1];
      assert Value(d[..2]) == 10 * (d[0] - 48) + (d[1] - 48);
    }
    assert d[..|d|] == d;
  }

  lemma DigitsFound(d: seq<Byte>, t: seq<Byte>)
    requires DigitsEnd(d, t)
    ensures Digits(d + t, 3) == |d| && (d + t)[..|d|] == d && (d + t)[|d|..] == t
  {
    var s := d + t;
    assert forall i | 0 <= i < |d| :: s[i] == d[i] && IsDigit(s[i]);
    assert t != [] ==> s[|d|] == t[0];
    assert |d| < 3 && t != [] ==> !IsDigit(s[|d|]);
  }

  /** Decimal escapes: up to 255, else an error. */
  lemma DecimalRead(d: seq<Byte>, t: seq<Byte>, del: Byte, line: int)
    requires del != 92 && DigitsEnd(d, t)
    ensures ReadFrom([92] + d + t, del, line) ==
            if Number(d) > 255 then Failed(EscapeTooLarge) else Prepend([Number(d)], ReadFrom(t, del, line))
  {
    NumberIsValue(d);
    DigitsFound(d, t);
    assert ([92] + d + t)[1..] == d + t;
    assert (d + t)[0] == d[0];
  }

  lemma LineEndRead(b: seq<Byte>, t: seq<Byte>, del: Byte, line: int)
    requires del != 92 && PartOk(LineEnd(b), t, del)
    ensures ReadFrom([92] + b + t, del, line) ==
            if line + 1 >= MAX_INT then Failed(TooManyLines) else Prepend([10], ReadFrom(t, del, line + 1))
  {
    assert ([92] + b + t)[1..] == b + t;
    assert (b + t)[0] == b[0];
    assert (b + t)[|b|..] == t;
    if |b| == 1 && t != [] { assert (b + t)[1] == t[0]; }
    assert Break(b + t) == |b|;
  }

  /** The bytes of `v` if the line number has not run over. */
  function Then(v: seq<Byte>, s: seq<Byte>, del: Byte, line: int): Reading {
    if line >= MAX_INT then Failed(TooManyLines) else Prepend(v, ReadFrom(s, del, line))
  }

  lemma PartRead(p: Part, t: seq<Byte>, del: Byte, line: int)
    requires del != 92 && line < MAX_INT && PartOk(p, t, del)
    ensures ReadFrom(PartText(p) + t, del, line) == Then([PartByte(p)], t, del, if p.LineEnd? then line + 1 else line)
  {
    match p
    case Plain(c) => assert ([c] + t)[1..] == t;
    case Escaped(c) => EscapedRead(c, t, del, line);
    case Decimal(d) => DecimalRead(d, t, del, line);
    case LineEnd(b) => LineEndRead(b, t, del, line);
  }

  // ---------- whole literals ----------

  /** Parts one after the other have the values of the parts. */
  lemma {:induction false} PartsRead(ps: seq<Part>, t: seq<Byte>, del: Byte, line: int)
    requires del != 92 && line < MAX_INT && AllOk(ps, t, del)
    ensures ReadFrom(Text(ps) + t, del, line) == Then(Values(ps), t, del, line + LineEnds(ps))
    decreases |ps|
  {
    hide ReadFrom, PartOk, PartText;
    if ps == [] {
      assert Text(ps) + t == t;
      var r := ReadFrom(t, del, line);
      assert r.Done? ==> [] + r.value == r.value;
    } else {
      var next := if ps[0].LineEnd? then line + 1 else line;
      assert Text(ps) + t == PartText(ps[0]) + (Text(ps[1..]) + t);
      PartRead(ps[0], Text(ps[1..]) + t, del, line);
      if next < MAX_INT {
        PartsRead(ps[1..], t, del, next);
        assert Values(ps) == [PartByte(ps[0])] + Values(ps[1..]);
      }
    }
  }

  /** A decimal escape that is too large. */
  ghost predicate TooLarge(t: seq<Byte>) {
    exists d: seq<Byte>, u: seq<Byte> :: t == [92] + d + u && DigitsEnd(d, u) && Number(d) > 255
  }

  /** Nothing that starts like this is a part of a literal. */
  ghost predicate Stops(t: seq<Byte>, del: Byte) {
    t == [] || t == [92] || t[0] == del || t[0] == 10 || t[0] == 13 || TooLarge(t)
  }

  /** What follows the parts: the delimiter, or an error. */
  lemma StopRead(t: seq<Byte>, del: Byte, line: int)
    requires del != 92 && Stops(t, del)
    ensures ReadFrom(t, del, line) ==
            if t == [] || t == [92] then Failed(UnfinishedAtEnd)
            else if t[0] == del then Done([], t[1..], line)
            else if t[0] == 10 || t[0] == 13 then Failed(UnfinishedLine)
            else Failed(EscapeTooLarge)
  {
    if t != [] && t != [92] && t[0] != del && t[0] != 10 && t[0] != 13 {
      var d: seq<Byte>, u: seq<Byte> :| t == [92] + d + u && DigitsEnd(d, u) && Number(d) > 255;
      DecimalRead(d, u, del, line);
    }
  }

  lemma LineEndFirst(s: seq<Byte>, del: Byte) returns (b: seq<Byte>, t: seq<Byte>)
    requires |s| >= 2 && s[0] == 92 && (s[1] == 10 || s[1] == 13)
    ensures s == [92] + b + t && PartOk(LineEnd(b), t, del)
  {
    if |s| > 2 && (s[2] == 10 || s[2] == 13) && s[2] != s[1] {
      b, t := s[1..3], s[3..];
    } else {
      b, t := s[1..2], s[2..];
    }
  }

  lemma DigitsFirst(s: seq<Byte>) returns (d: seq<Byte>, t: seq<Byte>)
    requires |s| >= 2 && s[0] == 92 && 48 <= s[1] <= 57
    ensures s == [92] + d + t && DigitsEnd(d, t)
  {
    var u := s[1..];
    var k := Digits(u, 3);
    assert forall i | 0 <= i < k :: IsDigit(u[i]);
    d, t := u[..k], u[k..];
    assert s == [92] + u && u == d + t;
  }

  /** The part that a text starts with. */
  lemma FirstPart(s: seq<Byte>, del: Byte) returns (p: Part, t: seq<Byte>)
    requires del != 92 && !Stops(s, del)
    ensures s == PartText(p) + t && |t| < |s| && PartOk(p, t, del)
  {
    hide DigitsEnd, Number, TooLarge;
    if s[0] != 92 {
      p, t := Plain(s[0]), s[1..];
    } else if s[1] == 10 || s[1] == 13 {
      var b;
      b, t := LineEndFirst(s, del);
      p := LineEnd(b);
    } else if 48 <= s[1] <= 57 {
      var d;
      d, t := DigitsFirst(s);
      FitsIfNotTooLarge(s, d, t);
      p := Decimal(d);
    } else {
      p, t := Escaped(s[1]), s[2..];
    }
  }

  lemma FitsIfNotTooLarge(s: seq<Byte>, d: seq<Byte>, t: seq<Byte>)
    requires s == [92] + d + t && DigitsEnd(d, t) && !TooLarge(s)
    ensures 1 <= |d| <= 3 && Number(d) <= 255
  {
  }

  /** Every text has its parts, up to where it stops; so `PartsRead` and `StopRead` say what is read from any text. */
  lemma {:induction false} EveryTextHasParts(s: seq<Byte>, del: Byte) returns (ps: seq<Part>, t: seq<Byte>)
    requires del != 92
    ensures s == Text(ps) + t && AllOk(ps, t, del) && Stops(t, del)
    decreases |s|
  {
    hide PartOk, PartText, Stops;
    if Stops(s, del) {
      ps, t := [], s;
      assert Text(ps) + t == s;
    } else {
      var p, u := FirstPart(s, del);
      var qs;
      qs, t := EveryTextHasParts(u, del);
      ps := [p] + qs;
      assert ps[1..] == qs;
      assert Text(ps) + t == PartText(p) + (Text(qs) + t);
    }
  }

  /** A literal is read exactly if it is made of parts up to its delimiter and does not run over the last line; its value
      is that of the parts. */
  lemma LiteralIsRead(s: seq<Byte>, del: Byte, line: int) returns (ps: seq<Part>, t: seq<Byte>)
    requires del != 92 && line < MAX_INT
    ensures s == Text(ps) + t && AllOk(ps, t, del)
    ensures ReadFrom(s, del, line).Done? <==> t != [] && t[0] == del && line + LineEnds(ps) < 0x7fff_fffd
    ensures ReadFrom(s, del, line).Done? ==> ReadFrom(s, del, line) == Done(Values(ps), t[1..], line + LineEnds(ps))
  {
    hide ReadFrom, PartOk, PartText;
    ps, t := EveryTextHasParts(s, del);
    PartsRead(ps, t, del, line);
    StopRead(t, del, line + LineEnds(ps));
    assert Values(ps) + [] == Values(ps);
  }
}
