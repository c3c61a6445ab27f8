/**
  The %q format of string.format (lstrlib.c:696-723) and the lexer's reading of string literals
  (llex.c:127-135, 276-329): what the one writes, the other reads back.
  */
module Quoted {

  type Byte = b: int | 0 <= b < 256

  const NUL: Byte := 0
  const NEWLINE: Byte := 10
  const RETURN: Byte := 13
  const QUOTE: Byte := 34
  const ZERO: Byte := 48
  const BACKSLASH: Byte := 92
  const EOZ := -1

  /** INT_MAX - 2 (llimits.h) */
  const MAX_INT := 0x7fff_fffd

  // ---------- writing ----------

  function QuotedByte(c: Byte): seq<Byte> {
    if c == QUOTE || c == BACKSLASH || c == NEWLINE then [BACKSLASH, c]
    else if c == RETURN then [BACKSLASH, 114]
    else if c == NUL then [BACKSLASH, ZERO, ZERO, ZERO]
    else [c]
  }

  function Body(s: seq<Byte>): seq<Byte>
    decreases |s|
  {
    if s == [] then [] else QuotedByte(s[0]) + Body(s[1..])
  }

  function QuotedString(s: seq<Byte>): seq<Byte> { [QUOTE] + Body(s) + [QUOTE] }

  /** luaL_Buffer */
  class Buffer {
    var contents: seq<Byte>

    constructor ()
      ensures contents == []
    {
      contents := [];
    }

    method AddChar(c: Byte)
      modifies this
      ensures contents == old(contents) + [c]
    {
      contents := contents + [c];
    }

    method AddLString(s: seq<Byte>)
      modifies this
      ensures contents == old(contents) + s
    {
      contents := contents + s;
    }

    /** The cases of addquoted */
    method AddQuotedByte(c: Byte)
      modifies this
      ensures contents == old(contents) + QuotedByte(c)
      ensures contents == old(contents) +
                          if c == 34 || c == 92 || c == 10 then [92, c]
                          else if c == 13 then [92, 114]
                          else if c == 0 then [92, 48, 48, 48]
                          else [c]
    {
      if c == QUOTE || c == BACKSLASH || c == NEWLINE {
        AddChar(BACKSLASH);
        AddChar(c);
      } else if c == RETURN {
        AddLString([BACKSLASH, 114]);
      } else if c == NUL {
        AddLString([BACKSLASH, ZERO, ZERO, ZERO]);
      } else {
        AddChar(c);
      }
    }

    /** addquoted */
    method AddQuoted(s: seq<Byte>)
      modifies this
      ensures contents == old(contents) + QuotedString(s)
    {
      hide QuotedByte;
      AddChar(QUOTE);
      ghost var start := contents;
      var i := 0;
      while i < |s|
        invariant 0 <= i <= |s|
        invariant contents + Body(s[i..]) == start + Body(s)
      {
        assert s[i..][1..] == s[i + 1..];
        assert Body(s[i..]) == QuotedByte(s[i]) + Body(s[i + 1..]);
        AddQuotedByte(s[i]);
        i := i + 1;
      }
      assert contents == contents + Body(s[i..]);
      AddChar(QUOTE);
    }
  }

  // ---------- reading ----------

  datatype Error = UnfinishedAtEnd | UnfinishedLine | EscapeTooLarge | TooManyLines

  /** The string, what follows it, and the line number there. */
  datatype Reading = Done(value: seq<Byte>, rest: seq<Byte>, line: int) | Failed(error: Error)

  predicate IsNewline(c: int) { c == NEWLINE || c == RETURN }

  predicate IsDigit(c: int) { 48 <= c <= 57 }

  /** \a \b \f \n \r \t \v */
  predicate IsControl(c: int) { c == 97 || c == 98 || c == 102 || c == 110 || c == 114 || c == 116 || c == 118 }

  function Control(c: Byte): Byte
    requires IsControl(c)
  {
    if c == 97 then 7 else if c == 98 then 8 else if c == 102 then 12 else if c == 110 then 10
    else if c == 114 then 13 else if c == 116 then 9 else 11
  }

  /** How many digits of a decimal escape there are, at most n, and their value. */
  function Digits(s: seq<Byte>, n: nat): (k: nat)
    ensures k <= n && k <= |s|
    ensures forall i | 0 <= i < k :: IsDigit(s[i])
    ensures k == n || k == |s| || !IsDigit(s[k])
  {
    if n == 0 || s == [] || !IsDigit(s[0]) then 0 else 1 + Digits(s[1..], n - 1)
  }

  function Value(s: seq<Byte>): nat
    requires forall i | 0 <= i < |s| :: IsDigit(s[i])
    decreases |s|
  {
    if s == [] then 0
    else assert IsDigit(s[|s| - 1]); 10 * Value(s[..|s| - 1]) + (s[|s| - 1] as int - 48)
  }

  /** The bytes of a line break: one, or two if they are the two different ones. */
  function Break(s: seq<Byte>): (k: nat)
    requires s != [] && IsNewline(s[0])
    ensures 1 <= k <= |s|
  {
    if |s| > 1 && IsNewline(s[1]) && s[1] != s[0] then 2 else 1
  }

  function Prepend(v: seq<Byte>, r: Reading): Reading {
    if r.Done? then r.(value := v + r.value) else r
  }

  /** A string literal, from after its opening delimiter. */
  function ReadFrom(s: seq<Byte>, del: Byte, line: int): Reading
    decreases |s|
  {
    if s == [] then Failed(UnfinishedAtEnd)
    else if s[0] == del then Done([], s[1..], line)
    else if IsNewline(s[0]) then Failed(UnfinishedLine)
    else if s[0] != BACKSLASH then Prepend([s[0]], ReadFrom(s[1..], del, line))
    else ReadEscape(s[1..], del, line)
  }

  /** From after a backslash. */
  function ReadEscape(s: seq<Byte>, del: Byte, line: int): Reading
    decreases |s|
  {
    if s == [] then Failed(UnfinishedAtEnd)
    else if IsControl(s[0]) then Prepend([Control(s[0])], ReadFrom(s[1..], del, line))
    else if IsNewline(s[0]) then
      if line + 1 >= MAX_INT then Failed(TooManyLines)
      else Prepend([NEWLINE], ReadFrom(s[Break(s)..], del, line + 1))
    else if IsDigit(s[0]) then
      var k := Digits(s, 3);
      if Value(s[..k]) > 255 then Failed(EscapeTooLarge)
      else Prepend([Value(s[..k])], ReadFrom(s[k..], del, line))
    else Prepend([s[0]], ReadFrom(s[1..], del, line))
  }

  // ---------- the round trip ----------

  function Newlines(s: seq<Byte>): nat
    decreases |s|
  {
    if s == [] then 0 else (if s[0] == NEWLINE then 1 else 0) + Newlines(s[1..])
  }

  /** After an escaped newline never comes the other half of a line break. */
  lemma BodyStartsPlain(s: seq<Byte>, rest: seq<Byte>)
    ensures var t := Body(s) + [QUOTE] + rest; !IsNewline(t[0])
  {
    if s != [] {
      assert (Body(s) + [QUOTE] + rest)[0] == QuotedByte(s[0])[0];
    }
  }

  lemma ReadQuotedByte(c: Byte, t: seq<Byte>, line: int)
    requires t != [] && !IsNewline(t[0])
    ensures c != NEWLINE ==> ReadFrom(QuotedByte(c) + t, QUOTE, line) == Prepend([c], ReadFrom(t, QUOTE, line))
    ensures c == NEWLINE ==>
              ReadFrom(QuotedByte(c) + t, QUOTE, line) ==
              if line + 1 >= MAX_INT then Failed(TooManyLines) else Prepend([c], ReadFrom(t, QUOTE, line + 1))
  {
    var s := QuotedByte(c) + t;
    assert s[|QuotedByte(c)|..] == t;
    if s[0] == BACKSLASH {
      assert s[1..][|QuotedByte(c)| - 1..] == t;
    }
    if c == NUL {
      ThreeZeros(s[1..], t);
    } else if c == NEWLINE {
      assert Break(s[1..]) == 1;
    }
  }

  /** A NUL is written with three digits, so that a digit after it is not taken for part of it. */
  lemma ThreeZeros(s: seq<Byte>, t: seq<Byte>)
    requires s == [ZERO, ZERO, ZERO] + t
    ensures Digits(s, 3) == 3 && Value(s[..3]) == 0
  {
    assert Digits(s[1..][1..], 1) == 1 by {
      assert s[1..][1..][0] == ZERO;
    }
    assert Digits(s[1..], 2) == 2;
    assert s[..3] == [ZERO, ZERO, ZERO];
    assert Value([]) == 0;
    assert [ZERO][..0] == [];
    assert Value([ZERO]) == 0;
    assert [ZERO, ZERO][..1] == [ZERO];
    assert Value([ZERO, ZERO]) == 0;
    assert [ZERO, ZERO, ZERO][..2] == [ZERO, ZERO];
  }

  /** Reading what %q writes gives the string back and stops right after the closing quote, for every
      string, unless the file has too many lines. */
  lemma {:induction false} RoundTrip(s: seq<Byte>, rest: seq<Byte>, line: int)
    requires line < MAX_INT
    ensures ReadFrom(Body(s) + [QUOTE] + rest, QUOTE, line) ==
            if line + Newlines(s) < MAX_INT then Done(s, rest, line + Newlines(s)) else Failed(TooManyLines)
    decreases |s|
  {
    hide QuotedByte, ReadEscape;
    if s == [] {
      assert Body(s) + [QUOTE] + rest == [QUOTE] + rest;
    } else {
      hide ReadFrom;
      var t := Body(s[1..]) + [QUOTE] + rest;
      assert Body(s) + [QUOTE] + rest == QuotedByte(s[0]) + t;
      BodyStartsPlain(s[1..], rest);
      ReadQuotedByte(s[0], t, line);
      assert s == [s[0]] + s[1..];
      if s[0] != NEWLINE {
        RoundTrip(s[1..], rest, line);
      } else if line + 1 < MAX_INT {
        RoundTrip(s[1..], rest, line + 1);
      }
    }
  }

  /** So different strings are written differently, and no output is the beginning of another. */
  lemma QuotedIsInjective(s: seq<Byte>, t: seq<Byte>, a: seq<Byte>, b: seq<Byte>)
    requires QuotedString(s) + a == QuotedString(t) + b
    ensures s == t && a == b
  {
    var x := QuotedString(s) + a;
    assert x[1..] == Body(s) + [QUOTE] + a;
    assert x[1..] == Body(t) + [QUOTE] + b;
    var line := -1 - Newlines(s) - Newlines(t);
    RoundTrip(s, a, line);
    RoundTrip(t, b, line);
  }

  /** The output has no NUL and no carriage return, which text files do not keep. */
  lemma {:induction false} QuotedIsText(s: seq<Byte>)
    ensures NUL !in Body(s) && RETURN !in Body(s)
    decreases |s|
  {
    if s != [] {
      QuotedIsText(s[1..]);
    }
  }

  // ---------- the lexer ----------

  datatype Token = Str(value: seq<Byte>) | Invalid(error: Error)

  class LexState {
    const chunk: seq<Byte>
    var pos: nat      // of the current character
    var current: int
    var linenumber: int
    var buff: seq<Byte>

    predicate Valid()
      reads this
    {
      pos <= |chunk| && current == if pos < |chunk| then chunk[pos] as int else EOZ
    }

    constructor (chunk: seq<Byte>)
      ensures Valid() && this.chunk == chunk && pos == 0 && linenumber == 1 && buff == []
    {
      this.chunk := chunk;
      pos := 0;
      linenumber := 1;
      buff := [];
      current := if |chunk| > 0 then chunk[0] as int else EOZ;
    }

    method Advance()
      requires Valid() && current != EOZ
      modifies this`pos, this`current
      ensures Valid() && pos == old(pos) + 1
    {
      pos := pos + 1;
      current := if pos < |chunk| then chunk[pos] as int else EOZ;
    }

    method SaveAndNext()
      requires Valid() && current != EOZ
      modifies this`pos, this`current, this`buff
      ensures Valid() && pos == old(pos) + 1 && buff == old(buff) + [old(chunk[pos])]
    {
      buff := buff + [chunk[pos]];
      Advance();
    }

    /** inclinenumber: false if there are too many lines. */
    method IncLineNumber() returns (ok: bool)
      requires Valid() && current != EOZ && IsNewline(current)
      modifies this`pos, this`current, this`linenumber
      ensures Valid() && pos == old(pos) + Break(chunk[old(pos)..]) && linenumber == old(linenumber) + 1
      ensures ok <==> linenumber < MAX_INT
    {
      ghost var was := chunk[pos..];
      var before := current;
      Advance();
      assert pos < |chunk| ==> was[1] == chunk[pos];
      if IsNewline(current) && current != before {
        Advance();
      }
      linenumber := linenumber + 1;
      ok := linenumber < MAX_INT;
    }

    /** The digits of a decimal escape */
    method ReadDecimal() returns (c: int)
      requires Valid() && current != EOZ && IsDigit(current)
      modifies this`pos, this`current
      ensures Valid()
      ensures var s := chunk[old(pos)..];
              pos == old(pos) + Digits(s, 3) && c == Value(s[..Digits(s, 3)])
    {
      ghost var s := chunk[pos..];
      ghost var start := pos;
      var i := 0;
      c := 0;
      while i < 3 && IsDigit(current)
        invariant Valid() && 0 <= i <= 3 && i <= |s| && pos == start + i
        invariant i + Digits(s[i..], 3 - i) == Digits(s, 3)
        invariant forall j | 0 <= j < i :: IsDigit(s[j])
        invariant c == Value(s[..i])
      {
        assert s[i] == chunk[pos] && s[i..][1..] == s[i + 1..];
        assert s[..i + 1][..i] == s[..i];
        c := 10 * c + (current - 48);
        Advance();
        i := i + 1;
      }
      assert i == 3 || i == |s| || !IsDigit(s[i]);
    }

    /** The cases of read_string after a backslash; ok is false for an error. */
    method ReadEscaped() returns (ok: bool, error: Error)
      requires Valid()
      modifies this`pos, this`current, this`buff, this`linenumber
      ensures Valid() && old(pos) <= pos && old(buff) <= buff
      ensures forall del: Byte ::
                ReadEscape(chunk[old(pos)..], del, old(linenumber)) ==
                if !ok then Failed(error)
                else Prepend(buff[|old(buff)|..], ReadFrom(chunk[pos..], del, linenumber))
    {
      ok, error := true, UnfinishedAtEnd;
      ghost var s := chunk[pos..];
      if current == EOZ {
        return;
      }
      assert s[0] == chunk[pos] && s[1..] == chunk[pos + 1..];
      if IsControl(current) {
        buff := buff + [Control(current)];
        Advance();
      } else if IsNewline(current) {
        buff := buff + [NEWLINE];
        ok := IncLineNumber();
        error := TooManyLines;
      } else if IsDigit(current) {
        var c := ReadDecimal();
        if c > 255 {
          return false, EscapeTooLarge;
        }
        buff := buff + [c];
      } else {
        SaveAndNext();
      }
    }

    /** One turn of the loop of read_string */
    method ReadOne(del: Byte) returns (ok: bool, error: Error)
      requires Valid() && current != del as int
      modifies this`pos, this`current, this`buff, this`linenumber
      ensures Valid() && old(pos) <= pos && old(buff) <= buff && (ok ==> old(pos) < pos)
      ensures ReadFrom(chunk[old(pos)..], del, old(linenumber)) ==
              if !ok then Failed(error)
              else Prepend(buff[|old(buff)|..], ReadFrom(chunk[pos..], del, linenumber))
    {
      ghost var s := chunk[pos..];
      if current == EOZ {
        return false, UnfinishedAtEnd;
      }
      assert s[0] == chunk[pos] && s[1..] == chunk[pos + 1..];
      if IsNewline(current) {
        return false, UnfinishedLine;
      }
      if current == BACKSLASH as int {
        Advance();
        assert ReadFrom(s, del, linenumber) == ReadEscape(chunk[pos..], del, linenumber);
        ok, error := ReadEscaped();
      } else {
        ghost var b := buff;
        SaveAndNext();
        assert buff[|b|..] == [s[0]];
        return true, UnfinishedAtEnd;
      }
    }

    /** read_string, at the opening delimiter */
    method ReadString(del: Byte) returns (t: Token)
      requires Valid() && current == del as int && buff == []
      modifies this`pos, this`current, this`buff, this`linenumber
      ensures Valid()
      ensures match ReadFrom(chunk[old(pos) + 1..], del, old(linenumber))
              case Failed(e) => t == Invalid(e)
              case Done(v, rest, line) => t == Str(v) && chunk[pos..] == rest && linenumber == line
    {
      hide ReadFrom;
      SaveAndNext();
      ghost var all := ReadFrom(chunk[pos..], del, linenumber);
      while current != del as int
        invariant Valid() && |buff| >= 1
        invariant all == Prepend(buff[1..], ReadFrom(chunk[pos..], del, linenumber))
        decreases |chunk| - pos
      {
        ghost var b := buff;
        var ok, e := ReadOne(del);
        if !ok {
          return Invalid(e);
        }
        assert buff[1..] == b[1..] + buff[|b|..];
      }
      t := CloseString(del);
    }

    method CloseString(del: Byte) returns (t: Token)
      requires Valid() && current == del as int && |buff| >= 1
      modifies this`pos, this`current, this`buff
      ensures Valid()
      ensures ReadFrom(chunk[old(pos)..], del, linenumber) == Done([], chunk[pos..], linenumber)
      ensures t == Str(old(buff[1..]))
    {
      ghost var b := buff;
      assert chunk[pos..][0] == del && chunk[pos..][1..] == chunk[pos + 1..];
      SaveAndNext();
      assert buff[1..|buff| - 1] == b[1..];
      return Str(buff[1..|buff| - 1]);
    }
  }
}
