/**
  What loading a chunk accepts and rejects, byte by byte: the header, integers, strings and constants, and what is known
  of every function that is loaded.
  */
module ChunkChecks {
  import opened Chunks
  import opened ChunkRoundTrip

  // ---------- bytes ----------

  /** Four bytes, the lowest first. */
  function Bytes4(a: int, b: int, c: int, d: int): int { a + 0x100 * b + 0x1_0000 * c + 0x100_0000 * d }

  /** An `int` has four bytes, the lowest first, and is rejected if its sign bit is set. */
  lemma IntBytes(b: seq<Byte>)
    ensures LoadInt(b) ==
            if |b| < 4 then Err(UnexpectedEnd)
            else if b[3] >= 128 then Err(BadInteger)
            else Ok(Bytes4(b[0], b[1], b[2], b[3]), b[4..])
  {
    if |b| >= 4 { FourBytes(b[..4]); }
  }

  lemma FourBytes(w: seq<Byte>)
    requires |w| == 4
    ensures Value(w) == Bytes4(w[0], w[1], w[2], w[3])
  {
    var t := w[1..];
    var u := t[1..];
    var v := u[1..];
    assert v[1..] == [];
    assert Value(v) == v[0];
    assert Value(u) == Bytes4(u[0], v[0], 0, 0);
    assert Value(t) == Bytes4(t[0], u[0], v[0], 0);
  }

  /** A string has a size of eight bytes, which counts the NUL at its end; size 0 means that there is none. */
  lemma StringBytes(b: seq<Byte>)
    ensures LoadString(b) ==
            if |b| < 8 then Err(UnexpectedEnd)
            else
              var size := Value(b[..4]) + TWO32 * Value(b[4..8]);
              if size == 0 then Ok(Null, b[8..])
              else if |b| < 8 + size then Err(UnexpectedEnd)
              else Ok(S(b[8..8 + size - 1]), b[8 + size..])
  {
    if |b| >= 8 {
      EightBytes(b[..8]);
      assert b[..8][..4] == b[..4] && b[..8][4..] == b[4..8];
      var size := Value(b[..8]);
      if size > 0 && |b| >= 8 + size {
        assert b[8..][..size][..size - 1] == b[8..8 + size - 1] && b[8..][size..] == b[8 + size..];
      }
    }
  }

  lemma EightBytes(w: seq<Byte>)
    requires |w| == 8
    ensures Value(w) == Value(w[..4]) + TWO32 * Value(w[4..])
  {
    var t := w[1..];
    var u := t[1..];
    var v := u[1..];
    assert v[1..] == w[4..];
    FourBytes(w[..4]);
    assert Value(v) == v[0] + 0x100 * Value(w[4..]);
    assert Value(u) == u[0] + 0x100 * Value(v);
    assert Value(t) == t[0] + 0x100 * Value(u);
  }

  /** A constant has a tag: 0 for nil, 1 for a boolean, 3 for a number, 4 for a string; every other one is rejected. */
  lemma ConstantBytes(b: seq<Byte>)
    ensures b == [] ==> LoadConstant(b) == Err(UnexpectedEnd)
    ensures LoadConstant(b) == Err(BadConstant) <==> b != [] && b[0] != 0 && b[0] != 1 && b[0] != 3 && b[0] != 4
    ensures b != [] && b[0] == 0 ==> LoadConstant(b) == Ok(NilConst, b[1..])
    ensures b != [] && b[0] == 1 ==> LoadConstant(b) == if |b| < 2 then Err(UnexpectedEnd) else Ok(BoolConst(b[1] != 0), b[2..])
    ensures b != [] && b[0] == 3 ==> LoadConstant(b) == if |b| < 9 then Err(UnexpectedEnd) else Ok(NumConst(b[1..9]), b[9..])
    ensures b != [] && b[0] == 4 ==>
      var s := LoadString(b[1..]);
      LoadConstant(b) == if s.Ok? then Ok(StrConst(s.v), s.rest) else Err(s.e)
  {
    if b != [] {
      StringBytes(b[1..]);
      assert b[..1][0] == b[0];
      if |b| >= 2 { assert b[1..][..1][0] == b[1] && b[1..][1..] == b[2..]; }
      if |b| >= 9 { assert b[1..][..8] == b[1..9] && b[1..][8..] == b[9..]; }
    }
  }

  // ---------- what loading a part ends in ----------

  /** The errors that the parts of a function may raise. */
  predicate PartError(e: Error) { e == UnexpectedEnd || e == BadInteger || e == BadConstant }

  lemma IntSound(b: seq<Byte>)
    ensures var r := LoadInt(b); if r.Err? then PartError(r.e) else IsNatInt(r.v)
  {
    IntBytes(b);
  }

  lemma {:induction false} ValueBound(s: seq<Byte>)
    ensures Value(s) < Pow256(|s|)
    decreases |s|
  {
    if s != [] { ValueBound(s[1..]); }
  }

  lemma StringSound(b: seq<Byte>)
    ensures var r := LoadString(b); if r.Err? then PartError(r.e) else StrFits(r.v)
  {
    if |b| >= 8 {
      ValueBound(b[..8]);
      assert Pow256(4) == TWO32;
      assert Pow256(8) == TWO64;
    }
  }

  lemma {:induction false} WordsSound(b: seq<Byte>, n: nat)
    ensures var r := LoadWords(b, n); if r.Err? then PartError(r.e) else |r.v| == n
    decreases n
  {
    if n > 0 && |b| >= 4 { WordsSound(b[4..], n - 1); }
  }

  lemma ConstantSound(b: seq<Byte>)
    ensures var r := LoadConstant(b); if r.Err? then PartError(r.e) else ConstFits(r.v)
  {
    hide LoadString, StrFits;
    if |b| >= 1 {
      StringSound(b[1..]);
      assert b[..1][0] == b[0];
    }
  }

  lemma {:induction false} ConstantsSound(b: seq<Byte>, n: nat)
    ensures var r := LoadConstants(b, n);
      if r.Err? then PartError(r.e) else |r.v| == n && forall c | c in r.v :: ConstFits(c)
    decreases n
  {
    hide LoadConstant, ConstFits;
    if n > 0 {
      ConstantSound(b);
      var c := LoadConstant(b);
      if c.Ok? { ConstantsSound(c.rest, n - 1); }
    }
  }

  predicate VarFits(v: LocVar) { IsNatInt(v.startpc) && IsNatInt(v.endpc) && StrFits(v.name) }

  lemma LocVarSound(b: seq<Byte>)
    ensures var r := LoadLocVar(b); if r.Err? then PartError(r.e) else VarFits(r.v)
  {
    hide LoadString, LoadInt, StrFits, IsNatInt;
    StringSound(b);
    var name := LoadString(b);
    if name.Ok? {
      IntSound(name.rest);
      var startpc := LoadInt(name.rest);
      if startpc.Ok? { IntSound(startpc.rest); }
    }
  }

  lemma {:induction false} LocVarsSound(b: seq<Byte>, n: nat)
    ensures var r := LoadLocVars(b, n);
      if r.Err? then PartError(r.e) else |r.v| == n && forall v | v in r.v :: VarFits(v)
    decreases n
  {
    hide LoadLocVar, VarFits;
    if n > 0 {
      LocVarSound(b);
      var v := LoadLocVar(b);
      if v.Ok? { LocVarsSound(v.rest, n - 1); }
    }
  }

  lemma {:induction false} StringsSound(b: seq<Byte>, n: nat)
    ensures var r := LoadStrings(b, n);
      if r.Err? then PartError(r.e) else |r.v| == n && forall s | s in r.v :: StrFits(s)
    decreases n
  {
    hide LoadString, StrFits;
    if n > 0 {
      StringSound(b);
      var s := LoadString(b);
      if s.Ok? { StringsSound(s.rest, n - 1); }
    }
  }

  lemma HeadSound(b: seq<Byte>)
    ensures var r := LoadHead(b);
      if r.Err? then PartError(r.e)
      else StrFits(r.v.source) && IsNatInt(r.v.linedefined) && IsNatInt(r.v.lastlinedefined)
  {
    hide LoadString, LoadInt, StrFits, IsNatInt;
    StringSound(b);
    var source := LoadString(b);
    if source.Ok? {
      IntSound(source.rest);
      var line := LoadInt(source.rest);
      if line.Ok? { IntSound(line.rest); }
    }
  }

  lemma DebugSound(b: seq<Byte>)
    ensures var r := LoadDebug(b); if r.Err? then PartError(r.e) else DebugFits(r.v)
  {
    hide LoadInt, LoadWords, LoadLocVars, LoadStrings, StrFits, IsNatInt;
    IntSound(b);
    var n := LoadInt(b);
    if n.Ok? {
      WordsSound(n.rest, n.v);
      var lines := LoadWords(n.rest, n.v);
      if lines.Ok? {
        IntSound(lines.rest);
        var m := LoadInt(lines.rest);
        if m.Ok? {
          LocVarsSound(m.rest, m.v);
          var vars := LoadLocVars(m.rest, m.v);
          if vars.Ok? {
            IntSound(vars.rest);
            var l := LoadInt(vars.rest);
            if l.Ok? { StringsSound(l.rest, l.v); }
          }
        }
      }
    }
  }

  // ---------- what is known of every function that is loaded ----------

  /** A function that may be loaded at this nesting: lines, counts and sizes are in their ranges, every function of the
      tree has a source and passes the check, and none is nested too deeply. */
  ghost predicate Sound(f: Proto, calls: nat, check: Proto -> bool) {
    Fits(f) && Checked(f, check) && Sourced(f) && calls + Depth(f) <= MAXCCALLS
  }

  predicate FunctionError(e: Error) { PartError(e) || e == TooDeep || e == BadCode }

  ghost predicate SoundResult(r: Res<Proto>, calls: nat, check: Proto -> bool) {
    if r.Err? then FunctionError(r.e) else Sound(r.v, calls, check)
  }

  ghost predicate SoundResults(r: Res<seq<Proto>>, n: nat, calls: nat, check: Proto -> bool) {
    if r.Err? then FunctionError(r.e) else |r.v| == n && forall f | f in r.v :: Sound(f, calls, check)
  }

  lemma AssembledSound(h: Head, source: Str, code: seq<Word4>, k: seq<Constant>, p: seq<Proto>, d: Debug, calls: nat, check: Proto -> bool)
    requires StrFits(source) && source != Null && IsNatInt(h.linedefined) && IsNatInt(h.lastlinedefined)
    requires IsNatInt(|code|) && IsNatInt(|k|) && IsNatInt(|p|) && (forall c | c in k :: ConstFits(c)) && DebugFits(d)
    requires (forall f | f in p :: Sound(f, calls + 1, check)) && calls + 1 <= MAXCCALLS
    ensures var f := Assemble(h, source, code, k, p, d); check(f) ==> Sound(f, calls, check)
  {
    hide IsNatInt, StrFits, ConstFits;
    var f := Assemble(h, source, code, k, p, d);
    assert DebugOf(f, false) == d;
    assert forall i | 0 <= i < |f.p| :: f.p[i] in p;
    ChildrenDepth(f, 0, calls, check);
  }

  lemma {:induction false} ChildrenDepth(f: Proto, i: nat, calls: nat, check: Proto -> bool)
    requires i <= |f.p| && calls + 1 <= MAXCCALLS && forall g | g in f.p :: Sound(g, calls + 1, check)
    ensures calls + 1 + ChildDepth(f, i) <= MAXCCALLS
    decreases |f.p| - i
  {
    hide Fits, Checked, Sourced;
    if i < |f.p| {
      assert f.p[i] in f.p;
      ChildrenDepth(f, i + 1, calls, check);
    }
  }

  lemma {:induction false} FunctionSound(b: seq<Byte>, q: Str, calls: nat, check: Proto -> bool)
    requires q != Null && StrFits(q)
    ensures SoundResult(LoadFunction(b, q, calls, check), calls, check)
    decreases MAXCCALLS - calls, 1, 0
  {
    hide LoadHead, LoadInt, LoadWords, LoadConstants, LoadFunctions, LoadDebug, Assemble, Sound, ConstFits, DebugFits, StrFits, IsNatInt;
    if calls + 1 <= MAXCCALLS {
      HeadSound(b);
      var h := LoadHead(b);
      if h.Ok? {
        var source := if h.v.source == Null then q else h.v.source;
        IntSound(h.rest);
        var n := LoadInt(h.rest);
        if n.Ok? {
          WordsSound(n.rest, n.v);
          var code := LoadWords(n.rest, n.v);
          if code.Ok? {
            IntSound(code.rest);
            var m := LoadInt(code.rest);
            if m.Ok? {
              ConstantsSound(m.rest, m.v);
              var k := LoadConstants(m.rest, m.v);
              if k.Ok? {
                IntSound(k.rest);
                var l := LoadInt(k.rest);
                if l.Ok? {
                  FunctionsSound(l.rest, l.v, source, calls + 1, check);
                  var p := LoadFunctions(l.rest, l.v, source, calls + 1, check);
                  if p.Ok? {
                    DebugSound(p.rest);
                    var d := LoadDebug(p.rest);
                    if d.Ok? { AssembledSound(h.v, source, code.v, k.v, p.v, d.v, calls, check); }
                  }
                }
              }
            }
          }
        }
      }
    }
  }

  lemma {:induction false} FunctionsSound(b: seq<Byte>, n: nat, q: Str, calls: nat, check: Proto -> bool)
    requires q != Null && StrFits(q)
    ensures SoundResults(LoadFunctions(b, n, q, calls, check), n, calls, check)
    decreases MAXCCALLS - calls, 2, n
  {
    hide LoadFunction, Sound;
    if n > 0 {
      FunctionSound(b, q, calls, check);
      var f := LoadFunction(b, q, calls, check);
      if f.Ok? { FunctionsSound(f.rest, n - 1, q, calls, check); }
    }
  }

  // ---------- chunks ----------

  /** A chunk is rejected for its header exactly if its first twelve bytes are not those of this version of Lua on this
      machine: the signature, version 5.1 in the official format, lowest byte first, and the sizes of an int, a size, an
      instruction and a number, which is not integral. */
  lemma HeaderChecked(b: seq<Byte>, calls: nat, check: Proto -> bool)
    ensures |b| < 12 ==> Undump(b, calls, check) == Err(UnexpectedEnd)
    ensures |b| >= 12 && b[..12] != [27, 76, 117, 97, 81, 0, 1, 4, 8, 4, 8, 0] <==> Undump(b, calls, check) == Err(BadHeader)
    ensures Undump(b, calls, check).Ok? ==> [27, 76, 117, 97, 81, 0, 1, 4, 8, 4, 8, 0] <= b
  {
    hide LoadFunction, Sound;
    if |b| >= 12 { FunctionSound(b[12..], NO_SOURCE, calls, check); }
  }

  /** Every chunk that is accepted gives a function that fits, whose parts all pass the check. */
  lemma LoadedIsSound(b: seq<Byte>, calls: nat, check: Proto -> bool)
    ensures var r := Undump(b, calls, check); r.Ok? ==> Sound(r.v, calls, check)
  {
    hide LoadFunction, Sound;
    if |b| >= 12 { FunctionSound(b[12..], NO_SOURCE, calls, check); }
  }

  /** Whatever was loaded, from any bytes, can be dumped and comes back as it is. */
  lemma LoadedComesBack(b: seq<Byte>, calls: nat, check: Proto -> bool, rest: seq<Byte>)
    ensures var r := Undump(b, calls, check);
      r.Ok? ==> Fits(r.v) && Undump(Dump(r.v, false) + rest, calls, check) == Ok(r.v, rest)
  {
    hide Undump, Dump, Fits, Checked, Sourced, Depth, Norm;
    LoadedIsSound(b, calls, check);
    var r := Undump(b, calls, check);
    if r.Ok? {
      SourcedSurvives(r.v, NO_SOURCE, Null);
      DumpIsLoaded(r.v, false, calls, check, rest);
    }
  }

  // ---------- the check of the code ----------

  /** With a check, loading ends as it does without one, if every function passes, and with the error for bad code if one
      does not; if it fails anyway an earlier function may not have passed. */
  ghost predicate Decided(u: Res<Proto>, c: Res<Proto>, check: Proto -> bool) {
    u != Err(BadCode) && if u.Ok? then c == (if Checked(u.v, check) then u else Err(BadCode)) else c == u || c == Err(BadCode)
  }

  ghost predicate AllDecided(u: Res<seq<Proto>>, c: Res<seq<Proto>>, check: Proto -> bool) {
    && u != Err(BadCode)
    && if u.Ok? then c == (if forall f | f in u.v :: Checked(f, check) then u else Err(BadCode)) else c == u || c == Err(BadCode)
  }

  lemma AssembledChecked(h: Head, source: Str, code: seq<Word4>, k: seq<Constant>, p: seq<Proto>, d: Debug, check: Proto -> bool)
    ensures var f := Assemble(h, source, code, k, p, d);
      Checked(f, check) <==> check(f) && forall g | g in p :: Checked(g, check)
  {
    var f := Assemble(h, source, code, k, p, d);
    assert f.p == p;
    if check(f) && forall g | g in p :: Checked(g, check) {
      forall i | 0 <= i < |f.p| ensures Checked(f.p[i], check) { assert f.p[i] in p; }
    }
    if Checked(f, check) {
      forall g | g in p ensures Checked(g, check) { var i :| 0 <= i < |p| && p[i] == g; assert Checked(f.p[i], check); }
    }
  }

  lemma {:induction false} CheckDecides(b: seq<Byte>, q: Str, calls: nat, any: Proto -> bool, check: Proto -> bool)
    requires q != Null && StrFits(q) && forall f :: any(f)
    ensures Decided(LoadFunction(b, q, calls, any), LoadFunction(b, q, calls, check), check)
    decreases MAXCCALLS - calls, 1, 0
  {
    hide LoadHead, LoadInt, LoadWords, LoadConstants, LoadFunctions, LoadDebug, Assemble, Checked, StrFits, IsNatInt, ConstFits, DebugFits;
    if calls + 1 <= MAXCCALLS {
      HeadSound(b);
      var h := LoadHead(b);
      if h.Ok? {
        var source := if h.v.source == Null then q else h.v.source;
        IntSound(h.rest);
        var n := LoadInt(h.rest);
        if n.Ok? {
          WordsSound(n.rest, n.v);
          var code := LoadWords(n.rest, n.v);
          if code.Ok? {
            IntSound(code.rest);
            var m := LoadInt(code.rest);
            if m.Ok? {
              ConstantsSound(m.rest, m.v);
              var k := LoadConstants(m.rest, m.v);
              if k.Ok? {
                IntSound(k.rest);
                var l := LoadInt(k.rest);
                if l.Ok? {
                  ChecksDecide(l.rest, l.v, source, calls + 1, any, check);
                  var p := LoadFunctions(l.rest, l.v, source, calls + 1, any);
                  if p.Ok? {
                    DebugSound(p.rest);
                    var d := LoadDebug(p.rest);
                    if d.Ok? { AssembledChecked(h.v, source, code.v, k.v, p.v, d.v, check); }
                  }
                }
              }
            }
          }
        }
      }
    }
  }

  lemma {:induction false} ChecksDecide(b: seq<Byte>, n: nat, q: Str, calls: nat, any: Proto -> bool, check: Proto -> bool)
    requires q != Null && StrFits(q) && forall f :: any(f)
    ensures AllDecided(LoadFunctions(b, n, q, calls, any), LoadFunctions(b, n, q, calls, check), check)
    decreases MAXCCALLS - calls, 2, n
  {
    hide LoadFunction, Checked;
    if n > 0 {
      CheckDecides(b, q, calls, any, check);
      var f := LoadFunction(b, q, calls, any);
      if f.Ok? { ChecksDecide(f.rest, n - 1, q, calls, any, check); }
    }
  }

  /** A chunk is accepted with a check exactly if it is accepted without one and every function passes. */
  lemma AcceptedIff(b: seq<Byte>, calls: nat, any: Proto -> bool, check: Proto -> bool)
    requires forall f :: any(f)
    ensures Decided(Undump(b, calls, any), Undump(b, calls, check), check)
  {
    hide LoadFunction, Checked;
    if |b| >= 12 { CheckDecides(b[12..], NO_SOURCE, calls, any, check); }
  }

  // ---------- the layout ----------

  lemma SmallInt(x: Byte)
    ensures DumpInt(x) == [x, 0, 0, 0] && DumpSize(x) == [x, 0, 0, 0, 0, 0, 0, 0]
  {
    assert Low(0, 3) == [0] + Low(0, 2) == [0, 0] + Low(0, 1) == [0, 0, 0];
    assert Low(x, 4) == [x] + Low(0, 3);
    assert Low(0, 7) == [0, 0, 0, 0] + Low(0, 3);
    assert Low(x, 8) == [x] + Low(0, 7);
  }

  lemma SizeIsZero(x: nat)
    requires x < TWO64
    ensures DumpSize(x) == [0, 0, 0, 0, 0, 0, 0, 0] <==> x == 0
  {
    SmallInt(0);
    ValueDump(x);
    ValueDump(0);
  }

  lemma StringFirst(s: Str)
    requires StrFits(s)
    ensures |DumpString(s)| >= 8 && (DumpString(s)[..8] == [0, 0, 0, 0, 0, 0, 0, 0] <==> s == Null)
  {
    hide DumpSize;
    SizeIsZero(0);
    if s != Null {
      SizeIsZero(|s.bytes| + 1);
      assert DumpString(s)[..8] == DumpSize(|s.bytes| + 1);
    }
  }

  /** A function is written without its source exactly if it is stripped, has none, or has that of the enclosing one. */
  lemma SharedSource(f: Proto, p: Str, strip: bool)
    requires Fits(f)
    ensures var b := DumpFunction(f, p, strip);
      |b| >= 8 && (b[..8] == [0, 0, 0, 0, 0, 0, 0, 0] <==> strip || f.source == p || f.source == Null)
  {
    hide DumpString, DumpInt, DumpWords, DumpConstants, DumpChildren, DumpDebug, StrFits, DebugFits;
    FitsDebug(f, strip);
    var source := WrittenSource(f, p, strip);
    assert StrFits(source) by { NoneFits(); }
    StringFirst(source);
    assert DumpFunction(f, p, strip)[..8] == DumpString(source)[..8];
  }

  lemma NoneFits()
    ensures StrFits(Null)
  {
  }

  lemma SmallString(c: Byte)
    ensures DumpString(S([c])) == [2, 0, 0, 0, 0, 0, 0, 0, c, 0]
  {
    SmallInt(2);
  }

  lemma ConstantFirst(c: Constant, ks: seq<Constant>)
    ensures DumpConstants([c] + ks) == DumpConstant(c) + DumpConstants(ks)
  {
    hide DumpConstant;
    assert ([c] + ks)[1..] == ks;
  }

  lemma SmallConstants(x: Word8, c: Byte)
    ensures DumpConstants([NilConst, BoolConst(true), NumConst(x), StrConst(S([c]))]) ==
            [0, 1, 1, 3] + x + [4, 2, 0, 0, 0, 0, 0, 0, 0, c, 0]
  {
    hide DumpConstants, DumpConstant;
    SmallConstant(x, c);
    var s := StrConst(S([c]));
    ConstantFirst(s, []);
    ConstantFirst(NumConst(x), [s]);
    ConstantFirst(BoolConst(true), [NumConst(x), s]);
    ConstantFirst(NilConst, [BoolConst(true), NumConst(x), s]);
    assert [NilConst] + [BoolConst(true), NumConst(x), s] == [NilConst, BoolConst(true), NumConst(x), s];
    assert [BoolConst(true)] + [NumConst(x), s] == [BoolConst(true), NumConst(x), s];
    assert [NumConst(x)] + [s] == [NumConst(x), s];
    assert [s] + [] == [s];
  }

  lemma SmallConstant(x: Word8, c: Byte)
    ensures DumpConstant(NilConst) == [0] && DumpConstant(BoolConst(true)) == [1, 1]
    ensures DumpConstant(NumConst(x)) == [3] + x
    ensures DumpConstant(StrConst(S([c]))) == [4, 2, 0, 0, 0, 0, 0, 0, 0, c, 0]
    ensures DumpConstants([]) == []
  {
    hide DumpString;
    SmallString(c);
  }

  lemma SmallVar(c: Byte)
    ensures var v := LocVar(S([c]), 7, 8);
      DumpLocVars([v]) == [2, 0, 0, 0, 0, 0, 0, 0, c, 0] + ([7, 0, 0, 0] + [8, 0, 0, 0])
  {
    hide DumpString, DumpInt;
    SmallString(c);
    SmallInt(7);
    SmallInt(8);
    assert [LocVar(S([c]), 7, 8)][1..] == [];
  }

  lemma SmallDebug(n: Word4, c: Byte, e: Byte, d: Debug)
    requires d == Debug([n], [LocVar(S([c]), 7, 8)], [S([e])])
    ensures DebugFits(d)
    ensures DumpDebug(d) ==
            [1, 0, 0, 0] + n +
            ([1, 0, 0, 0] + ([2, 0, 0, 0, 0, 0, 0, 0, c, 0] + ([7, 0, 0, 0] + [8, 0, 0, 0]))) +
            ([1, 0, 0, 0] + [2, 0, 0, 0, 0, 0, 0, 0, e, 0])
  {
    hide DumpDebug, DumpInt, DumpString, DumpWords, DumpStrings, DumpLocVars;
    SmallFits(d);
    DebugBytes(d);
    SmallInt(1);
    SmallVar(c);
    SmallString(e);
    Single(n, S([e]));
  }

  lemma SmallFits(d: Debug)
    requires |d.lineinfo| == |d.locvars| == |d.upvalues| == 1
    requires d.locvars[0].startpc == 7 && d.locvars[0].endpc == 8
    requires d.locvars[0].name.S? && |d.locvars[0].name.bytes| == 1 && d.upvalues[0].S? && |d.upvalues[0].bytes| == 1
    ensures DebugFits(d)
  {
  }

  lemma DebugBytes(d: Debug)
    requires DebugFits(d)
    ensures DumpDebug(d) == DumpInt(|d.lineinfo|) + DumpWords(d.lineinfo) + (DumpInt(|d.locvars|) + DumpLocVars(d.locvars)) +
                            (DumpInt(|d.upvalues|) + DumpStrings(d.upvalues))
  {
    hide DumpInt, DumpWords, DumpLocVars, DumpStrings, DebugFits;
  }

  lemma Single(n: Word4, s: Str)
    ensures DumpWords([n]) == n && DumpStrings([s]) == DumpString(s)
  {
    hide DumpString;
    assert [n][1..] == [] && [s][1..] == [];
  }

  lemma SmallHead(h: Head, c: Byte)
    requires h.source == S([c]) && h.linedefined == 1 && h.lastlinedefined == 2
    ensures DumpHead(h) == [2, 0, 0, 0, 0, 0, 0, 0, c, 0] + ([1, 0, 0, 0] + ([2, 0, 0, 0] +
                           [h.nups, h.numparams, h.isVararg, h.maxstacksize]))
  {
    hide DumpString, DumpInt;
    SmallString(c);
    SmallInt(1);
    SmallInt(2);
  }

  /** The bytes of a small function: its source "a", lines 1 to 2, the four bytes, one instruction, the constants nil,
      true, a number and "b", no nested function, one line, one local variable "c" from 7 to 8, one upvalue "d". */
  lemma SmallChunk(i: Word4, x: Word8, n: Word4)
    ensures var f := Proto(S([97]), 1, 2, 3, 4, 5, 6, [i], [NilConst, BoolConst(true), NumConst(x), StrConst(S([98]))],
                           [], [n], [LocVar(S([99]), 7, 8)], [S([100])]);
      Fits(f) && Dump(f, false) ==
        [27, 76, 117, 97, 81, 0, 1, 4, 8, 4, 8, 0] +
        ([2, 0, 0, 0, 0, 0, 0, 0, 97, 0] + ([1, 0, 0, 0] + ([2, 0, 0, 0] + [3, 4, 5, 6]))) +
        [1, 0, 0, 0] + i +
        [4, 0, 0, 0] + ([0, 1, 1, 3] + x + [4, 2, 0, 0, 0, 0, 0, 0, 0, 98, 0]) +
        [0, 0, 0, 0] +
        ([1, 0, 0, 0] + n +
         ([1, 0, 0, 0] + ([2, 0, 0, 0, 0, 0, 0, 0, 99, 0] + ([7, 0, 0, 0] + [8, 0, 0, 0]))) +
         ([1, 0, 0, 0] + [2, 0, 0, 0, 0, 0, 0, 0, 100, 0]))
  {
    hide DumpInt, DumpHead, DumpConstants, DumpDebug;
    var f := Proto(S([97]), 1, 2, 3, 4, 5, 6, [i], [NilConst, BoolConst(true), NumConst(x), StrConst(S([98]))], [],
                   [n], [LocVar(S([99]), 7, 8)], [S([100])]);
    SmallHead(HeadOf(f, f.source), 97);
    SmallConstants(x, 98);
    SmallDebug(n, 99, 100, DebugOf(f, false));
    SmallInt(0);
    SmallInt(1);
    SmallInt(4);
    assert DumpWords(f.code) == i;
    FunctionBytes(f);
  }

  /** The parts of a function, one after the other. */
  lemma FunctionBytes(f: Proto)
    requires Fits(f) && f.source != Null && f.p == []
    ensures Dump(f, false) == HEADER + DumpHead(HeadOf(f, f.source)) + DumpInt(|f.code|) + DumpWords(f.code) +
                              DumpInt(|f.k|) + DumpConstants(f.k) + DumpInt(0) + DumpDebug(DebugOf(f, false))
  {
    hide DumpInt, DumpHead, DumpConstants, DumpDebug, DumpWords;
    assert DumpChildren(f, 0, false) == [];
  }
}
