/**
  Loading what was dumped: the tree comes back up to the information that a chunk does not keep, exactly the bytes
  written are consumed, and the only error is a nesting that is too deep.
  */
module ChunkRoundTrip {
  import opened Chunks

  lemma TakeBack(s: seq<Byte>, rest: seq<Byte>)
    ensures Take(s + rest, |s|) == Ok(s, rest)
  {
    assert (s + rest)[..|s|] == s && (s + rest)[|s|..] == rest;
  }

  lemma Assoc(a: seq<Byte>, b: seq<Byte>, c: seq<Byte>)
    ensures (a + b) + c == a + (b + c)
  {
  }

  lemma IntBack(x: int, rest: seq<Byte>)
    requires IsNatInt(x)
    ensures LoadInt(DumpInt(x) + rest) == Ok(x, rest)
  {
    TakeBack(DumpInt(x), rest);
    SignedDump(x);
  }

  lemma ByteBack(x: Byte, rest: seq<Byte>)
    ensures LoadByte([x] + rest) == Ok(x, rest)
  {
    TakeBack([x], rest);
  }

  lemma StringBack(s: Str, rest: seq<Byte>)
    requires StrFits(s)
    ensures LoadString(DumpString(s) + rest) == Ok(s, rest)
  {
    if s == Null {
      ValueDump(0);
      TakeBack(DumpSize(0), rest);
    } else {
      var size := |s.bytes| + 1;
      var text := s.bytes + [0];
      ValueDump(size);
      Assoc(DumpSize(size), text, rest);
      TakeBack(DumpSize(size), text + rest);
      TakeBack(text, rest);
      assert text[..size - 1] == s.bytes;
    }
  }

  lemma {:induction false} WordsBack(ws: seq<Word4>, rest: seq<Byte>)
    ensures LoadWords(DumpWords(ws) + rest, |ws|) == Ok(ws, rest)
    decreases |ws|
  {
    if ws == [] {
      assert DumpWords(ws) + rest == rest;
    } else {
      Assoc(ws[0], DumpWords(ws[1..]), rest);
      TakeBack(ws[0], DumpWords(ws[1..]) + rest);
      WordsBack(ws[1..], rest);
      assert [ws[0]] + ws[1..] == ws;
    }
  }

  lemma ConstantBack(c: Constant, rest: seq<Byte>)
    requires ConstFits(c)
    ensures LoadConstant(DumpConstant(c) + rest) == Ok(c, rest)
  {
    match c {
      case NilConst => ByteBack(TNIL, rest);
      case BoolConst(b) =>
        var v: Byte := if b then 1 else 0;
        assert [TBOOLEAN, v] + rest == [TBOOLEAN] + ([v] + rest);
        ByteBack(TBOOLEAN, [v] + rest);
        ByteBack(v, rest);
      case NumConst(n) =>
        Assoc([TNUMBER], n, rest);
        ByteBack(TNUMBER, n + rest);
        TakeBack(n, rest);
      case StrConst(s) =>
        Assoc([TSTRING], DumpString(s), rest);
        ByteBack(TSTRING, DumpString(s) + rest);
        StringBack(s, rest);
    }
  }

  lemma {:induction false} ConstantsBack(ks: seq<Constant>, rest: seq<Byte>)
    requires forall c | c in ks :: ConstFits(c)
    ensures LoadConstants(DumpConstants(ks) + rest, |ks|) == Ok(ks, rest)
    decreases |ks|
  {
    if ks == [] {
      assert DumpConstants(ks) + rest == rest;
    } else {
      Assoc(DumpConstant(ks[0]), DumpConstants(ks[1..]), rest);
      ConstantBack(ks[0], DumpConstants(ks[1..]) + rest);
      ConstantsBack(ks[1..], rest);
      assert [ks[0]] + ks[1..] == ks;
    }
  }

  lemma LocVarBack(v: LocVar, rest: seq<Byte>)
    requires IsNatInt(v.startpc) && IsNatInt(v.endpc) && StrFits(v.name)
    ensures LoadLocVar(DumpLocVar(v) + rest) == Ok(v, rest)
  {
    hide DumpString, DumpInt, LoadString, LoadInt;
    Assoc(DumpString(v.name), DumpInt(v.startpc) + DumpInt(v.endpc), rest);
    Assoc(DumpInt(v.startpc), DumpInt(v.endpc), rest);
    StringBack(v.name, DumpInt(v.startpc) + (DumpInt(v.endpc) + rest));
    IntBack(v.startpc, DumpInt(v.endpc) + rest);
    IntBack(v.endpc, rest);
  }

  lemma {:induction false} LocVarsBack(vs: seq<LocVar>, rest: seq<Byte>)
    requires forall v | v in vs :: IsNatInt(v.startpc) && IsNatInt(v.endpc) && StrFits(v.name)
    ensures LoadLocVars(DumpLocVars(vs) + rest, |vs|) == Ok(vs, rest)
    decreases |vs|
  {
    if vs == [] {
      assert DumpLocVars(vs) + rest == rest;
    } else {
      Assoc(DumpLocVar(vs[0]), DumpLocVars(vs[1..]), rest);
      LocVarBack(vs[0], DumpLocVars(vs[1..]) + rest);
      LocVarsBack(vs[1..], rest);
      assert [vs[0]] + vs[1..] == vs;
    }
  }

  lemma {:induction false} StringsBack(ss: seq<Str>, rest: seq<Byte>)
    requires forall s | s in ss :: StrFits(s)
    ensures LoadStrings(DumpStrings(ss) + rest, |ss|) == Ok(ss, rest)
    decreases |ss|
  {
    if ss == [] {
      assert DumpStrings(ss) + rest == rest;
    } else {
      Assoc(DumpString(ss[0]), DumpStrings(ss[1..]), rest);
      StringBack(ss[0], DumpStrings(ss[1..]) + rest);
      StringsBack(ss[1..], rest);
      assert [ss[0]] + ss[1..] == ss;
    }
  }

  lemma HeadBack(h: Head, rest: seq<Byte>)
    requires IsNatInt(h.linedefined) && IsNatInt(h.lastlinedefined) && StrFits(h.source)
    ensures LoadHead(DumpHead(h) + rest) == Ok(h, rest)
  {
    var bytes := [h.nups, h.numparams, h.isVararg, h.maxstacksize];
    var b2 := DumpInt(h.lastlinedefined) + bytes;
    var b1 := DumpInt(h.linedefined) + b2;
    Assoc(DumpString(h.source), b1, rest);
    Assoc(DumpInt(h.linedefined), b2, rest);
    Assoc(DumpInt(h.lastlinedefined), bytes, rest);
    StringBack(h.source, b1 + rest);
    IntBack(h.linedefined, b2 + rest);
    IntBack(h.lastlinedefined, bytes + rest);
    TakeBack(bytes, rest);
  }

  lemma DebugBack(d: Debug, rest: seq<Byte>)
    requires DebugFits(d)
    ensures LoadDebug(DumpDebug(d) + rest) == Ok(d, rest)
  {
    var b5 := DumpStrings(d.upvalues);
    var b4 := DumpInt(|d.upvalues|) + b5;
    var b3 := DumpLocVars(d.locvars) + b4;
    var b2 := DumpInt(|d.locvars|) + b3;
    var b1 := DumpWords(d.lineinfo) + b2;
    Assoc(DumpInt(|d.lineinfo|), b1, rest);
    Assoc(DumpWords(d.lineinfo), b2, rest);
    Assoc(DumpInt(|d.locvars|), b3, rest);
    Assoc(DumpLocVars(d.locvars), b4, rest);
    Assoc(DumpInt(|d.upvalues|), b5, rest);
    IntBack(|d.lineinfo|, b1 + rest);
    WordsBack(d.lineinfo, b2 + rest);
    IntBack(|d.locvars|, b3 + rest);
    LocVarsBack(d.locvars, b4 + rest);
    IntBack(|d.upvalues|, b5 + rest);
    StringsBack(d.upvalues, rest);
  }

  // ---------- trees ----------

  /** What becomes of a tree: `q` is the source of the enclosing function as loaded, `p` as dumped. */
  function Norm(f: Proto, q: Str, p: Str, strip: bool): Proto
    decreases f, |f.p| + 1
  {
    var written := WrittenSource(f, p, strip);
    var source := if written == Null then q else written;
    Assemble(HeadOf(f, written), source, f.code, f.k, NormChildren(f, 0, source, strip), DebugOf(f, strip))
  }

  function NormChildren(f: Proto, i: nat, source: Str, strip: bool): (r: seq<Proto>)
    requires i <= |f.p|
    ensures |r| == |f.p| - i
    decreases f, |f.p| - i
  {
    if i == |f.p| then [] else [Norm(f.p[i], source, f.source, strip)] + NormChildren(f, i + 1, source, strip)
  }

  /** How deeply functions are nested. */
  function Depth(f: Proto): nat
    decreases f, |f.p| + 1
  {
    1 + ChildDepth(f, 0)
  }

  function ChildDepth(f: Proto, i: nat): nat
    requires i <= |f.p|
    decreases f, |f.p| - i
  {
    if i == |f.p| then 0
    else if Depth(f.p[i]) > ChildDepth(f, i + 1) then Depth(f.p[i]) else ChildDepth(f, i + 1)
  }

  /** `luaG_checkcode` accepts every function of the tree. */
  predicate Checked(f: Proto, check: Proto -> bool) {
    check(f) && forall i | 0 <= i < |f.p| :: Checked(f.p[i], check)
  }

  /** `LoadFunction` when its parts have been loaded. */
  lemma LoadParts(b: seq<Byte>, q: Str, calls: nat, check: Proto -> bool, h: Head, b1: seq<Byte>, n: nat, b2: seq<Byte>,
                  code: seq<Word4>, b3: seq<Byte>, m: nat, b4: seq<Byte>, k: seq<Constant>, b5: seq<Byte>, l: nat, b6: seq<Byte>)
    requires calls + 1 <= MAXCCALLS && LoadHead(b) == Ok(h, b1) && LoadInt(b1) == Ok(n, b2) && LoadWords(b2, n) == Ok(code, b3)
    requires LoadInt(b3) == Ok(m, b4) && LoadConstants(b4, m) == Ok(k, b5) && LoadInt(b5) == Ok(l, b6)
    ensures var source := if h.source == Null then q else h.source;
      var p := LoadFunctions(b6, l, source, calls + 1, check);
      && (p.Err? ==> LoadFunction(b, q, calls, check) == Err(p.e))
      && (p.Ok? && LoadDebug(p.rest).Ok? ==>
            var f := Assemble(h, source, code, k, p.v, LoadDebug(p.rest).v);
            LoadFunction(b, q, calls, check) == if check(f) then Ok(f, LoadDebug(p.rest).rest) else Err(BadCode))
  {
    hide LoadHead, LoadInt, LoadWords, LoadConstants, LoadDebug, Assemble;
  }

  // The bytes of a function from one of its parts on, with what follows.

  function FromDebug(f: Proto, strip: bool, rest: seq<Byte>): seq<Byte>
    requires Fits(f)
  {
    FitsDebug(f, strip); DumpDebug(DebugOf(f, strip)) + rest
  }

  function FromChildren(f: Proto, strip: bool, rest: seq<Byte>): seq<Byte>
    requires Fits(f)
  {
    DumpChildren(f, 0, strip) + FromDebug(f, strip, rest)
  }

  function FromNumber(f: Proto, strip: bool, rest: seq<Byte>): seq<Byte>
    requires Fits(f)
  {
    DumpInt(|f.p|) + FromChildren(f, strip, rest)
  }

  function FromConstants(f: Proto, strip: bool, rest: seq<Byte>): seq<Byte>
    requires Fits(f)
  {
    DumpInt(|f.k|) + (DumpConstants(f.k) + FromNumber(f, strip, rest))
  }

  function FromCode(f: Proto, strip: bool, rest: seq<Byte>): seq<Byte>
    requires Fits(f)
  {
    DumpInt(|f.code|) + (DumpWords(f.code) + FromConstants(f, strip, rest))
  }

  lemma DumpParts(f: Proto, p: Str, strip: bool, rest: seq<Byte>)
    requires Fits(f)
    ensures DumpFunction(f, p, strip) + rest == DumpHead(HeadOf(f, WrittenSource(f, p, strip))) + FromCode(f, strip, rest)
  {
    FitsDebug(f, strip);
    var h := HeadOf(f, WrittenSource(f, p, strip));
    var b7 := DumpDebug(DebugOf(f, strip));
    var b6 := DumpChildren(f, 0, strip) + b7;
    var b5 := DumpInt(|f.p|) + b6;
    var b4 := DumpConstants(f.k) + b5;
    var b3 := DumpInt(|f.k|) + b4;
    var b2 := DumpWords(f.code) + b3;
    var b1 := DumpInt(|f.code|) + b2;
    hide DumpHead, DumpInt, DumpWords, DumpConstants, DumpDebug, DumpChildren, Fits;
    Assoc(DumpHead(h), b1, rest);
    Assoc(DumpInt(|f.code|), b2, rest);
    Assoc(DumpWords(f.code), b3, rest);
    Assoc(DumpInt(|f.k|), b4, rest);
    Assoc(DumpConstants(f.k), b5, rest);
    Assoc(DumpInt(|f.p|), b6, rest);
    Assoc(DumpChildren(f, 0, strip), b7, rest);
  }

  /** `LoadCode` and the beginnings of `LoadConstants`. */
  lemma CodeBack(f: Proto, strip: bool, rest: seq<Byte>)
    requires Fits(f)
    ensures var b := DumpWords(f.code) + FromConstants(f, strip, rest);
      LoadInt(FromCode(f, strip, rest)) == Ok(|f.code|, b) && LoadWords(b, |f.code|) == Ok(f.code, FromConstants(f, strip, rest))
    ensures var b := DumpConstants(f.k) + FromNumber(f, strip, rest);
      LoadInt(FromConstants(f, strip, rest)) == Ok(|f.k|, b) && LoadConstants(b, |f.k|) == Ok(f.k, FromNumber(f, strip, rest))
    ensures LoadInt(FromNumber(f, strip, rest)) == Ok(|f.p|, FromChildren(f, strip, rest))
  {
    hide DumpInt, DumpWords, DumpConstants, DumpChildren, LoadInt, LoadWords, LoadConstants, FromDebug;
    IntBack(|f.code|, DumpWords(f.code) + FromConstants(f, strip, rest));
    WordsBack(f.code, FromConstants(f, strip, rest));
    IntBack(|f.k|, DumpConstants(f.k) + FromNumber(f, strip, rest));
    ConstantsBack(f.k, FromNumber(f, strip, rest));
    IntBack(|f.p|, FromChildren(f, strip, rest));
  }

  lemma FromDebugBack(f: Proto, strip: bool, rest: seq<Byte>)
    requires Fits(f)
    ensures LoadDebug(FromDebug(f, strip, rest)) == Ok(DebugOf(f, strip), rest)
  {
    FitsDebug(f, strip);
    hide DumpDebug, LoadDebug;
    DebugBack(DebugOf(f, strip), rest);
  }

  lemma FitsHead(f: Proto, p: Str, strip: bool)
    requires Fits(f)
    ensures var h := HeadOf(f, WrittenSource(f, p, strip)); IsNatInt(h.linedefined) && IsNatInt(h.lastlinedefined) && StrFits(h.source)
  {
  }

  lemma CheckedParts(f: Proto, q: Str, p: Str, strip: bool, check: Proto -> bool)
    requires Checked(Norm(f, q, p, strip), check)
    ensures check(Norm(f, q, p, strip))
    ensures var written := WrittenSource(f, p, strip);
      forall g | g in NormChildren(f, 0, if written == Null then q else written, strip) :: Checked(g, check)
  {
  }

  /** A dumped function is loaded as far as its nested functions are. */
  lemma FunctionParts(f: Proto, p: Str, q: Str, strip: bool, calls: nat, check: Proto -> bool, rest: seq<Byte>)
    requires Fits(f) && calls + 1 <= MAXCCALLS
    ensures var h := HeadOf(f, WrittenSource(f, p, strip));
      var source := if h.source == Null then q else h.source;
      var ps := LoadFunctions(FromChildren(f, strip, rest), |f.p|, source, calls + 1, check);
      var all := LoadFunction(DumpFunction(f, p, strip) + rest, q, calls, check);
      && (ps.Err? ==> all == Err(ps.e))
      && (ps.Ok? && ps.rest == FromDebug(f, strip, rest) ==>
            var g := Assemble(h, source, f.code, f.k, ps.v, DebugOf(f, strip));
            all == if check(g) then Ok(g, rest) else Err(BadCode))
  {
    hide DumpHead, DumpFunction, LoadHead, LoadInt, LoadWords, LoadConstants, LoadDebug, LoadFunction, LoadFunctions,
         FromChildren, FromCode, FromConstants, FromNumber, FromDebug, Fits, DumpWords, DumpConstants, Assemble;
    var h := HeadOf(f, WrittenSource(f, p, strip));
    FitsHead(f, p, strip);
    DumpParts(f, p, strip, rest);
    CodeBack(f, strip, rest);
    FromDebugBack(f, strip, rest);
    HeadBack(h, FromCode(f, strip, rest));
    LoadParts(DumpHead(h) + FromCode(f, strip, rest), q, calls, check, h, FromCode(f, strip, rest), |f.code|,
              DumpWords(f.code) + FromConstants(f, strip, rest), f.code, FromConstants(f, strip, rest), |f.k|,
              DumpConstants(f.k) + FromNumber(f, strip, rest), f.k, FromNumber(f, strip, rest), |f.p|, FromChildren(f, strip, rest));
  }

  /** THE ROUND TRIP.  A dumped function is loaded again, whatever follows it, unless it is nested too deeply. */
  lemma {:induction false} FunctionBack(f: Proto, p: Str, q: Str, strip: bool, calls: nat, check: Proto -> bool, rest: seq<Byte>)
    requires Fits(f) && Checked(Norm(f, q, p, strip), check)
    ensures LoadFunction(DumpFunction(f, p, strip) + rest, q, calls, check) ==
            if calls + Depth(f) <= MAXCCALLS then Ok(Norm(f, q, p, strip), rest) else Err(TooDeep)
    decreases f, |f.p| + 1
  {
    hide DumpFunction, LoadFunction, LoadFunctions, DumpChildren, NormChildren, FromDebug, FromChildren, Fits, Checked,
         ChildDepth, Depth, Norm, Assemble;
    if calls + 1 > MAXCCALLS {
      TooDeepAtOnce(DumpFunction(f, p, strip) + rest, q, calls, check);
      SomeDepth(f);
    } else {
      var source := if WrittenSource(f, p, strip) == Null then q else WrittenSource(f, p, strip);
      CheckedParts(f, q, p, strip, check);
      FunctionParts(f, p, q, strip, calls, check, rest);
      ChildrenBack(f, 0, source, strip, calls + 1, check, FromDebug(f, strip, rest));
      ChildrenBytes(f, strip, rest);
      NormIs(f, q, p, strip);
    }
  }

  lemma ChildrenBytes(f: Proto, strip: bool, rest: seq<Byte>)
    requires Fits(f)
    ensures FromChildren(f, strip, rest) == DumpChildren(f, 0, strip) + FromDebug(f, strip, rest)
  {
  }

  lemma NormIs(f: Proto, q: Str, p: Str, strip: bool)
    ensures var written := WrittenSource(f, p, strip);
      var source := if written == Null then q else written;
      Norm(f, q, p, strip) == Assemble(HeadOf(f, written), source, f.code, f.k, NormChildren(f, 0, source, strip), DebugOf(f, strip))
    ensures Depth(f) == 1 + ChildDepth(f, 0) && (|f.p| == 0 ==> ChildDepth(f, 0) == 0)
  {
  }

  lemma TooDeepAtOnce(b: seq<Byte>, q: Str, calls: nat, check: Proto -> bool)
    requires calls + 1 > MAXCCALLS
    ensures LoadFunction(b, q, calls, check) == Err(TooDeep)
  {
  }

  lemma {:induction false} ChildrenBack(f: Proto, i: nat, q: Str, strip: bool, calls: nat, check: Proto -> bool, rest: seq<Byte>)
    requires Fits(f) && i <= |f.p| && calls <= MAXCCALLS
    requires forall g | g in NormChildren(f, i, q, strip) :: Checked(g, check)
    ensures LoadFunctions(DumpChildren(f, i, strip) + rest, |f.p| - i, q, calls, check) ==
            if i == |f.p| || calls + ChildDepth(f, i) <= MAXCCALLS then Ok(NormChildren(f, i, q, strip), rest) else Err(TooDeep)
    decreases f, |f.p| - i
  {
    hide DumpFunction, LoadFunction, Norm, Depth, Checked;
    if i == |f.p| {
      assert DumpChildren(f, i, strip) + rest == rest;
    } else {
      var g := f.p[i];
      assert Fits(g);
      hide Fits;
      var more := DumpChildren(f, i + 1, strip) + rest;
      Assoc(DumpFunction(g, f.source, strip), DumpChildren(f, i + 1, strip), rest);
      assert NormChildren(f, i, q, strip) == [Norm(g, q, f.source, strip)] + NormChildren(f, i + 1, q, strip);
      assert NormChildren(f, i, q, strip)[0] == Norm(g, q, f.source, strip);
      FunctionBack(g, f.source, q, strip, calls, check, more);
      ChildrenBack(f, i + 1, q, strip, calls, check, rest);
      SomeDepth(g);
    }
  }

  lemma SomeDepth(g: Proto)
    ensures Depth(g) >= 1
  {
  }

  lemma DumpIsLoaded(f: Proto, strip: bool, calls: nat, check: Proto -> bool, rest: seq<Byte>)
    requires Fits(f) && Checked(Norm(f, NO_SOURCE, Null, strip), check)
    ensures Undump(Dump(f, strip) + rest, calls, check) ==
            if calls + Depth(f) <= MAXCCALLS then Ok(Norm(f, NO_SOURCE, Null, strip), rest) else Err(TooDeep)
    ensures var r := Undump(Dump(f, strip) + rest, calls, check);
            (r.Ok? <==> calls + Depth(f) <= 200) &&
            (r.Ok? ==> r.v.source == if strip || f.source == Null then S([61, 63]) else f.source)
  {
    Assoc(HEADER, DumpFunction(f, Null, strip), rest);
    TakeBack(HEADER, DumpFunction(f, Null, strip) + rest);
    FunctionBack(f, Null, NO_SOURCE, strip, calls, check, rest);
  }

  // ---------- what survives ----------

  /** Every function of the tree has a source. */
  predicate Sourced(f: Proto) { f.source != Null && forall i | 0 <= i < |f.p| :: Sourced(f.p[i]) }

  /** A stripped tree: the source is `q` everywhere and there is no debug information. */
  predicate Stripped(f: Proto, q: Str) {
    && f.source == q && f.lineinfo == [] && f.locvars == [] && f.upvalues == []
    && forall i | 0 <= i < |f.p| :: Stripped(f.p[i], q)
  }

  lemma {:induction false} NormChildAt(f: Proto, i: nat, j: nat, source: Str, strip: bool)
    requires i <= j < |f.p|
    ensures NormChildren(f, i, source, strip)[j - i] == Norm(f.p[j], source, f.source, strip)
    decreases j - i
  {
    if i < j {
      NormChildAt(f, i + 1, j, source, strip);
    }
  }

  lemma ChildrenSame(f: Proto, source: Str, strip: bool)
    ensures NormChildren(f, 0, source, strip) == f.p <==> forall j | 0 <= j < |f.p| :: Norm(f.p[j], source, f.source, strip) == f.p[j]
  {
    var ns := NormChildren(f, 0, source, strip);
    forall j | 0 <= j < |f.p| ensures ns[j] == Norm(f.p[j], source, f.source, strip) { NormChildAt(f, 0, j, source, strip); }
    if forall j | 0 <= j < |f.p| :: Norm(f.p[j], source, f.source, strip) == f.p[j] {
      assert forall j | 0 <= j < |f.p| :: ns[j] == f.p[j];
    }
  }

  /** Without stripping, exactly the trees in which every function has a source come back unchanged. */
  lemma {:induction false} SourcedSurvives(f: Proto, q: Str, p: Str)
    requires q != Null && (p == q || p == Null || f.source != p)
    ensures Norm(f, q, p, false) == f <==> Sourced(f)
    decreases f
  {
    var source := if WrittenSource(f, p, false) == Null then q else f.source;
    ChildrenSame(f, source, false);
    if f.source != Null {
      assert source == f.source;
      forall j | 0 <= j < |f.p| ensures Norm(f.p[j], source, f.source, false) == f.p[j] <==> Sourced(f.p[j]) {
        SourcedSurvives(f.p[j], f.source, f.source);
      }
    }
  }

  /** With stripping, exactly the stripped trees come back unchanged. */
  lemma {:induction false} StrippedSurvives(f: Proto, q: Str, p: Str)
    ensures Norm(f, q, p, true) == f <==> Stripped(f, q)
    decreases f
  {
    ChildrenSame(f, q, true);
    forall j | 0 <= j < |f.p| ensures Norm(f.p[j], q, f.source, true) == f.p[j] <==> Stripped(f.p[j], q) {
      StrippedSurvives(f.p[j], q, f.source);
    }
  }
}
