/**
  Loading looks at no byte that it does not consume, and so a chunk that has been cut off anywhere is rejected.
  */
module ChunkTruncation {
  import opened Chunks
  import opened ChunkRoundTrip

  /** More bytes at the end change nothing, unless bytes were missing. */
  predicate Extends<T(==)>(r: Res<T>, r': Res<T>, more: seq<Byte>) {
    match r
    case Ok(v, rest) => r' == Ok(v, rest + more)
    case Err(e) => e != UnexpectedEnd ==> r' == Err(e)
  }

  lemma TakeExtends(b: seq<Byte>, n: nat, more: seq<Byte>)
    ensures Extends(Take(b, n), Take(b + more, n), more)
  {
    if n <= |b| {
      assert (b + more)[..n] == b[..n] && (b + more)[n..] == b[n..] + more;
    }
  }

  lemma ByteExtends(b: seq<Byte>, more: seq<Byte>)
    ensures Extends(LoadByte(b), LoadByte(b + more), more)
  {
    TakeExtends(b, 1, more);
  }

  lemma IntExtends(b: seq<Byte>, more: seq<Byte>)
    ensures Extends(LoadInt(b), LoadInt(b + more), more)
  {
    TakeExtends(b, 4, more);
  }

  lemma StringExtends(b: seq<Byte>, more: seq<Byte>)
    ensures Extends(LoadString(b), LoadString(b + more), more)
  {
    TakeExtends(b, 8, more);
    var r := Take(b, 8);
    if r.Ok? { TakeExtends(r.rest, Value(r.v), more); }
  }

  lemma {:induction false} WordsExtend(b: seq<Byte>, n: nat, more: seq<Byte>)
    ensures Extends(LoadWords(b, n), LoadWords(b + more, n), more)
    decreases n
  {
    if n > 0 {
      TakeExtends(b, 4, more);
      if Take(b, 4).Ok? { WordsExtend(Take(b, 4).rest, n - 1, more); }
    }
  }

  lemma ConstantExtends(b: seq<Byte>, more: seq<Byte>)
    ensures Extends(LoadConstant(b), LoadConstant(b + more), more)
  {
    hide LoadByte, LoadString, Take;
    ByteExtends(b, more);
    var t := LoadByte(b);
    if t.Ok? {
      ByteExtends(t.rest, more);
      TakeExtends(t.rest, 8, more);
      StringExtends(t.rest, more);
    }
  }

  lemma {:induction false} ConstantsExtend(b: seq<Byte>, n: nat, more: seq<Byte>)
    ensures Extends(LoadConstants(b, n), LoadConstants(b + more, n), more)
    decreases n
  {
    hide LoadConstant;
    if n > 0 {
      ConstantExtends(b, more);
      if LoadConstant(b).Ok? { ConstantsExtend(LoadConstant(b).rest, n - 1, more); }
    }
  }

  lemma LocVarExtends(b: seq<Byte>, more: seq<Byte>)
    ensures Extends(LoadLocVar(b), LoadLocVar(b + more), more)
  {
    hide LoadString, LoadInt;
    StringExtends(b, more);
    var name := LoadString(b);
    if name.Ok? {
      IntExtends(name.rest, more);
      var startpc := LoadInt(name.rest);
      if startpc.Ok? { IntExtends(startpc.rest, more); }
    }
  }

  lemma {:induction false} LocVarsExtend(b: seq<Byte>, n: nat, more: seq<Byte>)
    ensures Extends(LoadLocVars(b, n), LoadLocVars(b + more, n), more)
    decreases n
  {
    hide LoadLocVar;
    if n > 0 {
      LocVarExtends(b, more);
      if LoadLocVar(b).Ok? { LocVarsExtend(LoadLocVar(b).rest, n - 1, more); }
    }
  }

  lemma {:induction false} StringsExtend(b: seq<Byte>, n: nat, more: seq<Byte>)
    ensures Extends(LoadStrings(b, n), LoadStrings(b + more, n), more)
    decreases n
  {
    hide LoadString;
    if n > 0 {
      StringExtends(b, more);
      if LoadString(b).Ok? { StringsExtend(LoadString(b).rest, n - 1, more); }
    }
  }

  lemma HeadExtends(b: seq<Byte>, more: seq<Byte>)
    ensures Extends(LoadHead(b), LoadHead(b + more), more)
  {
    hide LoadString, LoadInt, Take;
    StringExtends(b, more);
    var source := LoadString(b);
    if source.Ok? {
      IntExtends(source.rest, more);
      var line := LoadInt(source.rest);
      if line.Ok? {
        IntExtends(line.rest, more);
        var last := LoadInt(line.rest);
        if last.Ok? { TakeExtends(last.rest, 4, more); }
      }
    }
  }

  lemma DebugExtends(b: seq<Byte>, more: seq<Byte>)
    ensures Extends(LoadDebug(b), LoadDebug(b + more), more)
  {
    hide LoadInt, LoadWords, LoadLocVars, LoadStrings;
    IntExtends(b, more);
    var n := LoadInt(b);
    if n.Ok? {
      WordsExtend(n.rest, n.v, more);
      var lines := LoadWords(n.rest, n.v);
      if lines.Ok? {
        IntExtends(lines.rest, more);
        var m := LoadInt(lines.rest);
        if m.Ok? {
          LocVarsExtend(m.rest, m.v, more);
          var vars := LoadLocVars(m.rest, m.v);
          if vars.Ok? {
            IntExtends(vars.rest, more);
            var l := LoadInt(vars.rest);
            if l.Ok? { StringsExtend(l.rest, l.v, more); }
          }
        }
      }
    }
  }

  lemma {:induction false} FunctionExtends(b: seq<Byte>, q: Str, calls: nat, check: Proto -> bool, more: seq<Byte>)
    ensures Extends(LoadFunction(b, q, calls, check), LoadFunction(b + more, q, calls, check), more)
    decreases MAXCCALLS - calls, 1, 0
  {
    hide LoadHead, LoadInt, LoadWords, LoadConstants, LoadFunctions, LoadDebug, Assemble;
    if calls + 1 <= MAXCCALLS {
      HeadExtends(b, more);
      var h := LoadHead(b);
      if h.Ok? {
        IntExtends(h.rest, more);
        var n := LoadInt(h.rest);
        if n.Ok? {
          WordsExtend(n.rest, n.v, more);
          var code := LoadWords(n.rest, n.v);
          if code.Ok? {
            IntExtends(code.rest, more);
            var m := LoadInt(code.rest);
            if m.Ok? {
              ConstantsExtend(m.rest, m.v, more);
              var k := LoadConstants(m.rest, m.v);
              if k.Ok? {
                IntExtends(k.rest, more);
                var l := LoadInt(k.rest);
                if l.Ok? {
                  var source := if h.v.source == Null then q else h.v.source;
                  FunctionsExtend(l.rest, l.v, source, calls + 1, check, more);
                  var p := LoadFunctions(l.rest, l.v, source, calls + 1, check);
                  if p.Ok? { DebugExtends(p.rest, more); }
                }
              }
            }
          }
        }
      }
    }
  }

  lemma {:induction false} FunctionsExtend(b: seq<Byte>, n: nat, q: Str, calls: nat, check: Proto -> bool, more: seq<Byte>)
    ensures Extends(LoadFunctions(b, n, q, calls, check), LoadFunctions(b + more, n, q, calls, check), more)
    decreases MAXCCALLS - calls, 2, n
  {
    hide LoadFunction;
    if n > 0 {
      FunctionExtends(b, q, calls, check, more);
      var f := LoadFunction(b, q, calls, check);
      if f.Ok? { FunctionsExtend(f.rest, n - 1, q, calls, check, more); }
    }
  }

  lemma UndumpExtends(b: seq<Byte>, calls: nat, check: Proto -> bool, more: seq<Byte>)
    ensures Extends(Undump(b, calls, check), Undump(b + more, calls, check), more)
  {
    hide LoadFunction;
    TakeExtends(b, |HEADER|, more);
    var h := Take(b, |HEADER|);
    if h.Ok? { FunctionExtends(h.rest, NO_SOURCE, calls, check, more); }
  }

  /** A chunk that has been cut off anywhere ends unexpectedly. */
  lemma CutChunkIsRejected(f: Proto, strip: bool, calls: nat, check: Proto -> bool, n: nat)
    requires Fits(f) && Checked(Norm(f, NO_SOURCE, Null, strip), check) && calls + Depth(f) <= MAXCCALLS
    requires n < |Dump(f, strip)|
    ensures Undump(Dump(f, strip)[..n], calls, check) == Err(UnexpectedEnd)
  {
    hide Dump, Undump, Norm, Fits, Checked, Depth;
    DumpIsLoaded(f, strip, calls, check, []);
    CutEndsUnexpectedly(Dump(f, strip), calls, check, n);
  }

  lemma CutEndsUnexpectedly(b: seq<Byte>, calls: nat, check: Proto -> bool, n: nat)
    requires n < |b| && Undump(b + [], calls, check).Ok? && Undump(b + [], calls, check).rest == []
    ensures Undump(b[..n], calls, check) == Err(UnexpectedEnd)
  {
    hide Undump;
    assert b[..n] + b[n..] == b == b + [];
    UndumpExtends(b[..n], calls, check, b[n..]);
  }
}
