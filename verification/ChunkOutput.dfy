/**
  Writing a chunk (ldump.c): blocks go to a writer as long as it reports no error.
  */
module ChunkOutput {
  import opened Chunks

  /** What the writer has taken, and its status. */
  datatype Out = Out(bytes: seq<Byte>, status: int)

  /** What a writer reports for a block, given what it has taken so far: zero, or the status of a failure. */
  type Writer = (seq<Byte>, seq<Byte>) -> int

  /** Blocks are offered to the writer one after the other; after the first failure it is not called again. */
  function Offer(w: Writer, bytes: seq<Byte>, blocks: seq<seq<Byte>>): Out
    decreases |blocks|
  {
    if blocks == [] then Out(bytes, 0)
    else
      var status := w(bytes, blocks[0]);
      if status != 0 then Out(bytes, status) else Offer(w, bytes + blocks[0], blocks[1..])
  }

  function Joined(blocks: seq<seq<Byte>>): seq<Byte>
    decreases |blocks|
  {
    if blocks == [] then [] else blocks[0] + Joined(blocks[1..])
  }

  ghost predicate Offered(w: Writer, o: Out, b: seq<Byte>, o': Out, blocks: seq<seq<Byte>>) {
    Joined(blocks) == b && o' == Offer(w, o.bytes, blocks)
  }

  /** From `o` to `o'` the bytes `b` have been offered to the writer in some division into blocks; nothing happens
      once it has failed. */
  ghost predicate Wrote(w: Writer, o: Out, b: seq<Byte>, o': Out) {
    if o.status != 0 then o' == o else exists blocks: seq<seq<Byte>> :: Offered(w, o, b, o', blocks)
  }

  lemma {:induction false} JoinedAppend(a: seq<seq<Byte>>, b: seq<seq<Byte>>)
    ensures Joined(a + b) == Joined(a) + Joined(b)
    decreases |a|
  {
    if a == [] {
      assert a + b == b;
    } else {
      assert (a + b)[1..] == a[1..] + b;
      JoinedAppend(a[1..], b);
    }
  }

  lemma {:induction false} OfferAppend(w: Writer, bytes: seq<Byte>, a: seq<seq<Byte>>, b: seq<seq<Byte>>)
    ensures var o := Offer(w, bytes, a); Offer(w, bytes, a + b) == if o.status != 0 then o else Offer(w, o.bytes, b)
    decreases |a|
  {
    if a == [] {
      assert a + b == b;
    } else {
      assert (a + b)[1..] == a[1..] + b;
      if w(bytes, a[0]) == 0 {
        OfferAppend(w, bytes + a[0], a[1..], b);
      }
    }
  }

  /** The writer has taken a first part of the bytes, all of them exactly if it reported no failure; a failure is
      what it reported on a block that goes on from there. */
  lemma {:induction false} OfferTakes(w: Writer, bytes: seq<Byte>, blocks: seq<seq<Byte>>)
    ensures var o := Offer(w, bytes, blocks);
      && bytes <= o.bytes <= bytes + Joined(blocks)
      && (o.status == 0 ==> o.bytes == bytes + Joined(blocks))
      && (o.status != 0 ==> exists block: seq<Byte> :: w(o.bytes, block) == o.status && o.bytes + block <= bytes + Joined(blocks))
    decreases |blocks|
  {
    if blocks != [] {
      assert bytes + blocks[0] + Joined(blocks[1..]) == bytes + Joined(blocks);
      if w(bytes, blocks[0]) == 0 {
        OfferTakes(w, bytes + blocks[0], blocks[1..]);
      }
    }
  }

  /** What the contracts below mean for the caller of a dump. */
  lemma WroteMeans(w: Writer, o: Out, b: seq<Byte>, o': Out)
    requires Wrote(w, o, b, o') && o.status == 0
    ensures o.bytes <= o'.bytes <= o.bytes + b
    ensures o'.status == 0 ==> o'.bytes == o.bytes + b
    ensures o'.status != 0 ==> exists block: seq<Byte> :: w(o'.bytes, block) == o'.status && o'.bytes + block <= o.bytes + b
    ensures (forall taken, block :: w(taken, block) == 0) ==> o' == Out(o.bytes + b, 0)
  {
    var blocks: seq<seq<Byte>> :| Offered(w, o, b, o', blocks);
    OfferTakes(w, o.bytes, blocks);
  }

  lemma WroteNothing(w: Writer, o: Out)
    ensures Wrote(w, o, [], o)
  {
    if o.status == 0 {
      assert Offered(w, o, [], o, []);
    }
  }

  lemma WroteBoth(w: Writer, o: Out, a: seq<Byte>, o1: Out, b: seq<Byte>, o2: Out)
    requires Wrote(w, o, a, o1) && Wrote(w, o1, b, o2)
    ensures Wrote(w, o, a + b, o2)
  {
    if o.status == 0 {
      var s: seq<seq<Byte>> :| Offered(w, o, a, o1, s);
      if o1.status == 0 {
        var t: seq<seq<Byte>> :| Offered(w, o1, b, o2, t);
        JoinedAppend(s, t);
        OfferAppend(w, o.bytes, s, t);
        assert Offered(w, o, a + b, o2, s + t);
      } else {
        JoinedAppend(s, [b]);
        OfferAppend(w, o.bytes, s, [b]);
        assert Joined([b]) == b;
        assert Offered(w, o, a + b, o2, s + [b]);
      }
    }
  }

  lemma WroteSeven(w: Writer, o0: Out, a1: seq<Byte>, o1: Out, a2: seq<Byte>, o2: Out, a3: seq<Byte>, o3: Out, a4: seq<Byte>, o4: Out,
                   a5: seq<Byte>, o5: Out, a6: seq<Byte>, o6: Out, a7: seq<Byte>, o7: Out)
    requires Wrote(w, o0, a1, o1) && Wrote(w, o1, a2, o2) && Wrote(w, o2, a3, o3) && Wrote(w, o3, a4, o4)
    requires Wrote(w, o4, a5, o5) && Wrote(w, o5, a6, o6) && Wrote(w, o6, a7, o7)
    ensures Wrote(w, o0, a1 + (a2 + (a3 + (a4 + (a5 + (a6 + a7))))), o7)
  {
    hide Wrote;
    WroteBoth(w, o5, a6, o6, a7, o7);
    WroteBoth(w, o4, a5, o5, a6 + a7, o7);
    WroteBoth(w, o3, a4, o4, a5 + (a6 + a7), o7);
    WroteBoth(w, o2, a3, o3, a4 + (a5 + (a6 + a7)), o7);
    WroteBoth(w, o1, a2, o2, a3 + (a4 + (a5 + (a6 + a7))), o7);
    WroteBoth(w, o0, a1, o1, a2 + (a3 + (a4 + (a5 + (a6 + a7)))), o7);
  }

  lemma Assoc(a: seq<Byte>, b: seq<Byte>, c: seq<Byte>)
    ensures (a + b) + c == a + (b + c)
  {
  }

  /** The code of a function is written as one vector. */
  lemma FunctionBytes(f: Proto, p: Str, strip: bool)
    requires Fits(f)
    ensures DumpFunction(f, p, strip) ==
      (FitsDebug(f, strip);
       DumpHead(HeadOf(f, WrittenSource(f, p, strip))) + ((DumpInt(|f.code|) + DumpWords(f.code)) +
       (DumpInt(|f.k|) + (DumpConstants(f.k) + (DumpInt(|f.p|) + (DumpChildren(f, 0, strip) + DumpDebug(DebugOf(f, strip))))))))
  {
    FitsDebug(f, strip);
    hide DumpWords, DumpConstants, DumpChildren, DumpDebug, DumpHead, Fits, DumpInt;
    Assoc(DumpInt(|f.code|), DumpWords(f.code),
          DumpInt(|f.k|) + (DumpConstants(f.k) + (DumpInt(|f.p|) + (DumpChildren(f, 0, strip) + DumpDebug(DebugOf(f, strip))))));
  }

  /** The line numbers of a function are written as one vector. */
  lemma DebugBytes(d: Debug)
    requires DebugFits(d)
    ensures DumpDebug(d) == (DumpInt(|d.lineinfo|) + DumpWords(d.lineinfo)) + (DumpInt(|d.locvars|) + (DumpLocVars(d.locvars) +
      (DumpInt(|d.upvalues|) + (DumpStrings(d.upvalues) + ([] + [])))))
  {
    hide DumpWords, DumpLocVars, DumpStrings, DumpInt;
    Assoc(DumpInt(|d.lineinfo|), DumpWords(d.lineinfo), DumpInt(|d.locvars|) + (DumpLocVars(d.locvars) +
      (DumpInt(|d.upvalues|) + DumpStrings(d.upvalues))));
    assert DumpStrings(d.upvalues) + ([] + []) == DumpStrings(d.upvalues);
  }

  class DumpState {
    const writer: Writer
    const strip: bool
    var o: Out

    constructor (w: Writer, s: bool)
      ensures o == Out([], 0) && strip == s && writer == w
    {
      writer, strip, o := w, s, Out([], 0);
    }

    /** `DumpBlock` */
    method DumpBlock(b: seq<Byte>)
      modifies this
      ensures Wrote(writer, old(o), b, o)
    {
      if o.status == 0 {
        assert Joined([b]) == b;
        assert Offered(writer, o, b, Offer(writer, o.bytes, [b]), [b]);
        var status := writer(o.bytes, b);
        o := Out(if status == 0 then o.bytes + b else o.bytes, status);
      }
    }

    /** `DumpString` */
    method DumpString(s: Str)
      modifies this
      ensures Wrote(writer, old(o), Chunks.DumpString(s), o)
    {
      if s == Null {
        DumpBlock(DumpSize(0));
      } else {
        var size := |s.bytes| + 1;
        DumpBlock(DumpSize(size));
        ghost var o1 := o;
        DumpBlock(s.bytes + [0]);
        WroteBoth(writer, old(o), DumpSize(size), o1, s.bytes + [0], o);
      }
    }

    /** `DumpVector` on instructions or line numbers */
    method DumpVector(ws: seq<Word4>)
      requires IsNatInt(|ws|)
      modifies this
      ensures Wrote(writer, old(o), DumpInt(|ws|) + DumpWords(ws), o)
    {
      DumpBlock(DumpInt(|ws|));
      ghost var o1 := o;
      DumpBlock(DumpWords(ws));
      WroteBoth(writer, old(o), DumpInt(|ws|), o1, DumpWords(ws), o);
    }

    method DumpConstant(c: Constant)
      modifies this
      ensures Wrote(writer, old(o), Chunks.DumpConstant(c), o)
    {
      var t: Byte := match c case NilConst => TNIL case BoolConst(_) => TBOOLEAN case NumConst(_) => TNUMBER case StrConst(_) => TSTRING;
      DumpBlock([t]);
      ghost var o1 := o;
      match c {
        case NilConst =>
        case BoolConst(b) =>
          DumpBlock([if b then 1 else 0]);
          WroteBoth(writer, old(o), [t], o1, [if b then 1 else 0], o);
          assert [t] + [if b then 1 else 0] == Chunks.DumpConstant(c);
        case NumConst(n) =>
          DumpBlock(n);
          WroteBoth(writer, old(o), [t], o1, n, o);
        case StrConst(s) =>
          DumpString(s);
          WroteBoth(writer, old(o), [t], o1, Chunks.DumpString(s), o);
      }
    }

    /** The loop over the constants in `DumpConstants` */
    method DumpConstants(ks: seq<Constant>)
      modifies this
      ensures Wrote(writer, old(o), Chunks.DumpConstants(ks), o)
    {
      hide Chunks.DumpConstant, Wrote;
      var i := 0;
      WroteNothing(writer, o);
      ghost var done: seq<Byte> := [];
      while i < |ks|
        invariant 0 <= i <= |ks| && Wrote(writer, old(o), done, o) && done + Chunks.DumpConstants(ks[i..]) == Chunks.DumpConstants(ks)
      {
        ghost var o1 := o;
        DumpConstant(ks[i]);
        WroteBoth(writer, old(o), done, o1, Chunks.DumpConstant(ks[i]), o);
        assert ks[i..][1..] == ks[i + 1..];
        done := done + Chunks.DumpConstant(ks[i]);
        i := i + 1;
      }
      assert done == Chunks.DumpConstants(ks);
    }

    method DumpLocVar(v: LocVar)
      requires IsNatInt(v.startpc) && IsNatInt(v.endpc)
      modifies this
      ensures Wrote(writer, old(o), Chunks.DumpLocVar(v), o)
    {
      hide Chunks.DumpString, Wrote;
      DumpString(v.name);
      ghost var o1 := o;
      DumpBlock(DumpInt(v.startpc));
      ghost var o2 := o;
      DumpBlock(DumpInt(v.endpc));
      WroteBoth(writer, o1, DumpInt(v.startpc), o2, DumpInt(v.endpc), o);
      WroteBoth(writer, old(o), Chunks.DumpString(v.name), o1, DumpInt(v.startpc) + DumpInt(v.endpc), o);
    }

    /** The loop over the local variables in `DumpDebug` */
    method DumpLocVars(vs: seq<LocVar>)
      requires forall v | v in vs :: IsNatInt(v.startpc) && IsNatInt(v.endpc)
      modifies this
      ensures Wrote(writer, old(o), Chunks.DumpLocVars(vs), o)
    {
      hide Chunks.DumpLocVar, Wrote;
      var i := 0;
      WroteNothing(writer, o);
      ghost var done: seq<Byte> := [];
      while i < |vs|
        invariant 0 <= i <= |vs| && Wrote(writer, old(o), done, o) && done + Chunks.DumpLocVars(vs[i..]) == Chunks.DumpLocVars(vs)
      {
        ghost var o1 := o;
        DumpLocVar(vs[i]);
        WroteBoth(writer, old(o), done, o1, Chunks.DumpLocVar(vs[i]), o);
        assert vs[i..][1..] == vs[i + 1..];
        done := done + Chunks.DumpLocVar(vs[i]);
        i := i + 1;
      }
      assert done == Chunks.DumpLocVars(vs);
    }

    /** The loop over the names of the upvalues in `DumpDebug` */
    method DumpStrings(ss: seq<Str>)
      modifies this
      ensures Wrote(writer, old(o), Chunks.DumpStrings(ss), o)
    {
      hide Chunks.DumpString, Wrote;
      var i := 0;
      WroteNothing(writer, o);
      ghost var done: seq<Byte> := [];
      while i < |ss|
        invariant 0 <= i <= |ss| && Wrote(writer, old(o), done, o) && done + Chunks.DumpStrings(ss[i..]) == Chunks.DumpStrings(ss)
      {
        ghost var o1 := o;
        DumpString(ss[i]);
        WroteBoth(writer, old(o), done, o1, Chunks.DumpString(ss[i]), o);
        assert ss[i..][1..] == ss[i + 1..];
        done := done + Chunks.DumpString(ss[i]);
        i := i + 1;
      }
      assert done == Chunks.DumpStrings(ss);
    }

    /** `DumpDebug` */
    method DumpDebug(f: Proto)
      requires Fits(f)
      modifies this
      ensures Wrote(writer, old(o), (FitsDebug(f, strip); Chunks.DumpDebug(DebugOf(f, strip))), o)
    {
      FitsDebug(f, strip);
      var d := DebugOf(f, strip);
      hide DumpWords, Chunks.DumpLocVars, Chunks.DumpStrings, Chunks.DumpDebug, Wrote, Fits, DumpInt;
      DumpVector(d.lineinfo);
      ghost var o1 := o;
      DumpBlock(DumpInt(|d.locvars|));
      ghost var o2 := o;
      DumpLocVars(d.locvars);
      ghost var o3 := o;
      DumpBlock(DumpInt(|d.upvalues|));
      ghost var o4 := o;
      DumpStrings(d.upvalues);
      WroteNothing(writer, o);
      DebugBytes(d);
      WroteSeven(writer, old(o), DumpInt(|d.lineinfo|) + DumpWords(d.lineinfo), o1, DumpInt(|d.locvars|), o2, Chunks.DumpLocVars(d.locvars), o3,
                 DumpInt(|d.upvalues|), o4, Chunks.DumpStrings(d.upvalues), o, [], o, [], o);
    }

    /** The beginning of `DumpFunction` */
    method DumpHead(h: Head)
      requires IsNatInt(h.linedefined) && IsNatInt(h.lastlinedefined)
      modifies this
      ensures Wrote(writer, old(o), Chunks.DumpHead(h), o)
    {
      hide Chunks.DumpString, DumpInt, Wrote;
      DumpString(h.source);
      ghost var o1 := o;
      DumpBlock(DumpInt(h.linedefined));
      ghost var o2 := o;
      DumpBlock(DumpInt(h.lastlinedefined));
      ghost var o3 := o;
      var bytes := [h.nups, h.numparams, h.isVararg, h.maxstacksize];
      DumpBlock(bytes);
      WroteBoth(writer, o2, DumpInt(h.lastlinedefined), o3, bytes, o);
      WroteBoth(writer, o1, DumpInt(h.linedefined), o2, DumpInt(h.lastlinedefined) + bytes, o);
      WroteBoth(writer, old(o), Chunks.DumpString(h.source), o1, DumpInt(h.linedefined) + (DumpInt(h.lastlinedefined) + bytes), o);
    }

    /** `DumpFunction` */
    method DumpFunction(f: Proto, p: Str)
      requires Fits(f)
      modifies this
      ensures Wrote(writer, old(o), Chunks.DumpFunction(f, p, strip), o)
      decreases f, |f.p| + 1
    {
      FitsDebug(f, strip);
      var h := HeadOf(f, if f.source == p || strip then Null else f.source);
      assert IsNatInt(|f.code|) && IsNatInt(|f.k|) && IsNatInt(|f.p|) && IsNatInt(h.linedefined) && IsNatInt(h.lastlinedefined);
      hide DumpWords, Chunks.DumpConstants, DumpChildren, Chunks.DumpDebug, Chunks.DumpHead, Wrote, Fits, DumpInt, Chunks.DumpFunction;
      DumpHead(h);
      ghost var o1 := o;
      DumpVector(f.code);
      ghost var o2 := o;
      DumpBlock(DumpInt(|f.k|));
      ghost var o3 := o;
      DumpConstants(f.k);
      ghost var o4 := o;
      DumpBlock(DumpInt(|f.p|));
      ghost var o5 := o;
      DumpFunctions(f);
      ghost var o6 := o;
      DumpDebug(f);
      FunctionBytes(f, p, strip);
      WroteSeven(writer, old(o), Chunks.DumpHead(h), o1, DumpInt(|f.code|) + DumpWords(f.code), o2, DumpInt(|f.k|), o3,
                 Chunks.DumpConstants(f.k), o4, DumpInt(|f.p|), o5, DumpChildren(f, 0, strip), o6, Chunks.DumpDebug(DebugOf(f, strip)), o);
    }

    /** The loop over the nested functions in `DumpConstants` */
    method DumpFunctions(f: Proto)
      requires Fits(f)
      modifies this
      ensures Wrote(writer, old(o), DumpChildren(f, 0, strip), o)
      decreases f, |f.p|
    {
      hide Chunks.DumpFunction, Wrote;
      var i := 0;
      WroteNothing(writer, o);
      ghost var done: seq<Byte> := [];
      while i < |f.p|
        invariant 0 <= i <= |f.p| && Wrote(writer, old(o), done, o) && done + DumpChildren(f, i, strip) == DumpChildren(f, 0, strip)
      {
        ghost var o1 := o;
        DumpFunction(f.p[i], f.source);
        WroteBoth(writer, old(o), done, o1, Chunks.DumpFunction(f.p[i], f.source, strip), o);
        done := done + Chunks.DumpFunction(f.p[i], f.source, strip);
        i := i + 1;
      }
      assert done == DumpChildren(f, 0, strip);
    }

    /** `luaU_dump` */
    method Dump(f: Proto)
      requires Fits(f)
      modifies this
      ensures Wrote(writer, old(o), Chunks.Dump(f, strip), o)
    {
      hide Chunks.DumpFunction, Wrote;
      DumpBlock(HEADER);
      ghost var o1 := o;
      DumpFunction(f, Null);
      WroteBoth(writer, old(o), HEADER, o1, Chunks.DumpFunction(f, Null, strip), o);
    }
  }

  /** A writer that never fails gets exactly the bytes of the chunk; one that fails gets a first part of them, and its
      report is the status of the dump. */
  method DumpTo(w: Writer, f: Proto, strip: bool) returns (o: Out)
    requires Fits(f)
    ensures o.bytes <= Chunks.Dump(f, strip) && (o.status == 0 ==> o.bytes == Chunks.Dump(f, strip))
    ensures o.status != 0 ==> exists block: seq<Byte> :: w(o.bytes, block) == o.status && o.bytes + block <= Chunks.Dump(f, strip)
    ensures (forall taken, block :: w(taken, block) == 0) ==> o == Out(Chunks.Dump(f, strip), 0)
  {
    hide Chunks.Dump, Wrote;
    var d := new DumpState(w, strip);
    d.Dump(f);
    o := d.o;
    WroteMeans(w, Out([], 0), Chunks.Dump(f, strip), o);
    assert [] + Chunks.Dump(f, strip) == Chunks.Dump(f, strip);
  }
}
