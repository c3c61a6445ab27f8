/**
  Reading a chunk: the buffered stream of lzio.c, which gets its blocks from a reader of any kind, and the loader of
  lundump.c on top of it.
  */
module ChunkInput {
  import opened Chunks
  import opened ChunkChecks

  /** The bytes that a reader still has to give: an empty block ends the stream. */
  function FromReader(blocks: seq<seq<Byte>>): seq<Byte> {
    if blocks == [] || blocks[0] == [] then [] else blocks[0] + FromReader(blocks[1..])
  }

  const EOZ: int := -1

  /** A value, or the error that was thrown. */
  datatype Loaded<+T> = Got(v: T) | Threw(e: Error)

  /** `ZIO` */
  class Zio {
    var blocks: seq<seq<Byte>>
    var buff: seq<Byte>
    var p: nat
    var n: nat

    /** `luaZ_init` */
    constructor (reader: seq<seq<Byte>>)
      ensures Valid() && Rest() == FromReader(reader)
    {
      blocks, buff, p, n := reader, [], 0, 0;
    }

    ghost predicate Valid()
      reads this
    {
      p + n == |buff|
    }

    /** The bytes that have not been read. */
    ghost function Rest(): seq<Byte>
      requires Valid()
      reads this
    {
      buff[p..] + FromReader(blocks)
    }

    /** `luaZ_fill` */
    method Fill() returns (c: int)
      requires Valid() && n == 0
      modifies this
      ensures c == EOZ ==> old(Rest()) == []
      ensures c != EOZ ==> Valid() && p > 0 && n + 1 == |buff| && p == 1 && buff[p - 1] == c && [c] + Rest() == old(Rest())
    {
      if blocks == [] { return EOZ; }
      var block := blocks[0];
      blocks := blocks[1..];
      if block == [] { return EOZ; }
      buff := block;
      n := |block| - 1;
      p := 1;
      c := buff[0];
      assert [c] + buff[1..] == buff;
      assert old(Rest()) == buff + FromReader(blocks);
    }

    /** `luaZ_lookahead` */
    method Lookahead() returns (c: int)
      requires Valid()
      modifies this
      ensures c == EOZ ==> old(Rest()) == []
      ensures c != EOZ ==> Valid() && n > 0 && Rest() == old(Rest())
    {
      if n == 0 {
        c := Fill();
        if c == EOZ { return; }
        assert [c] + buff[p..] == buff[p - 1..];
        n := n + 1;
        p := p - 1;
      }
      c := buff[p];
    }

    /** `luaZ_read`: the bytes read, and how many are missing. */
    method Read(size: nat) returns (b: seq<Byte>, missing: nat)
      requires Valid()
      modifies this
      ensures missing == if size <= |old(Rest())| then 0 else size - |old(Rest())|
      ensures missing == 0 ==> Valid() && b == old(Rest())[..size] && Rest() == old(Rest())[size..]
    {
      hide FromReader, Rest;
      ghost var all := Rest();
      b, missing := [], size;
      while missing > 0
        invariant Valid() && |b| + missing == size && b + Rest() == all
      {
        var c := Lookahead();
        if c == EOZ { return; }
        var m := if missing <= n then missing else n;
        var copied := Copy(m);
        assert b + (copied + Rest()) == b + copied + Rest();
        b := b + copied;
        missing := missing - m;
      }
    }

    /** The `memcpy` of `luaZ_read` */
    method Copy(m: nat) returns (b: seq<Byte>)
      requires Valid() && m <= n
      modifies this
      ensures Valid() && |b| == m && b + Rest() == old(Rest())
    {
      hide FromReader;
      b := buff[p..p + m];
      assert buff[p..] == b + buff[p + m..];
      n := n - m;
      p := p + m;
    }
  }

  // ---------- loading ----------

  /** The words of a block. */
  function Words(b: seq<Byte>): seq<Word4>
    requires |b| % 4 == 0
  {
    if b == [] then [] else [b[..4]] + Words(b[4..])
  }

  lemma {:induction false} WordsAreLoaded(b: seq<Byte>, n: nat)
    ensures LoadWords(b, n) == if 4 * n <= |b| then Ok(Words(b[..4 * n]), b[4 * n..]) else Err(UnexpectedEnd)
    decreases n
  {
    if n > 0 && 4 <= |b| {
      WordsAreLoaded(b[4..], n - 1);
      if 4 * n <= |b| {
        assert b[..4 * n][..4] == b[..4] && b[..4 * n][4..] == b[4..][..4 * (n - 1)];
        assert b[4..][4 * (n - 1)..] == b[4 * n..];
      }
    }
  }

  /** The outcome of a loop that has collected `acc` and has `r` left to do. */
  ghost predicate Resumes<T(!new)>(all: Res<seq<T>>, acc: seq<T>, r: Res<seq<T>>) {
    match r
    case Ok(v, rest) => all == Ok(acc + v, rest)
    case Err(e) => all == Err(e)
  }

  lemma ResumesStep<T(!new)>(all: Res<seq<T>>, acc: seq<T>, x: T, r: Res<seq<T>>, r': Res<seq<T>>)
    requires Resumes(all, acc, r)
    requires match r' case Ok(v, rest) => r == Ok([x] + v, rest) case Err(e) => r == Err(e)
    ensures Resumes(all, acc + [x], r')
  {
    if r'.Ok? { assert acc + ([x] + r'.v) == acc + [x] + r'.v; }
  }

  lemma ResumesStart<T(!new)>(all: Res<seq<T>>)
    ensures Resumes(all, [], all)
  {
    if all.Ok? { assert [] + all.v == all.v; }
  }

  lemma ResumesEnd<T(!new)>(all: Res<seq<T>>, acc: seq<T>, rest: seq<Byte>)
    requires Resumes(all, acc, Ok([], rest))
    ensures all == Ok(acc, rest)
  {
    assert acc + [] == acc;
  }

  class LoadState {
    const Z: Zio
    const check: Proto -> bool
    /** `L->nCcalls` */
    var calls: nat

    constructor (z: Zio, c: Proto -> bool, n: nat)
      ensures Z == z && check == c && calls == n
    {
      Z, check, calls := z, c, n;
    }

    /** The outcome of a load is what the bytes say; if it is a value, the rest of the bytes is left. */
    ghost predicate Loads<T(!new)>(r: Loaded<T>, spec: Res<T>, c: nat)
      reads this, Z
    {
      match spec
      case Ok(v, rest) => r == Got(v) && Z.Valid() && Z.Rest() == rest && calls == c
      case Err(e) => r == Threw(e)
    }

    /** `LoadBlock` */
    method LoadBlock(size: nat) returns (r: Loaded<seq<Byte>>)
      requires Z.Valid()
      modifies Z
      ensures Loads(r, Take(old(Z.Rest()), size), old(calls))
    {
      var b, missing := Z.Read(size);
      r := if missing != 0 then Threw(UnexpectedEnd) else Got(b);
    }

    /** `LoadChar`, `LoadByte` */
    method LoadByte() returns (r: Loaded<Byte>)
      requires Z.Valid()
      modifies Z
      ensures Loads(r, Chunks.LoadByte(old(Z.Rest())), old(calls))
    {
      var b := LoadBlock(1);
      if b.Threw? { return Threw(b.e); }
      return Got(b.v[0]);
    }

    /** `LoadInt` */
    method LoadInt() returns (r: Loaded<nat>)
      requires Z.Valid()
      modifies Z
      ensures Loads(r, Chunks.LoadInt(old(Z.Rest())), old(calls))
    {
      var b := LoadBlock(4);
      if b.Threw? { return Threw(b.e); }
      var x := Signed(b.v);
      if x < 0 { return Threw(BadInteger); }
      return Got(x);
    }

    /** `LoadString` */
    method LoadString() returns (r: Loaded<Str>)
      requires Z.Valid()
      modifies Z
      ensures Loads(r, Chunks.LoadString(old(Z.Rest())), old(calls))
    {
      var b := LoadBlock(8);
      if b.Threw? { return Threw(b.e); }
      var size := Value(b.v);
      if size == 0 { return Got(Null); }
      var s := LoadBlock(size);
      if s.Threw? { return Threw(s.e); }
      return Got(S(s.v[..size - 1]));
    }

    /** A vector of instructions or line numbers, read as one block. */
    method LoadVector(n: nat) returns (r: Loaded<seq<Word4>>)
      requires Z.Valid()
      modifies Z
      ensures Loads(r, LoadWords(old(Z.Rest()), n), old(calls))
    {
      WordsAreLoaded(Z.Rest(), n);
      var b := LoadBlock(4 * n);
      if b.Threw? { return Threw(b.e); }
      return Got(Words(b.v));
    }

    method LoadConstant() returns (r: Loaded<Constant>)
      requires Z.Valid()
      modifies Z
      ensures Loads(r, Chunks.LoadConstant(old(Z.Rest())), old(calls))
    {
      hide Chunks.LoadByte, Chunks.LoadString;
      var t := LoadByte();
      if t.Threw? { return Threw(t.e); }
      if t.v == TNIL {
        return Got(NilConst);
      } else if t.v == TBOOLEAN {
        var b := LoadByte();
        if b.Threw? { return Threw(b.e); }
        return Got(BoolConst(b.v != 0));
      } else if t.v == TNUMBER {
        var b := LoadBlock(8);
        if b.Threw? { return Threw(b.e); }
        return Got(NumConst(b.v));
      } else if t.v == TSTRING {
        var s := LoadString();
        if s.Threw? { return Threw(s.e); }
        return Got(StrConst(s.v));
      } else {
        return Threw(BadConstant);
      }
    }

    /** The loop over the constants in `LoadConstants` */
    method LoadConstants(n: nat) returns (r: Loaded<seq<Constant>>)
      requires Z.Valid()
      modifies Z
      ensures Loads(r, Chunks.LoadConstants(old(Z.Rest()), n), old(calls))
    {
      hide Chunks.LoadConstant;
      ghost var all := Chunks.LoadConstants(Z.Rest(), n);
      var ks: seq<Constant>, i := [], 0;
      ResumesStart(all);
      while i < n
        invariant 0 <= i <= n && Z.Valid() && Resumes(all, ks, Chunks.LoadConstants(Z.Rest(), n - i))
      {
        ghost var before := Chunks.LoadConstants(Z.Rest(), n - i);
        var c := LoadConstant();
        if c.Threw? { return Threw(c.e); }
        ResumesStep(all, ks, c.v, before, Chunks.LoadConstants(Z.Rest(), n - i - 1));
        ks := ks + [c.v];
        i := i + 1;
      }
      ResumesEnd(all, ks, Z.Rest());
      return Got(ks);
    }

    /** The loop over the local variables in `LoadDebug` */
    method LoadLocVars(n: nat) returns (r: Loaded<seq<LocVar>>)
      requires Z.Valid()
      modifies Z
      ensures Loads(r, Chunks.LoadLocVars(old(Z.Rest()), n), old(calls))
    {
      hide Chunks.LoadLocVar;
      ghost var all := Chunks.LoadLocVars(Z.Rest(), n);
      var vs: seq<LocVar>, i := [], 0;
      ResumesStart(all);
      while i < n
        invariant 0 <= i <= n && Z.Valid() && Resumes(all, vs, Chunks.LoadLocVars(Z.Rest(), n - i))
      {
        ghost var before := Chunks.LoadLocVars(Z.Rest(), n - i);
        var v := LoadLocVar();
        if v.Threw? { return Threw(v.e); }
        ResumesStep(all, vs, v.v, before, Chunks.LoadLocVars(Z.Rest(), n - i - 1));
        vs := vs + [v.v];
        i := i + 1;
      }
      ResumesEnd(all, vs, Z.Rest());
      return Got(vs);
    }

    method LoadLocVar() returns (r: Loaded<LocVar>)
      requires Z.Valid()
      modifies Z
      ensures Loads(r, Chunks.LoadLocVar(old(Z.Rest())), old(calls))
    {
      hide Chunks.LoadString, Chunks.LoadInt;
      var name := LoadString();
      if name.Threw? { return Threw(name.e); }
      var startpc := LoadInt();
      if startpc.Threw? { return Threw(startpc.e); }
      var endpc := LoadInt();
      if endpc.Threw? { return Threw(endpc.e); }
      return Got(LocVar(name.v, startpc.v, endpc.v));
    }

    /** The loop over the names of the upvalues in `LoadDebug` */
    method LoadStrings(n: nat) returns (r: Loaded<seq<Str>>)
      requires Z.Valid()
      modifies Z
      ensures Loads(r, Chunks.LoadStrings(old(Z.Rest()), n), old(calls))
    {
      hide Chunks.LoadString;
      ghost var all := Chunks.LoadStrings(Z.Rest(), n);
      var ss: seq<Str>, i := [], 0;
      ResumesStart(all);
      while i < n
        invariant 0 <= i <= n && Z.Valid() && Resumes(all, ss, Chunks.LoadStrings(Z.Rest(), n - i))
      {
        ghost var before := Chunks.LoadStrings(Z.Rest(), n - i);
        var s := LoadString();
        if s.Threw? { return Threw(s.e); }
        ResumesStep(all, ss, s.v, before, Chunks.LoadStrings(Z.Rest(), n - i - 1));
        ss := ss + [s.v];
        i := i + 1;
      }
      ResumesEnd(all, ss, Z.Rest());
      return Got(ss);
    }

    /** `LoadDebug` */
    method LoadDebug() returns (r: Loaded<Debug>)
      requires Z.Valid()
      modifies Z
      ensures Loads(r, Chunks.LoadDebug(old(Z.Rest())), old(calls))
    {
      hide Chunks.LoadInt, LoadWords, Chunks.LoadLocVars, Chunks.LoadStrings;
      var n := LoadInt();
      if n.Threw? { return Threw(n.e); }
      var lines := LoadVector(n.v);
      if lines.Threw? { return Threw(lines.e); }
      n := LoadInt();
      if n.Threw? { return Threw(n.e); }
      var vars := LoadLocVars(n.v);
      if vars.Threw? { return Threw(vars.e); }
      n := LoadInt();
      if n.Threw? { return Threw(n.e); }
      var ups := LoadStrings(n.v);
      if ups.Threw? { return Threw(ups.e); }
      return Got(Debug(lines.v, vars.v, ups.v));
    }

    /** The beginning of `LoadFunction` */
    method LoadHead() returns (r: Loaded<Head>)
      requires Z.Valid()
      modifies Z
      ensures Loads(r, Chunks.LoadHead(old(Z.Rest())), old(calls))
    {
      hide Chunks.LoadString, Chunks.LoadInt;
      var source := LoadString();
      if source.Threw? { return Threw(source.e); }
      var line := LoadInt();
      if line.Threw? { return Threw(line.e); }
      var last := LoadInt();
      if last.Threw? { return Threw(last.e); }
      var bytes := LoadBlock(4);
      if bytes.Threw? { return Threw(bytes.e); }
      return Got(Head(source.v, line.v, last.v, bytes.v[0], bytes.v[1], bytes.v[2], bytes.v[3]));
    }

    /** `LoadFunction` */
    method LoadFunction(q: Str) returns (r: Loaded<Proto>)
      requires Z.Valid() && calls <= MAXCCALLS
      modifies Z, this`calls
      ensures Loads(r, Chunks.LoadFunction(old(Z.Rest()), q, old(calls), check), old(calls))
      decreases MAXCCALLS - calls, 1, 0
    {
      hide Chunks.LoadHead, Chunks.LoadInt, LoadWords, Chunks.LoadConstants, Chunks.LoadFunctions, Chunks.LoadDebug, Assemble,
           Zio.Valid, Zio.Rest;
      if calls + 1 > MAXCCALLS { return Threw(TooDeep); }
      var h := LoadHead();
      if h.Threw? { return Threw(h.e); }
      var source := if h.v.source == Null then q else h.v.source;
      var n := LoadInt();
      if n.Threw? { return Threw(n.e); }
      var code := LoadVector(n.v);
      if code.Threw? { return Threw(code.e); }
      n := LoadInt();
      if n.Threw? { return Threw(n.e); }
      var k := LoadConstants(n.v);
      if k.Threw? { return Threw(k.e); }
      n := LoadInt();
      if n.Threw? { return Threw(n.e); }
      calls := calls + 1;
      var p := LoadFunctions(n.v, source);
      if p.Threw? { return Threw(p.e); }
      var d := LoadDebug();
      if d.Threw? { return Threw(d.e); }
      var f := Assemble(h.v, source, code.v, k.v, p.v, d.v);
      if !check(f) { return Threw(BadCode); }
      calls := calls - 1;
      return Got(f);
    }

    /** The loop over the nested functions in `LoadConstants` */
    method LoadFunctions(n: nat, q: Str) returns (r: Loaded<seq<Proto>>)
      requires Z.Valid() && calls <= MAXCCALLS
      modifies Z, this`calls
      ensures Loads(r, Chunks.LoadFunctions(old(Z.Rest()), n, q, old(calls), check), old(calls))
      decreases MAXCCALLS - calls, 2, n
    {
      hide Chunks.LoadFunction;
      ghost var all, c := Chunks.LoadFunctions(Z.Rest(), n, q, calls, check), calls;
      var ps: seq<Proto>, i := [], 0;
      ResumesStart(all);
      while i < n
        invariant 0 <= i <= n && Z.Valid() && calls == c
        invariant Resumes(all, ps, Chunks.LoadFunctions(Z.Rest(), n - i, q, c, check))
      {
        ghost var before := Chunks.LoadFunctions(Z.Rest(), n - i, q, c, check);
        var f := LoadFunction(q);
        if f.Threw? { return Threw(f.e); }
        ResumesStep(all, ps, f.v, before, Chunks.LoadFunctions(Z.Rest(), n - i - 1, q, c, check));
        ps := ps + [f.v];
        i := i + 1;
      }
      ResumesEnd(all, ps, Z.Rest());
      return Got(ps);
    }

    /** `luaU_undump` */
    method Undump() returns (r: Loaded<Proto>)
      requires Z.Valid() && calls <= MAXCCALLS
      modifies Z, this`calls
      ensures Loads(r, Chunks.Undump(old(Z.Rest()), old(calls), check), old(calls))
      ensures r == Threw(BadHeader) <==>
              |old(Z.Rest())| >= 12 && old(Z.Rest())[..12] != [27, 76, 117, 97, 81, 0, 1, 4, 8, 4, 8, 0]
    {
      hide Chunks.LoadFunction;
      HeaderChecked(Z.Rest(), calls, check);
      var h := LoadBlock(|HEADER|);
      if h.Threw? { return Threw(h.e); }
      if h.v != HEADER { return Threw(BadHeader); }
      r := LoadFunction(NO_SOURCE);
    }
  }

  /** However a reader cuts a stream into blocks, the same chunk is loaded and the same bytes are left. */
  method UndumpFrom(reader: seq<seq<Byte>>, calls: nat, check: Proto -> bool) returns (r: Loaded<Proto>, ghost left: seq<Byte>)
    requires calls <= MAXCCALLS
    ensures match Undump(FromReader(reader), calls, check)
            case Ok(f, rest) => r == Got(f) && left == rest
            case Err(e) => r == Threw(e)
  {
    hide Undump, FromReader;
    var z := new Zio(reader);
    var s := new LoadState(z, check, calls);
    r := s.Undump();
    left := if r.Got? then z.Rest() else [];
  }
}
