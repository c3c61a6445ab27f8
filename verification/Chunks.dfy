/**
  Precompiled chunks (ldump.c, lundump.c): the bytes that a function tree is written as, what is read back from
  bytes, and what of a tree survives.  Integers have four bytes and sizes eight, lowest byte first; instructions
  and numbers are opaque.
  */
module Chunks {

  type Byte = x: int | 0 <= x < 256 witness 0
  type Word4 = s: seq<Byte> | |s| == 4 witness [0, 0, 0, 0]
  type Word8 = s: seq<Byte> | |s| == 8 witness [0, 0, 0, 0, 0, 0, 0, 0]

  /** A `TString*`. */
  datatype Str = Null | S(bytes: seq<Byte>)

  datatype Constant = NilConst | BoolConst(b: bool) | NumConst(n: Word8) | StrConst(s: Str)

  datatype LocVar = LocVar(name: Str, startpc: int, endpc: int)

  datatype Proto = Proto(
    source: Str, linedefined: int, lastlinedefined: int,
    nups: Byte, numparams: Byte, isVararg: Byte, maxstacksize: Byte,
    code: seq<Word4>, k: seq<Constant>, p: seq<Proto>,
    lineinfo: seq<Word4>, locvars: seq<LocVar>, upvalues: seq<Str>)

  datatype Error = UnexpectedEnd | BadInteger | BadConstant | TooDeep | BadCode | BadHeader

  /** What a loading function returns: a value and the bytes left, or the error it throws. */
  datatype Res<+T> = Ok(v: T, rest: seq<Byte>) | Err(e: Error) {
    predicate IsFailure() { Err? }
    function PropagateFailure<U>(): Res<U>
      requires Err?
    {
      Err(e)
    }
    function Extract(): (T, seq<Byte>)
      requires Ok?
    {
      (v, rest)
    }
  }

  /** `LUAI_MAXCCALLS` */
  const MAXCCALLS: nat := 200

  const TNIL: Byte := 0
  const TBOOLEAN: Byte := 1
  const TNUMBER: Byte := 3
  const TSTRING: Byte := 4

  // ---------- integers ----------

  const TWO31: int := 0x8000_0000
  const TWO32: int := 0x1_0000_0000
  const TWO64: int := 0x1_0000_0000_0000_0000

  predicate IsNatInt(x: int) { 0 <= x < TWO31 }

  /** The `n` lowest bytes, lowest first. */
  function Low(x: nat, n: nat): (r: seq<Byte>)
    ensures |r| == n
  {
    if n == 0 then [] else [x % 256] + Low(x / 256, n - 1)
  }

  function Value(s: seq<Byte>): nat { if s == [] then 0 else s[0] + 256 * Value(s[1..]) }

  function Pow256(n: nat): nat { if n == 0 then 1 else 256 * Pow256(n - 1) }

  lemma {:induction false} ValueLow(x: nat, n: nat)
    requires x < Pow256(n)
    ensures Value(Low(x, n)) == x
  {
    if n > 0 {
      assert x / 256 < Pow256(n - 1);
      ValueLow(x / 256, n - 1);
      assert Low(x, n)[1..] == Low(x / 256, n - 1);
    }
  }

  /** A C `int` of four bytes. */
  function Signed(s: seq<Byte>): int { if Value(s) >= TWO31 then Value(s) - TWO32 else Value(s) }

  function DumpInt(x: int): (r: Word4)
    requires IsNatInt(x)
  {
    Low(x, 4)
  }

  function DumpSize(x: nat): (r: Word8) { Low(x, 8) }

  lemma SignedDump(x: int)
    requires IsNatInt(x)
    ensures Signed(DumpInt(x)) == x
  {
    assert Pow256(4) == TWO32;
    ValueLow(x, 4);
  }

  lemma ValueDump(x: nat)
    requires x < TWO64
    ensures Value(DumpSize(x)) == x
  {
    assert Pow256(4) == TWO32;
    assert Pow256(8) == TWO64;
    ValueLow(x, 8);
  }

  // ---------- loading ----------

  /** `LoadBlock` */
  function Take(b: seq<Byte>, n: nat): Res<seq<Byte>> {
    if n <= |b| then Ok(b[..n], b[n..]) else Err(UnexpectedEnd)
  }

  function LoadByte(b: seq<Byte>): Res<Byte> {
    var r :- Take(b, 1);
    Ok(r.0[0], r.1)
  }

  function LoadInt(b: seq<Byte>): Res<nat> {
    var r :- Take(b, 4);
    if Signed(r.0) < 0 then Err(BadInteger) else Ok(Signed(r.0), r.1)
  }

  /** `LoadString`: the size counts the final NUL, and size zero stands for no string. */
  function LoadString(b: seq<Byte>): Res<Str> {
    var r :- Take(b, 8);
    var size := Value(r.0);
    if size == 0 then Ok(Null, r.1)
    else
      var t :- Take(r.1, size);
      Ok(S(t.0[..size - 1]), t.1)
  }

  /** A vector of `n` words of four bytes. */
  function LoadWords(b: seq<Byte>, n: nat): Res<seq<Word4>> {
    if n == 0 then Ok([], b)
    else
      var w :- Take(b, 4);
      var r :- LoadWords(w.1, n - 1);
      Ok([w.0] + r.0, r.1)
  }

  function LoadConstant(b: seq<Byte>): Res<Constant> {
    var t :- LoadByte(b);
    if t.0 == TNIL then Ok(NilConst, t.1)
    else if t.0 == TBOOLEAN then
      var v :- LoadByte(t.1);
      Ok(BoolConst(v.0 != 0), v.1)
    else if t.0 == TNUMBER then
      var v :- Take(t.1, 8);
      Ok(NumConst(v.0), v.1)
    else if t.0 == TSTRING then
      var v :- LoadString(t.1);
      Ok(StrConst(v.0), v.1)
    else Err(BadConstant)
  }

  function LoadConstants(b: seq<Byte>, n: nat): Res<seq<Constant>> {
    if n == 0 then Ok([], b)
    else
      var c :- LoadConstant(b);
      var r :- LoadConstants(c.1, n - 1);
      Ok([c.0] + r.0, r.1)
  }

  function LoadLocVar(b: seq<Byte>): Res<LocVar> {
    var name :- LoadString(b);
    var startpc :- LoadInt(name.1);
    var endpc :- LoadInt(startpc.1);
    Ok(LocVar(name.0, startpc.0, endpc.0), endpc.1)
  }

  function LoadLocVars(b: seq<Byte>, n: nat): Res<seq<LocVar>> {
    if n == 0 then Ok([], b)
    else
      var v :- LoadLocVar(b);
      var r :- LoadLocVars(v.1, n - 1);
      Ok([v.0] + r.0, r.1)
  }

  function LoadStrings(b: seq<Byte>, n: nat): Res<seq<Str>> {
    if n == 0 then Ok([], b)
    else
      var s :- LoadString(b);
      var r :- LoadStrings(s.1, n - 1);
      Ok([s.0] + r.0, r.1)
  }

  /** The first part of `LoadFunction`, up to the four bytes. */
  datatype Head = Head(source: Str, linedefined: int, lastlinedefined: int,
                       nups: Byte, numparams: Byte, isVararg: Byte, maxstacksize: Byte)

  function LoadHead(b: seq<Byte>): Res<Head> {
    var source :- LoadString(b);
    var line :- LoadInt(source.1);
    var last :- LoadInt(line.1);
    var bytes :- Take(last.1, 4);
    Ok(Head(source.0, line.0, last.0, bytes.0[0], bytes.0[1], bytes.0[2], bytes.0[3]), bytes.1)
  }

  /** `LoadDebug` */
  datatype Debug = Debug(lineinfo: seq<Word4>, locvars: seq<LocVar>, upvalues: seq<Str>)

  function LoadDebug(b: seq<Byte>): Res<Debug> {
    var n :- LoadInt(b);
    var lines :- LoadWords(n.1, n.0);
    var m :- LoadInt(lines.1);
    var vars :- LoadLocVars(m.1, m.0);
    var l :- LoadInt(vars.1);
    var ups :- LoadStrings(l.1, l.0);
    Ok(Debug(lines.0, vars.0, ups.0), ups.1)
  }

  function Assemble(h: Head, source: Str, code: seq<Word4>, k: seq<Constant>, p: seq<Proto>, d: Debug): Proto {
    Proto(source, h.linedefined, h.lastlinedefined, h.nups, h.numparams, h.isVararg, h.maxstacksize,
          code, k, p, d.lineinfo, d.locvars, d.upvalues)
  }

  /** `LoadFunction`: `q` is the source of the enclosing function, `calls` the nesting of C calls, and `check` stands
      for `luaG_checkcode`. */
  function LoadFunction(b: seq<Byte>, q: Str, calls: nat, check: Proto -> bool): Res<Proto>
    decreases MAXCCALLS - calls, 1, 0
  {
    if calls + 1 > MAXCCALLS then Err(TooDeep)
    else
      var h :- LoadHead(b);
      var source := if h.0.source == Null then q else h.0.source;
      var n :- LoadInt(h.1);
      var code :- LoadWords(n.1, n.0);
      var m :- LoadInt(code.1);
      var k :- LoadConstants(m.1, m.0);
      var l :- LoadInt(k.1);
      var p :- LoadFunctions(l.1, l.0, source, calls + 1, check);
      var d :- LoadDebug(p.1);
      var f := Assemble(h.0, source, code.0, k.0, p.0, d.0);
      if check(f) then Ok(f, d.1) else Err(BadCode)
  }

  function LoadFunctions(b: seq<Byte>, n: nat, q: Str, calls: nat, check: Proto -> bool): Res<seq<Proto>>
    decreases MAXCCALLS - calls, 2, n
  {
    if n == 0 then Ok([], b)
    else
      var f :- LoadFunction(b, q, calls, check);
      var r :- LoadFunctions(f.1, n - 1, q, calls, check);
      Ok([f.0] + r.0, r.1)
  }

  /** `luaU_header` on a machine with 4-byte integers, 8-byte sizes and 8-byte floating-point numbers. */
  const HEADER: seq<Byte> := [27, 76, 117, 97, 0x51, 0, 1, 4, 8, 4, 8, 0]

  /** The source of a function whose chunk does not say: "=?" */
  const NO_SOURCE: Str := S([61, 63])

  /** `luaU_undump` */
  function Undump(b: seq<Byte>, calls: nat, check: Proto -> bool): Res<Proto> {
    var h :- Take(b, |HEADER|);
    if h.0 != HEADER then Err(BadHeader) else LoadFunction(h.1, NO_SOURCE, calls, check)
  }

  // ---------- dumping ----------

  function DumpString(s: Str): seq<Byte> {
    if s == Null then DumpSize(0) else DumpSize(|s.bytes| + 1) + (s.bytes + [0])
  }

  function DumpWords(ws: seq<Word4>): seq<Byte> { if ws == [] then [] else ws[0] + DumpWords(ws[1..]) }

  function DumpConstant(c: Constant): seq<Byte> {
    match c
    case NilConst => [TNIL]
    case BoolConst(b) => [TBOOLEAN, if b then 1 else 0]
    case NumConst(n) => [TNUMBER] + n
    case StrConst(s) => [TSTRING] + DumpString(s)
  }

  function DumpConstants(ks: seq<Constant>): seq<Byte> {
    if ks == [] then [] else DumpConstant(ks[0]) + DumpConstants(ks[1..])
  }

  function DumpLocVar(v: LocVar): seq<Byte>
    requires IsNatInt(v.startpc) && IsNatInt(v.endpc)
  {
    DumpString(v.name) + (DumpInt(v.startpc) + DumpInt(v.endpc))
  }

  function DumpLocVars(vs: seq<LocVar>): seq<Byte>
    requires forall v | v in vs :: IsNatInt(v.startpc) && IsNatInt(v.endpc)
  {
    if vs == [] then [] else DumpLocVar(vs[0]) + DumpLocVars(vs[1..])
  }

  function DumpStrings(ss: seq<Str>): seq<Byte> { if ss == [] then [] else DumpString(ss[0]) + DumpStrings(ss[1..]) }

  function HeadOf(f: Proto, source: Str): Head {
    Head(source, f.linedefined, f.lastlinedefined, f.nups, f.numparams, f.isVararg, f.maxstacksize)
  }

  function DumpHead(h: Head): seq<Byte>
    requires IsNatInt(h.linedefined) && IsNatInt(h.lastlinedefined)
  {
    DumpString(h.source) + (DumpInt(h.linedefined) + (DumpInt(h.lastlinedefined) +
      [h.nups, h.numparams, h.isVararg, h.maxstacksize]))
  }

  function DebugOf(f: Proto, strip: bool): Debug {
    if strip then Debug([], [], []) else Debug(f.lineinfo, f.locvars, f.upvalues)
  }

  predicate DebugFits(d: Debug) {
    && IsNatInt(|d.lineinfo|) && IsNatInt(|d.locvars|) && IsNatInt(|d.upvalues|)
    && (forall v | v in d.locvars :: IsNatInt(v.startpc) && IsNatInt(v.endpc) && StrFits(v.name))
    && (forall s | s in d.upvalues :: StrFits(s))
  }

  function DumpDebug(d: Debug): seq<Byte>
    requires DebugFits(d)
  {
    DumpInt(|d.lineinfo|) + (DumpWords(d.lineinfo) + (DumpInt(|d.locvars|) + (DumpLocVars(d.locvars) +
      (DumpInt(|d.upvalues|) + DumpStrings(d.upvalues)))))
  }

  predicate StrFits(s: Str) { s == Null || |s.bytes| + 1 < TWO64 }

  predicate ConstFits(c: Constant) { c.StrConst? ==> StrFits(c.s) }

  /** Lines are not negative, and everything is small enough for its counter. */
  predicate Fits(f: Proto) {
    && StrFits(f.source) && IsNatInt(f.linedefined) && IsNatInt(f.lastlinedefined)
    && IsNatInt(|f.code|) && IsNatInt(|f.k|) && IsNatInt(|f.p|)
    && (forall c | c in f.k :: ConstFits(c)) && DebugFits(DebugOf(f, false))
    && (forall i | 0 <= i < |f.p| :: Fits(f.p[i]))
  }

  /** The source that is written: none if it is the one of the enclosing function, or stripped. */
  function WrittenSource(f: Proto, p: Str, strip: bool): Str { if f.source == p || strip then Null else f.source }

  lemma FitsDebug(f: Proto, strip: bool)
    requires Fits(f)
    ensures DebugFits(DebugOf(f, strip))
  {
  }

  /** `DumpFunction`: `p` is the source of the enclosing function. */
  function DumpFunction(f: Proto, p: Str, strip: bool): seq<Byte>
    requires Fits(f)
    decreases f, |f.p| + 1
  {
    FitsDebug(f, strip);
    DumpHead(HeadOf(f, WrittenSource(f, p, strip))) +
      (DumpInt(|f.code|) + (DumpWords(f.code) +
      (DumpInt(|f.k|) + (DumpConstants(f.k) +
      (DumpInt(|f.p|) + (DumpChildren(f, 0, strip) +
      DumpDebug(DebugOf(f, strip))))))))
  }

  /** The nested functions of `f` from number `i` on. */
  function DumpChildren(f: Proto, i: nat, strip: bool): seq<Byte>
    requires Fits(f) && i <= |f.p|
    decreases f, |f.p| - i
  {
    if i == |f.p| then [] else DumpFunction(f.p[i], f.source, strip) + DumpChildren(f, i + 1, strip)
  }

  /** `luaU_dump` */
  function Dump(f: Proto, strip: bool): seq<Byte>
    requires Fits(f)
  {
    HEADER + DumpFunction(f, Null, strip)
  }
}
