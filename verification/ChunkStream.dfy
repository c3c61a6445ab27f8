/**
  The writer and the reader together: what `luaU_dump` wrote, `luaU_undump` loads back.
  */
module ChunkStream {
  import opened Chunks
  import opened ChunkRoundTrip
  import opened ChunkInput
  import opened ChunkOutput

  /** A dumped tree is loaded back from any reader that hands out its bytes, and what follows them is left. */
  method LoadDumped(reader: seq<seq<Byte>>, ghost f: Proto, ghost strip: bool, calls: nat, check: Proto -> bool, ghost rest: seq<Byte>)
    returns (r: Loaded<Proto>, ghost left: seq<Byte>)
    requires calls <= MAXCCALLS && Fits(f) && Checked(Norm(f, NO_SOURCE, Null, strip), check)
    requires FromReader(reader) == Dump(f, strip) + rest
    ensures if calls + Depth(f) <= MAXCCALLS then r == Got(Norm(f, NO_SOURCE, Null, strip)) && left == rest else r == Threw(TooDeep)
  {
    hide Undump, FromReader, Dump, Norm, Fits, Checked, Depth;
    DumpIsLoaded(f, strip, calls, check, rest);
    r, left := UndumpFrom(reader, calls, check);
  }

  /** Dumping to a writer that never fails and loading from a reader that cuts the bytes anywhere. */
  method DumpAndLoad(w: Writer, f: Proto, strip: bool, reader: seq<seq<Byte>>, calls: nat, check: Proto -> bool)
    returns (o: Out, r: Loaded<Proto>)
    requires calls <= MAXCCALLS && Fits(f) && Checked(Norm(f, NO_SOURCE, Null, strip), check)
    requires FromReader(reader) == Dump(f, strip)
    requires forall taken, block :: w(taken, block) == 0
    ensures o.status == 0 && o.bytes == FromReader(reader)
    ensures if calls + Depth(f) <= MAXCCALLS then r == Got(Norm(f, NO_SOURCE, Null, strip)) else r == Threw(TooDeep)
  {
    hide FromReader, Dump, Norm, Fits, Checked, Depth;
    o := DumpTo(w, f, strip);
    assert Dump(f, strip) + [] == Dump(f, strip);
    ghost var left;
    r, left := LoadDumped(reader, f, strip, calls, check, []);
  }
}
