/**
  The `marked` byte of lgc.h: the colour operations on bits agree with the operations on `Mark`.
  */
module GcBits {
  import opened GcState

  // bit layout (lgc.h:41-62)
  const WHITE0: bv8 := 0x01
  const WHITE1: bv8 := 0x02
  const BLACK: bv8 := 0x04
  const FIXED: bv8 := 0x20
  const WHITEBITS: bv8 := 0x03
  const MASKMARKS: bv8 := 0xF8

  /** The mark a byte stands for; bits 3, 4, 6 and 7 do not take part in marking. */
  function Decode(b: bv8): Mark {
    Mark(b & WHITE0 != 0, b & WHITE1 != 0, b & BLACK != 0, b & FIXED != 0)
  }

  /** `currentwhite` always contains FIXEDBIT (lstate.c:153), so `otherwhite` does as well. */
  function CurrentWhiteByte(currentwhite: bool): bv8 {
    if currentwhite then WHITE1 | FIXED else WHITE0 | FIXED
  }

  /** The macros of lgc.h:65-77 and lgc.c:32-40 read and write exactly the fields of `Mark`. */
  lemma ColourMacros(b: bv8, currentwhite: bool)
    ensures IsWhite(Decode(b)) <==> b & WHITEBITS != 0
    ensures IsBlack(Decode(b)) <==> b & BLACK != 0
    ensures var other := CurrentWhiteByte(currentwhite) ^ WHITEBITS;
            && (IsDead(currentwhite, Decode(b)) <==> b & other & WHITEBITS != 0)
            && (Survives(currentwhite, Decode(b)) <==> (b ^ WHITEBITS) & other != 0)
    ensures CurrentWhiteByte(!currentwhite) == CurrentWhiteByte(currentwhite) ^ WHITEBITS
    ensures Decode((b & MASKMARKS) | (CurrentWhiteByte(currentwhite) & WHITEBITS)) == MakeWhite(currentwhite, Decode(b))
    ensures Decode(b & !WHITEBITS) == White2Gray(Decode(b))
    ensures Decode(b | BLACK) == Gray2Black(Decode(b))
    ensures Decode(b & !BLACK) == Black2Gray(Decode(b))
    ensures Decode(b ^ WHITEBITS) == ChangeWhite(Decode(b))
  {}
}
