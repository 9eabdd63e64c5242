/** Splitting a byte into the two 4-bit halves that travel over the LCD's
    four-wire data bus (DB7..DB4), high half first, and putting them back
    together the way the controller does. */
module Nibble {

  /** The upper four bits of `b`, moved down to bits 0..3: `(b & 0xF0) >> 4`. */
  function High(b: bv8): (n: bv8)
    ensures n <= 0x0F
    ensures n == b >> 4
  {
    (b & 0xF0) >> 4
  }

  /** The lower four bits of `b`: `b & 0x0F`. */
  function Low(b: bv8): (n: bv8)
    ensures n <= 0x0F
    ensures n as int == b as int % 16
  {
    b & 0x0F
  }

  /** The byte a 4-bit-mode receiver rebuilds from a high and a low nibble
      latched one after the other (only bits 0..3 of each are on the bus). */
  function Join(hi: bv8, lo: bv8): (b: bv8)
    ensures hi <= 0x0F && lo <= 0x0F ==> b as int == hi as int * 16 + lo as int
  {
    ((hi & 0x0F) << 4) | (lo & 0x0F)
  }

  /** Sending the high half and then the low half loses nothing. */
  lemma SplitJoin(b: bv8)
    ensures Join(High(b), Low(b)) == b
    ensures High(b) as int * 16 + Low(b) as int == b as int
  {
  }

  /** Any two nibbles survive being joined and split again. */
  lemma JoinSplit(hi: bv8, lo: bv8)
    requires hi <= 0x0F && lo <= 0x0F
    ensures High(Join(hi, lo)) == hi && Low(Join(hi, lo)) == lo
  {
  }
}
