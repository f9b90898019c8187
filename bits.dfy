/** Facts about eight-bit values seen both as integers and as `bv8`.
    The flag operations are bitwise, as in the source; these lemmas carry
    the results back to the integers the registers hold. Each one crosses
    between the two views once, on plain integers, so that the solver
    meets no other definitions while proving it. */
module Bits {

  /** Eight bits read as an integer give a value in 0..255. */
  lemma Range(x: bv8)
    ensures 0 <= x as int < 0x100
  {
  }

  /** Eight bits read as an integer and back are the same bits. */
  lemma RoundTrip(x: bv8)
    ensures (x as int) as bv8 == x
  {
  }

  /** Bit 7 of a byte. */
  lemma Bit7(x: int)
    requires 0 <= x < 0x100
    ensures ((x as bv8) & 0x80 != 0) <==> (x / 0x80) % 2 == 1
  {
  }

  /** Bit 6 of a byte. */
  lemma Bit6(x: int)
    requires 0 <= x < 0x100
    ensures ((x as bv8) & 0x40 != 0) <==> (x / 0x40) % 2 == 1
  {
  }

  /** Bit 5 of a byte. */
  lemma Bit5(x: int)
    requires 0 <= x < 0x100
    ensures ((x as bv8) & 0x20 != 0) <==> (x / 0x20) % 2 == 1
  {
  }

  /** Bit 4 of a byte. */
  lemma Bit4(x: int)
    requires 0 <= x < 0x100
    ensures ((x as bv8) & 0x10 != 0) <==> (x / 0x10) % 2 == 1
  {
  }

  /** Bits 3..0 of a byte. */
  lemma LowBits(x: int)
    requires 0 <= x < 0x100
    ensures ((x as bv8) & 0x08 != 0) <==> (x / 0x08) % 2 == 1
    ensures ((x as bv8) & 0x04 != 0) <==> (x / 0x04) % 2 == 1
    ensures ((x as bv8) & 0x02 != 0) <==> (x / 0x02) % 2 == 1
    ensures ((x as bv8) & 0x01 != 0) <==> x % 2 == 1
  {
  }

  /** A byte is the sum of its bits 7..4 and its low nibble. */
  lemma Decompose(x: int)
    requires 0 <= x < 0x100
    ensures x == (x / 0x80) % 2 * 0x80 + (x / 0x40) % 2 * 0x40
              + (x / 0x20) % 2 * 0x20 + (x / 0x10) % 2 * 0x10 + x % 0x10
  {
  }

  /** The low nibble of a byte is the sum of its bits 3..0. */
  lemma DecomposeNibble(x: int)
    requires 0 <= x < 0x100
    ensures x % 0x10 == (x / 0x08) % 2 * 0x08 + (x / 0x04) % 2 * 0x04
                      + (x / 0x02) % 2 * 0x02 + x % 2
  {
    assert x % 0x10 == (x / 0x08) % 2 * 0x08 + x % 0x08;
    assert x % 0x08 == (x / 0x04) % 2 * 0x04 + x % 0x04;
    assert x % 0x04 == (x / 0x02) % 2 * 0x02 + x % 2;
  }

  /** Bytes whose bits 3..0 agree have the same low nibble. */
  lemma SameNibble(x: int, y: int)
    requires 0 <= x < 0x100 && 0 <= y < 0x100
    requires (x as bv8) & 0x0F == (y as bv8) & 0x0F
    ensures x % 0x10 == y % 0x10
  {
    assert (x as bv8) & 0x08 == (y as bv8) & 0x08 && (x as bv8) & 0x04 == (y as bv8) & 0x04;
    assert (x as bv8) & 0x02 == (y as bv8) & 0x02 && (x as bv8) & 0x01 == (y as bv8) & 0x01;
    LowBits(x);
    LowBits(y);
    DecomposeNibble(x);
    DecomposeNibble(y);
  }

  /** OR-ing in a mask sets every bit of it and changes no bit outside it. */
  lemma OrMask(x: bv8, m: bv8)
    ensures (x | m) & m == m
    ensures (x | m) & !m == x & !m
  {
  }

  /** AND-ing out a mask clears every bit of it and changes no bit outside
      it. */
  lemma AndNotMask(x: bv8, m: bv8)
    ensures (x & !m) & m == 0
    ensures (x & !m) & !m == x & !m
  {
  }

  /** Bit patterns that agree outside one mask agree on any mask disjoint
      from it. */
  lemma SameOutsideMask(x: bv8, r: bv8, m: bv8, m': bv8)
    requires r & !m == x & !m && m & m' == 0
    ensures r & m' == x & m'
  {
  }
}
