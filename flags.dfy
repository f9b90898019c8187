/** The flag view of register F: Z, N, H and C are bits 7, 6, 5 and 4;
    bits 3..0 are always zero. The source looks flags up by name in a
    dictionary; here the four names are a datatype, so an unknown name
    cannot be written at all. */
module Flags {
  import opened Bytes
  import Bits

  datatype Flag = Z | N | H | C

  /** The bit of F that holds a flag. */
  function Mask(g: Flag): bv8
  {
    match g
    case Z => 0x80
    case N => 0x40
    case H => 0x20
    case C => 0x10
  }

  /** The flag's bit of F read arithmetically: bit 7, 6, 5 or 4 of the
      integer. */
  predicate BitOf(f: int, g: Flag)
  {
    match g
    case Z => (f / 0x80) % 2 == 1
    case N => (f / 0x40) % 2 == 1
    case H => (f / 0x20) % 2 == 1
    case C => (f / 0x10) % 2 == 1
  }

  /** The source's `get_flag`: `(F & mask) != 0`. Read on the integer F,
      the flag is set exactly when F's bit for it is 1. */
  function IsSet(f: Byte, g: Flag): (b: bool)
    ensures b == BitOf(f, g)
  {
    match g
    case Z => Bits.Bit7(f); Test(f as bv8, g)
    case N => Bits.Bit6(f); Test(f as bv8, g)
    case H => Bits.Bit5(f); Test(f as bv8, g)
    case C => Bits.Bit4(f); Test(f as bv8, g)
  }

  /** The flag's bit of F tested on bits. */
  predicate Test(x: bv8, g: Flag)
  {
    x & Mask(g) != 0
  }

  /** `IsSet` is `Test` on the bits of F. */
  lemma IsSetIsTest(f: Byte, g: Flag)
    ensures IsSet(f, g) == Test(f as bv8, g)
  {
  }

  /** The source's `set_flag`: F with the flag's bit set by OR, or cleared
      by AND with the inverted mask. The flag then reads back as `value`;
      the other three flags and the low nibble keep theirs. */
  function Update(f: Byte, g: Flag, value: bool): (r: Byte)
    ensures IsSet(r, g) == value
    ensures forall g' :: g' != g ==> IsSet(r, g') == IsSet(f, g')
    ensures r % 0x10 == f % 0x10
  {
    var bits := SetBits(f as bv8, g, value);
    Bits.Range(bits);
    Bits.RoundTrip(bits);
    SetBitsSetsFlag(f, g, value);
    SetBitsKeepsFlags(f, g, value);
    SetBitsKeepsNibble(f, g, value, bits as int);
    bits as int
  }

  /** `Update` is the OR or the AND-NOT of `set_flag`, read back as an
      integer. */
  lemma UpdateIsBits(f: Byte, g: Flag, value: bool)
    ensures value ==> Update(f, g, value) == ((f as bv8) | Mask(g)) as int
    ensures !value ==> Update(f, g, value) == ((f as bv8) & !Mask(g)) as int
  {
  }

  /** The low nibble of F is zero: the invariant the CPU keeps for F. */
  predicate LowNibbleClear(f: Byte)
  {
    f % 0x10 == 0
  }

  /** The OR or AND-NOT of `set_flag`, on bits. */
  function SetBits(x: bv8, g: Flag, value: bool): bv8
  {
    if value then x | Mask(g) else x & !Mask(g)
  }

  /** `SetBits` on the bits of a byte, read back as an integer: a byte
      whose flag `g` reads `value`. */
  lemma SetBitsSetsFlag(f: Byte, g: Flag, value: bool)
    ensures 0 <= SetBits(f as bv8, g, value) as int < 0x100
    ensures IsSet(SetBits(f as bv8, g, value) as int, g) == value
  {
    var bits := SetBits(f as bv8, g, value);
    Bits.Range(bits);
    var r: Byte := bits as int;
    assert r as bv8 == bits by {
      Bits.RoundTrip(bits);
    }
    IsSetIsTest(r, g);
    SetBitsOwnBit(f as bv8, g, value);
  }

  /** ... and whose other three flags read as in `f`. */
  lemma SetBitsKeepsFlags(f: Byte, g: Flag, value: bool)
    ensures 0 <= SetBits(f as bv8, g, value) as int < 0x100
    ensures forall g' :: g' != g ==> IsSet(SetBits(f as bv8, g, value) as int, g') == IsSet(f, g')
  {
    var bits := SetBits(f as bv8, g, value);
    Bits.Range(bits);
    var r: Byte := bits as int;
    assert r as bv8 == bits by {
      Bits.RoundTrip(bits);
    }
    forall g' | g' != g
      ensures IsSet(r, g') == IsSet(f, g')
    {
      SetBitsOtherBit(f as bv8, g, value, g');
    }
  }

  /** ... and whose low nibble is that of `f`. */
  lemma SetBitsKeepsNibble(f: Byte, g: Flag, value: bool, r: Byte)
    requires r as bv8 == SetBits(f as bv8, g, value)
    ensures r % 0x10 == f % 0x10
  {
    assert (r as bv8) & 0x0F == (f as bv8) & 0x0F by {
      SetBitsLowBits(f as bv8, g, value);
    }
    Bits.SameNibble(r, f);
  }

  /** `SetBits` sets or clears the flag's own bit. */
  lemma SetBitsOwnBit(x: bv8, g: Flag, value: bool)
    ensures Test(SetBits(x, g, value), g) == value
  {
    MaskIsFlagBit(g);
    if value {
      Bits.OrMask(x, Mask(g));
    } else {
      Bits.AndNotMask(x, Mask(g));
    }
  }

  /** `SetBits` changes no bit outside the flag's own. */
  lemma SetBitsOutside(x: bv8, g: Flag, value: bool)
    ensures SetBits(x, g, value) & !Mask(g) == x & !Mask(g)
  {
    if value {
      Bits.OrMask(x, Mask(g));
    } else {
      Bits.AndNotMask(x, Mask(g));
    }
  }

  /** `SetBits` keeps every other flag's bit. */
  lemma SetBitsOtherBit(x: bv8, g: Flag, value: bool, g': Flag)
    requires g != g'
    ensures Test(SetBits(x, g, value), g') == Test(x, g')
  {
    SetBitsOutside(x, g, value);
    DistinctMasks(g, g');
    Bits.SameOutsideMask(x, SetBits(x, g, value), Mask(g), Mask(g'));
  }

  /** `SetBits` keeps bits 3..0. */
  lemma SetBitsLowBits(x: bv8, g: Flag, value: bool)
    ensures SetBits(x, g, value) & 0x0F == x & 0x0F
  {
    SetBitsOutside(x, g, value);
    MaskIsFlagBit(g);
    Bits.SameOutsideMask(x, SetBits(x, g, value), Mask(g), 0x0F);
  }

  /** Every flag's mask is a nonzero bit above the low nibble. */
  lemma MaskIsFlagBit(g: Flag)
    ensures Mask(g) != 0 && Mask(g) & 0x0F == 0
  {
  }

  /** The four masks are distinct single bits. */
  lemma DistinctMasks(g: Flag, g': Flag)
    requires g != g'
    ensures Mask(g) & Mask(g') == 0
  {
  }

  /** Setting or clearing a flag keeps the low nibble of F clear. */
  lemma UpdateKeepsInvariant(f: Byte, g: Flag, value: bool)
    requires LowNibbleClear(f)
    ensures LowNibbleClear(Update(f, g, value))
  {
  }

  /** A byte is determined by its four flag bits and its low nibble. */
  lemma FlagsAndNibbleDetermine(f: Byte, f': Byte)
    requires f % 0x10 == f' % 0x10
    requires forall g :: IsSet(f, g) == IsSet(f', g)
    ensures f == f'
  {
    assert IsSet(f, Z) == IsSet(f', Z) && IsSet(f, N) == IsSet(f', N);
    assert IsSet(f, H) == IsSet(f', H) && IsSet(f, C) == IsSet(f', C);
    Bits.Decompose(f);
    Bits.Decompose(f');
  }

  /** Writing a flag with the value it already has leaves F as it was. */
  lemma UpdateOwnValue(f: Byte, g: Flag)
    ensures Update(f, g, IsSet(f, g)) == f
  {
    FlagsAndNibbleDetermine(Update(f, g, IsSet(f, g)), f);
  }

  /** A second write of the same flag overrides the first. */
  lemma UpdateOverwrites(f: Byte, g: Flag, v: bool, w: bool)
    ensures Update(Update(f, g, v), g, w) == Update(f, g, w)
  {
    var r1, r2 := Update(Update(f, g, v), g, w), Update(f, g, w);
    forall k
      ensures IsSet(r1, k) == IsSet(r2, k)
    {
      if k != g {
        assert IsSet(r1, k) == IsSet(f, k);
      }
    }
    FlagsAndNibbleDetermine(r1, r2);
  }

  /** Writes of two different flags can be made in either order. */
  lemma UpdatesCommute(f: Byte, g: Flag, v: bool, g': Flag, w: bool)
    requires g != g'
    ensures Update(Update(f, g, v), g', w) == Update(Update(f, g', w), g, v)
  {
    var u1, u2 := Update(f, g, v), Update(f, g', w);
    var r1, r2 := Update(u1, g', w), Update(u2, g, v);
    forall k
      ensures IsSet(r1, k) == IsSet(r2, k)
    {
      if k == g {
        assert IsSet(r1, k) == v;
      } else if k == g' {
        assert IsSet(r2, k) == w;
      } else {
        assert IsSet(r1, k) == IsSet(f, k);
      }
    }
    FlagsAndNibbleDetermine(r1, r2);
  }

  /** With the low nibble clear, F is determined by its four flags. */
  lemma FlagsDetermineF(f: Byte, f': Byte)
    requires LowNibbleClear(f) && LowNibbleClear(f')
    requires forall g :: IsSet(f, g) == IsSet(f', g)
    ensures f == f'
  {
    FlagsAndNibbleDetermine(f, f');
  }
}
