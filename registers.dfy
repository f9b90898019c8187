/** The CPU's register file as a value: the eight 8-bit registers, SP, PC,
    the halted and interrupt-master-enable flags and the cycle count of
    the last step, with the 16-bit pair views BC, DE, HL and AF. */
module Registers {
  import opened Bytes
  import Flags

  /** The seven 8-bit registers an instruction can name. */
  datatype Reg = A | B | C | D | E | H | L

  /** The three pairs that read and write both bytes unmasked. */
  datatype Pair = BC | DE | HL

  datatype Regs = Regs(
    a: Byte, b: Byte, c: Byte, d: Byte, e: Byte, h: Byte, l: Byte, f: Byte,
    sp: Word, pc: Word, halted: bool, ime: bool, cycles: nat)
  {
    /** F keeps its low nibble clear. */
    predicate Valid()
    {
      Flags.LowNibbleClear(f)
    }

    /** The value of a named 8-bit register. */
    function Get(r: Reg): Byte
    {
      match r
      case A => a
      case B => b
      case C => c
      case D => d
      case E => e
      case H => h
      case L => l
    }

    /** The register file with one named register replaced: it reads back
        `v`, every other register keeps its value, and F, SP, PC, the
        halted and interrupt-enable flags and the cycle count are
        untouched. */
    function With(r: Reg, v: Byte): (t: Regs)
      ensures t.Get(r) == v
      ensures forall r' :: r' != r ==> t.Get(r') == Get(r')
      ensures t.f == f && t.sp == sp && t.pc == pc
      ensures t.halted == halted && t.ime == ime && t.cycles == cycles
    {
      match r
      case A => this.(a := v)
      case B => this.(b := v)
      case C => this.(c := v)
      case D => this.(d := v)
      case E => this.(e := v)
      case H => this.(h := v)
      case L => this.(l := v)
    }

    /** `get_bc`, `get_de`, `get_hl`: high register shifted left by 8,
        OR the low register. The pair's high byte is the high register
        and its low byte the low one. */
    function Get16(p: Pair): (w: Word)
      ensures Hi(w) == Get(High(p)) && Lo(w) == Get(Low(p))
    {
      JoinSplit(Get(High(p)), Get(Low(p)));
      match p
      case BC => Join(b, c)
      case DE => Join(d, e)
      case HL => Join(h, l)
    }

    /** `set_bc`, `set_de`, `set_hl`: the high register gets
        `(value >> 8) & 0xFF`, the low one `value & 0xFF`, so the pair then
        reads `value & 0xFFFF`; no other register changes. */
    function With16(p: Pair, value: int): (t: Regs)
      ensures t.Get16(p) == Wrap16(value)
      ensures t.Get(High(p)) == Hi(value) && t.Get(Low(p)) == Lo(value)
      ensures forall r :: r != High(p) && r != Low(p) ==> t.Get(r) == Get(r)
      ensures t.f == f && t.sp == sp && t.pc == pc
      ensures t.halted == halted && t.ime == ime && t.cycles == cycles
    {
      SplitJoin(value);
      match p
      case BC => this.(b := Hi(value), c := Lo(value))
      case DE => this.(d := Hi(value), e := Lo(value))
      case HL => this.(h := Hi(value), l := Lo(value))
    }

    /** `get_af`: A shifted left by 8, OR F. Its high byte is A and its
        low byte F. */
    function AF(): (w: Word)
      ensures Hi(w) == a && Lo(w) == f
    {
      JoinSplit(a, f);
      Join(a, f)
    }

    /** `set_af`: A gets `(value >> 8) & 0xFF` and F gets `value & 0xF0`,
        the low byte with its low nibble cleared. AF then reads
        `value & 0xFFF0`, F keeps its low nibble clear, and no other
        register changes. */
    function WithAF(value: int): (t: Regs)
      ensures t.AF() == Wrap16(value) - Wrap16(value) % 0x10
      ensures t.a == Hi(value) && t.Valid()
      ensures forall r :: r != A ==> t.Get(r) == Get(r)
      ensures t.sp == sp && t.pc == pc
      ensures t.halted == halted && t.ime == ime && t.cycles == cycles
    {
      WordLowNibble(value);
      this.(a := Hi(value), f := Lo(value) / 0x10 * 0x10)
    }
  }

  /** The registers as the constructor sets them (the post-boot values). */
  function PowerUp(): Regs
  {
    Regs(0x01, 0x00, 0x13, 0x00, 0xD8, 0x01, 0x4D, 0xB0, 0xFFFE, 0x0100, false, false, 0)
  }

  /** The high and low register of each pair. */
  function High(p: Pair): Reg
  {
    match p
    case BC => B
    case DE => D
    case HL => H
  }

  function Low(p: Pair): Reg
  {
    match p
    case BC => C
    case DE => E
    case HL => L
  }

  /** Writing a register with its own value changes nothing: the
      self-copies LD B,B ... LD A,A are no-ops. */
  lemma WithOwnValue(s: Regs, r: Reg)
    ensures s.With(r, s.Get(r)) == s
  {
  }

  /** Writing a pair with the value it holds changes nothing. */
  lemma PairOwnValue(s: Regs, p: Pair)
    ensures s.With16(p, s.Get16(p)) == s
  {
    match p
    case BC => JoinSplit(s.b, s.c);
    case DE => JoinSplit(s.d, s.e);
    case HL => JoinSplit(s.h, s.l);
  }

  /** A word is its high byte times 0x100 plus its low byte, and its low
      nibble is its low byte's. */
  lemma WordLowNibble(v: int)
    ensures Wrap16(v) == Hi(v) * 0x100 + Lo(v)
    ensures Wrap16(v) % 0x10 == Lo(v) % 0x10
  {
    SplitJoin(v);
    ModSixteen(Hi(v), Lo(v));
  }

  /** Adding whole multiples of 0x100 does not change the low nibble. */
  lemma ModSixteen(k: int, r: int)
    ensures (k * 0x100 + r) % 0x10 == r % 0x10
  {
    assert k * 0x100 + r == (k * 0x10 + r / 0x10) * 0x10 + r % 0x10;
  }

  /** The power-up flags: Z, H and C set, N clear, low nibble clear. */
  lemma PowerUpFlags()
    ensures PowerUp().Valid()
    ensures Flags.IsSet(PowerUp().f, Flags.Z) && !Flags.IsSet(PowerUp().f, Flags.N)
    ensures Flags.IsSet(PowerUp().f, Flags.H) && Flags.IsSet(PowerUp().f, Flags.C)
  {
    var f := PowerUp().f;
    assert f == 0xB0;
    assert Flags.BitOf(f, Flags.Z) && !Flags.BitOf(f, Flags.N);
    assert Flags.BitOf(f, Flags.H) && Flags.BitOf(f, Flags.C);
  }

  /** The power-up pairs. */
  lemma PowerUpPairs()
    ensures PowerUp().Get16(BC) == 0x0013 && PowerUp().Get16(DE) == 0x00D8
    ensures PowerUp().Get16(HL) == 0x014D && PowerUp().AF() == 0x01B0
  {
    var s := PowerUp();
    assert s.b == 0x00 && s.c == 0x13 && s.d == 0x00 && s.e == 0xD8;
    assert s.h == 0x01 && s.l == 0x4D && s.a == 0x01 && s.f == 0xB0;
    assert s.Get16(BC) == Join(0x00, 0x13) && s.Get16(DE) == Join(0x00, 0xD8);
    assert s.Get16(HL) == Join(0x01, 0x4D) && s.AF() == Join(0x01, 0xB0);
  }
}
