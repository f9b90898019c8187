/** Byte and word arithmetic shared by the memory and the CPU.
    The source works on unbounded integers and keeps them in range with
    masks: `x & 0xFF`, `x & 0xFFFF` and `(x >> 8) & 0xFF`. On unbounded
    two's-complement integers these are exactly Euclidean remainder and
    floor division by powers of two, which is what Dafny's `%` and `/`
    compute for a positive divisor, negative operands included. */
module Bytes {

  /** An 8-bit value: a register or a memory cell. */
  type Byte = x: int | 0 <= x < 0x100

  /** A 16-bit value: an address, SP, PC or a register pair. */
  type Word = x: int | 0 <= x < 0x1_0000

  /** `x & 0xFF` */
  function Wrap8(x: int): Byte { x % 0x100 }

  /** `x & 0xFFFF` */
  function Wrap16(x: int): Word { x % 0x1_0000 }

  /** `(v >> 8) & 0xFF`: the high byte of a pair. */
  function Hi(v: int): Byte { (v / 0x100) % 0x100 }

  /** `v & 0xFF`: the low byte of a pair. */
  function Lo(v: int): Byte { v % 0x100 }

  /** `(hi << 8) | lo`: two bytes read as one word, high byte first. */
  function Join(hi: Byte, lo: Byte): Word { hi * 0x100 + lo }

  /** Splitting any integer into its high and low byte and joining them
      again gives the integer masked to 16 bits. */
  lemma SplitJoin(v: int)
    ensures Join(Hi(v), Lo(v)) == Wrap16(v)
  {
    var q, r := v / 0x100, v % 0x100;
    assert v == q * 0x100 + r;
    var qh, ql := q / 0x100, q % 0x100;
    assert q == qh * 0x100 + ql;
    assert v == qh * 0x1_0000 + (ql * 0x100 + r);
    assert 0 <= ql * 0x100 + r < 0x1_0000;
    ModUnique(v, qh, ql * 0x100 + r);
  }

  /** Joining two bytes and splitting the word again gives both bytes back. */
  lemma JoinSplit(hi: Byte, lo: Byte)
    ensures Hi(Join(hi, lo)) == hi && Lo(Join(hi, lo)) == lo
  {
    DivUnique(Join(hi, lo), hi, lo);
  }

  /** Two pairs are equal exactly when both of their bytes are. */
  lemma JoinInjective(hi: Byte, lo: Byte, hi': Byte, lo': Byte)
    ensures Join(hi, lo) == Join(hi', lo') <==> hi == hi' && lo == lo'
  {
    JoinSplit(hi, lo);
    JoinSplit(hi', lo');
  }

  /** Moving 16-bit values by steps: two steps of one are one step of two. */
  lemma Wrap16Add(x: int, i: int, j: int)
    ensures Wrap16(Wrap16(x + i) + j) == Wrap16(x + i + j)
  {
    var y := x + i;
    ModUnique(y, y / 0x1_0000, y % 0x1_0000);
    var w := Wrap16(y) + j;
    assert y + j == w + (y / 0x1_0000) * 0x1_0000;
    ModShift(w, y / 0x1_0000);
  }

  /** Remainder by 0x10000 of `k * 0x10000 + r` for `r` in range is `r`. */
  lemma ModUnique(v: int, k: int, r: int)
    requires 0 <= r < 0x1_0000 && v == k * 0x1_0000 + r
    ensures v % 0x1_0000 == r
  {
  }

  /** Remainder by 0x10000 ignores whole multiples of 0x10000. */
  lemma ModShift(w: int, k: int)
    ensures (w + k * 0x1_0000) % 0x1_0000 == w % 0x1_0000
  {
    ModUnique(w + k * 0x1_0000, w / 0x1_0000 + k, w % 0x1_0000);
  }

  /** Division by 0x100 of `q * 0x100 + r` for `r` in range. */
  lemma DivUnique(v: int, q: int, r: int)
    requires 0 <= r < 0x100 && 0 <= q < 0x100 && v == q * 0x100 + r
    ensures (v / 0x100) % 0x100 == q && v % 0x100 == r
  {
  }
}
