/** The flat 64 KB memory the CPU runs over: 65536 cells, each holding a
    byte. Reads and writes mask the address to 16 bits and writes mask the
    value to 8 bits, so no access ever faults. */
module Ram {
  import opened Bytes

  /** The number of cells: the whole 16-bit address space. */
  const Size := 0x1_0000

  /** The contents of memory as a value: one byte per address. */
  type Image = s: seq<Byte> | |s| == Size witness Blank()

  /** Memory as the initialiser leaves it: every cell zero. */
  function Blank(): seq<Byte>
  {
    seq(Size, _ => 0)
  }

  /** The byte `read(address)` returns from memory holding `m`: an
      address inside the 64 KB space reads its own cell. */
  function Load(m: Image, address: int): (r: Byte)
    ensures 0 <= address < Size ==> r == m[address]
  {
    m[Wrap16(address)]
  }

  /** Memory holding `m` after `write(address, value)`: the cell
      `address & 0xFFFF` holds `value & 0xFF` and every other cell is as
      it was. */
  function Store(m: Image, address: int, value: int): (r: Image)
    ensures r[Wrap16(address)] == Wrap8(value)
    ensures forall i :: 0 <= i < Size && i != Wrap16(address) ==> r[i] == m[i]
  {
    m[Wrap16(address) := Wrap8(value)]
  }

  /** Every cell of fresh memory reads as zero. */
  lemma BlankReadsZero(address: int)
    ensures |Blank()| == Size && Load(Blank(), address) == 0
  {
  }

  /** Reads wrap: an address and its 16-bit mask read the same cell. */
  lemma LoadWraps(m: Image, address: int)
    ensures Load(m, address) == Load(m, Wrap16(address))
    ensures Load(m, address) == Load(m, address + Size)
  {
    Wrap16Add(address, 0, 0);
    Wrap16Add(address, Size, 0);
    ModShift(address, 1);
  }

  /** Read after write: the written cell reads back the value masked to 8
      bits, and every other cell reads as before. */
  lemma LoadAfterStore(m: Image, address: int, value: int, address': int)
    ensures Load(Store(m, address, value), address')
         == if Wrap16(address') == Wrap16(address) then Wrap8(value) else Load(m, address')
  {
  }

  /** Writing back the byte a cell already holds leaves memory as it was. */
  lemma StoreLoaded(m: Image, address: int)
    ensures Store(m, address, Load(m, address)) == m
  {
  }

  /** The memory unit. The cells are the source's 65536-element list of
      integers; `Valid` is the invariant that each holds a byte. */
  class Memory {
    const cells: array<int>

    ghost predicate Valid()
      reads cells
    {
      cells.Length == Size && forall i :: 0 <= i < cells.Length ==> 0 <= cells[i] < 0x100
    }

    /** The cells as a value. */
    ghost function Contents(): Image
      reads cells
      requires Valid()
    {
      cells[..]
    }

    /** 65536 cells, all zero. */
    constructor ()
      ensures Valid() && fresh(cells)
      ensures Contents() == Blank()
    {
      cells := new int[Size](_ => 0);
    }

    /** `read`: the cell at the address masked to 16 bits. */
    method Read(address: int) returns (v: Byte)
      requires Valid()
      ensures v == Load(Contents(), address)
    {
      v := cells[address % 0x1_0000];
    }

    /** `write`: store the value masked to 8 bits in the cell at the
        address masked to 16 bits. */
    method Write(address: int, value: int)
      requires Valid()
      modifies cells
      ensures Valid()
      ensures Contents() == Store(old(Contents()), address, value)
    {
      cells[address % 0x1_0000] := value % 0x100;
    }
  }
}
