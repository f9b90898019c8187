/** The Sharp LR35902 CPU: registers kept as fields, updated in place by
    the engine (fetch, stack, step) and by the NOP and 8-bit load
    handlers. Each method is proved to produce the register file and
    memory that `Semantics` or `Registers` prescribe. */
module Lr35902 {
  import opened Bytes
  import Flags
  import opened Ram
  import opened Registers
  import Semantics

  class Cpu {
    var a: Byte
    var b: Byte
    var c: Byte
    var d: Byte
    var e: Byte
    var h: Byte
    var l: Byte
    var f: Byte
    var sp: Word
    var pc: Word
    var halted: bool
    var ime: bool
    var cycles: nat

    /** The memory collaborator; the CPU holds it and never replaces it. */
    const memory: Memory

    /** Memory holds bytes and the low nibble of F is clear. */
    ghost predicate Valid()
      reads this, memory.cells
    {
      memory.Valid() && Flags.LowNibbleClear(f)
    }

    /** The register file as a value. */
    function State(): Regs
      reads this
    {
      Regs(a, b, c, d, e, h, l, f, sp, pc, halted, ime, cycles)
    }

    /** The post-boot register values; F is 0xB0. */
    constructor (memory: Memory)
      requires memory.Valid()
      ensures Valid() && this.memory == memory
      ensures State() == PowerUp()
    {
      a, b, c, d, e, h, l := 0x01, 0x00, 0x13, 0x00, 0xD8, 0x01, 0x4D;
      f := 0xB0;
      sp, pc := 0xFFFE, 0x0100;
      this.memory := memory;
      halted, ime := false, false;
      cycles := 0;
    }

    /** `get_flag`: `(F & mask) != 0`, which is the flag's bit of F. */
    function GetFlag(g: Flags.Flag): (b: bool)
      reads this
      ensures b == Flags.BitOf(f, g)
    {
      Flags.IsSet(f, g)
    }

    /** `set_flag`: the flag reads back as `value`, the other three flags
        and the low nibble of F keep theirs, and no other register
        changes. */
    method SetFlag(g: Flags.Flag, value: bool)
      requires Valid()
      modifies this
      ensures Valid()
      ensures State() == old(State()).(f := Flags.Update(old(f), g, value))
      ensures GetFlag(g) == value
      ensures forall g' :: g' != g ==> GetFlag(g') == old(GetFlag(g'))
    {
      Flags.UpdateIsBits(f, g, value);
      if value {
        f := ((f as bv8) | Flags.Mask(g)) as int;
      } else {
        f := ((f as bv8) & !Flags.Mask(g)) as int;
      }
    }

    /** `get_bc`: the high byte is B and the low byte C. */
    function GetBC(): (w: Word)
      reads this
      ensures Hi(w) == b && Lo(w) == c
    {
      State().Get16(BC)
    }

    /** `get_de`: the high byte is D and the low byte E. */
    function GetDE(): (w: Word)
      reads this
      ensures Hi(w) == d && Lo(w) == e
    {
      State().Get16(DE)
    }

    /** `get_hl`: the high byte is H and the low byte L. */
    function GetHL(): (w: Word)
      reads this
      ensures Hi(w) == h && Lo(w) == l
    {
      State().Get16(HL)
    }

    /** `get_af`: the high byte is A and the low byte F. */
    function GetAF(): (w: Word)
      reads this
      ensures Hi(w) == a && Lo(w) == f
    {
      State().AF()
    }

    /** `set_bc`: BC then reads `value & 0xFFFF`; nothing else changes. */
    method SetBC(value: int)
      requires Valid()
      modifies this
      ensures Valid()
      ensures State() == old(State()).With16(BC, value)
      ensures GetBC() == Wrap16(value)
    {
      b := Hi(value);
      c := Lo(value);
    }

    /** `set_de`: DE then reads `value & 0xFFFF`; nothing else changes. */
    method SetDE(value: int)
      requires Valid()
      modifies this
      ensures Valid()
      ensures State() == old(State()).With16(DE, value)
      ensures GetDE() == Wrap16(value)
    {
      d := Hi(value);
      e := Lo(value);
    }

    /** `set_hl`: HL then reads `value & 0xFFFF`; nothing else changes. */
    method SetHL(value: int)
      requires Valid()
      modifies this
      ensures Valid()
      ensures State() == old(State()).With16(HL, value)
      ensures GetHL() == Wrap16(value)
    {
      h := Hi(value);
      l := Lo(value);
    }

    /** `set_af`: AF then reads `value & 0xFFF0`, so the low nibble of F is
        clear; nothing else changes. */
    method SetAF(value: int)
      requires Valid()
      modifies this
      ensures Valid()
      ensures State() == old(State()).WithAF(value)
      ensures GetAF() == Wrap16(value) - Wrap16(value) % 0x10
    {
      a := Hi(value);
      f := (value % 0x100) / 0x10 * 0x10;
    }

    /** `fetch_byte`: the byte at the old PC; PC advances by one mod
        65536; memory is unchanged. */
    method FetchByte() returns (n: Byte)
      requires Valid()
      modifies this
      ensures Valid()
      ensures (n, State()) == Semantics.FetchByte(old(State()), memory.Contents())
      ensures memory.Contents() == old(memory.Contents())
    {
      n := memory.Read(pc);
      pc := (pc + 1) % 0x1_0000;
    }

    /** `fetch_word`: little-endian, `(mem[PC + 1] << 8) | mem[PC]`; PC
        advances by two mod 65536. */
    method FetchWord() returns (w: Word)
      requires Valid()
      modifies this
      ensures Valid()
      ensures (w, State()) == Semantics.FetchWord(old(State()), memory.Contents())
      ensures w == Join(Load(memory.Contents(), old(pc) + 1), Load(memory.Contents(), old(pc)))
      ensures pc == Wrap16(old(pc) + 2)
    {
      var low := FetchByte();
      var high := FetchByte();
      w := Join(high, low);
    }

    /** `push_stack`: SP lowered by two mod 65536, high byte at old SP - 1,
        low byte at old SP - 2. */
    method PushStack(value: int)
      requires Valid()
      modifies this, memory.cells
      ensures Valid()
      ensures (State(), memory.Contents()) == Semantics.Push(old(State()), old(memory.Contents()), value)
    {
      sp := (sp - 1) % 0x1_0000;
      memory.Write(sp, (value / 0x100) % 0x100);
      sp := (sp - 1) % 0x1_0000;
      memory.Write(sp, value % 0x100);
    }

    /** `pop_stack`: low byte at SP, high byte at SP + 1; SP raised by two
        mod 65536; memory is unchanged. */
    method PopStack() returns (v: Word)
      requires Valid()
      modifies this
      ensures Valid()
      ensures (v, State()) == Semantics.Pop(old(State()), memory.Contents())
    {
      var low := memory.Read(sp);
      sp := (sp + 1) % 0x1_0000;
      var high := memory.Read(sp);
      sp := (sp + 1) % 0x1_0000;
      v := Join(high, low);
    }

    /** `step`: 4 cycles without fetching when halted; otherwise fetch,
        reset the cycle count, execute, and report the cycle count or the
        unimplemented opcode. */
    method Step() returns (r: Semantics.Result<nat>)
      requires Valid()
      modifies this
      ensures Valid()
      ensures (r, State()) == Semantics.Step(old(State()), memory.Contents())
    {
      if halted {
        return Semantics.Ok(4);
      }
      var opcode := FetchByte();
      cycles := 0;
      var status := Execute(opcode);
      if status.Err? {
        return Semantics.Err(status.error);
      }
      r := Semantics.Ok(cycles);
    }

    /** `execute`: only NOP (0x00) is decoded, costing 4 cycles; any other
        opcode is reported as unimplemented. */
    method Execute(opcode: int) returns (r: Semantics.Result<()>)
      requires Valid()
      modifies this
      ensures Valid()
      ensures (r, State()) == Semantics.Execute(old(State()), opcode)
    {
      if opcode == 0x00 {
        cycles := 4;
        r := Semantics.Ok(());
      } else {
        r := Semantics.Err(Semantics.UnimplementedOpcode(opcode));
      }
    }

    /** Assigns one named register. */
    method Put(r: Reg, v: Byte)
      modifies this
      ensures State() == old(State()).With(r, v)
    {
      match r
      case A => a := v;
      case B => b := v;
      case C => c := v;
      case D => d := v;
      case E => e := v;
      case H => h := v;
      case L => l := v;
    }

    /** `op_nop`: no register, flag, PC, SP or memory cell changes. */
    method Nop()
      requires Valid()
      ensures State() == old(State())
    {
    }

    /** `op_ld_r_n` (LD r,n; 0x06, 0x0E, ..., 0x3E): r gets the byte at the
        old PC and PC advances by one; nothing else changes. */
    method LoadImmediate(r: Reg)
      requires Valid()
      modifies this
      ensures Valid()
      ensures State() == old(State()).(pc := Wrap16(old(pc) + 1)).With(r, Load(memory.Contents(), old(pc)))
      ensures memory.Contents() == old(memory.Contents())
    {
      var n := FetchByte();
      Put(r, n);
    }

    /** `op_ld_r_r'` (LD r,r'; 0x40..0x7F but 0x76 and the (HL) forms):
        dst gets src's old value; src and everything else keep theirs. */
    method LoadRegister(dst: Reg, src: Reg)
      requires Valid()
      modifies this
      ensures Valid()
      ensures State() == old(State()).With(dst, old(State()).Get(src))
    {
      Put(dst, State().Get(src));
    }

    /** `op_ld_r_hl` (LD r,(HL)): r gets the byte at the HL held before
        the instruction, even when r is H or L; memory is unchanged. */
    method LoadFromHL(r: Reg)
      requires Valid()
      modifies this
      ensures Valid()
      ensures State() == old(State()).With(r, Load(memory.Contents(), old(GetHL())))
      ensures memory.Contents() == old(memory.Contents())
    {
      var address := GetHL();
      var v := memory.Read(address);
      Put(r, v);
    }

    /** `op_ld_hl_r` (LD (HL),r): r is written at address HL; no register
        changes. */
    method StoreToHL(r: Reg)
      requires Valid()
      modifies memory.cells
      ensures Valid()
      ensures State() == old(State())
      ensures memory.Contents() == Store(old(memory.Contents()), GetHL(), State().Get(r))
    {
      var address := GetHL();
      memory.Write(address, State().Get(r));
    }

    /** `op_ld_hl_n` (LD (HL),n): the byte at the old PC is written at the
        address HL held before the fetch, and PC advances by one. */
    method StoreImmediateToHL()
      requires Valid()
      modifies this, memory.cells
      ensures Valid()
      ensures State() == old(State()).(pc := Wrap16(old(pc) + 1))
      ensures memory.Contents()
           == Store(old(memory.Contents()), old(GetHL()), Load(old(memory.Contents()), old(pc)))
    {
      var address := GetHL();
      var value := FetchByte();
      memory.Write(address, value);
    }
  }
}
