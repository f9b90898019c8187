# Game Boy CPU core (Sharp LR35902) in Dafny

A verified model of the CPU core of a Game Boy emulator and the flat 64 KB
memory it runs over:

- **Memory** (`Ram`): 65536 cells holding bytes. `read` masks the address to
  16 bits. `write` masks the address to 16 bits and the value to 8 bits, so
  no access faults. The class `Ram.Memory` keeps the cells in an
  `array<int>`, like the source's list. Its invariant says every cell holds a
  byte. `Image`, `Load` and `Store` describe the contents as a value.
- **Register file** (`Registers`, `Flags`): the eight 8-bit registers, SP,
  PC, `halted`, `ime` and the cycle count. The pair views BC, DE, HL and AF
  and the flag view of F (Z, N, H, C = 0x80, 0x40, 0x20, 0x10) are defined
  here. F's low nibble is always clear.
- **Engine** (`Semantics`, `Lr35902.Cpu`): `fetch_byte`, `fetch_word`,
  `push_stack`, `pop_stack`, `step` and `execute`. `Semantics` gives each as
  a function of the register file and memory contents. `Lr35902.Cpu` keeps
  the registers as fields, updates them in place, and is proved to match.
  `execute` decodes only 0x00 (NOP, 4 cycles). Every other opcode is
  reported as `Err(UnimplementedOpcode(op))` after PC has already moved past
  it. The source raises `NotImplementedError` there.
- **Instruction handlers** (`Lr35902.Cpu`): NOP and the 8-bit loads LD r,n,
  LD r,r', LD r,(HL), LD (HL),r and LD (HL),n. Each is a method of the
  CPU class. A `Reg` parameter stands for the register named in the
  source's handler (`op_ld_b_c` is `LoadRegister(B, C)`). The source has a
  handler for every combination, so the parameter covers exactly those
  methods. As in the source, no handler is reached from `step`.
  `Instructions` lists the opcode each handler's documentation gives.

Integer masks: the source uses unbounded integers with `& 0xFF`,
`& 0xFFFF` and `(x >> 8) & 0xFF`. On unbounded two's-complement integers
these are exactly Dafny's Euclidean `x % 0x100`, `x % 0x10000` and
`(x / 0x100) % 0x100`, negative values included. The flag bits are
computed on `bv8`, as the source's OR and AND-NOT.

`Scenarios` replays the repository's CPU tests as verified client code.

Where the sources disagree, the model follows the code:

- The constructor sets F to 0xB0 (`src/cpu/cpu.py:15`). The tests expect
  0xA0, so C clear (`tests/test_cpu.py:14`). The model uses 0xB0 and proves
  Z, H and C set.
- `op_ld_b_n` exists (`src/cpu/opcodes.py:20-22`), but `execute` decodes
  only 0x00 (`src/cpu/cpu.py:160-163`), so a step on 0x06 fails;
  `Scenarios.TestImmediateLoad` shows this.

## Model

| member | source | states |
|---|---|---|
| `Ram.Memory.constructor` | src/memory/memory.py:6-8 | all 65536 cells are zero and every cell holds a byte |
| `Ram.BlankReadsZero` | src/memory/memory.py:6-8 | after initialisation every address reads 0 |
| `Ram.Memory.Read` | src/memory/memory.py:10-12 | returns the byte in the cell at `address & 0xFFFF` |
| `Ram.Load` | src/memory/memory.py:10-12 | `read(a)` on a memory image returns a byte, and for an in-range address exactly the byte in cell a |
| `Ram.LoadWraps` | src/memory/memory.py:10-12 | `read(a) == read(a & 0xFFFF) == read(a + 0x10000)`: addresses wrap and never fault |
| `Ram.Memory.Write` | src/memory/memory.py:14-16 | the new contents are the old with cell `a & 0xFFFF` set to `v & 0xFF`; the byte invariant is kept |
| `Ram.LoadAfterStore` | src/memory/memory.py:10-16 | read after write: the written address reads `v & 0xFF`, every other address reads as before |
| `Ram.Store` | src/memory/memory.py:14-16 | after `write(a, v)` cell `a & 0xFFFF` holds `v & 0xFF` and every other cell is as before |
| `Ram.StoreLoaded` | src/memory/memory.py:14-16 | writing back a cell's own byte leaves memory as it was |
| `Lr35902.Cpu.constructor` | src/cpu/cpu.py:2-25 | the post-boot registers: A=01 B=00 C=13 D=00 E=D8 H=01 L=4D F=B0, SP=FFFE, PC=0100, not halted, IME off, 0 cycles |
| `Registers.PowerUpFlags` | src/cpu/cpu.py:8-19 | at power-up Z, H, C are set, N is clear, and F's low nibble is clear |
| `Registers.PowerUpPairs` | src/cpu/cpu.py:8-19 | at power-up BC=0013, DE=00D8, HL=014D, AF=01B0 |
| `Flags.IsSet` | src/cpu/cpu.py:29-40 | `get_flag(g)`, i.e. `(F & mask) != 0`, is exactly F's bit 7, 6, 5 or 4 (for Z, N, H, C) read arithmetically on the integer F |
| `Lr35902.Cpu.GetFlag` | src/cpu/cpu.py:29-40 | the CPU's flag read is F's bit 7, 6, 5 or 4 for Z, N, H, C |
| `Flags.Update` | src/cpu/cpu.py:42-56 | `set_flag(g, b)` computes F OR the mask when setting and F AND NOT the mask when clearing (`Flags.UpdateIsBits` states this on the integer); afterwards `get_flag(g)` returns b, the other three flags read as before, and the low nibble of F is unchanged |
| `Flags.UpdateOwnValue` | src/cpu/cpu.py:29-56 | writing a flag with the value `get_flag` reads leaves F unchanged |
| `Flags.UpdateOverwrites` | src/cpu/cpu.py:42-56 | a second `set_flag` of the same flag overrides the first |
| `Flags.UpdateKeepsInvariant` | src/cpu/cpu.py:42-56 | `set_flag` keeps F's low nibble clear |
| `Flags.UpdatesCommute` | src/cpu/cpu.py:42-56 | `set_flag` of two different flags gives the same F in either order |
| `Flags.FlagsAndNibbleDetermine` | src/cpu/cpu.py:29-40 | a value of F is determined by its four flags and its low nibble |
| `Flags.FlagsDetermineF` | src/cpu/cpu.py:29-40 | with the low nibble clear, two values of F with the same four flags are equal |
| `Lr35902.Cpu.SetFlag` | src/cpu/cpu.py:42-56 | F becomes the flag update of the old F; the flag reads back as written, the other flags as before; nothing else changes |
| `Bytes.SplitJoin` | src/cpu/cpu.py:60-67 | for any integer v, `((v >> 8) & 0xFF) << 8 \| (v & 0xFF) == v & 0xFFFF` |
| `Bytes.JoinSplit` | src/cpu/cpu.py:60-67 | splitting `(hi << 8) \| lo` gives hi and lo back |
| `Bytes.JoinInjective` | src/cpu/cpu.py:60-62 | two pairs are equal exactly when both bytes are |
| `Registers.Regs.Get16` | src/cpu/cpu.py:60-62 | `get_bc` (and DE, HL) is the word whose high byte is the high register and whose low byte is the low register, i.e. `(hi << 8) \| lo` |
| `Lr35902.Cpu.GetBC` | src/cpu/cpu.py:60-62 | BC reads as the word with high byte B and low byte C |
| `Lr35902.Cpu.GetDE` | src/cpu/cpu.py:69-71 | DE reads as the word with high byte D and low byte E |
| `Lr35902.Cpu.GetHL` | src/cpu/cpu.py:78-80 | HL reads as the word with high byte H and low byte L |
| `Registers.Regs.AF` | src/cpu/cpu.py:87-89 | AF reads as the word with high byte A and low byte F |
| `Lr35902.Cpu.GetAF` | src/cpu/cpu.py:87-89 | the CPU's AF reads as the word with high byte A and low byte F |
| `Registers.Regs.With16` | src/cpu/cpu.py:60-85 | after `set_bc(v)` (and DE, HL) the pair reads `v & 0xFFFF`, the high register is `(v >> 8) & 0xFF`, the low one `v & 0xFF`, nothing else changes |
| `Registers.PairOwnValue` | src/cpu/cpu.py:60-85 | setting a pair to the value it reads changes nothing |
| `Lr35902.Cpu.SetBC` | src/cpu/cpu.py:64-67 | B and C get the high and low byte of v; BC then reads `v & 0xFFFF`; nothing else changes |
| `Lr35902.Cpu.SetDE` | src/cpu/cpu.py:73-76 | D and E get the high and low byte of v; DE then reads `v & 0xFFFF`; nothing else changes |
| `Lr35902.Cpu.SetHL` | src/cpu/cpu.py:82-85 | H and L get the high and low byte of v; HL then reads `v & 0xFFFF`; nothing else changes |
| `Registers.Regs.WithAF` | src/cpu/cpu.py:87-94 | after `set_af(v)`, AF reads `v & 0xFFF0`, A is the high byte, F's low nibble is clear, B..L, SP, PC and the rest unchanged |
| `Lr35902.Cpu.SetAF` | src/cpu/cpu.py:91-94 | A and F get the high byte and `v & 0xF0`; AF then reads `v & 0xFFF0`; the F invariant is kept |
| `Semantics.FetchByte` | src/cpu/cpu.py:98-105 | returns the byte at the old PC; PC becomes PC+1, with 0xFFFF wrapping to 0; nothing else changes |
| `Lr35902.Cpu.FetchByte` | src/cpu/cpu.py:98-105 | the result and new registers are those of `Semantics.FetchByte`; memory is unchanged |
| `Semantics.FetchWord` | src/cpu/cpu.py:107-114 | two byte fetches give `(mem[PC+1] << 8) \| mem[PC]`, addresses mod 2^16, and advance PC by 2 mod 2^16 |
| `Lr35902.Cpu.FetchWord` | src/cpu/cpu.py:107-114 | the result is little-endian at the old PC and PC advances by 2 mod 2^16 |
| `Semantics.Push` | src/cpu/cpu.py:118-126 | push lowers SP by 2 mod 2^16, stores the high byte at old SP-1 and the low byte at old SP-2 (mod 2^16), and changes no other cell or register |
| `Lr35902.Cpu.PushStack` | src/cpu/cpu.py:118-126 | registers and memory afterwards are those of `Semantics.Push` |
| `Semantics.Pop` | src/cpu/cpu.py:128-137 | pop returns `(mem[SP+1] << 8) \| mem[SP]` and raises SP by 2 mod 2^16; nothing else changes |
| `Lr35902.Cpu.PopStack` | src/cpu/cpu.py:128-137 | result and registers afterwards are those of `Semantics.Pop`; memory is unchanged |
| `Semantics.PopAfterPush` | src/cpu/cpu.py:118-137 | push(v) followed by pop returns `v & 0xFFFF` and restores SP and every register, for any starting SP |
| `Semantics.PushAfterPop` | src/cpu/cpu.py:118-137 | pop followed by a push of the popped value restores registers and memory |
| `Semantics.Step` | src/cpu/cpu.py:141-163 | step fails if and only if the CPU is running and the byte at PC is not 0x00, naming that byte; success reports 4; a halted CPU changes nothing; otherwise PC advances by 1 mod 2^16 and the cycle count becomes 4 for NOP and 0 on failure; no other register changes |
| `Lr35902.Cpu.Step` | src/cpu/cpu.py:141-153 | the outcome and registers afterwards are those of `Semantics.Step` |
| `Semantics.Execute` | src/cpu/cpu.py:155-163 | `execute` succeeds exactly for opcode 0x00, which sets the cycle count to 4; any other opcode fails with `UnimplementedOpcode` naming it and leaves the registers unchanged |
| `Lr35902.Cpu.Execute` | src/cpu/cpu.py:155-163 | opcode 0x00 sets the cycle count to 4; any other opcode fails naming it and changes nothing |
| `Lr35902.Cpu.Nop` | src/cpu/opcodes.py:14-16 | no register, flag, PC, SP or memory cell changes |
| `Lr35902.Cpu.LoadImmediate` | src/cpu/opcodes.py:20-46 | r gets the byte at the old PC, PC advances by 1 mod 2^16; nothing else changes, memory included |
| `Registers.Regs.With` | src/cpu/opcodes.py:20-289 | writing a register changes it alone: the others, F, SP, PC, halted, ime and the cycle count keep their values |
| `Lr35902.Cpu.LoadRegister` | src/cpu/opcodes.py:51-251 | dst gets src's old value; src and everything else keep theirs |
| `Registers.WithOwnValue` | src/cpu/opcodes.py:51-251 | a self-copy (LD B,B ... LD A,A) leaves the whole register file unchanged |
| `Lr35902.Cpu.LoadFromHL` | src/cpu/opcodes.py:256-289 | r gets the byte at the HL held before the instruction, also for H and L; memory is unchanged |
| `Lr35902.Cpu.StoreToHL` | src/cpu/opcodes.py:292-325 | the cell at `HL` gets r's value; no register changes |
| `Lr35902.Cpu.StoreImmediateToHL` | src/cpu/opcodes.py:327-331 | the byte at the old PC is written at the old HL; PC advances by 1; no other register changes |
| `Instructions.OpcodesDistinct` | src/cpu/opcodes.py:14-331 | no two handlers document the same opcode |
| `Instructions.SelfCopyOpcodes` | src/cpu/opcodes.py:51-251 | the LD r,r' opcodes 0x40, 0x49, 0x52, 0x5B, 0x64, 0x6D, 0x7F are exactly the self-copies |
| `Instructions.Opcode` | src/cpu/opcodes.py:14-331 | 0x00 is NOP's opcode alone, and no handler claims HALT's 0x76 |
| `Instructions.OnlyNopDecoded` | src/cpu/cpu.py:155-163 | of all handlers' opcodes, `execute` accepts only NOP's |

## Left out

- Python's exception mechanism: `NotImplementedError` is the result value `Err(UnimplementedOpcode(op))`. The state at that point (PC advanced, cycle count 0) is modelled; stack unwinding is not.
- The dictionary lookup of flags by name and its `KeyError`: flags are the datatype `Flag`, so an unknown name cannot be written.
- The mixin structure: the handlers are methods of the one `Cpu` class.
- The memory collaborator is assumed to satisfy its invariant when the CPU is built (a `requires` on the constructor).
- Register fields hold bytes and SP/PC 16-bit words by type. The source does not stop a caller from storing other integers in them directly; no code in the core does so.
- The test runner, `sys.path` set-up and `print` calls of the tests.
- Interrupts, the opcode and CB-prefixed tables, per-handler cycle costs and the halting logic: none of these exist in the code.
