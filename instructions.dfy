/** The handlers of the instruction file and the opcode byte each one's
    documentation names. This is a list of labels, not a dispatch table:
    the engine decodes only 0x00, and none of the load handlers is reached
    from `step`. */
module Instructions {
  import opened Bytes
  import opened Registers
  import Semantics

  datatype Handler =
    | Nop                              // op_nop
    | LoadImmediate(r: Reg)            // op_ld_r_n
    | LoadRegister(dst: Reg, src: Reg) // op_ld_r_r'
    | LoadFromHL(r: Reg)               // op_ld_r_hl
    | StoreToHL(r: Reg)                // op_ld_hl_r
    | StoreImmediateToHL               // op_ld_hl_n

  /** The three-bit register field of an opcode (6 is (HL)). */
  function Code(r: Reg): nat
  {
    match r
    case B => 0
    case C => 1
    case D => 2
    case E => 3
    case H => 4
    case L => 5
    case A => 7
  }

  /** The opcode each handler's documentation gives: 0x00 is NOP's alone,
      and HALT's 0x76, which sits in the LD r,r' block, belongs to no
      handler. */
  function Opcode(hd: Handler): (r: Byte)
    ensures r == 0x00 <==> hd.Nop?
    ensures r != 0x76
  {
    match hd
    case Nop => 0x00
    case LoadImmediate(r) => 0x06 + 8 * Code(r)
    case LoadRegister(dst, src) => 0x40 + 8 * Code(dst) + Code(src)
    case LoadFromHL(r) => 0x46 + 8 * Code(r)
    case StoreToHL(r) => 0x70 + Code(r)
    case StoreImmediateToHL => 0x36
  }

  /** No two handlers claim the same opcode. */
  lemma OpcodesDistinct(x: Handler, y: Handler)
    ensures Opcode(x) == Opcode(y) ==> x == y
  {
    if Opcode(x) == Opcode(y) {
      match x
      case LoadRegister(d, s) =>
        assert y.LoadRegister?;
        CodeInjective(d, y.dst);
        CodeInjective(s, y.src);
      case LoadImmediate(r) =>
        CodeInjective(r, y.r);
      case LoadFromHL(r) =>
        CodeInjective(r, y.r);
      case StoreToHL(r) =>
        CodeInjective(r, y.r);
      case _ =>
    }
  }

  /** Register codes are distinct. */
  lemma CodeInjective(r: Reg, r': Reg)
    ensures Code(r) == Code(r') ==> r == r'
  {
  }

  /** The register-to-register copies whose opcode is one of 0x40, 0x49,
      0x52, 0x5B, 0x64, 0x6D, 0x7F are exactly the self-copies. */
  lemma SelfCopyOpcodes(dst: Reg, src: Reg)
    ensures dst == src <==> Opcode(LoadRegister(dst, src)) in {0x40, 0x49, 0x52, 0x5B, 0x64, 0x6D, 0x7F}
  {
  }

  /** Of all the handlers, only NOP's opcode is decoded by `execute`: each
      load handler's opcode is reported as unimplemented. */
  lemma OnlyNopDecoded(hd: Handler, s: Regs)
    ensures Semantics.Execute(s, Opcode(hd)).0.Ok? <==> hd == Nop
  {
    OpcodesDistinct(hd, Nop);
  }
}
