/** What the engine's operations do, as functions from the register file
    and the memory contents to their results. The `Cpu` class implements
    each of them step by step and is proved equal to it; the lemmas here
    state what the operations promise. */
module Semantics {
  import opened Bytes
  import opened Ram
  import opened Registers

  /** The one failure the engine reports: a fetched opcode with no
      handler (the source raises `NotImplementedError` naming it). */
  datatype Fault = UnimplementedOpcode(opcode: int)

  datatype Result<T> = Ok(value: T) | Err(error: Fault)

  /** `fetch_byte`: the byte at PC, and PC advanced by one mod 65536, so
      0xFFFF wraps to 0x0000; nothing else changes. */
  function FetchByte(s: Regs, m: Image): (r: (Byte, Regs))
    ensures r.0 == m[s.pc]
    ensures r.1 == s.(pc := if s.pc == 0xFFFF then 0 else s.pc + 1)
  {
    (Load(m, s.pc), s.(pc := Wrap16(s.pc + 1)))
  }

  /** `fetch_word`: two fetches, low byte first, joined high byte first.
      The word is little-endian, `(mem[PC + 1] << 8) | mem[PC]` with both
      addresses mod 65536, and PC advances by two mod 65536; nothing else
      changes. */
  function FetchWord(s: Regs, m: Image): (r: (Word, Regs))
    ensures r == (Join(Load(m, s.pc + 1), Load(m, s.pc)), s.(pc := Wrap16(s.pc + 2)))
  {
    Wrap16Add(s.pc, 1, 0);
    Wrap16Add(s.pc, 1, 1);
    var (low, s1) := FetchByte(s, m);
    var (high, s2) := FetchByte(s1, m);
    (Join(high, low), s2)
  }

  /** `push_stack`: SP down by one, the high byte written there, SP down by
      one again, the low byte written there. So SP drops by two mod 65536,
      the high byte of `value` sits at old SP - 1 and the low byte at old
      SP - 2 (both mod 65536), and no other cell or register changes. */
  function Push(s: Regs, m: Image, value: int): (r: (Regs, Image))
    ensures r.0 == s.(sp := Wrap16(s.sp - 2))
    ensures r.1[Wrap16(s.sp - 1)] == Hi(value) && r.1[Wrap16(s.sp - 2)] == Lo(value)
    ensures forall i :: 0 <= i < Size && i != Wrap16(s.sp - 1) && i != Wrap16(s.sp - 2) ==>
      r.1[i] == m[i]
  {
    Wrap16Add(s.sp, -1, -1);
    assert Wrap16(s.sp - 1) != Wrap16(s.sp - 2) by {
      Wrap16Add(s.sp - 2, 1, 0);
    }
    var sp1 := Wrap16(s.sp - 1);
    var m1 := Store(m, sp1, Hi(value));
    var sp2 := Wrap16(sp1 - 1);
    var m2 := Store(m1, sp2, Lo(value));
    (s.(sp := sp2), m2)
  }

  /** `pop_stack`: the low byte read at SP, SP up by one, the high byte
      read there, SP up by one again. The word is
      `(mem[SP + 1] << 8) | mem[SP]` with both addresses mod 65536, SP
      rises by two mod 65536, and nothing else changes. */
  function Pop(s: Regs, m: Image): (r: (Word, Regs))
    ensures r == (Join(Load(m, s.sp + 1), Load(m, s.sp)), s.(sp := Wrap16(s.sp + 2)))
  {
    Wrap16Add(s.sp, 1, 0);
    Wrap16Add(s.sp, 1, 1);
    var low := Load(m, s.sp);
    var sp1 := Wrap16(s.sp + 1);
    var high := Load(m, sp1);
    var sp2 := Wrap16(sp1 + 1);
    (Join(high, low), s.(sp := sp2))
  }

  /** `execute`: opcode 0x00 (NOP) succeeds and sets the cycle count to 4;
      every other opcode fails naming itself and changes nothing. */
  function Execute(s: Regs, opcode: int): (r: (Result<()>, Regs))
    ensures r.0.Ok? <==> opcode == 0x00
    ensures r.0.Ok? ==> r.1 == s.(cycles := 4)
    ensures r.0.Err? ==> r.0.error == UnimplementedOpcode(opcode) && r.1 == s
  {
    if opcode == 0x00 then (Ok(()), s.(cycles := 4))
    else (Err(UnimplementedOpcode(opcode)), s)
  }

  /** `step`: a halted CPU reports 4 cycles and does nothing else;
      otherwise the opcode is fetched, the cycle count reset to 0 and the
      opcode executed, and the step reports the cycle count or the
      failure. A step fails exactly when the CPU is running and the byte
      at PC is not 0x00, naming that byte; a step that succeeds reports 4
      cycles; only PC and the cycle count can change. */
  function Step(s: Regs, m: Image): (r: (Result<nat>, Regs))
    ensures r.0.Err? <==> !s.halted && m[s.pc] != 0x00
    ensures r.0.Err? ==> r.0.error == UnimplementedOpcode(m[s.pc])
    ensures r.0.Ok? ==> r.0.value == 4
    ensures r.1.(pc := s.pc, cycles := s.cycles) == s
    ensures s.halted ==> r.1 == s
    ensures !s.halted ==> r.1.pc == Wrap16(s.pc + 1) && r.1.cycles == (if m[s.pc] == 0x00 then 4 else 0)
  {
    if s.halted then (Ok(4), s)
    else
      var (opcode, s1) := FetchByte(s, m);
      var (status, s2) := Execute(s1.(cycles := 0), opcode);
      (if status.Ok? then Ok(s2.cycles) else Err(status.error), s2)
  }

  /** Stack inverse law: a push followed at once by a pop returns the
      pushed value masked to 16 bits and restores every register,
      whatever SP was, including SP 0x0000 and 0x0001 where the push
      wraps. */
  lemma {:induction false} PopAfterPush(s: Regs, m: Image, value: int)
    ensures Pop(Push(s, m, value).0, Push(s, m, value).1) == (Wrap16(value), s)
  {
    var (t, m') := Push(s, m, value);
    var below: int := Wrap16(s.sp - 2);
    assert t.sp == below;
    assert Load(m', t.sp) == Lo(value) by {
      Wrap16Add(s.sp, -2, 0);
    }
    assert Load(m', t.sp + 1) == Hi(value) by {
      Wrap16Add(s.sp, -2, 1);
    }
    assert Wrap16(t.sp + 2) == s.sp by {
      Wrap16Add(s.sp, -2, 2);
      ModUnique(s.sp, 0, s.sp);
    }
    SplitJoin(value);
  }

  /** The other direction: a pop followed at once by a push of the popped
      value leaves registers and memory as they were. */
  lemma {:induction false} PushAfterPop(s: Regs, m: Image)
    ensures Push(Pop(s, m).1, m, Pop(s, m).0) == (s, m)
  {
    var (w, t) := Pop(s, m);
    var lo, hi := Load(m, s.sp), Load(m, s.sp + 1);
    JoinSplit(hi, lo);
    var sp1: int := Wrap16(t.sp - 1);
    assert sp1 == Wrap16(s.sp + 1) by { Wrap16Add(s.sp, 2, -1); }
    assert Wrap16(sp1 - 1) == s.sp by {
      Wrap16Add(s.sp, 1, -1);
      ModUnique(s.sp, 0, s.sp);
    }
    assert Hi(w) == Load(m, sp1) by { LoadWraps(m, s.sp + 1); }
    StoreLoaded(m, sp1);
    StoreLoaded(m, s.sp);
  }
}
