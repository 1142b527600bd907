/** `CpuState`: the register file, the program counter and the cycle
    counter. */
module Cpu {
  import opened Registers

  /** The cycle counter is a `u64` in the source; it is a `nat` here (see
      the README for why its overflow is not modelled). */
  datatype CpuState = CpuState(registers: RegisterFile, pc: bv32, cycles: nat)

  /** `CpuState::new`: registers zero, pc zero, no cycles counted. */
  function New(): (c: CpuState)
    ensures c.pc == 0 && c.cycles == 0
    ensures forall r: RegisterIndex :: ReadRegister(c, r) == 0
  {
    CpuState(Registers.New(), 0, 0)
  }

  /** `CpuState::reset`: back to the state `New` builds, whatever the state
      was. */
  function Reset(c: CpuState): (c': CpuState)
    ensures c' == New()
  {
    CpuState(Registers.Reset(c.registers), 0, 0)
  }

  /** `CpuState::read_register`. */
  function ReadRegister(c: CpuState, index: RegisterIndex): (v: bv32)
    ensures index == 0 ==> v == 0
  {
    Read(c.registers, index)
  }

  /** `CpuState::write_register`: only the named register can change, and
      never x0; pc and cycles are untouched. */
  function WriteRegister(c: CpuState, index: RegisterIndex, value: bv32): (c': CpuState)
    ensures c'.pc == c.pc && c'.cycles == c.cycles
    ensures ReadRegister(c', index) == (if index == 0 then 0 else value)
    ensures forall r: RegisterIndex :: r != index ==> ReadRegister(c', r) == ReadRegister(c, r)
  {
    c.(registers := Write(c.registers, index, value))
  }

  /** `CpuState::increment_pc`: the next sequential instruction, wrapping
      at 2^32, and one more cycle. */
  function IncrementPc(c: CpuState): (c': CpuState)
    ensures c'.registers == c.registers
    ensures c'.cycles == c.cycles + 1
    ensures c'.pc - c.pc == 4
  {
    c.(pc := c.pc + 4, cycles := c.cycles + 1)
  }

  /** `CpuState::set_pc`: a jump, which also counts a cycle. */
  function SetPc(c: CpuState, pc: bv32): (c': CpuState)
    ensures c'.registers == c.registers
    ensures c'.pc == pc
    ensures c'.cycles == c.cycles + 1
  {
    c.(pc := pc, cycles := c.cycles + 1)
  }

  /** Falling through is a jump to the next sequential address. */
  lemma IncrementIsSetNext(c: CpuState)
    ensures IncrementPc(c) == SetPc(c, c.pc + 4)
  {
  }
}
