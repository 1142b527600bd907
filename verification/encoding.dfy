/** A reference encoder following the base instruction formats of the
    RISC-V Unprivileged ISA (section 2.2, "Base Instruction Formats", and
    section 2.3, "Immediate Encoding Variants"). The machine itself never
    encodes; the encoder is the independent definition the decoder is
    checked against. */
module Encoding {
  import opened Errors
  import opened Registers
  import opened Instructions

  function RType(opcode: bv32, funct3: bv32, funct7: bv32, rd: RegisterIndex, rs1: RegisterIndex, rs2: RegisterIndex): bv32 {
    (funct7 << 25) | ((rs2 as bv32) << 20) | ((rs1 as bv32) << 15) | (funct3 << 12) | ((rd as bv32) << 7) | opcode
  }

  function IType(opcode: bv32, funct3: bv32, rd: RegisterIndex, rs1: RegisterIndex, imm: bv32): bv32 {
    ((imm & 0xFFF) << 20) | ((rs1 as bv32) << 15) | (funct3 << 12) | ((rd as bv32) << 7) | opcode
  }

  function SType(opcode: bv32, funct3: bv32, rs1: RegisterIndex, rs2: RegisterIndex, imm: bv32): bv32 {
    (((imm >> 5) & 0x7F) << 25) | ((rs2 as bv32) << 20) | ((rs1 as bv32) << 15) | (funct3 << 12)
    | ((imm & 0x1F) << 7) | opcode
  }

  function BType(opcode: bv32, funct3: bv32, rs1: RegisterIndex, rs2: RegisterIndex, imm: bv32): bv32 {
    (((imm >> 12) & 1) << 31) | (((imm >> 5) & 0x3F) << 25) | ((rs2 as bv32) << 20) | ((rs1 as bv32) << 15)
    | (funct3 << 12) | (((imm >> 1) & 0xF) << 8) | (((imm >> 11) & 1) << 7) | opcode
  }

  function UType(opcode: bv32, rd: RegisterIndex, imm: bv32): bv32 {
    (imm & 0xFFFF_F000) | ((rd as bv32) << 7) | opcode
  }

  function JType(opcode: bv32, rd: RegisterIndex, imm: bv32): bv32 {
    (((imm >> 20) & 1) << 31) | (((imm >> 1) & 0x3FF) << 21) | (((imm >> 11) & 1) << 20)
    | (((imm >> 12) & 0xFF) << 12) | ((rd as bv32) << 7) | opcode
  }

  /** The major opcode (bits 6:0) of each instruction. */
  function Opcode(i: Instruction): bv32 {
    if IsRegisterArithmetic(i) then 0x33
    else if IsImmediateArithmetic(i) || IsShiftImmediate(i) then 0x13
    else if IsLoad(i) then 0x03
    else if IsStore(i) then 0x23
    else if IsBranch(i) then 0x63
    else if i.Jal? then 0x6F
    else if i.Jalr? then 0x67
    else if i.Lui? then 0x37
    else if i.Auipc? then 0x17
    else 0x73
  }

  /** The minor opcode (bits 14:12). */
  function Funct3(i: Instruction): bv32 {
    if i.Add? || i.Sub? || i.Addi? || i.Lb? || i.Sb? || i.Beq? || i.Jalr? then 0
    else if i.Sll? || i.Slli? || i.Lh? || i.Sh? || i.Bne? then 1
    else if i.Slt? || i.Slti? || i.Lw? || i.Sw? then 2
    else if i.Sltu? || i.Sltiu? then 3
    else if i.Xor? || i.Xori? || i.Lbu? || i.Blt? then 4
    else if i.Srl? || i.Sra? || i.Srli? || i.Srai? || i.Lhu? || i.Bge? then 5
    else if i.Or? || i.Ori? || i.Bltu? then 6
    else if i.And? || i.Andi? || i.Bgeu? then 7
    else 0
  }

  /** The R-type function field (bits 31:25): 0x20 selects sub and sra. */
  function Funct7(i: Instruction): bv32 {
    if i.Sub? || i.Sra? then 0x20 else 0x00
  }

  /** The 12-bit I-type immediate: the shift amount for slli and srli, the
      amount with bit 10 set for srai, the immediate of the other I-format
      instructions, and zero for everything else. */
  function IImmediate(i: Instruction): bv32 {
    if i.Slli? || i.Srli? then i.shamt
    else if i.Srai? then 0x400 | i.shamt
    else if IsImmediateArithmetic(i) || IsLoad(i) || i.Jalr? then i.imm
    else 0
  }

  /** The canonical RV32I encoding of an instruction: its opcode and
      function fields placed by its format. */
  function Encode(i: Instruction): bv32 {
    if i.Ecall? then 0x0000_0073
    else if i.Ebreak? then 0x0010_0073
    else
      match Format(i)
      case R => RType(0x33, Funct3(i), Funct7(i), i.rd, i.rs1, i.rs2)
      case I => IType(Opcode(i), Funct3(i), i.rd, i.rs1, IImmediate(i))
      case S => SType(0x23, Funct3(i), i.rs1, i.rs2, i.imm)
      case B => BType(0x63, Funct3(i), i.rs1, i.rs2, i.imm)
      case U => UType(Opcode(i), i.rd, i.imm)
      case J => JType(0x6F, i.rd, i.imm)
  }

  /** The encoding format the ISA's major-opcode map assigns to a 7-bit
      opcode (SYSTEM uses the I format), or None for an opcode outside
      RV32I. */
  function OpcodeFormat(opcode: bv32): Option<InstructionFormat> {
    if opcode == 0x33 then Some(R)
    else if opcode == 0x13 || opcode == 0x03 || opcode == 0x67 || opcode == 0x73 then Some(I)
    else if opcode == 0x23 then Some(S)
    else if opcode == 0x63 then Some(B)
    else if opcode == 0x37 || opcode == 0x17 then Some(U)
    else if opcode == 0x6F then Some(J)
    else None
  }

  /** The format of every instruction is the one the opcode map assigns
      to its opcode. */
  lemma FormatOfOpcode(i: Instruction)
    ensures OpcodeFormat(Opcode(i)) == Some(Format(i))
  {
  }
}
