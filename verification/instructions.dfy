/** The closed set of RV32I operations the machine executes, and the
    encoding format each one belongs to. */
module Instructions {
  import opened Registers
  import opened Words

  /** A shift amount: the five low bits of an immediate. */
  type Shamt = s: bv32 | s < 32

  /** One decoded instruction. Every `imm` is the bit pattern of the
      source's `i32` immediate, already sign-extended to 32 bits. */
  datatype Instruction =
    // Register-register arithmetic
    | Add(rd: RegisterIndex, rs1: RegisterIndex, rs2: RegisterIndex)
    | Sub(rd: RegisterIndex, rs1: RegisterIndex, rs2: RegisterIndex)
    | Slt(rd: RegisterIndex, rs1: RegisterIndex, rs2: RegisterIndex)
    | Sltu(rd: RegisterIndex, rs1: RegisterIndex, rs2: RegisterIndex)
    | And(rd: RegisterIndex, rs1: RegisterIndex, rs2: RegisterIndex)
    | Or(rd: RegisterIndex, rs1: RegisterIndex, rs2: RegisterIndex)
    | Xor(rd: RegisterIndex, rs1: RegisterIndex, rs2: RegisterIndex)
    | Sll(rd: RegisterIndex, rs1: RegisterIndex, rs2: RegisterIndex)
    | Srl(rd: RegisterIndex, rs1: RegisterIndex, rs2: RegisterIndex)
    | Sra(rd: RegisterIndex, rs1: RegisterIndex, rs2: RegisterIndex)
    // Register-immediate arithmetic
    | Addi(rd: RegisterIndex, rs1: RegisterIndex, imm: bv32)
    | Slti(rd: RegisterIndex, rs1: RegisterIndex, imm: bv32)
    | Sltiu(rd: RegisterIndex, rs1: RegisterIndex, imm: bv32)
    | Andi(rd: RegisterIndex, rs1: RegisterIndex, imm: bv32)
    | Ori(rd: RegisterIndex, rs1: RegisterIndex, imm: bv32)
    | Xori(rd: RegisterIndex, rs1: RegisterIndex, imm: bv32)
    | Slli(rd: RegisterIndex, rs1: RegisterIndex, shamt: Shamt)
    | Srli(rd: RegisterIndex, rs1: RegisterIndex, shamt: Shamt)
    | Srai(rd: RegisterIndex, rs1: RegisterIndex, shamt: Shamt)
    // Loads
    | Lb(rd: RegisterIndex, rs1: RegisterIndex, imm: bv32)
    | Lh(rd: RegisterIndex, rs1: RegisterIndex, imm: bv32)
    | Lw(rd: RegisterIndex, rs1: RegisterIndex, imm: bv32)
    | Lbu(rd: RegisterIndex, rs1: RegisterIndex, imm: bv32)
    | Lhu(rd: RegisterIndex, rs1: RegisterIndex, imm: bv32)
    // Stores
    | Sb(rs1: RegisterIndex, rs2: RegisterIndex, imm: bv32)
    | Sh(rs1: RegisterIndex, rs2: RegisterIndex, imm: bv32)
    | Sw(rs1: RegisterIndex, rs2: RegisterIndex, imm: bv32)
    // Branches
    | Beq(rs1: RegisterIndex, rs2: RegisterIndex, imm: bv32)
    | Bne(rs1: RegisterIndex, rs2: RegisterIndex, imm: bv32)
    | Blt(rs1: RegisterIndex, rs2: RegisterIndex, imm: bv32)
    | Bge(rs1: RegisterIndex, rs2: RegisterIndex, imm: bv32)
    | Bltu(rs1: RegisterIndex, rs2: RegisterIndex, imm: bv32)
    | Bgeu(rs1: RegisterIndex, rs2: RegisterIndex, imm: bv32)
    // Jumps
    | Jal(rd: RegisterIndex, imm: bv32)
    | Jalr(rd: RegisterIndex, rs1: RegisterIndex, imm: bv32)
    // Upper immediates
    | Lui(rd: RegisterIndex, imm: bv32)
    | Auipc(rd: RegisterIndex, imm: bv32)
    // System
    | Ecall
    | Ebreak

  /** The six base encoding formats of RV32I. */
  datatype InstructionFormat = R | I | S | B | U | J

  predicate IsRegisterArithmetic(i: Instruction) {
    i.Add? || i.Sub? || i.Slt? || i.Sltu? || i.And? || i.Or? || i.Xor? || i.Sll? || i.Srl? || i.Sra?
  }

  predicate IsImmediateArithmetic(i: Instruction) {
    i.Addi? || i.Slti? || i.Sltiu? || i.Andi? || i.Ori? || i.Xori?
  }

  predicate IsShiftImmediate(i: Instruction) {
    i.Slli? || i.Srli? || i.Srai?
  }

  predicate IsLoad(i: Instruction) {
    i.Lb? || i.Lh? || i.Lw? || i.Lbu? || i.Lhu?
  }

  predicate IsStore(i: Instruction) {
    i.Sb? || i.Sh? || i.Sw?
  }

  predicate IsBranch(i: Instruction) {
    i.Beq? || i.Bne? || i.Blt? || i.Bge? || i.Bltu? || i.Bgeu?
  }

  predicate IsUpperImmediate(i: Instruction) {
    i.Lui? || i.Auipc?
  }

  predicate IsSystem(i: Instruction) {
    i.Ecall? || i.Ebreak?
  }

  /** `Instruction::format`, by instruction group: register arithmetic is
      R, stores S, branches B, lui and auipc U, jal J; everything else
      (immediate arithmetic, immediate shifts, loads, jalr, and ecall and
      ebreak too) is reported as I. */
  function Format(i: Instruction): (f: InstructionFormat)
    ensures IsSystem(i) ==> f == I
    ensures f == J <==> i.Jal?
  {
    if IsRegisterArithmetic(i) then R
    else if IsStore(i) then S
    else if IsBranch(i) then B
    else if IsUpperImmediate(i) then U
    else if i.Jal? then J
    else I
  }

  /** The formats by instruction group: register arithmetic is R;
      immediate arithmetic, immediate shifts, loads and jalr are I; stores
      are S; branches are B; lui and auipc are U; jal is J; the system
      instructions are I. */
  lemma FormatByGroup(i: Instruction)
    ensures IsRegisterArithmetic(i) <==> Format(i) == R
    ensures IsImmediateArithmetic(i) || IsShiftImmediate(i) || IsLoad(i) || i.Jalr? ==> Format(i) == I
    ensures IsSystem(i) ==> Format(i) == I
    ensures IsStore(i) <==> Format(i) == S
    ensures IsBranch(i) <==> Format(i) == B
    ensures IsUpperImmediate(i) <==> Format(i) == U
    ensures i.Jal? <==> Format(i) == J
  {
  }

  /** The immediates an RV32I encoding can carry: 12-bit signed for the I
      and S formats, even 13-bit signed for B, even 21-bit signed for J, and
      the upper 20 bits for U. Register-register operations and traps carry
      none. */
  predicate WellFormed(i: Instruction) {
    match i
    case Addi(_, _, imm) => FitsSigned12(imm)
    case Slti(_, _, imm) => FitsSigned12(imm)
    case Sltiu(_, _, imm) => FitsSigned12(imm)
    case Andi(_, _, imm) => FitsSigned12(imm)
    case Ori(_, _, imm) => FitsSigned12(imm)
    case Xori(_, _, imm) => FitsSigned12(imm)
    case Lb(_, _, imm) => FitsSigned12(imm)
    case Lh(_, _, imm) => FitsSigned12(imm)
    case Lw(_, _, imm) => FitsSigned12(imm)
    case Lbu(_, _, imm) => FitsSigned12(imm)
    case Lhu(_, _, imm) => FitsSigned12(imm)
    case Jalr(_, _, imm) => FitsSigned12(imm)
    case Sb(_, _, imm) => FitsSigned12(imm)
    case Sh(_, _, imm) => FitsSigned12(imm)
    case Sw(_, _, imm) => FitsSigned12(imm)
    case Beq(_, _, imm) => FitsSigned13(imm) && imm & 1 == 0
    case Bne(_, _, imm) => FitsSigned13(imm) && imm & 1 == 0
    case Blt(_, _, imm) => FitsSigned13(imm) && imm & 1 == 0
    case Bge(_, _, imm) => FitsSigned13(imm) && imm & 1 == 0
    case Bltu(_, _, imm) => FitsSigned13(imm) && imm & 1 == 0
    case Bgeu(_, _, imm) => FitsSigned13(imm) && imm & 1 == 0
    case Jal(_, imm) => FitsSigned21(imm) && imm & 1 == 0
    case Lui(_, imm) => imm & 0xFFF == 0
    case Auipc(_, imm) => imm & 0xFFF == 0
    case _ => true
  }
}
