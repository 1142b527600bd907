/** `Decoder::decode`: from a 32-bit instruction word to an `Instruction`,
    or `InvalidInstruction` carrying the word. */
module Decoder {
  import opened Errors
  import opened Words
  import opened Registers
  import opened Instructions

  /* The immediates, as the source assembles them from `(w as i32) >> k`
     shifts. An arithmetic shift by a constant is written as the logical
     shift with the sign copied into the vacated bits (SignFill); the lemmas
     ImmIAsShift and its siblings below state that this is the same value. */

  /** The I-type immediate: `(w as i32) >> 20`. */
  function ImmI(w: bv32): bv32 {
    (w >> 20) | (SignFill(w) << 12)
  }

  /** The S-type immediate: `((w as i32) >> 25) << 5 | (w >> 7) & 0x1f`. */
  function ImmS(w: bv32): bv32 {
    (((w >> 25) | (SignFill(w) << 7)) << 5) | ((w >> 7) & 0x1f)
  }

  /** The B-type immediate: `((w as i32) >> 31) << 12` for the sign, then
      bits 7, 30:25 and 11:8 of the word as immediate bits 11, 10:5, 4:1. */
  function ImmB(w: bv32): bv32 {
    (SignFill(w) << 12)
    | (((w >> 7) & 1) << 11)
    | (((w >> 25) & 0x3f) << 5)
    | (((w >> 8) & 0xf) << 1)
  }

  /** The J-type immediate: `((w as i32) >> 31) << 20` for the sign, then
      bits 19:12, 20 and 30:21 of the word as immediate bits 19:12, 11, 10:1. */
  function ImmJ(w: bv32): bv32 {
    (SignFill(w) << 20)
    | (((w >> 12) & 0xff) << 12)
    | (((w >> 20) & 1) << 11)
    | (((w >> 21) & 0x3ff) << 1)
  }

  /** The U-type immediate: `w & 0xfffff000`. */
  function ImmU(w: bv32): bv32 {
    w & 0xffff_f000
  }

  /* The immediates are the source's expressions over arithmetic shifts. */
  lemma ImmIAsShift(w: bv32)
    ensures ImmI(w) == ShiftRightArithmetic(w, 20)
  {
    ShiftRightArithmetic20(w);
  }

  lemma ImmSAsShift(w: bv32)
    ensures ImmS(w) == (ShiftRightArithmetic(w, 25) << 5) | ((w >> 7) & 0x1f)
  {
    ShiftRightArithmetic25(w);
  }

  lemma ImmBAsShift(w: bv32)
    ensures ImmB(w) == (ShiftRightArithmetic(w, 31) << 12) | (((w >> 7) & 1) << 11)
                       | (((w >> 25) & 0x3f) << 5) | (((w >> 8) & 0xf) << 1)
  {
    ShiftRightArithmetic31(w);
  }

  lemma ImmJAsShift(w: bv32)
    ensures ImmJ(w) == (ShiftRightArithmetic(w, 31) << 20) | (((w >> 12) & 0xff) << 12)
                       | (((w >> 20) & 1) << 11) | (((w >> 21) & 0x3ff) << 1)
  {
    ShiftRightArithmetic31(w);
  }

  /** The I-type immediate is bits 31:20 sign-extended: its low 12 bits are
      that field and, read as an `i32`, it lies in [-2048, 2047]. */
  lemma ImmIBits(w: bv32)
    ensures ImmI(w) & 0xFFF == w >> 20
    ensures FitsSigned12(ImmI(w))
  {
  }

  /** The S-type immediate is bits 31:25 joined to bits 11:7, sign-extended:
      it lies in [-2048, 2047]. */
  lemma ImmSBits(w: bv32)
    ensures ImmS(w) & 0x1F == (w >> 7) & 0x1F
    ensures (ImmS(w) >> 5) & 0x7F == w >> 25
    ensures FitsSigned12(ImmS(w))
  {
  }

  /** The B-type immediate is even, its bits 12, 11, 10:5 and 4:1 are word
      bits 31, 7, 30:25 and 11:8, and it lies in [-4096, 4094]. */
  lemma ImmBBits(w: bv32)
    ensures ImmB(w) & 1 == 0
    ensures (ImmB(w) >> 12) & 1 == w >> 31
    ensures (ImmB(w) >> 11) & 1 == (w >> 7) & 1
    ensures (ImmB(w) >> 5) & 0x3F == (w >> 25) & 0x3F
    ensures (ImmB(w) >> 1) & 0xF == (w >> 8) & 0xF
    ensures FitsSigned13(ImmB(w))
  {
  }

  /** The J-type immediate is even, its bits 20, 19:12, 11 and 10:1 are
      word bits 31, 19:12, 20 and 30:21, and it lies in [-2^20, 2^20 - 2]. */
  lemma ImmJBits(w: bv32)
    ensures ImmJ(w) & 1 == 0
    ensures (ImmJ(w) >> 20) & 1 == w >> 31
    ensures (ImmJ(w) >> 12) & 0xFF == (w >> 12) & 0xFF
    ensures (ImmJ(w) >> 11) & 1 == (w >> 20) & 1
    ensures (ImmJ(w) >> 1) & 0x3FF == (w >> 21) & 0x3FF
    ensures FitsSigned21(ImmJ(w))
  {
  }

  /** The U-type immediate keeps the top 20 bits in place and clears the
      low 12. */
  lemma ImmUBits(w: bv32)
    ensures ImmU(w) & 0xFFF == 0
    ensures ImmU(w) >> 12 == w >> 12
  {
  }

  /** `RegisterIndex::from_u32(field).ok_or(InvalidInstruction(w))`. */
  function RegisterField(w: bv32, field: bv32): (r: Result<RegisterIndex>)
    ensures field <= 31 <==> r.Ok?
    ensures r.Ok? ==> r.value as bv32 == field
    ensures r.Err? ==> r.error == InvalidInstruction(w)
  {
    match FromU32(field)
    case Some(index) => Ok(index)
    case None => Err(InvalidInstruction(w))
  }

  /** Decodes one instruction word. Any opcode, funct3 or funct7 outside
      the supported set is rejected with the word itself. */
  function Decode(w: bv32): (r: Result<Instruction>)
    ensures r.Err? ==> r.error == InvalidInstruction(w)
  {
    match RegisterField(w, (w >> 7) & 0x1f)
    case Err(e) => Err(e)
    case Ok(rd) =>
    match RegisterField(w, (w >> 15) & 0x1f)
    case Err(e) => Err(e)
    case Ok(rs1) =>
    match RegisterField(w, (w >> 20) & 0x1f)
    case Err(e) => Err(e)
    case Ok(rs2) =>
    DecodeFields(w, rd, rs1, rs2)
  }

  /** The dispatch on opcode once the three register fields have been
      validated; each opcode group then dispatches on funct3 (and funct7). */
  function DecodeFields(w: bv32, rd: RegisterIndex, rs1: RegisterIndex, rs2: RegisterIndex): Result<Instruction> {
    var opcode := w & 0x7f;
    var funct3 := (w >> 12) & 0x7;
    if opcode == 0x33 then DecodeRegisterOp(w, funct3, (w >> 25) & 0x7f, rd, rs1, rs2)
    else if opcode == 0x13 then DecodeImmediateOp(w, funct3, rd, rs1, ImmI(w), (w >> 20) & 0x1f, (w >> 30) & 1)
    else if opcode == 0x03 then DecodeLoad(w, funct3, rd, rs1, ImmI(w))
    else if opcode == 0x23 then DecodeStore(w, funct3, rs1, rs2, ImmS(w))
    else if opcode == 0x63 then DecodeBranch(w, funct3, rs1, rs2, ImmB(w))
    else if opcode == 0x6f then Ok(Jal(rd, ImmJ(w)))
    else if opcode == 0x67 then
      if funct3 == 0x0 then Ok(Jalr(rd, rs1, ImmI(w))) else Err(InvalidInstruction(w))
    else if opcode == 0x37 then Ok(Lui(rd, ImmU(w)))
    else if opcode == 0x17 then Ok(Auipc(rd, ImmU(w)))
    else if opcode == 0x73 then DecodeSystem(w, funct3)
    else Err(InvalidInstruction(w))
  }

  /** Opcode 0x33: the (funct3, funct7) pairs of the ten R-type operations. */
  function DecodeRegisterOp(w: bv32, funct3: bv32, funct7: bv32, rd: RegisterIndex, rs1: RegisterIndex, rs2: RegisterIndex): Result<Instruction> {
    if funct3 == 0x0 && funct7 == 0x00 then Ok(Add(rd, rs1, rs2))
    else if funct3 == 0x0 && funct7 == 0x20 then Ok(Sub(rd, rs1, rs2))
    else if funct3 == 0x1 && funct7 == 0x00 then Ok(Sll(rd, rs1, rs2))
    else if funct3 == 0x2 && funct7 == 0x00 then Ok(Slt(rd, rs1, rs2))
    else if funct3 == 0x3 && funct7 == 0x00 then Ok(Sltu(rd, rs1, rs2))
    else if funct3 == 0x4 && funct7 == 0x00 then Ok(Xor(rd, rs1, rs2))
    else if funct3 == 0x5 && funct7 == 0x00 then Ok(Srl(rd, rs1, rs2))
    else if funct3 == 0x5 && funct7 == 0x20 then Ok(Sra(rd, rs1, rs2))
    else if funct3 == 0x6 && funct7 == 0x00 then Ok(Or(rd, rs1, rs2))
    else if funct3 == 0x7 && funct7 == 0x00 then Ok(And(rd, rs1, rs2))
    else Err(InvalidInstruction(w))
  }

  /** Opcode 0x13: every funct3 is accepted. The shifts take bits 24:20 as
      the amount, and funct3 5 picks srai when bit 30 is set, srli
      otherwise; the other bits of funct7 are not examined. */
  function DecodeImmediateOp(w: bv32, funct3: bv32, rd: RegisterIndex, rs1: RegisterIndex, imm: bv32, shamt: Shamt, bit30: bv32): Result<Instruction>
    requires funct3 <= 7
  {
    if funct3 == 0x0 then Ok(Addi(rd, rs1, imm))
    else if funct3 == 0x1 then Ok(Slli(rd, rs1, shamt))
    else if funct3 == 0x2 then Ok(Slti(rd, rs1, imm))
    else if funct3 == 0x3 then Ok(Sltiu(rd, rs1, imm))
    else if funct3 == 0x4 then Ok(Xori(rd, rs1, imm))
    else if funct3 == 0x5 then
      if bit30 == 0 then Ok(Srli(rd, rs1, shamt)) else Ok(Srai(rd, rs1, shamt))
    else if funct3 == 0x6 then Ok(Ori(rd, rs1, imm))
    else Ok(Andi(rd, rs1, imm))
  }

  /** Opcode 0x03: the five load widths. */
  function DecodeLoad(w: bv32, funct3: bv32, rd: RegisterIndex, rs1: RegisterIndex, imm: bv32): Result<Instruction> {
    if funct3 == 0x0 then Ok(Lb(rd, rs1, imm))
    else if funct3 == 0x1 then Ok(Lh(rd, rs1, imm))
    else if funct3 == 0x2 then Ok(Lw(rd, rs1, imm))
    else if funct3 == 0x4 then Ok(Lbu(rd, rs1, imm))
    else if funct3 == 0x5 then Ok(Lhu(rd, rs1, imm))
    else Err(InvalidInstruction(w))
  }

  /** Opcode 0x23: the three store widths. */
  function DecodeStore(w: bv32, funct3: bv32, rs1: RegisterIndex, rs2: RegisterIndex, imm: bv32): Result<Instruction> {
    if funct3 == 0x0 then Ok(Sb(rs1, rs2, imm))
    else if funct3 == 0x1 then Ok(Sh(rs1, rs2, imm))
    else if funct3 == 0x2 then Ok(Sw(rs1, rs2, imm))
    else Err(InvalidInstruction(w))
  }

  /** Opcode 0x63: the six branch conditions. */
  function DecodeBranch(w: bv32, funct3: bv32, rs1: RegisterIndex, rs2: RegisterIndex, imm: bv32): Result<Instruction> {
    if funct3 == 0x0 then Ok(Beq(rs1, rs2, imm))
    else if funct3 == 0x1 then Ok(Bne(rs1, rs2, imm))
    else if funct3 == 0x4 then Ok(Blt(rs1, rs2, imm))
    else if funct3 == 0x5 then Ok(Bge(rs1, rs2, imm))
    else if funct3 == 0x6 then Ok(Bltu(rs1, rs2, imm))
    else if funct3 == 0x7 then Ok(Bgeu(rs1, rs2, imm))
    else Err(InvalidInstruction(w))
  }

  /** Opcode 0x73: only the two exact words of ecall and ebreak. */
  function DecodeSystem(w: bv32, funct3: bv32): Result<Instruction> {
    if funct3 == 0x0 then
      if w == 0x0000_0073 then Ok(Ecall)
      else if w == 0x0010_0073 then Ok(Ebreak)
      else Err(InvalidInstruction(w))
    else Err(InvalidInstruction(w))
  }
}
