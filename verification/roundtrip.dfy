/** The decoder against the reference encoder: decoding the canonical
    encoding of any well-formed instruction gives that instruction back,
    and every accepted word is the canonical encoding of what it decodes
    to, up to the bits the decoder ignores. */
module RoundTrip {
  import opened Errors
  import opened Words
  import opened Registers
  import opened Instructions
  import opened Encoding
  import opened Decoder

  /** The fields of an R-type word are where the format puts them. */
  lemma RTypeFields(opcode: bv32, funct3: bv32, funct7: bv32, rd: RegisterIndex, rs1: RegisterIndex, rs2: RegisterIndex)
    requires opcode <= 0x7F && funct3 <= 7 && funct7 <= 0x7F
    ensures var w := RType(opcode, funct3, funct7, rd, rs1, rs2);
      && w & 0x7f == opcode
      && (w >> 7) & 0x1f == rd as bv32
      && (w >> 12) & 0x7 == funct3
      && (w >> 15) & 0x1f == rs1 as bv32
      && (w >> 20) & 0x1f == rs2 as bv32
      && (w >> 25) & 0x7f == funct7
  {
  }

  /** The fields of an I-type word, and its immediate read back by ImmI. */
  lemma ITypeFields(opcode: bv32, funct3: bv32, rd: RegisterIndex, rs1: RegisterIndex, imm: bv32)
    requires opcode <= 0x7F && funct3 <= 7 && FitsSigned12(imm)
    ensures var w := IType(opcode, funct3, rd, rs1, imm);
      && w & 0x7f == opcode
      && (w >> 7) & 0x1f == rd as bv32
      && (w >> 12) & 0x7 == funct3
      && (w >> 15) & 0x1f == rs1 as bv32
      && (w >> 20) & 0x1f == imm & 0x1f
      && (w >> 30) & 1 == (imm >> 10) & 1
      && ImmI(w) == imm
  {
  }

  /** The fields of an S-type word, and its immediate read back by ImmS. */
  lemma STypeFields(opcode: bv32, funct3: bv32, rs1: RegisterIndex, rs2: RegisterIndex, imm: bv32)
    requires opcode <= 0x7F && funct3 <= 7 && FitsSigned12(imm)
    ensures var w := SType(opcode, funct3, rs1, rs2, imm);
      && w & 0x7f == opcode
      && (w >> 12) & 0x7 == funct3
      && (w >> 15) & 0x1f == rs1 as bv32
      && (w >> 20) & 0x1f == rs2 as bv32
      && ImmS(w) == imm
  {
  }

  /** The fields of a B-type word, and its immediate read back by ImmB. */
  lemma BTypeFields(opcode: bv32, funct3: bv32, rs1: RegisterIndex, rs2: RegisterIndex, imm: bv32)
    requires opcode <= 0x7F && funct3 <= 7 && FitsSigned13(imm) && imm & 1 == 0
    ensures var w := BType(opcode, funct3, rs1, rs2, imm);
      && w & 0x7f == opcode
      && (w >> 12) & 0x7 == funct3
      && (w >> 15) & 0x1f == rs1 as bv32
      && (w >> 20) & 0x1f == rs2 as bv32
      && ImmB(w) == imm
  {
  }

  /** The fields of a U-type word, and its immediate read back by ImmU. */
  lemma UTypeFields(opcode: bv32, rd: RegisterIndex, imm: bv32)
    requires opcode <= 0x7F && imm & 0xFFF == 0
    ensures var w := UType(opcode, rd, imm);
      && w & 0x7f == opcode
      && (w >> 7) & 0x1f == rd as bv32
      && ImmU(w) == imm
  {
  }

  /** The fields of a J-type word, and its immediate read back by ImmJ. */
  lemma JTypeFields(opcode: bv32, rd: RegisterIndex, imm: bv32)
    requires opcode <= 0x7F && FitsSigned21(imm) && imm & 1 == 0
    ensures var w := JType(opcode, rd, imm);
      && w & 0x7f == opcode
      && (w >> 7) & 0x1f == rd as bv32
      && ImmJ(w) == imm
  {
  }

  /** Every register field is in range, so decoding reduces to the
      dispatch on opcode and function fields. */
  lemma DecodeByFields(w: bv32)
    ensures Decode(w) == DecodeFields(w, RdField(w), Rs1Field(w), Rs2Field(w))
  {
  }

  function RdField(w: bv32): RegisterIndex {
    ((w >> 7) & 0x1f) as RegisterIndex
  }

  function Rs1Field(w: bv32): RegisterIndex {
    ((w >> 15) & 0x1f) as RegisterIndex
  }

  function Rs2Field(w: bv32): RegisterIndex {
    ((w >> 20) & 0x1f) as RegisterIndex
  }

  /* Decoding a word assembled in one of the formats: the decoder finds the
     opcode, the function fields, the registers and the immediate where
     the format put them. */

  lemma DecodeRType(funct3: bv32, funct7: bv32, rd: RegisterIndex, rs1: RegisterIndex, rs2: RegisterIndex)
    requires funct3 <= 7 && funct7 <= 0x7F
    ensures var w := RType(0x33, funct3, funct7, rd, rs1, rs2);
      Decode(w) == DecodeRegisterOp(w, funct3, funct7, rd, rs1, rs2)
  {
    RTypeFields(0x33, funct3, funct7, rd, rs1, rs2);
  }

  lemma DecodeOpImmType(funct3: bv32, rd: RegisterIndex, rs1: RegisterIndex, imm: bv32)
    requires funct3 <= 7 && FitsSigned12(imm)
    ensures var w := IType(0x13, funct3, rd, rs1, imm);
      Decode(w) == DecodeImmediateOp(w, funct3, rd, rs1, imm, imm & 0x1f, (imm >> 10) & 1)
  {
    ITypeFields(0x13, funct3, rd, rs1, imm);
  }

  lemma DecodeLoadType(funct3: bv32, rd: RegisterIndex, rs1: RegisterIndex, imm: bv32)
    requires funct3 <= 7 && FitsSigned12(imm)
    ensures var w := IType(0x03, funct3, rd, rs1, imm);
      Decode(w) == DecodeLoad(w, funct3, rd, rs1, imm)
  {
    ITypeFields(0x03, funct3, rd, rs1, imm);
  }

  lemma DecodeJalrType(rd: RegisterIndex, rs1: RegisterIndex, imm: bv32)
    requires FitsSigned12(imm)
    ensures Decode(IType(0x67, 0, rd, rs1, imm)) == Ok(Jalr(rd, rs1, imm))
  {
    ITypeFields(0x67, 0, rd, rs1, imm);
  }

  lemma DecodeSType(funct3: bv32, rs1: RegisterIndex, rs2: RegisterIndex, imm: bv32)
    requires funct3 <= 7 && FitsSigned12(imm)
    ensures var w := SType(0x23, funct3, rs1, rs2, imm);
      Decode(w) == DecodeStore(w, funct3, rs1, rs2, imm)
  {
    STypeFields(0x23, funct3, rs1, rs2, imm);
  }

  lemma DecodeBType(funct3: bv32, rs1: RegisterIndex, rs2: RegisterIndex, imm: bv32)
    requires funct3 <= 7 && FitsSigned13(imm) && imm & 1 == 0
    ensures var w := BType(0x63, funct3, rs1, rs2, imm);
      Decode(w) == DecodeBranch(w, funct3, rs1, rs2, imm)
  {
    BTypeFields(0x63, funct3, rs1, rs2, imm);
  }

  lemma DecodeUType(opcode: bv32, rd: RegisterIndex, imm: bv32)
    requires (opcode == 0x37 || opcode == 0x17) && imm & 0xFFF == 0
    ensures var w := UType(opcode, rd, imm);
      Decode(w) == (if opcode == 0x37 then Ok(Lui(rd, imm)) else Ok(Auipc(rd, imm)))
  {
    UTypeFields(opcode, rd, imm);
  }

  lemma DecodeJType(rd: RegisterIndex, imm: bv32)
    requires FitsSigned21(imm) && imm & 1 == 0
    ensures Decode(JType(0x6F, rd, imm)) == Ok(Jal(rd, imm))
  {
    JTypeFields(0x6F, rd, imm);
  }

  /* The dispatch tables of the decoder select exactly the instruction whose
     opcode and function fields the encoder writes. */

  lemma RegisterOpTable(w: bv32, i: Instruction)
    requires IsRegisterArithmetic(i)
    ensures DecodeRegisterOp(w, Funct3(i), Funct7(i), i.rd, i.rs1, i.rs2) == Ok(i)
  {
  }

  lemma ImmediateOpTable(w: bv32, i: Instruction, shamt: Shamt, bit30: bv32)
    requires IsImmediateArithmetic(i)
    ensures DecodeImmediateOp(w, Funct3(i), i.rd, i.rs1, i.imm, shamt, bit30) == Ok(i)
  {
  }

  lemma ShiftOpTable(w: bv32, i: Instruction, imm: bv32)
    requires IsShiftImmediate(i)
    ensures DecodeImmediateOp(w, Funct3(i), i.rd, i.rs1, imm, i.shamt, if i.Srai? then 1 else 0) == Ok(i)
  {
  }

  lemma LoadTable(w: bv32, i: Instruction)
    requires IsLoad(i)
    ensures DecodeLoad(w, Funct3(i), i.rd, i.rs1, i.imm) == Ok(i)
  {
  }

  lemma StoreTable(w: bv32, i: Instruction)
    requires IsStore(i)
    ensures DecodeStore(w, Funct3(i), i.rs1, i.rs2, i.imm) == Ok(i)
  {
  }

  lemma BranchTable(w: bv32, i: Instruction)
    requires IsBranch(i)
    ensures DecodeBranch(w, Funct3(i), i.rs1, i.rs2, i.imm) == Ok(i)
  {
  }

  /* Decoding the canonical encoding, one instruction group at a time. */

  lemma DecodeEncodeRegister(i: Instruction)
    requires IsRegisterArithmetic(i)
    ensures Decode(Encode(i)) == Ok(i)
  {
    assert Format(i) == R;
    var w := RType(0x33, Funct3(i), Funct7(i), i.rd, i.rs1, i.rs2);
    assert Encode(i) == w;
    DecodeRType(Funct3(i), Funct7(i), i.rd, i.rs1, i.rs2);
    RegisterOpTable(w, i);
  }

  lemma DecodeEncodeImmediate(i: Instruction)
    requires IsImmediateArithmetic(i) && WellFormed(i)
    ensures Decode(Encode(i)) == Ok(i)
  {
    assert Format(i) == I && Opcode(i) == 0x13 && IImmediate(i) == i.imm && FitsSigned12(i.imm);
    var w := IType(0x13, Funct3(i), i.rd, i.rs1, i.imm);
    assert Encode(i) == w;
    DecodeOpImmType(Funct3(i), i.rd, i.rs1, i.imm);
    ImmediateOpTable(w, i, i.imm & 0x1f, (i.imm >> 10) & 1);
  }

  lemma DecodeEncodeShift(i: Instruction)
    requires IsShiftImmediate(i)
    ensures Decode(Encode(i)) == Ok(i)
  {
    assert Format(i) == I && Opcode(i) == 0x13;
    var imm := IImmediate(i);
    assert imm & 0x1f == i.shamt && (imm >> 10) & 1 == (if i.Srai? then 1 else 0);
    var w := IType(0x13, Funct3(i), i.rd, i.rs1, imm);
    assert Encode(i) == w;
    DecodeOpImmType(Funct3(i), i.rd, i.rs1, imm);
    ShiftOpTable(w, i, imm);
  }

  lemma DecodeEncodeLoad(i: Instruction)
    requires IsLoad(i) && WellFormed(i)
    ensures Decode(Encode(i)) == Ok(i)
  {
    assert Format(i) == I && Opcode(i) == 0x03 && IImmediate(i) == i.imm && FitsSigned12(i.imm);
    var w := IType(0x03, Funct3(i), i.rd, i.rs1, i.imm);
    assert Encode(i) == w;
    DecodeLoadType(Funct3(i), i.rd, i.rs1, i.imm);
    LoadTable(w, i);
  }

  lemma DecodeEncodeStore(i: Instruction)
    requires IsStore(i) && WellFormed(i)
    ensures Decode(Encode(i)) == Ok(i)
  {
    assert Format(i) == S && FitsSigned12(i.imm);
    var w := SType(0x23, Funct3(i), i.rs1, i.rs2, i.imm);
    assert Encode(i) == w;
    DecodeSType(Funct3(i), i.rs1, i.rs2, i.imm);
    StoreTable(w, i);
  }

  lemma DecodeEncodeBranch(i: Instruction)
    requires IsBranch(i) && WellFormed(i)
    ensures Decode(Encode(i)) == Ok(i)
  {
    assert Format(i) == B && FitsSigned13(i.imm) && i.imm & 1 == 0;
    var w := BType(0x63, Funct3(i), i.rs1, i.rs2, i.imm);
    assert Encode(i) == w;
    DecodeBType(Funct3(i), i.rs1, i.rs2, i.imm);
    BranchTable(w, i);
  }

  lemma DecodeEncodeJump(i: Instruction)
    requires (i.Jal? || i.Jalr?) && WellFormed(i)
    ensures Decode(Encode(i)) == Ok(i)
  {
    if i.Jal? {
      assert Format(i) == J && Encode(i) == JType(0x6F, i.rd, i.imm);
      DecodeJType(i.rd, i.imm);
    } else {
      assert Format(i) == I && Opcode(i) == 0x67 && Funct3(i) == 0 && IImmediate(i) == i.imm;
      assert Encode(i) == IType(0x67, 0, i.rd, i.rs1, i.imm);
      DecodeJalrType(i.rd, i.rs1, i.imm);
    }
  }

  lemma DecodeEncodeUpper(i: Instruction)
    requires IsUpperImmediate(i) && WellFormed(i)
    ensures Decode(Encode(i)) == Ok(i)
  {
    assert Format(i) == U && Encode(i) == UType(Opcode(i), i.rd, i.imm);
    DecodeUType(Opcode(i), i.rd, i.imm);
  }

  /** Every well-formed instruction survives encoding and decoding. */
  lemma DecodeEncode(i: Instruction)
    requires WellFormed(i)
    ensures Decode(Encode(i)) == Ok(i)
  {
    if IsRegisterArithmetic(i) {
      DecodeEncodeRegister(i);
    } else if IsImmediateArithmetic(i) {
      DecodeEncodeImmediate(i);
    } else if IsShiftImmediate(i) {
      DecodeEncodeShift(i);
    } else if IsLoad(i) {
      DecodeEncodeLoad(i);
    } else if IsStore(i) {
      DecodeEncodeStore(i);
    } else if IsBranch(i) {
      DecodeEncodeBranch(i);
    } else if i.Jal? || i.Jalr? {
      DecodeEncodeJump(i);
    } else if IsUpperImmediate(i) {
      DecodeEncodeUpper(i);
    } else {
      assert IsSystem(i);
    }
  }

  /* The other direction: a word the decoder accepts is the canonical
     encoding of what it decodes to, except for the funct7 bits that the
     immediate shifts do not examine. */

  /** The bits of the word the decoder examines to produce `i`: all of
      them, but only bit 30 of bits 31:25 for the immediate shifts. */
  function ExaminedBits(i: Instruction): bv32 {
    if i.Slli? || i.Srli? then 0x01FF_FFFF
    else if i.Srai? then 0x41FF_FFFF
    else 0xFFFF_FFFF
  }

  /** `w` is accepted, and re-encoding its decoding gives back every bit
      the decoder examined. */
  predicate Reencodes(w: bv32) {
    Decode(w).Ok? && Encode(Decode(w).value) == w & ExaminedBits(Decode(w).value)
  }

  /* Reassembling a word from the fields the decoder extracted gives the
     word back. */

  lemma RTypeReassembles(w: bv32)
    ensures RType(w & 0x7f, (w >> 12) & 0x7, (w >> 25) & 0x7f, RdField(w), Rs1Field(w), Rs2Field(w)) == w
  {
  }

  lemma ITypeReassembles(w: bv32)
    ensures IType(w & 0x7f, (w >> 12) & 0x7, RdField(w), Rs1Field(w), ImmI(w)) == w
  {
  }

  lemma ShiftReassembles(w: bv32)
    ensures IType(w & 0x7f, (w >> 12) & 0x7, RdField(w), Rs1Field(w), (w >> 20) & 0x1f) == w & 0x01FF_FFFF
    ensures (w >> 30) & 1 != 0 ==>
      IType(w & 0x7f, (w >> 12) & 0x7, RdField(w), Rs1Field(w), 0x400 | ((w >> 20) & 0x1f)) == w & 0x41FF_FFFF
  {
  }

  lemma STypeReassembles(w: bv32)
    ensures SType(w & 0x7f, (w >> 12) & 0x7, Rs1Field(w), Rs2Field(w), ImmS(w)) == w
  {
  }

  lemma BTypeReassembles(w: bv32)
    ensures BType(w & 0x7f, (w >> 12) & 0x7, Rs1Field(w), Rs2Field(w), ImmB(w)) == w
  {
  }

  lemma UTypeReassembles(w: bv32)
    ensures UType(w & 0x7f, RdField(w), ImmU(w)) == w
  {
  }

  lemma JTypeReassembles(w: bv32)
    ensures JType(w & 0x7f, RdField(w), ImmJ(w)) == w
  {
  }

  /* What each dispatch table selects carries the function fields and
     operands it was selected by. */

  lemma RegisterOpFields(w: bv32, funct3: bv32, funct7: bv32, rd: RegisterIndex, rs1: RegisterIndex, rs2: RegisterIndex)
    requires DecodeRegisterOp(w, funct3, funct7, rd, rs1, rs2).Ok?
    ensures var i := DecodeRegisterOp(w, funct3, funct7, rd, rs1, rs2).value;
      && IsRegisterArithmetic(i) && Funct3(i) == funct3 && Funct7(i) == funct7
      && i.rd == rd && i.rs1 == rs1 && i.rs2 == rs2
  {
    var i := DecodeRegisterOp(w, funct3, funct7, rd, rs1, rs2).value;
    if funct3 == 0 {
      assert i.Add? || i.Sub?;
    } else if funct3 == 5 {
      assert i.Srl? || i.Sra?;
    } else if funct3 < 4 {
      assert i.Sll? || i.Slt? || i.Sltu?;
    } else {
      assert i.Xor? || i.Or? || i.And?;
    }
  }

  lemma ImmediateOpFields(w: bv32, funct3: bv32, rd: RegisterIndex, rs1: RegisterIndex, imm: bv32, shamt: Shamt, bit30: bv32)
    requires funct3 <= 7 && funct3 != 1 && funct3 != 5
    ensures var i := DecodeImmediateOp(w, funct3, rd, rs1, imm, shamt, bit30).value;
      && IsImmediateArithmetic(i) && Funct3(i) == funct3
      && i.rd == rd && i.rs1 == rs1 && i.imm == imm
  {
    var i := DecodeImmediateOp(w, funct3, rd, rs1, imm, shamt, bit30).value;
    if funct3 < 4 {
      assert i.Addi? || i.Slti? || i.Sltiu?;
    } else {
      assert i.Xori? || i.Ori? || i.Andi?;
    }
  }

  lemma ShiftOpFields(w: bv32, funct3: bv32, rd: RegisterIndex, rs1: RegisterIndex, imm: bv32, shamt: Shamt, bit30: bv32)
    requires funct3 == 1 || funct3 == 5
    ensures var i := DecodeImmediateOp(w, funct3, rd, rs1, imm, shamt, bit30).value;
      && IsShiftImmediate(i) && Funct3(i) == funct3
      && i.rd == rd && i.rs1 == rs1 && i.shamt == shamt
      && (i.Srai? <==> funct3 == 5 && bit30 != 0)
  {
  }

  lemma LoadFields(w: bv32, funct3: bv32, rd: RegisterIndex, rs1: RegisterIndex, imm: bv32)
    requires DecodeLoad(w, funct3, rd, rs1, imm).Ok?
    ensures var i := DecodeLoad(w, funct3, rd, rs1, imm).value;
      IsLoad(i) && Funct3(i) == funct3 && i.rd == rd && i.rs1 == rs1 && i.imm == imm
  {
  }

  lemma StoreFields(w: bv32, funct3: bv32, rs1: RegisterIndex, rs2: RegisterIndex, imm: bv32)
    requires DecodeStore(w, funct3, rs1, rs2, imm).Ok?
    ensures var i := DecodeStore(w, funct3, rs1, rs2, imm).value;
      IsStore(i) && Funct3(i) == funct3 && i.rs1 == rs1 && i.rs2 == rs2 && i.imm == imm
  {
  }

  lemma BranchFields(w: bv32, funct3: bv32, rs1: RegisterIndex, rs2: RegisterIndex, imm: bv32)
    requires DecodeBranch(w, funct3, rs1, rs2, imm).Ok?
    ensures var i := DecodeBranch(w, funct3, rs1, rs2, imm).value;
      IsBranch(i) && Funct3(i) == funct3 && i.rs1 == rs1 && i.rs2 == rs2 && i.imm == imm
  {
  }

  /* The encoder places the fields of each group in that group's format. */

  lemma EncodeRegisterGroup(i: Instruction)
    requires IsRegisterArithmetic(i)
    ensures Encode(i) == RType(0x33, Funct3(i), Funct7(i), i.rd, i.rs1, i.rs2)
  {
    assert Format(i) == R;
  }

  lemma EncodeImmediateGroup(i: Instruction)
    requires IsImmediateArithmetic(i)
    ensures Encode(i) == IType(0x13, Funct3(i), i.rd, i.rs1, i.imm)
  {
    assert Format(i) == I && Opcode(i) == 0x13 && IImmediate(i) == i.imm;
  }

  lemma EncodeLoadGroup(i: Instruction)
    requires IsLoad(i)
    ensures Encode(i) == IType(0x03, Funct3(i), i.rd, i.rs1, i.imm)
  {
    assert Format(i) == I && Opcode(i) == 0x03 && IImmediate(i) == i.imm;
  }

  lemma EncodeStoreGroup(i: Instruction)
    requires IsStore(i)
    ensures Encode(i) == SType(0x23, Funct3(i), i.rs1, i.rs2, i.imm)
  {
    assert Format(i) == S;
  }

  lemma EncodeBranchGroup(i: Instruction)
    requires IsBranch(i)
    ensures Encode(i) == BType(0x63, Funct3(i), i.rs1, i.rs2, i.imm)
  {
    assert Format(i) == B;
  }

  /* What the decoder accepts under each opcode carries the word's fields. */

  lemma DecodeRegisterWord(w: bv32)
    requires w & 0x7f == 0x33 && Decode(w).Ok?
    ensures var i := Decode(w).value;
      && IsRegisterArithmetic(i) && Funct3(i) == (w >> 12) & 0x7 && Funct7(i) == (w >> 25) & 0x7f
      && i.rd == RdField(w) && i.rs1 == Rs1Field(w) && i.rs2 == Rs2Field(w)
  {
    DecodeByFields(w);
    RegisterOpFields(w, (w >> 12) & 0x7, (w >> 25) & 0x7f, RdField(w), Rs1Field(w), Rs2Field(w));
  }

  lemma DecodeImmediateWord(w: bv32)
    requires w & 0x7f == 0x13 && (w >> 12) & 0x7 != 1 && (w >> 12) & 0x7 != 5
    ensures Decode(w).Ok?
    ensures var i := Decode(w).value;
      && IsImmediateArithmetic(i) && Funct3(i) == (w >> 12) & 0x7
      && i.rd == RdField(w) && i.rs1 == Rs1Field(w) && i.imm == ImmI(w)
  {
    DecodeByFields(w);
    ImmediateOpFields(w, (w >> 12) & 0x7, RdField(w), Rs1Field(w), ImmI(w), (w >> 20) & 0x1f, (w >> 30) & 1);
  }

  lemma DecodeLoadWord(w: bv32)
    requires w & 0x7f == 0x03 && Decode(w).Ok?
    ensures var i := Decode(w).value;
      && IsLoad(i) && Funct3(i) == (w >> 12) & 0x7
      && i.rd == RdField(w) && i.rs1 == Rs1Field(w) && i.imm == ImmI(w)
  {
    DecodeByFields(w);
    LoadFields(w, (w >> 12) & 0x7, RdField(w), Rs1Field(w), ImmI(w));
  }

  lemma DecodeStoreWord(w: bv32)
    requires w & 0x7f == 0x23 && Decode(w).Ok?
    ensures var i := Decode(w).value;
      && IsStore(i) && Funct3(i) == (w >> 12) & 0x7
      && i.rs1 == Rs1Field(w) && i.rs2 == Rs2Field(w) && i.imm == ImmS(w)
  {
    DecodeByFields(w);
    StoreFields(w, (w >> 12) & 0x7, Rs1Field(w), Rs2Field(w), ImmS(w));
  }

  lemma DecodeBranchWord(w: bv32)
    requires w & 0x7f == 0x63 && Decode(w).Ok?
    ensures var i := Decode(w).value;
      && IsBranch(i) && Funct3(i) == (w >> 12) & 0x7
      && i.rs1 == Rs1Field(w) && i.rs2 == Rs2Field(w) && i.imm == ImmB(w)
  {
    DecodeByFields(w);
    BranchFields(w, (w >> 12) & 0x7, Rs1Field(w), Rs2Field(w), ImmB(w));
  }

  lemma DecodeSlli(w: bv32)
    requires w & 0x7f == 0x13 && (w >> 12) & 0x7 == 1
    ensures Decode(w) == Ok(Slli(RdField(w), Rs1Field(w), (w >> 20) & 0x1f))
  {
    DecodeByFields(w);
  }

  lemma DecodeSrli(w: bv32)
    requires w & 0x7f == 0x13 && (w >> 12) & 0x7 == 5 && (w >> 30) & 1 == 0
    ensures Decode(w) == Ok(Srli(RdField(w), Rs1Field(w), (w >> 20) & 0x1f))
  {
    DecodeByFields(w);
  }

  lemma DecodeSrai(w: bv32)
    requires w & 0x7f == 0x13 && (w >> 12) & 0x7 == 5 && (w >> 30) & 1 != 0
    ensures Decode(w) == Ok(Srai(RdField(w), Rs1Field(w), (w >> 20) & 0x1f))
  {
    DecodeByFields(w);
  }

  lemma DecodeJalWord(w: bv32)
    requires w & 0x7f == 0x6f
    ensures Decode(w) == Ok(Jal(RdField(w), ImmJ(w)))
  {
    DecodeByFields(w);
  }

  lemma DecodeJalrWord(w: bv32)
    requires w & 0x7f == 0x67 && Decode(w).Ok?
    ensures Decode(w) == Ok(Jalr(RdField(w), Rs1Field(w), ImmI(w)))
  {
    DecodeByFields(w);
  }

  lemma DecodeLuiWord(w: bv32)
    requires w & 0x7f == 0x37
    ensures Decode(w) == Ok(Lui(RdField(w), ImmU(w)))
  {
    DecodeByFields(w);
  }

  lemma DecodeAuipcWord(w: bv32)
    requires w & 0x7f == 0x17
    ensures Decode(w) == Ok(Auipc(RdField(w), ImmU(w)))
  {
    DecodeByFields(w);
  }

  /* Re-encoding what the decoder accepted, one opcode at a time. */

  lemma EncodeDecodeRegister(w: bv32)
    requires w & 0x7f == 0x33 && Decode(w).Ok?
    ensures Encode(Decode(w).value) == w
    ensures Reencodes(w)
  {
    DecodeRegisterWord(w);
    EncodeRegisterGroup(Decode(w).value);
    RTypeReassembles(w);
  }

  lemma EncodeDecodeImmediate(w: bv32)
    requires w & 0x7f == 0x13 && (w >> 12) & 0x7 != 1 && (w >> 12) & 0x7 != 5
    ensures Decode(w).Ok?
    ensures Encode(Decode(w).value) == w
    ensures Reencodes(w)
  {
    DecodeImmediateWord(w);
    EncodeImmediateGroup(Decode(w).value);
    ITypeReassembles(w);
  }

  lemma EncodeDecodeSlli(w: bv32)
    requires w & 0x7f == 0x13 && (w >> 12) & 0x7 == 1
    ensures Decode(w) == Ok(Slli(RdField(w), Rs1Field(w), (w >> 20) & 0x1f))
    ensures Encode(Decode(w).value) == w & 0x01FF_FFFF
    ensures Reencodes(w)
  {
    DecodeSlli(w);
    var i := Slli(RdField(w), Rs1Field(w), (w >> 20) & 0x1f);
    assert Format(i) == I;
    ShiftReassembles(w);
  }

  lemma EncodeDecodeSrli(w: bv32)
    requires w & 0x7f == 0x13 && (w >> 12) & 0x7 == 5 && (w >> 30) & 1 == 0
    ensures Decode(w) == Ok(Srli(RdField(w), Rs1Field(w), (w >> 20) & 0x1f))
    ensures Encode(Decode(w).value) == w & 0x01FF_FFFF
    ensures Reencodes(w)
  {
    DecodeSrli(w);
    var i := Srli(RdField(w), Rs1Field(w), (w >> 20) & 0x1f);
    assert Format(i) == I;
    ShiftReassembles(w);
  }

  lemma EncodeDecodeSrai(w: bv32)
    requires w & 0x7f == 0x13 && (w >> 12) & 0x7 == 5 && (w >> 30) & 1 != 0
    ensures Decode(w) == Ok(Srai(RdField(w), Rs1Field(w), (w >> 20) & 0x1f))
    ensures Encode(Decode(w).value) == w & 0x41FF_FFFF
    ensures ExaminedBits(Decode(w).value) == 0x41FF_FFFF
  {
    DecodeSrai(w);
    var i := Srai(RdField(w), Rs1Field(w), (w >> 20) & 0x1f);
    assert Format(i) == I;
    ShiftReassembles(w);
  }

  lemma SraiReencodes(w: bv32)
    requires w & 0x7f == 0x13 && (w >> 12) & 0x7 == 5 && (w >> 30) & 1 != 0
    ensures Reencodes(w)
  {
    EncodeDecodeSrai(w);
  }

  lemma EncodeDecodeLoad(w: bv32)
    requires w & 0x7f == 0x03 && Decode(w).Ok?
    ensures Encode(Decode(w).value) == w
    ensures Reencodes(w)
  {
    DecodeLoadWord(w);
    EncodeLoadGroup(Decode(w).value);
    ITypeReassembles(w);
  }

  lemma EncodeDecodeStore(w: bv32)
    requires w & 0x7f == 0x23 && Decode(w).Ok?
    ensures Encode(Decode(w).value) == w
    ensures Reencodes(w)
  {
    DecodeStoreWord(w);
    EncodeStoreGroup(Decode(w).value);
    STypeReassembles(w);
  }

  lemma EncodeDecodeBranch(w: bv32)
    requires w & 0x7f == 0x63 && Decode(w).Ok?
    ensures Encode(Decode(w).value) == w
    ensures Reencodes(w)
  {
    DecodeBranchWord(w);
    EncodeBranchGroup(Decode(w).value);
    BTypeReassembles(w);
  }

  lemma EncodeDecodeJal(w: bv32)
    requires w & 0x7f == 0x6f
    ensures Decode(w) == Ok(Jal(RdField(w), ImmJ(w)))
    ensures Encode(Decode(w).value) == w
    ensures Reencodes(w)
  {
    DecodeJalWord(w);
    assert Format(Jal(RdField(w), ImmJ(w))) == J;
    JTypeReassembles(w);
  }

  lemma EncodeDecodeJalr(w: bv32)
    requires w & 0x7f == 0x67 && Decode(w).Ok?
    ensures Decode(w) == Ok(Jalr(RdField(w), Rs1Field(w), ImmI(w)))
    ensures Encode(Decode(w).value) == w
    ensures Reencodes(w)
  {
    DecodeJalrWord(w);
    var i := Jalr(RdField(w), Rs1Field(w), ImmI(w));
    assert Format(i) == I && Opcode(i) == 0x67 && Funct3(i) == 0 && IImmediate(i) == ImmI(w);
    ITypeReassembles(w);
  }

  lemma EncodeDecodeLui(w: bv32)
    requires w & 0x7f == 0x37
    ensures Decode(w) == Ok(Lui(RdField(w), ImmU(w)))
    ensures Encode(Decode(w).value) == w
    ensures Reencodes(w)
  {
    DecodeLuiWord(w);
    assert Format(Lui(RdField(w), ImmU(w))) == U;
    UTypeReassembles(w);
  }

  lemma EncodeDecodeAuipc(w: bv32)
    requires w & 0x7f == 0x17
    ensures Decode(w) == Ok(Auipc(RdField(w), ImmU(w)))
    ensures Encode(Decode(w).value) == w
    ensures Reencodes(w)
  {
    DecodeAuipcWord(w);
    assert Format(Auipc(RdField(w), ImmU(w))) == U;
    UTypeReassembles(w);
  }

  lemma EncodeDecodeSystem(w: bv32)
    requires w & 0x7f == 0x73 && Decode(w).Ok?
    ensures Encode(Decode(w).value) == w
    ensures Reencodes(w)
  {
    DecodeByFields(w);
    assert w == 0x73 || w == 0x0010_0073;
  }

  lemma EncodeDecodeOpImm(w: bv32)
    requires w & 0x7f == 0x13
    ensures Reencodes(w)
  {
    var funct3 := (w >> 12) & 0x7;
    if funct3 == 1 {
      EncodeDecodeSlli(w);
    } else if funct3 == 5 {
      if (w >> 30) & 1 == 0 {
        EncodeDecodeSrli(w);
      } else {
        SraiReencodes(w);
      }
    } else {
      EncodeDecodeImmediate(w);
    }
  }

  /** The decoder accepts only the eleven RV32I major opcodes. */
  lemma AcceptedOpcodes(w: bv32)
    requires Decode(w).Ok?
    ensures OpcodeFormat(w & 0x7f).Some?
  {
    DecodeByFields(w);
  }

  /** Under the SYSTEM opcode only ecall and ebreak are accepted. */
  lemma DecodeSystemWord(w: bv32)
    requires w & 0x7f == 0x73 && Decode(w).Ok?
    ensures Decode(w).value.Ecall? || Decode(w).value.Ebreak?
  {
    DecodeByFields(w);
  }

  /** What the decoder produces has the format the ISA's opcode map gives
      the word's opcode. */
  lemma DecodedFormat(w: bv32)
    requires Decode(w).Ok?
    ensures OpcodeFormat(w & 0x7f) == Some(Format(Decode(w).value))
  {
    AcceptedOpcodes(w);
    FormatByGroup(Decode(w).value);
    var opcode, funct3 := w & 0x7f, (w >> 12) & 0x7;
    if opcode == 0x33 {
      DecodeRegisterWord(w);
    } else if opcode == 0x13 {
      if funct3 == 1 {
        DecodeSlli(w);
      } else if funct3 == 5 && (w >> 30) & 1 == 0 {
        DecodeSrli(w);
      } else if funct3 == 5 {
        DecodeSrai(w);
      } else {
        DecodeImmediateWord(w);
      }
    } else if opcode == 0x03 {
      DecodeLoadWord(w);
    } else if opcode == 0x23 {
      DecodeStoreWord(w);
    } else if opcode == 0x63 {
      DecodeBranchWord(w);
    } else if opcode == 0x6f {
      DecodeJalWord(w);
    } else if opcode == 0x67 {
      DecodeJalrWord(w);
    } else if opcode == 0x37 {
      DecodeLuiWord(w);
    } else if opcode == 0x17 {
      DecodeAuipcWord(w);
    } else {
      DecodeSystemWord(w);
    }
  }

  /** Every accepted word is the canonical encoding of its decoding, up to
      the funct7 bits the immediate shifts ignore. */
  lemma EncodeDecode(w: bv32)
    requires Decode(w).Ok?
    ensures Encode(Decode(w).value) == w & ExaminedBits(Decode(w).value)
  {
    var opcode := w & 0x7f;
    if opcode == 0x33 {
      EncodeDecodeRegister(w);
    } else if opcode == 0x13 {
      EncodeDecodeOpImm(w);
    } else if opcode == 0x03 {
      EncodeDecodeLoad(w);
    } else if opcode == 0x23 {
      EncodeDecodeStore(w);
    } else if opcode == 0x63 {
      EncodeDecodeBranch(w);
    } else if opcode == 0x6f {
      EncodeDecodeJal(w);
    } else if opcode == 0x67 {
      EncodeDecodeJalr(w);
    } else if opcode == 0x37 {
      EncodeDecodeLui(w);
    } else if opcode == 0x17 {
      EncodeDecodeAuipc(w);
    } else {
      AcceptedOpcodes(w);
      EncodeDecodeSystem(w);
    }
  }
}
