/** `Executor`: the effect of one decoded instruction on the CPU and
    memory, and the fetch-decode-execute cycle. The source's single match
    is grouped here the way its comments group it: register and immediate
    arithmetic, loads, stores, branches, jumps, upper immediates, and the
    system instructions. */
module Executor {
  import opened Errors
  import opened Words
  import opened Registers
  import opened Instructions
  import opened ByteMemory
  import opened Cpu
  import opened Syscalls
  import opened Decoder

  /** The state an instruction acts on. */
  datatype Machine = Machine(cpu: CpuState, memory: Memory)

  /** A step that did not fail: the new machine, whether the program asked
      to stop, and what it wrote to the host. */
  datatype Step = Step(machine: Machine, halt: bool, output: Option<HostWrite>)

  /** A step that keeps running and writes nothing. */
  function Continue(cpu: CpuState, memory: Memory): Step {
    Step(Machine(cpu, memory), false, None)
  }

  /** Every register other than `rd` reads as before. */
  ghost predicate OnlyChanges(rd: RegisterIndex, cpu: CpuState, cpu': CpuState) {
    forall x: RegisterIndex :: x != rd ==> ReadRegister(cpu', x) == ReadRegister(cpu, x)
  }

  /** The next sequential instruction, with one cycle counted. */
  predicate FallsThrough(cpu: CpuState, cpu': CpuState) {
    cpu'.pc == cpu.pc + 4 && cpu'.cycles == cpu.cycles + 1
  }

  /** Write `v` to `rd` and fall through to the next instruction: how
      every instruction that produces a value ends. */
  function WriteBack(cpu: CpuState, rd: RegisterIndex, v: bv32): (cpu': CpuState)
    ensures FallsThrough(cpu, cpu')
    ensures OnlyChanges(rd, cpu, cpu')
    ensures ReadRegister(cpu', rd) == if rd == 0 then 0 else v
  {
    IncrementPc(WriteRegister(cpu, rd, v))
  }

  /* Arithmetic. */

  /** The ten operations of the arithmetic-logic unit. Each register
      arithmetic instruction and its immediate twin perform the same one. */
  datatype AluOp = AddOp | SubOp | SltOp | SltuOp | AndOp | OrOp | XorOp | SllOp | SrlOp | SraOp

  /** What the unit computes from two operands: addition and subtraction
      wrap, `slt` compares the operands as `i32` and `sltu` as `u32`, and a
      shift uses only the low five bits of its second operand. */
  function Alu(op: AluOp, a: bv32, b: bv32): (r: bv32)
    ensures op == SltOp || op == SltuOp ==> r == 0 || r == 1
  {
    match op
    case AddOp => a + b
    case SubOp => a - b
    case SltOp => if SignedLess(a, b) then 1 else 0
    case SltuOp => if a < b then 1 else 0
    case AndOp => a & b
    case OrOp => a | b
    case XorOp => a ^ b
    case SllOp => a << (b & 0x1f)
    case SrlOp => a >> (b & 0x1f)
    case SraOp => ShiftRightArithmetic(a, b & 0x1f)
  }

  /* What the unit computes, one operation at a time. */

  lemma AluAdd(a: bv32, b: bv32) ensures Alu(AddOp, a, b) == a + b {}
  lemma AluSub(a: bv32, b: bv32) ensures Alu(SubOp, a, b) == a - b {}
  lemma AluSlt(a: bv32, b: bv32) ensures Alu(SltOp, a, b) == if SignedLess(a, b) then 1 else 0 {}
  lemma AluSltu(a: bv32, b: bv32) ensures Alu(SltuOp, a, b) == if a < b then 1 else 0 {}
  lemma AluSll(a: bv32, b: bv32) ensures Alu(SllOp, a, b) == a << (b & 0x1f) {}
  lemma AluSrl(a: bv32, b: bv32) ensures Alu(SrlOp, a, b) == a >> (b & 0x1f) {}
  lemma AluSra(a: bv32, b: bv32) ensures Alu(SraOp, a, b) == ShiftRightArithmetic(a, b & 0x1f) {}

  /** The immediate shifts pass their shift amount to the unit, which is
      already below 32: the unit's five-bit mask changes nothing, and each
      one shifts by the whole amount. */
  lemma ShamtUnmasked(s: Shamt)
    ensures s & 0x1f == s
  {
  }

  lemma ShiftsByShamt(a: bv32, s: Shamt)
    ensures Alu(SllOp, a, s) == a << s
    ensures Alu(SrlOp, a, s) == a >> s
    ensures Alu(SraOp, a, s) == ShiftRightArithmetic(a, s)
  {
    ShamtUnmasked(s);
    AluSll(a, s);
    AluSrl(a, s);
    AluSra(a, s);
  }

  /** Subtraction undoes addition, and addition undoes subtraction. */
  lemma SubUndoesAdd(a: bv32, b: bv32)
    ensures Alu(SubOp, Alu(AddOp, a, b), b) == a
  {
    AluAdd(a, b);
    AluSub(a + b, b);
  }

  lemma AddUndoesSub(a: bv32, b: bv32)
    ensures Alu(AddOp, Alu(SubOp, a, b), b) == a
  {
    AluSub(a, b);
    AluAdd(a - b, b);
  }

  /** `slt` answers 1 exactly when its operands are in signed order, and 0
      otherwise. */
  lemma SetLessThanMeaning(a: bv32, b: bv32)
    ensures Alu(SltOp, a, b) == 1 <==> SignedLess(a, b)
    ensures Alu(SltOp, a, b) == 0 <==> !SignedLess(a, b)
  {
    AluSlt(a, b);
  }

  /** `sltu` answers 1 exactly when its operands are in unsigned order, and
      0 otherwise. */
  lemma SetLessThanUnsignedMeaning(a: bv32, b: bv32)
    ensures Alu(SltuOp, a, b) == 1 <==> a < b
    ensures Alu(SltuOp, a, b) == 0 <==> !(a < b)
  {
    AluSltu(a, b);
  }

  /** Both comparisons are strict orders: never 1 on equal operands, and
      never 1 in both directions. */
  lemma SetLessThanIsStrictOrder(a: bv32, b: bv32)
    ensures Alu(SltOp, a, a) == 0 && Alu(SltuOp, a, a) == 0
    ensures !(Alu(SltOp, a, b) == 1 && Alu(SltOp, b, a) == 1)
    ensures !(Alu(SltuOp, a, b) == 1 && Alu(SltuOp, b, a) == 1)
  {
    SetLessThanMeaning(a, a);
    SetLessThanMeaning(a, b);
    SetLessThanMeaning(b, a);
    SetLessThanUnsignedMeaning(a, a);
    SetLessThanUnsignedMeaning(a, b);
    SetLessThanUnsignedMeaning(b, a);
  }

  /** On a non-negative operand the arithmetic shift is the logical one;
      on a negative one it leaves the sign bit set. */
  lemma ShiftRightArithmeticSign(a: bv32, b: bv32)
    ensures !IsNegative(a) ==> Alu(SraOp, a, b) == Alu(SrlOp, a, b)
    ensures IsNegative(a) ==> IsNegative(Alu(SraOp, a, b))
  {
    AluSra(a, b);
    AluSrl(a, b);
  }

  /* Memory access. */

  /** The number of bytes a load or store moves. */
  function AccessWidth(i: Instruction): nat
    requires IsLoad(i) || IsStore(i)
  {
    if i.Lb? || i.Lbu? || i.Sb? then 1
    else if i.Lh? || i.Lhu? || i.Sh? then 2
    else 4
  }

  /** `rs1 + imm`, wrapping at 2^32. */
  function EffectiveAddress(cpu: CpuState, i: Instruction): bv32
    requires IsLoad(i) || IsStore(i) || i.Jalr?
  {
    ReadRegister(cpu, i.rs1) + i.imm
  }

  /** The value a load writes to `rd`: bytes and halfwords are sign- or
      zero-extended to 32 bits. */
  function LoadValue(i: Instruction, m: Memory, addr: bv32): (r: Result<bv32>)
    requires IsLoad(i)
    ensures r.Ok? <==> InBounds(m, addr, AccessWidth(i))
    ensures r.Err? ==> r.error == MemoryViolation(addr)
    ensures r.Ok? && i.Lbu? ==> r.value <= 0xFF
    ensures r.Ok? && i.Lhu? ==> r.value <= 0xFFFF
  {
    if i.Lb? then
      var b :- LoadByte(m, addr); Ok(SignExtendByte(b))
    else if i.Lh? then
      var h :- LoadHalfword(m, addr); Ok(SignExtendHalf(h))
    else if i.Lw? then
      LoadWord(m, addr)
    else if i.Lbu? then
      var b :- LoadByte(m, addr); Ok(b as bv32)
    else
      var h :- LoadHalfword(m, addr); Ok(h as bv32)
  }

  /* What each halfword load writes, when the halfword is in memory. */

  lemma LoadHalfSigned(rd: RegisterIndex, rs1: RegisterIndex, imm: bv32, m: Memory, addr: bv32)
    requires InBounds(m, addr, 2)
    ensures LoadValue(Lh(rd, rs1, imm), m, addr) == Ok(SignExtendHalf(LoadHalfword(m, addr).value))
  {
  }

  lemma LoadHalfUnsigned(rd: RegisterIndex, rs1: RegisterIndex, imm: bv32, m: Memory, addr: bv32)
    requires InBounds(m, addr, 2)
    ensures LoadValue(Lhu(rd, rs1, imm), m, addr) == Ok(LoadHalfword(m, addr).value as bv32)
  {
  }

  /** Signed and unsigned loads of the same place agree on the loaded bits
      and differ only in what fills the bits above them. */
  lemma ByteLoadsAgree(rd: RegisterIndex, rs1: RegisterIndex, imm: bv32, m: Memory, addr: bv32)
    requires InBounds(m, addr, 1)
    ensures LoadValue(Lb(rd, rs1, imm), m, addr).value & 0xFF == LoadValue(Lbu(rd, rs1, imm), m, addr).value
  {
    var b := LoadByte(m, addr).value;
    assert LoadValue(Lb(rd, rs1, imm), m, addr) == Ok(SignExtendByte(b));
    assert LoadValue(Lbu(rd, rs1, imm), m, addr) == Ok(b as bv32);
    SignExtendByteBits(b);
  }

  lemma HalfLoadsAgree(rd: RegisterIndex, rs1: RegisterIndex, imm: bv32, m: Memory, addr: bv32)
    requires InBounds(m, addr, 2)
    ensures LoadValue(Lh(rd, rs1, imm), m, addr).value & 0xFFFF == LoadValue(Lhu(rd, rs1, imm), m, addr).value
  {
    LoadHalfSigned(rd, rs1, imm, m, addr);
    LoadHalfUnsigned(rd, rs1, imm, m, addr);
    SignExtendHalfBits(LoadHalfword(m, addr).value);
  }

  /** The memory after a store of the low `AccessWidth` bytes of `v`. */
  function StoreValue(i: Instruction, m: Memory, addr: bv32, v: bv32): (r: Result<Memory>)
    requires IsStore(i)
    ensures r.Ok? <==> InBounds(m, addr, AccessWidth(i))
    ensures r.Err? ==> r.error == MemoryViolation(addr)
    ensures r.Ok? ==> Size(r.value) == Size(m)
  {
    if i.Sb? then StoreByte(m, addr, Low8(v))
    else if i.Sh? then StoreHalfword(m, addr, Low16(v))
    else StoreWord(m, addr, v)
  }

  /* Loading back what a store wrote gives the stored value, cut to the
     store's width. */

  lemma WordStoreThenLoad(rs1: RegisterIndex, rs2: RegisterIndex, rd: RegisterIndex, imm: bv32, m: Memory, addr: bv32, v: bv32)
    requires InBounds(m, addr, 4)
    ensures LoadValue(Lw(rd, rs1, imm), StoreValue(Sw(rs1, rs2, imm), m, addr, v).value, addr) == Ok(v)
  {
    var m' := StoreWord(m, addr, v).value;
    assert StoreValue(Sw(rs1, rs2, imm), m, addr, v) == Ok(m');
    LoadStoreWord(m, addr, v);
    assert LoadValue(Lw(rd, rs1, imm), m', addr) == LoadWord(m', addr);
  }

  lemma HalfStoreThenLoad(rs1: RegisterIndex, rs2: RegisterIndex, rd: RegisterIndex, imm: bv32, m: Memory, addr: bv32, v: bv32)
    requires InBounds(m, addr, 2)
    ensures LoadValue(Lhu(rd, rs1, imm), StoreValue(Sh(rs1, rs2, imm), m, addr, v).value, addr) == Ok(v & 0xFFFF)
  {
    var h := Low16(v);
    var m' := StoreHalfword(m, addr, h).value;
    assert StoreValue(Sh(rs1, rs2, imm), m, addr, v) == Ok(m');
    LoadStoreHalfword(m, addr, h);
    LoadHalfUnsigned(rd, rs1, imm, m', addr);
    TruncationBits(v);
  }

  lemma ByteStoreThenLoad(rs1: RegisterIndex, rs2: RegisterIndex, rd: RegisterIndex, imm: bv32, m: Memory, addr: bv32, v: bv32)
    requires InBounds(m, addr, 1)
    ensures LoadValue(Lbu(rd, rs1, imm), StoreValue(Sb(rs1, rs2, imm), m, addr, v).value, addr) == Ok(v & 0xFF)
  {
    var b := Low8(v);
    var m' := StoreByte(m, addr, b).value;
    assert StoreValue(Sb(rs1, rs2, imm), m, addr, v) == Ok(m');
    LoadStoreByte(m, addr, b);
    assert LoadValue(Lbu(rd, rs1, imm), m', addr) == Ok(b as bv32);
    TruncationBits(v);
  }

  /* Control flow. */

  /** Whether a branch is taken on its two operands. */
  function BranchTaken(i: Instruction, a: bv32, b: bv32): bool
    requires IsBranch(i)
  {
    if i.Beq? then a == b
    else if i.Bne? then a != b
    else if i.Blt? then SignedLess(a, b)
    else if i.Bge? then !SignedLess(a, b)
    else if i.Bltu? then a < b
    else !(a < b)
  }

  /** The branch conditions come in complementary pairs: on any operands
      exactly one of beq/bne, blt/bge and bltu/bgeu is taken. */
  lemma BranchPairsComplementary(rs1: RegisterIndex, rs2: RegisterIndex, imm: bv32, a: bv32, b: bv32)
    ensures BranchTaken(Bne(rs1, rs2, imm), a, b) == !BranchTaken(Beq(rs1, rs2, imm), a, b)
    ensures BranchTaken(Bge(rs1, rs2, imm), a, b) == !BranchTaken(Blt(rs1, rs2, imm), a, b)
    ensures BranchTaken(Bgeu(rs1, rs2, imm), a, b) == !BranchTaken(Bltu(rs1, rs2, imm), a, b)
  {
  }

  /** The return address `jal` and `jalr` write: `pc + 4`, wrapping at
      2^32 like the sequential successor. */
  function LinkAddress(pc: bv32): (link: bv32)
    ensures link - pc == 4
  {
    pc + 4
  }

  /** The return address as the source computes it, with a plain `+` on
      `u32`: there is none when `pc + 4` overflows (a debug build
      panics). */
  function LinkAddressAsWritten(pc: bv32): (link: Option<bv32>)
    ensures link.Some? <==> pc <= 0xFFFF_FFFB
  {
    if pc <= 0xFFFF_FFFB then Some(pc + 4) else None
  }

  /** Where the two definitions agree, and the input where they part. */
  lemma LinkAddressOverflow(pc: bv32)
    ensures LinkAddressAsWritten(pc).Some? ==> LinkAddressAsWritten(pc).value == LinkAddress(pc)
    ensures LinkAddressAsWritten(0xFFFF_FFFC) == None
    ensures LinkAddress(0xFFFF_FFFC) == 0
  {
  }

  /* The instruction groups. */

  /** A register-register instruction: `rd` receives `op` applied to the
      values of `rs1` and `rs2`. */
  function ExecuteRegisterOp(op: AluOp, rd: RegisterIndex, rs1: RegisterIndex, rs2: RegisterIndex, cpu: CpuState, m: Memory): (s: Step)
    ensures s.machine.memory == m && !s.halt && s.output == None
    ensures FallsThrough(cpu, s.machine.cpu)
    ensures OnlyChanges(rd, cpu, s.machine.cpu)
    ensures ReadRegister(s.machine.cpu, rd) ==
      if rd == 0 then 0 else Alu(op, ReadRegister(cpu, rs1), ReadRegister(cpu, rs2))
  {
    Continue(WriteBack(cpu, rd, Alu(op, ReadRegister(cpu, rs1), ReadRegister(cpu, rs2))), m)
  }

  /** A register-immediate instruction: `rd` receives `op` applied to the
      value of `rs1` and the immediate or shift amount. */
  function ExecuteImmediateOp(op: AluOp, rd: RegisterIndex, rs1: RegisterIndex, operand: bv32, cpu: CpuState, m: Memory): (s: Step)
    ensures s.machine.memory == m && !s.halt && s.output == None
    ensures FallsThrough(cpu, s.machine.cpu)
    ensures OnlyChanges(rd, cpu, s.machine.cpu)
    ensures ReadRegister(s.machine.cpu, rd) == if rd == 0 then 0 else Alu(op, ReadRegister(cpu, rs1), operand)
  {
    Continue(WriteBack(cpu, rd, Alu(op, ReadRegister(cpu, rs1), operand)), m)
  }

  function ExecuteLoad(i: Instruction, cpu: CpuState, m: Memory): (r: Result<Step>)
    requires IsLoad(i)
    ensures r.Ok? <==> InBounds(m, EffectiveAddress(cpu, i), AccessWidth(i))
    ensures r.Err? ==> r.error == MemoryViolation(EffectiveAddress(cpu, i))
    ensures r.Ok? ==> r.value.machine.memory == m && !r.value.halt && r.value.output == None
    ensures r.Ok? ==> FallsThrough(cpu, r.value.machine.cpu)
    ensures r.Ok? ==> OnlyChanges(i.rd, cpu, r.value.machine.cpu)
    ensures r.Ok? ==>
      ReadRegister(r.value.machine.cpu, i.rd) == (if i.rd == 0 then 0 else LoadValue(i, m, EffectiveAddress(cpu, i)).value)
  {
    var v :- LoadValue(i, m, EffectiveAddress(cpu, i));
    Ok(Continue(WriteBack(cpu, i.rd, v), m))
  }

  function ExecuteStore(i: Instruction, cpu: CpuState, m: Memory): (r: Result<Step>)
    requires IsStore(i)
    ensures r.Ok? <==> InBounds(m, EffectiveAddress(cpu, i), AccessWidth(i))
    ensures r.Err? ==> r.error == MemoryViolation(EffectiveAddress(cpu, i))
    ensures r.Ok? ==> r.value.machine.cpu == IncrementPc(cpu) && !r.value.halt && r.value.output == None
    ensures r.Ok? ==> r.value.machine.memory == StoreValue(i, m, EffectiveAddress(cpu, i), ReadRegister(cpu, i.rs2)).value
  {
    var m' :- StoreValue(i, m, EffectiveAddress(cpu, i), ReadRegister(cpu, i.rs2));
    Ok(Continue(IncrementPc(cpu), m'))
  }

  /** A conditional branch: to `pc + imm` when taken, to the next
      instruction otherwise; one cycle either way. */
  function ExecuteBranch(i: Instruction, cpu: CpuState, m: Memory): (s: Step)
    requires IsBranch(i)
    ensures s.machine.memory == m && !s.halt && s.output == None
    ensures s.machine.cpu.registers == cpu.registers
    ensures s.machine.cpu.cycles == cpu.cycles + 1
    ensures s.machine.cpu.pc ==
      if BranchTaken(i, ReadRegister(cpu, i.rs1), ReadRegister(cpu, i.rs2)) then cpu.pc + i.imm else cpu.pc + 4
  {
    if BranchTaken(i, ReadRegister(cpu, i.rs1), ReadRegister(cpu, i.rs2)) then
      Continue(SetPc(cpu, cpu.pc + i.imm), m)
    else
      Continue(IncrementPc(cpu), m)
  }

  /** `jal`: `rd` receives the return address and control moves to
      `pc + imm`. */
  function ExecuteJal(rd: RegisterIndex, imm: bv32, cpu: CpuState, m: Memory): (s: Step)
    ensures s.machine.memory == m && !s.halt && s.output == None
    ensures s.machine.cpu.cycles == cpu.cycles + 1
    ensures s.machine.cpu.pc == cpu.pc + imm
    ensures OnlyChanges(rd, cpu, s.machine.cpu)
    ensures ReadRegister(s.machine.cpu, rd) == if rd == 0 then 0 else LinkAddress(cpu.pc)
  {
    Continue(SetPc(WriteRegister(cpu, rd, LinkAddress(cpu.pc)), cpu.pc + imm), m)
  }

  /** `jalr`: the target `rs1 + imm` with its low bit cleared is computed
      before `rd` is written, so `rd == rs1` jumps through the old value. */
  function ExecuteJalr(rd: RegisterIndex, rs1: RegisterIndex, imm: bv32, cpu: CpuState, m: Memory): (s: Step)
    ensures s.machine.memory == m && !s.halt && s.output == None
    ensures s.machine.cpu.cycles == cpu.cycles + 1
    ensures s.machine.cpu.pc == (ReadRegister(cpu, rs1) + imm) & 0xFFFF_FFFE
    ensures OnlyChanges(rd, cpu, s.machine.cpu)
    ensures ReadRegister(s.machine.cpu, rd) == if rd == 0 then 0 else LinkAddress(cpu.pc)
  {
    var target := (ReadRegister(cpu, rs1) + imm) & 0xFFFF_FFFE;
    Continue(SetPc(WriteRegister(cpu, rd, LinkAddress(cpu.pc)), target), m)
  }

  /** `lui` (`rd` receives the immediate) and `auipc` (`rd` receives
      `pc + imm`). */
  function ExecuteUpper(i: Instruction, cpu: CpuState, m: Memory): (s: Step)
    requires IsUpperImmediate(i)
    ensures s.machine.memory == m && !s.halt && s.output == None
    ensures FallsThrough(cpu, s.machine.cpu)
    ensures OnlyChanges(i.rd, cpu, s.machine.cpu)
    ensures ReadRegister(s.machine.cpu, i.rd) ==
      if i.rd == 0 then 0 else if i.Lui? then i.imm else cpu.pc + i.imm
  {
    Continue(WriteBack(cpu, i.rd, if i.Lui? then i.imm else cpu.pc + i.imm), m)
  }

  /** `ecall` as the source executes it: the handler's result is the
      step's result, and the program counter is left on the `ecall`. */
  function EcallStepAsWritten(cpu: CpuState, m: Memory): (r: Result<Step>)
    ensures r.Ok? ==> r.value.machine.cpu.pc == cpu.pc && r.value.machine.cpu.cycles == cpu.cycles
  {
    var o :- HandleSyscall(cpu, m);
    Ok(Step(Machine(o.cpu, m), o.halt, o.output))
  }

  /** A stdin read under the as-written `ecall` leaves the machine exactly
      as it was: the same `ecall` is fetched again, forever, and no cycle
      is counted, so the cycle limit never stops it. */
  lemma EcallAsWrittenRepeats(cpu: CpuState, m: Memory)
    requires ReadRegister(cpu, A7) == Number(Read) && ReadRegister(cpu, A0) == 0
    ensures EcallStepAsWritten(cpu, m) == Ok(Continue(cpu, m))
  {
    ReadBehaviour(cpu, m);
    var o := HandleSyscall(cpu, m).value;
    assert o.cpu.registers == cpu.registers by {
      forall k | 0 <= k < 32
        ensures o.cpu.registers[k] == cpu.registers[k]
      {
        var x := k as RegisterIndex;
        assert ReadRegister(o.cpu, x) == ReadRegister(cpu, x);
      }
    }
  }

  /** `ecall` as the machine executes it: a call that halts changes
      nothing; one that continues moves on to the next instruction like
      any other. */
  function EcallStep(cpu: CpuState, m: Memory): (r: Result<Step>)
    ensures r.Ok? <==> HandleSyscall(cpu, m).Ok?
    ensures r.Err? ==> r.error == HandleSyscall(cpu, m).error
    ensures r.Ok? ==> r.value.machine.memory == m && r.value.output == HandleSyscall(cpu, m).value.output
    ensures r.Ok? && r.value.halt ==> r.value.machine.cpu == cpu && r.value.output == None
    ensures r.Ok? && !r.value.halt ==> FallsThrough(cpu, r.value.machine.cpu)
    ensures r.Ok? ==> forall x: RegisterIndex :: x != A0 ==> ReadRegister(r.value.machine.cpu, x) == ReadRegister(cpu, x)
  {
    var o :- HandleSyscall(cpu, m);
    if o.halt then Ok(Step(Machine(o.cpu, m), true, o.output))
    else Ok(Step(Machine(IncrementPc(o.cpu), m), false, o.output))
  }

  /** A step that goes on, moved on to the next instruction and counted;
      a failure or an exit as it is. */
  function MoveOn(r: Result<Step>): Result<Step> {
    if r.Ok? && !r.value.halt then
      Ok(Step(Machine(IncrementPc(r.value.machine.cpu), r.value.machine.memory), false, r.value.output))
    else r
  }

  /** The two `ecall` definitions agree on whether the call fails, halts
      and what it writes; they differ only in where a continuing call
      leaves the program counter. */
  lemma EcallStepCorrection(cpu: CpuState, m: Memory)
    ensures EcallStep(cpu, m).Ok? <==> EcallStepAsWritten(cpu, m).Ok?
    ensures EcallStep(cpu, m).Ok? ==>
      && EcallStep(cpu, m).value.halt == EcallStepAsWritten(cpu, m).value.halt
      && EcallStep(cpu, m).value.output == EcallStepAsWritten(cpu, m).value.output
      && EcallStep(cpu, m).value.machine.cpu.registers == EcallStepAsWritten(cpu, m).value.machine.cpu.registers
      && (!EcallStep(cpu, m).value.halt ==> EcallStep(cpu, m).value.machine.cpu.pc == cpu.pc + 4)
    ensures EcallStep(cpu, m) == MoveOn(EcallStepAsWritten(cpu, m))
  {
  }

  /* One instruction, one cycle. */

  /** The arithmetic instructions, each handing its operation and
      operands to the unit. */
  function ExecuteArithmetic(i: Instruction, cpu: CpuState, m: Memory): (s: Step)
    requires IsRegisterArithmetic(i) || IsImmediateArithmetic(i) || IsShiftImmediate(i)
    ensures s.machine.memory == m && !s.halt && s.output == None
    ensures FallsThrough(cpu, s.machine.cpu)
    ensures OnlyChanges(i.rd, cpu, s.machine.cpu)
  {
    if i.Add? then ExecuteRegisterOp(AddOp, i.rd, i.rs1, i.rs2, cpu, m)
    else if i.Sub? then ExecuteRegisterOp(SubOp, i.rd, i.rs1, i.rs2, cpu, m)
    else if i.Slt? then ExecuteRegisterOp(SltOp, i.rd, i.rs1, i.rs2, cpu, m)
    else if i.Sltu? then ExecuteRegisterOp(SltuOp, i.rd, i.rs1, i.rs2, cpu, m)
    else if i.And? then ExecuteRegisterOp(AndOp, i.rd, i.rs1, i.rs2, cpu, m)
    else if i.Or? then ExecuteRegisterOp(OrOp, i.rd, i.rs1, i.rs2, cpu, m)
    else if i.Xor? then ExecuteRegisterOp(XorOp, i.rd, i.rs1, i.rs2, cpu, m)
    else if i.Sll? then ExecuteRegisterOp(SllOp, i.rd, i.rs1, i.rs2, cpu, m)
    else if i.Srl? then ExecuteRegisterOp(SrlOp, i.rd, i.rs1, i.rs2, cpu, m)
    else if i.Sra? then ExecuteRegisterOp(SraOp, i.rd, i.rs1, i.rs2, cpu, m)
    else if i.Addi? then ExecuteImmediateOp(AddOp, i.rd, i.rs1, i.imm, cpu, m)
    else if i.Slti? then ExecuteImmediateOp(SltOp, i.rd, i.rs1, i.imm, cpu, m)
    else if i.Sltiu? then ExecuteImmediateOp(SltuOp, i.rd, i.rs1, i.imm, cpu, m)
    else if i.Andi? then ExecuteImmediateOp(AndOp, i.rd, i.rs1, i.imm, cpu, m)
    else if i.Ori? then ExecuteImmediateOp(OrOp, i.rd, i.rs1, i.imm, cpu, m)
    else if i.Xori? then ExecuteImmediateOp(XorOp, i.rd, i.rs1, i.imm, cpu, m)
    else if i.Slli? then ExecuteImmediateOp(SllOp, i.rd, i.rs1, i.shamt, cpu, m)
    else if i.Srli? then ExecuteImmediateOp(SrlOp, i.rd, i.rs1, i.shamt, cpu, m)
    else ExecuteImmediateOp(SraOp, i.rd, i.rs1, i.shamt, cpu, m)
  }

  /** `Executor::execute_instruction`: the effect of `i` on the machine, or
      the error that stops it. A failing instruction changes nothing; only
      `ecall` can halt or write to the host, and a halting `ecall` changes
      nothing either. Every instruction but `ecall` counts exactly one
      cycle; `ecall` returns the handler's result as it stands, so it
      leaves the program counter and the cycle count where they were. Only
      a store changes memory, and never its size. */
  function ExecuteInstruction(i: Instruction, cpu: CpuState, m: Memory): (r: Result<Step>)
    ensures r.Err? ==> IsLoad(i) || IsStore(i) || i.Ecall? || i.Ebreak?
    ensures (IsLoad(i) || IsStore(i)) && r.Err? ==> r.error == MemoryViolation(EffectiveAddress(cpu, i))
    ensures i.Ecall? && r.Err? ==> r.error.SyscallError?
    ensures i.Ebreak? ==> r == Err(ExecutionError(BreakpointEncountered))
    ensures r.Ok? && (r.value.halt || r.value.output.Some?) ==> i.Ecall?
    ensures r.Ok? && r.value.halt ==> r.value.machine == Machine(cpu, m) && r.value.output == None
    ensures r.Ok? && !i.Ecall? ==> r.value.machine.cpu.cycles == cpu.cycles + 1
    ensures r.Ok? && i.Ecall? ==> r.value.machine.cpu.pc == cpu.pc && r.value.machine.cpu.cycles == cpu.cycles
    ensures r.Ok? ==> Size(r.value.machine.memory) == Size(m)
    ensures r.Ok? && !IsStore(i) ==> r.value.machine.memory == m
  {
    if IsRegisterArithmetic(i) || IsImmediateArithmetic(i) || IsShiftImmediate(i) then Ok(ExecuteArithmetic(i, cpu, m))
    else if IsLoad(i) then ExecuteLoad(i, cpu, m)
    else if IsStore(i) then ExecuteStore(i, cpu, m)
    else if IsBranch(i) then Ok(ExecuteBranch(i, cpu, m))
    else if i.Jal? then Ok(ExecuteJal(i.rd, i.imm, cpu, m))
    else if i.Jalr? then Ok(ExecuteJalr(i.rd, i.rs1, i.imm, cpu, m))
    else if IsUpperImmediate(i) then Ok(ExecuteUpper(i, cpu, m))
    else if i.Ecall? then EcallStepAsWritten(cpu, m)
    else Err(ExecutionError(BreakpointEncountered))
  }

  /** The instruction step with the corrected `ecall`: a system call that
      goes on moves to the next instruction and counts a cycle like every
      other instruction. */
  function ExecuteInstructionCorrected(i: Instruction, cpu: CpuState, m: Memory): (r: Result<Step>)
    ensures r.Ok? && r.value.halt ==> r.value.machine == Machine(cpu, m) && r.value.output == None
    ensures r.Ok? && !r.value.halt ==> r.value.machine.cpu.cycles == cpu.cycles + 1
    ensures r.Ok? ==> Size(r.value.machine.memory) == Size(m)
  {
    if i.Ecall? then EcallStep(cpu, m) else ExecuteInstruction(i, cpu, m)
  }

  /** The two instruction steps differ only on an `ecall` that goes on,
      and there only in the program counter and the cycle count. */
  lemma InstructionCorrection(i: Instruction, cpu: CpuState, m: Memory)
    ensures ExecuteInstructionCorrected(i, cpu, m) ==
      if i.Ecall? then MoveOn(ExecuteInstruction(i, cpu, m)) else ExecuteInstruction(i, cpu, m)
  {
    if i == Ecall {
      EcallInstruction(cpu, m);
      assert ExecuteInstructionCorrected(i, cpu, m) == EcallStep(cpu, m);
      EcallStepCorrection(cpu, m);
    }
  }

  /** The source's instruction step executes `ecall` by the as-written
      `ecall` step. */
  lemma EcallInstruction(cpu: CpuState, m: Memory)
    ensures ExecuteInstruction(Ecall, cpu, m) == EcallStepAsWritten(cpu, m)
  {
    var i := Ecall;
    assert !IsRegisterArithmetic(i) && !IsImmediateArithmetic(i) && !IsShiftImmediate(i);
    assert !IsLoad(i) && !IsStore(i) && !IsBranch(i) && !IsUpperImmediate(i);
  }

  /** The instruction at pc: the word there when it is wholly in memory
      (failing with the pc otherwise), decoded (failing with the word). */
  function Fetch(cpu: CpuState, m: Memory): (r: Result<Instruction>)
    ensures !InBounds(m, cpu.pc, 4) ==> r == Err(MemoryViolation(cpu.pc))
    ensures InBounds(m, cpu.pc, 4) ==>
      var w := WordAt(m.data, cpu.pc as int);
      && (Decode(w).Err? ==> r == Err(InvalidInstruction(w)))
      && (Decode(w).Ok? ==> r == Decode(w))
  {
    var word :- LoadWord(m, cpu.pc);
    Decode(word)
  }

  /** `Executor::execute_cycle`: fetch, decode and execute one
      instruction. A fetched `ecall` leaves pc and the counter where they
      were; every other successful cycle that does not exit counts one. */
  function ExecuteCycle(cpu: CpuState, m: Memory): (r: Result<Step>)
    ensures Fetch(cpu, m).Err? ==> r == Err(Fetch(cpu, m).error)
    ensures Fetch(cpu, m).Ok? ==> r == ExecuteInstruction(Fetch(cpu, m).value, cpu, m)
    ensures r.Ok? && r.value.halt ==> r.value.machine == Machine(cpu, m) && r.value.output == None
    ensures r.Ok? && Fetch(cpu, m) != Ok(Ecall) ==> r.value.machine.cpu.cycles == cpu.cycles + 1
    ensures r.Ok? && Fetch(cpu, m) == Ok(Ecall) ==> r.value.machine.cpu.pc == cpu.pc && r.value.machine.cpu.cycles == cpu.cycles
    ensures r.Ok? ==> Size(r.value.machine.memory) == Size(m)
  {
    var i :- Fetch(cpu, m);
    ExecuteInstruction(i, cpu, m)
  }

  /** The fetch reads only the program counter and memory. */
  lemma FetchAtPc(c: CpuState, d: CpuState, m: Memory)
    requires c.pc == d.pc
    ensures Fetch(c, m) == Fetch(d, m)
  {
  }

  /** A cycle that fetches `ecall` is the source's `ecall` step. */
  lemma EcallCycle(cpu: CpuState, m: Memory)
    requires Fetch(cpu, m) == Ok(Ecall)
    ensures ExecuteCycle(cpu, m) == EcallStepAsWritten(cpu, m)
  {
  }

  /** The cycle with the corrected `ecall`. */
  function ExecuteCycleCorrected(cpu: CpuState, m: Memory): (r: Result<Step>)
    ensures r.Ok? && r.value.halt ==> r.value.machine == Machine(cpu, m) && r.value.output == None
    ensures r.Ok? && !r.value.halt ==> r.value.machine.cpu.cycles == cpu.cycles + 1
    ensures r.Ok? ==> Size(r.value.machine.memory) == Size(m)
  {
    var i :- Fetch(cpu, m);
    ExecuteInstructionCorrected(i, cpu, m)
  }

  /** The next cycle runs an `ecall` that goes on: the one case where the
      source's cycle and the corrected cycle part. */
  predicate ContinuingEcall(cpu: CpuState, m: Memory) {
    && Fetch(cpu, m) == Ok(Ecall)
    && ExecuteCycle(cpu, m).Ok?
    && !ExecuteCycle(cpu, m).value.halt
  }

  /** The two cycles agree except on an `ecall` that goes on, where the
      corrected cycle also moves to the next instruction and counts it. */
  lemma CycleCorrection(cpu: CpuState, m: Memory)
    ensures !ContinuingEcall(cpu, m) ==> ExecuteCycleCorrected(cpu, m) == ExecuteCycle(cpu, m)
    ensures ContinuingEcall(cpu, m) ==>
      var a := ExecuteCycle(cpu, m).value;
      ExecuteCycleCorrected(cpu, m) == Ok(Step(Machine(IncrementPc(a.machine.cpu), m), false, a.output))
  {
    if Fetch(cpu, m).Ok? {
      InstructionCorrection(Fetch(cpu, m).value, cpu, m);
    }
  }
}
