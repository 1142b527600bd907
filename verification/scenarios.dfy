/** Program images: instruction words laid out as little-endian bytes. */
module ProgramImage {
  import opened ByteMemory

  /** The little-endian bytes of a sequence of instruction words. */
  function WordsToBytes(words: seq<bv32>): (bytes: seq<bv8>)
    ensures |bytes| == 4 * |words|
  {
    if words == [] then [] else WordToBytes(words[0]) + WordsToBytes(words[1..])
  }

  /** A word read inside the first or the second part of a concatenation. */
  lemma WordAtPrefix(p: seq<bv8>, q: seq<bv8>, o: nat)
    requires o + 4 <= |p|
    ensures WordAt(p + q, o) == WordAt(p, o)
  {
    assert (p + q)[o] == p[o] && (p + q)[o + 1] == p[o + 1];
    assert (p + q)[o + 2] == p[o + 2] && (p + q)[o + 3] == p[o + 3];
  }

  lemma WordAtSuffix(p: seq<bv8>, q: seq<bv8>, o: nat)
    requires o + 4 <= |q|
    ensures WordAt(p + q, |p| + o) == WordAt(q, o)
  {
    var n := |p|;
    assert (p + q)[n + o] == q[o] && (p + q)[n + o + 1] == q[o + 1];
    assert (p + q)[n + o + 2] == q[o + 2] && (p + q)[n + o + 3] == q[o + 3];
  }

  /** The k-th word of the byte image is the k-th instruction word. */
  lemma {:induction false} WordOfImage(words: seq<bv32>, k: nat)
    requires k < |words|
    ensures WordAt(WordsToBytes(words), 4 * k) == words[k]
  {
    var head := WordToBytes(words[0]);
    assert WordsToBytes(words) == head + WordsToBytes(words[1..]);
    if k == 0 {
      WordAtPrefix(head, WordsToBytes(words[1..]), 0);
      WordBytesRoundTrip(words[0]);
    } else {
      WordOfImage(words[1..], k - 1);
      WordAtSuffix(head, WordsToBytes(words[1..]), 4 * (k - 1));
    }
  }

  /** A word inside the written stretch reads as the written bytes. */
  lemma WordAtOverwritten(m: Memory, a: nat, bytes: seq<bv8>, o: nat, w: bv32)
    requires a + |bytes| <= |m.data| && o + 4 <= |bytes|
    requires WordAt(bytes, o) == w
    ensures WordAt(Overwrite(m, a, bytes).data, a + o) == w
  {
    var d := Overwrite(m, a, bytes).data;
    assert d == m.data[..a] + bytes + m.data[a + |bytes|..];
    WordAtPrefix(m.data[..a] + bytes, m.data[a + |bytes|..], a + o);
    WordAtSuffix(m.data[..a], bytes, o);
  }

  /** Writing the byte image of `words` at `a` puts the k-th word at
      `a + 4 * k`. */
  lemma WordAtImage(m: Memory, a: nat, words: seq<bv32>, k: nat)
    requires a + 4 * |words| <= |m.data| && k < |words|
    ensures WordAt(Overwrite(m, a, WordsToBytes(words)).data, a + 4 * k) == words[k]
  {
    var bytes, o := WordsToBytes(words), 4 * k;
    WordOfImage(words, k);
    WordAtOverwritten(m, a, bytes, o, words[k]);
    assert WordAt(Overwrite(m, a, bytes).data, a + o) == words[k];
  }

  /** `words` lies in `m` from `a` on, one word per instruction. */
  ghost predicate Loaded(m: Memory, a: nat, words: seq<bv32>) {
    && a + 4 * |words| <= |m.data|
    && forall k :: 0 <= k < |words| ==> WordAt(m.data, a + 4 * k) == words[k]
  }

  lemma ImageLoaded(m: Memory, a: nat, words: seq<bv32>)
    requires a + 4 * |words| <= |m.data|
    ensures Loaded(Overwrite(m, a, WordsToBytes(words)), a, words)
  {
    forall k | 0 <= k < |words|
      ensures WordAt(Overwrite(m, a, WordsToBytes(words)).data, a + 4 * k) == words[k]
    {
      WordAtImage(m, a, words, k);
    }
  }
}

/** A whole program run on the model: the example program that adds 10
    and 32 and exits with the sum. It is loaded at 0x1000 as the
    little-endian bytes of its instruction words, the pc is set there, and
    the machine runs under the default configuration. */
module Scenarios {
  import opened Errors
  import opened Registers
  import opened Instructions
  import opened ByteMemory
  import opened Cpu
  import opened Decoder
  import opened Executor
  import opened Vm
  import opened ProgramImage
  import Config

  /** The machine `VirtualMachine::new` builds with `program` loaded at
      0x1000 and the pc set there. */
  function Boot(program: seq<bv32>): Result<VirtualMachine> {
    var vm :- LoadBinary(Vm.New(), 0x1000, WordsToBytes(program));
    Ok(Vm.SetPc(vm, 0x1000))
  }

  /* One step of each kind the programs use. */

  /** A cycle that fetches `addi rd, rs1, imm` goes on: rd receives rs1 +
      imm, nothing else changes but pc and the cycle count. */
  lemma AddiStep(vm: VirtualMachine, rd: RegisterIndex, rs1: RegisterIndex, imm: bv32)
    requires vm.cpu.cycles < vm.config.maxCycles
    requires InBounds(vm.memory, vm.cpu.pc, 4)
    requires Decode(WordAt(vm.memory.data, vm.cpu.pc as int)) == Ok(Addi(rd, rs1, imm))
    ensures Continues(ExecuteCycle, vm)
    ensures var step := ExecuteCycle(vm.cpu, vm.memory).value;
      var next := Resume(vm, step);
      && Written(step) == []
      && next.memory == vm.memory && next.config == vm.config
      && next.cpu.pc == vm.cpu.pc + 4 && next.cpu.cycles == vm.cpu.cycles + 1
      && OnlyChanges(rd, vm.cpu, next.cpu)
      && ReadRegister(next.cpu, rd) == if rd == 0 then 0 else ReadRegister(vm.cpu, rs1) + imm
  {
    var i := Addi(rd, rs1, imm);
    assert ExecuteCycle(vm.cpu, vm.memory) == ExecuteInstruction(i, vm.cpu, vm.memory);
    assert ExecuteArithmetic(i, vm.cpu, vm.memory) == ExecuteImmediateOp(AddOp, rd, rs1, imm, vm.cpu, vm.memory);
    assert ExecuteInstruction(i, vm.cpu, vm.memory) == Ok(ExecuteArithmetic(i, vm.cpu, vm.memory));
    AluAdd(ReadRegister(vm.cpu, rs1), imm);
  }

  /** A cycle that fetches `add rd, rs1, rs2` goes on: rd receives rs1 +
      rs2, nothing else changes but pc and the cycle count. */
  lemma AddStep(vm: VirtualMachine, rd: RegisterIndex, rs1: RegisterIndex, rs2: RegisterIndex)
    requires vm.cpu.cycles < vm.config.maxCycles
    requires InBounds(vm.memory, vm.cpu.pc, 4)
    requires Decode(WordAt(vm.memory.data, vm.cpu.pc as int)) == Ok(Add(rd, rs1, rs2))
    ensures Continues(ExecuteCycle, vm)
    ensures var step := ExecuteCycle(vm.cpu, vm.memory).value;
      var next := Resume(vm, step);
      && Written(step) == []
      && next.memory == vm.memory && next.config == vm.config
      && next.cpu.pc == vm.cpu.pc + 4 && next.cpu.cycles == vm.cpu.cycles + 1
      && OnlyChanges(rd, vm.cpu, next.cpu)
      && ReadRegister(next.cpu, rd) == if rd == 0 then 0 else ReadRegister(vm.cpu, rs1) + ReadRegister(vm.cpu, rs2)
  {
    var i := Add(rd, rs1, rs2);
    assert ExecuteCycle(vm.cpu, vm.memory) == ExecuteInstruction(i, vm.cpu, vm.memory);
    assert ExecuteArithmetic(i, vm.cpu, vm.memory) == ExecuteRegisterOp(AddOp, rd, rs1, rs2, vm.cpu, vm.memory);
    assert ExecuteInstruction(i, vm.cpu, vm.memory) == Ok(ExecuteArithmetic(i, vm.cpu, vm.memory));
    AluAdd(ReadRegister(vm.cpu, rs1), ReadRegister(vm.cpu, rs2));
  }

  /** `ecall` with the exit number in a7 halts and changes nothing. */
  lemma EcallExits(cpu: CpuState, m: Memory)
    requires ReadRegister(cpu, A7) == 93
    ensures ExecuteInstruction(Ecall, cpu, m) == Ok(Step(Machine(cpu, m), true, None))
  {
    Syscalls.ExitHalts(cpu, m);
    assert EcallStepAsWritten(cpu, m) == Ok(Step(Machine(cpu, m), true, None));
  }

  /** A cycle that fetches `ecall` with the exit number in a7 ends the run
      where it is. */
  lemma ExitStep(vm: VirtualMachine)
    requires vm.cpu.cycles < vm.config.maxCycles
    requires InBounds(vm.memory, vm.cpu.pc, 4)
    requires Decode(WordAt(vm.memory.data, vm.cpu.pc as int)) == Ok(Ecall)
    requires ReadRegister(vm.cpu, A7) == 93
    ensures HaltsHere(ExecuteCycle, vm)
  {
    EcallExits(vm.cpu, vm.memory);
    EcallCycle(vm.cpu, vm.memory);
  }

  /** The example program: x1 := 10, x2 := 32, x3 := x1 + x2, x10 := x3,
      x17 := 93, then the exit call. */
  const Example: seq<bv32> := [0x00a00093, 0x02000113, 0x002081b3, 0x00018513, 0x05d00893, 0x00000073]

  /** The example's words decode to the instructions it is written as. */
  lemma ExampleDecodes()
    ensures Decode(0x00a00093) == Ok(Addi(1, 0, 10))
    ensures Decode(0x02000113) == Ok(Addi(2, 0, 32))
    ensures Decode(0x002081b3) == Ok(Add(3, 1, 2))
    ensures Decode(0x00018513) == Ok(Addi(10, 3, 0))
    ensures Decode(0x05d00893) == Ok(Addi(17, 0, 93))
    ensures Decode(0x00000073) == Ok(Ecall)
  {
  }

  /** Booting a program that fits puts it in memory at 0x1000 and starts
      there, with the set-pc cycle counted and the default configuration. */
  lemma BootLoads(program: seq<bv32>)
    requires 0x1000 + 4 * |program| <= 0x40_0000
    ensures Boot(program).Ok?
    ensures var vm := Boot(program).value;
      && Loaded(vm.memory, 0x1000, program)
      && vm.cpu.pc == 0x1000 && vm.cpu.cycles == 1
      && vm.config == Config.Default()
  {
    var bytes := WordsToBytes(program);
    var vm := Vm.New();
    var m' := Overwrite(vm.memory, 0x1000, bytes);
    assert LoadBinary(vm, 0x1000, bytes) == Ok(vm.(memory := m'));
    assert Boot(program) == Ok(Vm.SetPc(vm.(memory := m'), 0x1000));
    ImageLoaded(vm.memory, 0x1000, program);
  }

  /** The example machine after its first `k` instructions. */
  ghost predicate ExampleAt(s: VirtualMachine, k: nat) {
    && k <= 5
    && Loaded(s.memory, 0x1000, Example)
    && s.config == Config.Default()
    && s.cpu.pc as int == 0x1000 + 4 * k && s.cpu.cycles == 1 + k
    && (k >= 1 ==> ReadRegister(s.cpu, 1) == 10)
    && (k >= 2 ==> ReadRegister(s.cpu, 2) == 32)
    && (k >= 3 ==> ReadRegister(s.cpu, 3) == 42)
    && (k >= 4 ==> ReadRegister(s.cpu, A0) == 42)
    && (k >= 5 ==> ReadRegister(s.cpu, A7) == 93)
  }

  /* The first five instructions each go on to the next point of the
     example and write nothing. */

  /** `addi x1, x0, 10` puts 10 in x1. */
  lemma ExampleLoadsTen(s: VirtualMachine)
    requires ExampleAt(s, 0)
    ensures Continues(ExecuteCycle, s)
    ensures var step := ExecuteCycle(s.cpu, s.memory).value;
      Written(step) == [] && ExampleAt(Resume(s, step), 1)
  {
    ExampleDecodes();
    assert WordAt(s.memory.data, s.cpu.pc as int) == Example[0];
    AddiStep(s, 1, 0, 10);
  }

  /** `addi x2, x0, 32` puts 32 in x2. */
  lemma ExampleLoadsThirtyTwo(s: VirtualMachine)
    requires ExampleAt(s, 1)
    ensures Continues(ExecuteCycle, s)
    ensures var step := ExecuteCycle(s.cpu, s.memory).value;
      Written(step) == [] && ExampleAt(Resume(s, step), 2)
  {
    ExampleDecodes();
    assert WordAt(s.memory.data, s.cpu.pc as int) == Example[1];
    AddiStep(s, 2, 0, 32);
  }

  /** `add x3, x1, x2` puts 42 in x3. */
  lemma ExampleAdds(s: VirtualMachine)
    requires ExampleAt(s, 2)
    ensures Continues(ExecuteCycle, s)
    ensures var step := ExecuteCycle(s.cpu, s.memory).value;
      Written(step) == [] && ExampleAt(Resume(s, step), 3)
  {
    ExampleDecodes();
    assert WordAt(s.memory.data, s.cpu.pc as int) == Example[2];
    AddStep(s, 3, 1, 2);
  }

  /** `addi x10, x3, 0` copies 42 to a0. */
  lemma ExampleMovesResult(s: VirtualMachine)
    requires ExampleAt(s, 3)
    ensures Continues(ExecuteCycle, s)
    ensures var step := ExecuteCycle(s.cpu, s.memory).value;
      Written(step) == [] && ExampleAt(Resume(s, step), 4)
  {
    ExampleDecodes();
    assert WordAt(s.memory.data, s.cpu.pc as int) == Example[3];
    AddiStep(s, A0, 3, 0);
  }

  /** `addi x17, x0, 93` puts the exit number in a7. */
  lemma ExampleLoadsExitNumber(s: VirtualMachine)
    requires ExampleAt(s, 4)
    ensures Continues(ExecuteCycle, s)
    ensures var step := ExecuteCycle(s.cpu, s.memory).value;
      Written(step) == [] && ExampleAt(Resume(s, step), 5)
  {
    ExampleDecodes();
    assert WordAt(s.memory.data, s.cpu.pc as int) == Example[4];
    AddiStep(s, A7, 0, 93);
  }

  /** How the example ends: successfully, after six cycles in all (the
      set-pc cycle and five instructions), with 42 in a0 and nothing
      written. */
  ghost predicate ExampleResult(run: Run) {
    && run.outcome == Ok(())
    && run.output == []
    && ReadRegister(run.vm.cpu, A0) == 42
    && run.vm.cpu.cycles == 6
    && run.vm.cpu.pc == 0x1014
  }

  /** The sixth instruction, the exit call, ends the run. */
  lemma ExampleRunsFrom5(s: VirtualMachine, fuel: nat)
    requires ExampleAt(s, 5) && fuel >= 1
    ensures Execute(s, fuel) == Some(Run(s, Ok(()), []))
    ensures ExampleResult(Execute(s, fuel).value)
  {
    ExampleDecodes();
    assert WordAt(s.memory.data, s.cpu.pc as int) == Example[5];
    ExitStep(s);
    ExecuteCycleSteps();
    FuelExits(ExecuteCycle, s, fuel);
  }

  lemma ExampleRunsFrom4(s: VirtualMachine, fuel: nat) returns (last: VirtualMachine)
    requires ExampleAt(s, 4) && fuel >= 2
    ensures ExampleAt(last, 5) && Execute(s, fuel) == Some(Run(last, Ok(()), []))
  {
    ExampleLoadsExitNumber(s);
    var next, rest: nat := Resume(s, ExecuteCycle(s.cpu, s.memory).value), fuel - 1;
    ExecuteQuietStep(s, fuel, rest);
    ExampleRunsFrom5(next, rest);
    last := next;
  }

  lemma ExampleRunsFrom3(s: VirtualMachine, fuel: nat) returns (last: VirtualMachine)
    requires ExampleAt(s, 3) && fuel >= 3
    ensures ExampleAt(last, 5) && Execute(s, fuel) == Some(Run(last, Ok(()), []))
  {
    ExampleMovesResult(s);
    var next, rest: nat := Resume(s, ExecuteCycle(s.cpu, s.memory).value), fuel - 1;
    ExecuteQuietStep(s, fuel, rest);
    last := ExampleRunsFrom4(next, rest);
  }

  lemma ExampleRunsFrom2(s: VirtualMachine, fuel: nat) returns (last: VirtualMachine)
    requires ExampleAt(s, 2) && fuel >= 4
    ensures ExampleAt(last, 5) && Execute(s, fuel) == Some(Run(last, Ok(()), []))
  {
    ExampleAdds(s);
    var next, rest: nat := Resume(s, ExecuteCycle(s.cpu, s.memory).value), fuel - 1;
    ExecuteQuietStep(s, fuel, rest);
    last := ExampleRunsFrom3(next, rest);
  }

  lemma ExampleRunsFrom1(s: VirtualMachine, fuel: nat) returns (last: VirtualMachine)
    requires ExampleAt(s, 1) && fuel >= 5
    ensures ExampleAt(last, 5) && Execute(s, fuel) == Some(Run(last, Ok(()), []))
  {
    ExampleLoadsThirtyTwo(s);
    var next, rest: nat := Resume(s, ExecuteCycle(s.cpu, s.memory).value), fuel - 1;
    ExecuteQuietStep(s, fuel, rest);
    last := ExampleRunsFrom2(next, rest);
  }

  lemma ExampleRunsFrom0(s: VirtualMachine, fuel: nat) returns (last: VirtualMachine)
    requires ExampleAt(s, 0) && fuel >= 6
    ensures ExampleAt(last, 5) && Execute(s, fuel) == Some(Run(last, Ok(()), []))
  {
    ExampleLoadsTen(s);
    var next, rest: nat := Resume(s, ExecuteCycle(s.cpu, s.memory).value), fuel - 1;
    ExecuteQuietStep(s, fuel, rest);
    last := ExampleRunsFrom1(next, rest);
  }

  /** The example program, booted and run, exits with 42 in a0 after six
      cycles and writes nothing. */
  lemma ExampleProgram(fuel: nat)
    requires fuel >= 6
    ensures Boot(Example).Ok?
    ensures Execute(Boot(Example).value, fuel).Some?
    ensures ExampleResult(Execute(Boot(Example).value, fuel).value)
  {
    BootLoads(Example);
    var last := ExampleRunsFrom0(Boot(Example).value, fuel);
  }

  /* A second program: x1 := 42, then x17 := 93, x10 := 0 and the exit
     call. */
  const AddiThenExit: seq<bv32> := [0x02a00093, 0x05d00893, 0x00000513, 0x00000073]

  /** Its words decode to the instructions they are written as. */
  lemma AddiThenExitDecodes()
    ensures Decode(0x02a00093) == Ok(Addi(1, 0, 42))
    ensures Decode(0x05d00893) == Ok(Addi(17, 0, 93))
    ensures Decode(0x00000513) == Ok(Addi(10, 0, 0))
    ensures Decode(0x00000073) == Ok(Ecall)
  {
  }

  /** The second program's machine after its first `k` instructions. */
  ghost predicate AddiThenExitAt(s: VirtualMachine, k: nat) {
    && k <= 3
    && Loaded(s.memory, 0x1000, AddiThenExit)
    && s.config == Config.Default()
    && s.cpu.pc as int == 0x1000 + 4 * k && s.cpu.cycles == 1 + k
    && (k >= 1 ==> ReadRegister(s.cpu, 1) == 42)
    && (k >= 2 ==> ReadRegister(s.cpu, A7) == 93)
    && (k >= 3 ==> ReadRegister(s.cpu, A0) == 0)
  }

  /** `addi x1, x0, 42` puts 42 in x1. */
  lemma AddiThenExitLoads(s: VirtualMachine)
    requires AddiThenExitAt(s, 0)
    ensures Continues(ExecuteCycle, s)
    ensures var step := ExecuteCycle(s.cpu, s.memory).value;
      Written(step) == [] && AddiThenExitAt(Resume(s, step), 1)
  {
    AddiThenExitDecodes();
    assert WordAt(s.memory.data, s.cpu.pc as int) == AddiThenExit[0];
    AddiStep(s, 1, 0, 42);
  }

  /** `addi x17, x0, 93` puts the exit number in a7; x1 keeps 42. */
  lemma AddiThenExitLoadsExitNumber(s: VirtualMachine)
    requires AddiThenExitAt(s, 1)
    ensures Continues(ExecuteCycle, s)
    ensures var step := ExecuteCycle(s.cpu, s.memory).value;
      Written(step) == [] && AddiThenExitAt(Resume(s, step), 2)
  {
    AddiThenExitDecodes();
    assert WordAt(s.memory.data, s.cpu.pc as int) == AddiThenExit[1];
    AddiStep(s, A7, 0, 93);
  }

  /** `addi x10, x0, 0` puts the exit code 0 in a0. */
  lemma AddiThenExitLoadsExitCode(s: VirtualMachine)
    requires AddiThenExitAt(s, 2)
    ensures Continues(ExecuteCycle, s)
    ensures var step := ExecuteCycle(s.cpu, s.memory).value;
      Written(step) == [] && AddiThenExitAt(Resume(s, step), 3)
  {
    AddiThenExitDecodes();
    assert WordAt(s.memory.data, s.cpu.pc as int) == AddiThenExit[2];
    AddiStep(s, A0, 0, 0);
  }

  /** How the second program ends: successfully, after four cycles, with
      42 in x1 and nothing written. */
  ghost predicate AddiThenExitResult(run: Run) {
    && run.outcome == Ok(())
    && run.output == []
    && ReadRegister(run.vm.cpu, 1) == 42
    && run.vm.cpu.cycles == 4
    && run.vm.cpu.pc == 0x100c
  }

  lemma AddiThenExitRunsFrom3(s: VirtualMachine, fuel: nat)
    requires AddiThenExitAt(s, 3) && fuel >= 1
    ensures Execute(s, fuel) == Some(Run(s, Ok(()), []))
    ensures AddiThenExitResult(Execute(s, fuel).value)
  {
    AddiThenExitDecodes();
    assert WordAt(s.memory.data, s.cpu.pc as int) == AddiThenExit[3];
    ExitStep(s);
    ExecuteCycleSteps();
    FuelExits(ExecuteCycle, s, fuel);
  }

  lemma AddiThenExitRunsFrom2(s: VirtualMachine, fuel: nat) returns (last: VirtualMachine)
    requires AddiThenExitAt(s, 2) && fuel >= 2
    ensures AddiThenExitAt(last, 3) && Execute(s, fuel) == Some(Run(last, Ok(()), []))
  {
    AddiThenExitLoadsExitCode(s);
    var next, rest: nat := Resume(s, ExecuteCycle(s.cpu, s.memory).value), fuel - 1;
    ExecuteQuietStep(s, fuel, rest);
    AddiThenExitRunsFrom3(next, rest);
    last := next;
  }

  lemma AddiThenExitRunsFrom1(s: VirtualMachine, fuel: nat) returns (last: VirtualMachine)
    requires AddiThenExitAt(s, 1) && fuel >= 3
    ensures AddiThenExitAt(last, 3) && Execute(s, fuel) == Some(Run(last, Ok(()), []))
  {
    AddiThenExitLoadsExitNumber(s);
    var next, rest: nat := Resume(s, ExecuteCycle(s.cpu, s.memory).value), fuel - 1;
    ExecuteQuietStep(s, fuel, rest);
    last := AddiThenExitRunsFrom2(next, rest);
  }

  lemma AddiThenExitRunsFrom0(s: VirtualMachine, fuel: nat) returns (last: VirtualMachine)
    requires AddiThenExitAt(s, 0) && fuel >= 4
    ensures AddiThenExitAt(last, 3) && Execute(s, fuel) == Some(Run(last, Ok(()), []))
  {
    AddiThenExitLoads(s);
    var next, rest: nat := Resume(s, ExecuteCycle(s.cpu, s.memory).value), fuel - 1;
    ExecuteQuietStep(s, fuel, rest);
    last := AddiThenExitRunsFrom1(next, rest);
  }

  /** The second program, booted and run, exits successfully with 42 in
      x1 after four cycles and writes nothing. */
  lemma AddiThenExitProgram(fuel: nat)
    requires fuel >= 4
    ensures Boot(AddiThenExit).Ok?
    ensures Execute(Boot(AddiThenExit).value, fuel).Some?
    ensures AddiThenExitResult(Execute(Boot(AddiThenExit).value, fuel).value)
  {
    BootLoads(AddiThenExit);
    var last := AddiThenExitRunsFrom0(Boot(AddiThenExit).value, fuel);
  }
}
