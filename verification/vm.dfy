/** `VirtualMachine`: a CPU, a memory and a configuration, and the run
    loop that fetches, decodes and executes until the program exits, an
    instruction fails, or the cycle budget is spent. Host output produced
    by `write` system calls is collected in order.

    The source's loop need not end: its `ecall` leaves the machine on the
    `ecall` without counting a cycle, so a system call that goes on can
    repeat forever. `Execute` therefore follows it for a given number of
    iterations (`ExecuteFuel`). With the corrected `ecall` every cycle
    that goes on counts one, the budget bounds every run, and the loop is
    total (`ExecuteWith`, `ExecuteCorrected`); the two are related by
    `FuelMatchesBudget` and `SourceRunIsCorrectedRun`. */
module Vm {
  import opened Errors
  import opened Registers
  import opened ByteMemory
  import opened Cpu
  import opened Syscalls
  import opened Instructions
  import opened Decoder
  import opened Executor
  import Config

  datatype VirtualMachine = VirtualMachine(cpu: CpuState, memory: Memory, config: Config.VmConfig)

  /** `VmStats`. */
  datatype VmStats = VmStats(cycles: nat, pc: bv32, memorySize: nat)

  /** The result of a run: the machine as it was left, how the run ended,
      and the host writes it made, oldest first. */
  datatype Run = Run(vm: VirtualMachine, outcome: Result<()>, output: seq<HostWrite>)

  /** `VirtualMachine::with_config`: a fresh CPU and zeroed memory of the
      configured size. */
  function WithConfig(config: Config.VmConfig): (vm: VirtualMachine)
    ensures vm.config == config
    ensures vm.cpu.pc == 0 && vm.cpu.cycles == 0
    ensures forall r: RegisterIndex :: ReadRegister(vm.cpu, r) == 0
    ensures Size(vm.memory) == config.memorySize
    ensures forall a :: 0 <= a < config.memorySize ==> vm.memory.data[a] == 0
  {
    VirtualMachine(Cpu.New(), ByteMemory.New(config.memorySize), config)
  }

  /** `VirtualMachine::new`: the default configuration. */
  function New(): (vm: VirtualMachine)
    ensures vm.config == Config.Default()
    ensures Size(vm.memory) == 0x40_0000
    ensures vm.cpu == Cpu.New()
  {
    WithConfig(Config.Default())
  }

  /** `VirtualMachine::load_binary`: the bytes are copied to memory from
      `addr` on when they fit, and every other byte stays; otherwise
      nothing is written. The CPU and the configuration are never
      touched. */
  function LoadBinary(vm: VirtualMachine, addr: bv32, data: seq<bv8>): (r: Result<VirtualMachine>)
    ensures r.Ok? <==> InBounds(vm.memory, addr, |data|)
    ensures r.Err? ==> r.error == MemoryViolation(addr)
    ensures r.Ok? ==> r.value.cpu == vm.cpu && r.value.config == vm.config
    ensures r.Ok? ==> Size(r.value.memory) == Size(vm.memory)
    ensures r.Ok? ==> LoadBytes(r.value.memory, addr, |data|) == Ok(data)
    ensures r.Ok? ==> r.value.memory == Overwrite(vm.memory, addr as int, data)
    ensures r.Ok? ==> forall k :: 0 <= k < Size(vm.memory) && !(addr as int <= k < addr as int + |data|) ==>
      r.value.memory.data[k] == vm.memory.data[k]
  {
    var m :- StoreBytes(vm.memory, addr, data);
    LoadStoreBytes(vm.memory, addr, data);
    Ok(vm.(memory := m))
  }

  /** `VirtualMachine::set_pc`: moves the program counter; like every
      jump it counts a cycle. */
  function SetPc(vm: VirtualMachine, pc: bv32): (vm': VirtualMachine)
    ensures vm'.cpu.pc == pc && vm'.cpu.cycles == vm.cpu.cycles + 1
    ensures vm'.cpu.registers == vm.cpu.registers
    ensures vm'.memory == vm.memory && vm'.config == vm.config
  {
    vm.(cpu := Cpu.SetPc(vm.cpu, pc))
  }

  /** `VirtualMachine::set_register`: x0 stays zero; every other register
      and the rest of the machine are unchanged. */
  function SetRegister(vm: VirtualMachine, reg: RegisterIndex, value: bv32): (vm': VirtualMachine)
    ensures ReadRegister(vm'.cpu, reg) == if reg == 0 then 0 else value
    ensures forall x: RegisterIndex :: x != reg ==> ReadRegister(vm'.cpu, x) == ReadRegister(vm.cpu, x)
    ensures vm'.cpu.pc == vm.cpu.pc && vm'.cpu.cycles == vm.cpu.cycles
    ensures vm'.memory == vm.memory && vm'.config == vm.config
  {
    vm.(cpu := WriteRegister(vm.cpu, reg, value))
  }

  /** The machine after a successful cycle. */
  function Resume(vm: VirtualMachine, step: Step): VirtualMachine {
    vm.(cpu := step.machine.cpu, memory := step.machine.memory)
  }

  /** The host writes of one cycle. */
  function Written(step: Step): seq<HostWrite> {
    if step.output.Some? then [step.output.value] else []
  }

  /** One cycle of the machine as the run loop sees it: the CPU and the
      memory in, the step taken or the error raised out. */
  type CycleFunction = (CpuState, Memory) -> Result<Step>

  /** What the source's run loop relies on of one cycle: an exit leaves
      the machine as it was and writes nothing, a cycle that goes on
      counts at most one cycle and never takes one back, memory keeps its
      size, and the budget error is never raised by the cycle itself. */
  predicate Stepped(cpu: CpuState, m: Memory, r: Result<Step>) {
    && (r.Err? ==> r.error != ExecutionError(MaximumCyclesExceeded))
    && (r.Ok? ==> Size(r.value.machine.memory) == Size(m))
    && (r.Ok? && r.value.halt ==> r.value.machine == Machine(cpu, m) && r.value.output == None)
    && (r.Ok? && !r.value.halt ==> cpu.cycles <= r.value.machine.cpu.cycles <= cpu.cycles + 1)
  }

  ghost predicate Steps(cycle: CycleFunction) {
    forall cpu: CpuState, m: Memory :: Stepped(cpu, m, cycle(cpu, m))
  }

  /** What the corrected loop relies on in addition: a cycle that goes on
      counts exactly one. */
  predicate Counted(cpu: CpuState, m: Memory, r: Result<Step>) {
    && Stepped(cpu, m, r)
    && (r.Ok? && !r.value.halt ==> r.value.machine.cpu.cycles == cpu.cycles + 1)
  }

  ghost predicate Counts(cycle: CycleFunction) {
    forall cpu: CpuState, m: Memory :: Counted(cpu, m, cycle(cpu, m))
  }

  /** `Executor::execute_cycle` is a cycle the source's loop can run. */
  lemma ExecuteCycleSteps()
    ensures Steps(ExecuteCycle)
  {
  }

  /** It does not count every cycle: a stdin read at pc 0 leaves the
      counter where it was. */
  lemma ExecuteCycleDoesNotCount()
    ensures !Counts(ExecuteCycle)
  {
    var cpu := WriteRegister(Cpu.New(), A7, Number(Read));
    var m := Memory([0x73, 0, 0, 0]);
    assert WordAt(m.data, 0) == 0x73;
    assert Decode(0x73) == Ok(Ecall);
    assert Fetch(cpu, m) == Ok(Ecall);
    EcallAsWrittenRepeats(cpu, m);
    assert ExecuteCycle(cpu, m) == Ok(Continue(cpu, m));
    assert !Counted(cpu, m, ExecuteCycle(cpu, m));
  }

  /** The cycle with the corrected `ecall` counts every cycle. */
  lemma ExecuteCycleCorrectedCounts()
    ensures Counts(ExecuteCycleCorrected)
  {
  }

  /** The machine stops successfully here: it is within its budget and the
      next cycle exits. */
  predicate HaltsHere(cycle: CycleFunction, vm: VirtualMachine) {
    && vm.cpu.cycles < vm.config.maxCycles
    && cycle(vm.cpu, vm.memory).Ok?
    && cycle(vm.cpu, vm.memory).value.halt
  }

  /** The machine fails here with `e`: it is within its budget and the
      next cycle reports `e`. */
  predicate FailsHere(cycle: CycleFunction, vm: VirtualMachine, e: VmError) {
    && vm.cpu.cycles < vm.config.maxCycles
    && cycle(vm.cpu, vm.memory) == Err(e)
  }

  /** The next cycle runs within the budget, succeeds and does not exit. */
  predicate Continues(cycle: CycleFunction, vm: VirtualMachine) {
    && vm.cpu.cycles < vm.config.maxCycles
    && cycle(vm.cpu, vm.memory).Ok?
    && !cycle(vm.cpu, vm.memory).value.halt
  }

  /** The loop of `VirtualMachine::execute` followed for at most `fuel`
      iterations, for any cycle function; `None` when the loop has not
      returned by then. Before every cycle the counter is checked against
      the budget; a failing cycle ends the run with its error and leaves
      the machine as it was before that cycle; an exit ends it
      successfully. For a cycle the loop can run, the run keeps the memory
      size, never lowers the counter, never passes a budget it started
      within, and reports the budget error exactly when it ends out of
      budget. */
  function ExecuteFuel(cycle: CycleFunction, vm: VirtualMachine, fuel: nat): (r: Option<Run>)
    ensures r.Some? ==> r.value.vm.config == vm.config
    ensures Steps(cycle) && r.Some? ==> Size(r.value.vm.memory) == Size(vm.memory) && r.value.vm.cpu.cycles >= vm.cpu.cycles
    ensures Steps(cycle) && r.Some? && vm.cpu.cycles <= vm.config.maxCycles ==> r.value.vm.cpu.cycles <= vm.config.maxCycles
    ensures Steps(cycle) && r.Some? ==>
      (r.value.outcome == Err(ExecutionError(MaximumCyclesExceeded)) <==> r.value.vm.cpu.cycles >= vm.config.maxCycles)
    decreases fuel
  {
    if fuel == 0 then None
    else if vm.cpu.cycles >= vm.config.maxCycles then
      Some(Run(vm, Err(ExecutionError(MaximumCyclesExceeded)), []))
    else
      var r := cycle(vm.cpu, vm.memory);
      assert Steps(cycle) ==> Stepped(vm.cpu, vm.memory, r);
      match r
      case Err(e) => Some(Run(vm, Err(e), []))
      case Ok(step) =>
        if step.halt then Some(Run(Resume(vm, step), Ok(()), Written(step)))
        else
          match ExecuteFuel(cycle, Resume(vm, step), fuel - 1)
          case None => None
          case Some(rest) => Some(Run(rest.vm, rest.outcome, Written(step) + rest.output))
  }

  /** `VirtualMachine::execute`: the loop over `Executor::execute_cycle`,
      followed for at most `fuel` iterations. */
  function Execute(vm: VirtualMachine, fuel: nat): (r: Option<Run>)
    ensures r.Some? ==> r.value.vm.config == vm.config && Size(r.value.vm.memory) == Size(vm.memory)
    ensures r.Some? ==> r.value.vm.cpu.cycles >= vm.cpu.cycles
    ensures r.Some? && vm.cpu.cycles <= vm.config.maxCycles ==> r.value.vm.cpu.cycles <= vm.config.maxCycles
    ensures r.Some? ==>
      (r.value.outcome == Err(ExecutionError(MaximumCyclesExceeded)) <==> r.value.vm.cpu.cycles >= vm.config.maxCycles)
  {
    ExecuteCycleSteps();
    ExecuteFuel(ExecuteCycle, vm, fuel)
  }

  /** The cycles left in the budget. */
  function Remaining(vm: VirtualMachine): nat {
    if vm.cpu.cycles < vm.config.maxCycles then vm.config.maxCycles - vm.cpu.cycles else 0
  }

  /** The same loop, run to its end, for a cycle function that counts
      every cycle as the corrected one does. Before every cycle the counter is
      checked against the budget; a failing cycle ends the run with its
      error and leaves the machine as it was before that cycle; an exit
      ends it successfully. The run never passes the budget it started
      within, reports the budget error exactly when it ends out of budget,
      and changes nothing but the CPU and the memory contents. */
  function ExecuteWith(cycle: CycleFunction, vm: VirtualMachine): (run: Run)
    requires Counts(cycle)
    ensures run.vm.config == vm.config
    ensures Size(run.vm.memory) == Size(vm.memory)
    ensures run.vm.cpu.cycles >= vm.cpu.cycles
    ensures vm.cpu.cycles <= vm.config.maxCycles ==> run.vm.cpu.cycles <= vm.config.maxCycles
    ensures run.outcome == Err(ExecutionError(MaximumCyclesExceeded)) <==> run.vm.cpu.cycles >= vm.config.maxCycles
    decreases Remaining(vm)
  {
    if vm.cpu.cycles >= vm.config.maxCycles then
      Run(vm, Err(ExecutionError(MaximumCyclesExceeded)), [])
    else
      var r := cycle(vm.cpu, vm.memory);
      assert Counted(vm.cpu, vm.memory, r);
      match r
      case Err(e) => Run(vm, Err(e), [])
      case Ok(step) =>
        if step.halt then Run(Resume(vm, step), Ok(()), Written(step))
        else
          var rest := ExecuteWith(cycle, Resume(vm, step));
          Run(rest.vm, rest.outcome, Written(step) + rest.output)
  }

  /** `VirtualMachine::execute` with the corrected `ecall`: it always
      returns. */
  function ExecuteCorrected(vm: VirtualMachine): (run: Run)
    ensures run.vm.config == vm.config
    ensures Size(run.vm.memory) == Size(vm.memory)
    ensures vm.cpu.cycles <= vm.config.maxCycles ==> run.vm.cpu.cycles <= vm.config.maxCycles
    ensures run.outcome == Err(ExecutionError(MaximumCyclesExceeded)) <==> run.vm.cpu.cycles >= vm.config.maxCycles
  {
    ExecuteCycleCorrectedCounts();
    ExecuteWith(ExecuteCycleCorrected, vm)
  }

  /** A run ends exactly where the loop says it must: a success at a
      machine whose next cycle, within budget, exits; any error other than
      the budget at a machine whose next cycle, within budget, raises it. */
  lemma {:induction false} ExecuteStopsAt(cycle: CycleFunction, vm: VirtualMachine)
    requires Counts(cycle)
    ensures var run := ExecuteWith(cycle, vm);
      && (run.outcome.Ok? ==> HaltsHere(cycle, run.vm))
      && (run.outcome.Err? && run.vm.cpu.cycles < vm.config.maxCycles ==> FailsHere(cycle, run.vm, run.outcome.error))
    decreases Remaining(vm)
  {
    if Continues(cycle, vm) {
      var step := cycle(vm.cpu, vm.memory).value;
      assert Counted(vm.cpu, vm.memory, Ok(step));
      ExecuteStopsAt(cycle, Resume(vm, step));
    } else if vm.cpu.cycles < vm.config.maxCycles && cycle(vm.cpu, vm.memory).Ok? {
      assert Counted(vm.cpu, vm.memory, cycle(vm.cpu, vm.memory));
    }
  }

  /** A run whose next cycle goes on continues from the machine that cycle
      leaves, with that cycle's output first. */
  lemma ExecuteContinues(cycle: CycleFunction, vm: VirtualMachine)
    requires Counts(cycle) && Continues(cycle, vm)
    ensures var step := cycle(vm.cpu, vm.memory).value;
      var rest := ExecuteWith(cycle, Resume(vm, step));
      ExecuteWith(cycle, vm) == Run(rest.vm, rest.outcome, Written(step) + rest.output)
  {
  }

  /** A run whose next cycle exits ends there, successfully, with the
      machine unchanged and nothing written. */
  lemma ExecuteExits(cycle: CycleFunction, vm: VirtualMachine)
    requires Counts(cycle) && HaltsHere(cycle, vm)
    ensures ExecuteWith(cycle, vm) == Run(vm, Ok(()), [])
  {
    assert Counted(vm.cpu, vm.memory, cycle(vm.cpu, vm.memory));
  }

  /* A reference reading of a run: the cycles it performs, one after the
     other, without the budget check. */

  /** The machine and the host writes after `n` cycles that each succeed
      and continue; `None` when one of them fails or exits. */
  datatype Progress = Progress(vm: VirtualMachine, output: seq<HostWrite>)

  function Advance(cycle: CycleFunction, vm: VirtualMachine, n: nat): (r: Option<Progress>)
    ensures r.Some? ==> r.value.vm.config == vm.config
    ensures Steps(cycle) && r.Some? ==>
      && Size(r.value.vm.memory) == Size(vm.memory)
      && vm.cpu.cycles <= r.value.vm.cpu.cycles <= vm.cpu.cycles + n
    ensures Counts(cycle) && r.Some? ==> r.value.vm.cpu.cycles == vm.cpu.cycles + n
    decreases n
  {
    if n == 0 then Some(Progress(vm, []))
    else
      var r := cycle(vm.cpu, vm.memory);
      assert Steps(cycle) ==> Stepped(vm.cpu, vm.memory, r);
      assert Counts(cycle) ==> Counted(vm.cpu, vm.memory, r);
      match r
      case Err(_) => None
      case Ok(step) =>
        if step.halt then None
        else
          match Advance(cycle, Resume(vm, step), n - 1)
          case None => None
          case Some(p) => Some(Progress(p.vm, Written(step) + p.output))
  }

  /** A run performs exactly as many successful, continuing cycles as its
      counter advances, and its output is theirs: the final machine is the
      one those cycles reach. */
  lemma {:induction false} ExecuteFollowsCycles(cycle: CycleFunction, vm: VirtualMachine)
    requires Counts(cycle)
    ensures var run := ExecuteWith(cycle, vm);
      Advance(cycle, vm, run.vm.cpu.cycles - vm.cpu.cycles) == Some(Progress(run.vm, run.output))
    decreases Remaining(vm)
  {
    if Continues(cycle, vm) {
      var step := cycle(vm.cpu, vm.memory).value;
      assert Counted(vm.cpu, vm.memory, Ok(step));
      var next := Resume(vm, step);
      ExecuteFollowsCycles(cycle, next);
    }
  }

  /** The machine with a different cycle budget. */
  function WithBudget(vm: VirtualMachine, maxCycles: nat): VirtualMachine {
    vm.(config := vm.config.(maxCycles := maxCycles))
  }

  /** A program that exits within its budget does the same with any larger
      budget: the budget only decides when a run that would go on is cut
      short. */
  lemma {:induction false} LargerBudgetSameExit(cycle: CycleFunction, vm: VirtualMachine, maxCycles: nat)
    requires Counts(cycle)
    requires ExecuteWith(cycle, vm).outcome.Ok?
    requires maxCycles >= vm.config.maxCycles
    ensures var a := ExecuteWith(cycle, vm);
      var b := ExecuteWith(cycle, WithBudget(vm, maxCycles));
      b.outcome == a.outcome && b.output == a.output && b.vm == WithBudget(a.vm, maxCycles)
    decreases Remaining(vm)
  {
    var step := cycle(vm.cpu, vm.memory).value;
    assert Counted(vm.cpu, vm.memory, Ok(step));
    if !step.halt {
      LargerBudgetSameExit(cycle, Resume(vm, step), maxCycles);
      assert Resume(WithBudget(vm, maxCycles), step) == WithBudget(Resume(vm, step), maxCycles);
    }
  }

  /* The source's loop, followed with fuel. */

  /** A run that returns ends exactly where the loop says it must: a
      success at a machine whose next cycle, within budget, exits; any
      error other than the budget at a machine whose next cycle, within
      budget, raises it. */
  lemma {:induction false} FuelStopsAt(cycle: CycleFunction, vm: VirtualMachine, fuel: nat)
    requires Steps(cycle)
    ensures var r := ExecuteFuel(cycle, vm, fuel);
      && (r.Some? && r.value.outcome.Ok? ==> HaltsHere(cycle, r.value.vm))
      && (r.Some? && r.value.outcome.Err? && r.value.vm.cpu.cycles < vm.config.maxCycles ==>
            FailsHere(cycle, r.value.vm, r.value.outcome.error))
    decreases fuel
  {
    if fuel > 0 && vm.cpu.cycles < vm.config.maxCycles {
      var r := cycle(vm.cpu, vm.memory);
      assert Stepped(vm.cpu, vm.memory, r);
      if r.Ok? && !r.value.halt {
        FuelStopsAt(cycle, Resume(vm, r.value), fuel - 1);
      }
    }
  }

  /** A run whose next cycle goes on continues from the machine that cycle
      leaves, with one iteration less and that cycle's output first. */
  lemma FuelContinues(cycle: CycleFunction, vm: VirtualMachine, fuel: nat)
    requires Continues(cycle, vm) && fuel > 0
    ensures var step := cycle(vm.cpu, vm.memory).value;
      var rest := ExecuteFuel(cycle, Resume(vm, step), fuel - 1);
      ExecuteFuel(cycle, vm, fuel) ==
        if rest.None? then None else Some(Run(rest.value.vm, rest.value.outcome, Written(step) + rest.value.output))
  {
  }

  /** A run whose next cycle exits ends there, successfully, with the
      machine unchanged and nothing written. */
  lemma FuelExits(cycle: CycleFunction, vm: VirtualMachine, fuel: nat)
    requires Steps(cycle) && HaltsHere(cycle, vm) && fuel > 0
    ensures ExecuteFuel(cycle, vm, fuel) == Some(Run(vm, Ok(()), []))
  {
    assert Stepped(vm.cpu, vm.memory, cycle(vm.cpu, vm.memory));
  }

  /** A cycle that goes on and writes nothing leaves the rest of the run,
      with one iteration fewer, to the machine it reaches. */
  lemma FuelQuietStep(cycle: CycleFunction, vm: VirtualMachine, fuel: nat, rest: nat)
    requires Continues(cycle, vm) && fuel == rest + 1
    requires Written(cycle(vm.cpu, vm.memory).value) == []
    ensures ExecuteFuel(cycle, vm, fuel) == ExecuteFuel(cycle, Resume(vm, cycle(vm.cpu, vm.memory).value), rest)
  {
    FuelContinues(cycle, vm, fuel);
    var tail := ExecuteFuel(cycle, Resume(vm, cycle(vm.cpu, vm.memory).value), rest);
    if tail.Some? {
      assert [] + tail.value.output == tail.value.output;
    }
  }

  /** A cycle that goes on to a machine whose run does not return within
      the remaining iterations does not return either. */
  lemma FuelNeverReturns(cycle: CycleFunction, vm: VirtualMachine, fuel: nat, rest: nat)
    requires Continues(cycle, vm) && fuel == rest + 1
    requires ExecuteFuel(cycle, Resume(vm, cycle(vm.cpu, vm.memory).value), rest) == None
    ensures ExecuteFuel(cycle, vm, fuel) == None
  {
    FuelContinues(cycle, vm, fuel);
  }

  /** The same for the source's loop: a cycle that goes on and writes
      nothing leaves the rest of the run to the machine it reaches. */
  lemma ExecuteQuietStep(vm: VirtualMachine, fuel: nat, rest: nat)
    requires Continues(ExecuteCycle, vm) && fuel == rest + 1
    requires Written(ExecuteCycle(vm.cpu, vm.memory).value) == []
    ensures Execute(vm, fuel) == Execute(Resume(vm, ExecuteCycle(vm.cpu, vm.memory).value), rest)
  {
    FuelQuietStep(ExecuteCycle, vm, fuel, rest);
  }

  /** Once the loop has returned, more iterations change nothing. */
  lemma {:induction false} MoreFuelSameRun(cycle: CycleFunction, vm: VirtualMachine, fuel: nat, more: nat)
    requires ExecuteFuel(cycle, vm, fuel).Some? && more >= fuel
    ensures ExecuteFuel(cycle, vm, more) == ExecuteFuel(cycle, vm, fuel)
    decreases fuel
  {
    if vm.cpu.cycles < vm.config.maxCycles {
      var r := cycle(vm.cpu, vm.memory);
      if r.Ok? && !r.value.halt {
        MoreFuelSameRun(cycle, Resume(vm, r.value), fuel - 1, more - 1);
      }
    }
  }

  /** A run that returns performs some number of successful, continuing
      cycles, fewer than its iterations, and ends at the machine they
      reach with their output. */
  lemma {:induction false} FuelFollowsCycles(cycle: CycleFunction, vm: VirtualMachine, fuel: nat)
    requires Steps(cycle) && ExecuteFuel(cycle, vm, fuel).Some?
    ensures var run := ExecuteFuel(cycle, vm, fuel).value;
      exists n: nat :: n < fuel && Advance(cycle, vm, n) == Some(Progress(run.vm, run.output))
    decreases fuel
  {
    var run := ExecuteFuel(cycle, vm, fuel).value;
    if Continues(cycle, vm) {
      var step := cycle(vm.cpu, vm.memory).value;
      var next := Resume(vm, step);
      FuelFollowsCycles(cycle, next, fuel - 1);
      var rest := ExecuteFuel(cycle, next, fuel - 1).value;
      var n: nat :| n < fuel - 1 && Advance(cycle, next, n) == Some(Progress(rest.vm, rest.output));
      assert Advance(cycle, vm, n + 1) == Some(Progress(run.vm, run.output));
    } else {
      assert Stepped(vm.cpu, vm.memory, cycle(vm.cpu, vm.memory));
      assert Advance(cycle, vm, 0) == Some(Progress(run.vm, run.output));
    }
  }

  /** A program that exits within its budget does the same with any larger
      budget. */
  lemma {:induction false} FuelLargerBudgetSameExit(cycle: CycleFunction, vm: VirtualMachine, fuel: nat, maxCycles: nat)
    requires ExecuteFuel(cycle, vm, fuel).Some? && ExecuteFuel(cycle, vm, fuel).value.outcome.Ok?
    requires maxCycles >= vm.config.maxCycles
    ensures var a := ExecuteFuel(cycle, vm, fuel).value;
      ExecuteFuel(cycle, WithBudget(vm, maxCycles), fuel) == Some(Run(WithBudget(a.vm, maxCycles), a.outcome, a.output))
    decreases fuel
  {
    var step := cycle(vm.cpu, vm.memory).value;
    assert Resume(WithBudget(vm, maxCycles), step) == WithBudget(Resume(vm, step), maxCycles);
    if !step.halt {
      FuelLargerBudgetSameExit(cycle, Resume(vm, step), fuel - 1, maxCycles);
    }
  }

  /** For a cycle that counts every cycle, enough iterations for the whole
      budget reach the end of the loop, and the run is the one the
      budget-measured loop gives. */
  lemma {:induction false} FuelMatchesBudget(cycle: CycleFunction, vm: VirtualMachine, fuel: nat)
    requires Counts(cycle) && fuel > Remaining(vm)
    ensures ExecuteFuel(cycle, vm, fuel) == Some(ExecuteWith(cycle, vm))
    decreases fuel
  {
    if vm.cpu.cycles < vm.config.maxCycles {
      var r := cycle(vm.cpu, vm.memory);
      assert Counted(vm.cpu, vm.memory, r);
      if r.Ok? && !r.value.halt {
        FuelMatchesBudget(cycle, Resume(vm, r.value), fuel - 1);
      }
    }
  }

  /* The source's loop and its `ecall`. */

  /** A stdin read that goes on leaves the machine exactly where it was:
      the source's loop fetches the same `ecall` forever and never
      returns, whatever the budget. */
  lemma {:induction false} StdinReadSpins(vm: VirtualMachine, fuel: nat)
    requires vm.cpu.cycles < vm.config.maxCycles
    requires Fetch(vm.cpu, vm.memory) == Ok(Ecall)
    requires ReadRegister(vm.cpu, A7) == Number(Read) && ReadRegister(vm.cpu, A0) == 0
    ensures Execute(vm, fuel) == None
    decreases fuel
  {
    EcallAsWrittenRepeats(vm.cpu, vm.memory);
    var step := Continue(vm.cpu, vm.memory);
    assert ExecuteCycle(vm.cpu, vm.memory) == Ok(step);
    assert Resume(vm, step) == vm;
    if fuel > 0 {
      StdinReadSpins(vm, fuel - 1);
    }
  }

  /** A fetched `write` to stdout or stderr with its buffer in memory
      emits the buffer and puts the count in a0; pc stays on the
      `ecall`. */
  lemma WriteCycle(cpu: CpuState, m: Memory)
    requires Fetch(cpu, m) == Ok(Ecall)
    requires ReadRegister(cpu, A7) == Number(Write)
    requires ReadRegister(cpu, A0) == 1 || ReadRegister(cpu, A0) == 2
    requires InBounds(m, ReadRegister(cpu, A1), ReadRegister(cpu, A2) as nat)
    ensures var fd, buf, count := ReadRegister(cpu, A0), ReadRegister(cpu, A1), ReadRegister(cpu, A2);
      var write := HostWrite(if fd == 1 then Stdout else Stderr, LoadBytes(m, buf, count as nat).value);
      ExecuteCycle(cpu, m) == Ok(Step(Machine(WriteRegister(cpu, A0, count), m), false, Some(write)))
  {
    var fd, buf, count := ReadRegister(cpu, A0), ReadRegister(cpu, A1), ReadRegister(cpu, A2);
    var write := HostWrite(if fd == 1 then Stdout else Stderr, LoadBytes(m, buf, count as nat).value);
    WriteBehaviour(cpu, m);
    assert HandleSyscall(cpu, m) == Ok(SyscallOutcome(WriteRegister(cpu, A0, count), false, Some(write)));
    EcallCycle(cpu, m);
  }

  /** A fetched `write` to any other descriptor is refused with it. */
  lemma RefusedWriteCycle(cpu: CpuState, m: Memory)
    requires Fetch(cpu, m) == Ok(Ecall)
    requires ReadRegister(cpu, A7) == Number(Write)
    requires ReadRegister(cpu, A0) != 1 && ReadRegister(cpu, A0) != 2
    ensures ExecuteCycle(cpu, m) == Err(SyscallError(UnsupportedFileDescriptor(ReadRegister(cpu, A0))))
  {
    WriteBehaviour(cpu, m);
    EcallCycle(cpu, m);
  }

  /** A write to stdout or stderr returns its count in a0, and the source
      then runs the same `ecall` again with the count as the descriptor.
      When the count is not itself 1 or 2, that second call is refused:
      the run writes the buffer once and fails. */
  lemma WriteRepeatsThenFails(vm: VirtualMachine, fuel: nat)
    requires vm.cpu.cycles < vm.config.maxCycles
    requires Fetch(vm.cpu, vm.memory) == Ok(Ecall)
    requires ReadRegister(vm.cpu, A7) == Number(Write)
    requires ReadRegister(vm.cpu, A0) == 1 || ReadRegister(vm.cpu, A0) == 2
    requires ReadRegister(vm.cpu, A2) != 1 && ReadRegister(vm.cpu, A2) != 2
    requires InBounds(vm.memory, ReadRegister(vm.cpu, A1), ReadRegister(vm.cpu, A2) as nat)
    requires fuel >= 2
    ensures var fd, buf, count := ReadRegister(vm.cpu, A0), ReadRegister(vm.cpu, A1), ReadRegister(vm.cpu, A2);
      var bytes := LoadBytes(vm.memory, buf, count as nat).value;
      Execute(vm, fuel) ==
        Some(Run(SetRegister(vm, A0, count), Err(SyscallError(UnsupportedFileDescriptor(count))),
                 [HostWrite(if fd == 1 then Stdout else Stderr, bytes)]))
  {
    var fd, buf, count := ReadRegister(vm.cpu, A0), ReadRegister(vm.cpu, A1), ReadRegister(vm.cpu, A2);
    var write := HostWrite(if fd == 1 then Stdout else Stderr, LoadBytes(vm.memory, buf, count as nat).value);
    var next := SetRegister(vm, A0, count);
    var step := Step(Machine(next.cpu, vm.memory), false, Some(write));
    WriteCycle(vm.cpu, vm.memory);
    assert ExecuteCycle(vm.cpu, vm.memory) == Ok(step);
    assert Resume(vm, step) == next;
    var refused := SyscallError(UnsupportedFileDescriptor(count));
    FetchAtPc(vm.cpu, next.cpu, vm.memory);
    assert ReadRegister(next.cpu, A7) == Number(Write) && ReadRegister(next.cpu, A0) == count;
    RefusedWriteCycle(next.cpu, next.memory);
    assert ExecuteCycle(next.cpu, next.memory) == Err(refused);
    assert ExecuteFuel(ExecuteCycle, next, fuel - 1) == Some(Run(next, Err(refused), []));
    FuelContinues(ExecuteCycle, vm, fuel);
    assert Written(step) + [] == [write];
    assert ExecuteFuel(ExecuteCycle, vm, fuel) == Some(Run(next, Err(refused), [write]));
  }

  /** A write to stdout or stderr of one or two bytes leaves its count
      in a0, which the repeated call reads as a descriptor it accepts: the
      source's loop writes the buffer again and again (to the other stream
      after the first write when the count differs from the descriptor)
      and never returns. */
  lemma {:induction false} WriteRepeatsForever(vm: VirtualMachine, fuel: nat)
    requires vm.cpu.cycles < vm.config.maxCycles
    requires Fetch(vm.cpu, vm.memory) == Ok(Ecall)
    requires ReadRegister(vm.cpu, A7) == Number(Write)
    requires ReadRegister(vm.cpu, A0) == 1 || ReadRegister(vm.cpu, A0) == 2
    requires ReadRegister(vm.cpu, A2) == 1 || ReadRegister(vm.cpu, A2) == 2
    requires InBounds(vm.memory, ReadRegister(vm.cpu, A1), ReadRegister(vm.cpu, A2) as nat)
    ensures Execute(vm, fuel) == None
    decreases fuel
  {
    var count := ReadRegister(vm.cpu, A2);
    WriteCycle(vm.cpu, vm.memory);
    var step := ExecuteCycle(vm.cpu, vm.memory).value;
    var next := SetRegister(vm, A0, count);
    assert Resume(vm, step) == next;
    if fuel > 0 {
      var rest: nat := fuel - 1;
      FetchAtPc(vm.cpu, next.cpu, vm.memory);
      assert ReadRegister(next.cpu, A0) == count && ReadRegister(next.cpu, A7) == Number(Write);
      WriteRepeatsForever(next, rest);
      FuelNeverReturns(ExecuteCycle, vm, fuel, rest);
    }
  }

  /** Within `fuel` iterations the source's loop never runs an `ecall`
      that goes on. */
  ghost predicate AvoidsContinuingEcall(vm: VirtualMachine, fuel: nat)
    decreases fuel
  {
    fuel > 0 && vm.cpu.cycles < vm.config.maxCycles ==>
      && !ContinuingEcall(vm.cpu, vm.memory)
      && (Continues(ExecuteCycle, vm) ==> AvoidsContinuingEcall(Resume(vm, ExecuteCycle(vm.cpu, vm.memory).value), fuel - 1))
  }

  /** A run that never reaches an `ecall` that goes on is the same under
      the source's cycle and under the corrected one. */
  lemma {:induction false} SourceAgreesWithCorrected(vm: VirtualMachine, fuel: nat)
    requires AvoidsContinuingEcall(vm, fuel)
    ensures Execute(vm, fuel) == ExecuteFuel(ExecuteCycleCorrected, vm, fuel)
    decreases fuel
  {
    if fuel > 0 && vm.cpu.cycles < vm.config.maxCycles {
      CycleCorrection(vm.cpu, vm.memory);
      if Continues(ExecuteCycle, vm) {
        SourceAgreesWithCorrected(Resume(vm, ExecuteCycle(vm.cpu, vm.memory).value), fuel - 1);
      }
    }
  }

  /** Such a run, once it returns, is the corrected machine's run. */
  lemma SourceRunIsCorrectedRun(vm: VirtualMachine, fuel: nat)
    requires AvoidsContinuingEcall(vm, fuel) && Execute(vm, fuel).Some?
    ensures Execute(vm, fuel) == Some(ExecuteCorrected(vm))
  {
    SourceAgreesWithCorrected(vm, fuel);
    ExecuteCycleCorrectedCounts();
    var enough := fuel + Remaining(vm) + 1;
    FuelMatchesBudget(ExecuteCycleCorrected, vm, enough);
    MoreFuelSameRun(ExecuteCycleCorrected, vm, fuel, enough);
  }

  /** `VirtualMachine::execute_with_proof`: refused unless proofs are
      enabled; otherwise a plain run. The proof object the source returns
      is a placeholder and is not modelled. */
  function ExecuteWithProof(vm: VirtualMachine, fuel: nat): (r: Option<Run>)
    ensures !vm.config.enableProofs ==> r == Some(Run(vm, Err(ProofError("Proof generation not enabled")), []))
    ensures vm.config.enableProofs ==> r == Execute(vm, fuel)
  {
    if !vm.config.enableProofs then Some(Run(vm, Err(ProofError("Proof generation not enabled")), []))
    else Execute(vm, fuel)
  }

  /** `VirtualMachine::reset`: the CPU as new and every byte zero; the
      memory size and the configuration stay. */
  function Reset(vm: VirtualMachine): (vm': VirtualMachine)
    ensures vm'.cpu == Cpu.New()
    ensures vm'.config == vm.config
    ensures Size(vm'.memory) == Size(vm.memory)
    ensures forall a :: 0 <= a < Size(vm.memory) ==> vm'.memory.data[a] == 0
  {
    VirtualMachine(Cpu.Reset(vm.cpu), Clear(vm.memory), vm.config)
  }

  /** Resetting a machine whose memory has its configured size gives the
      machine `WithConfig` builds from that configuration. */
  lemma ResetIsFresh(vm: VirtualMachine)
    requires Size(vm.memory) == vm.config.memorySize
    ensures Reset(vm) == WithConfig(vm.config)
  {
    assert Clear(vm.memory).data == ByteMemory.New(vm.config.memorySize).data;
  }

  /** `VirtualMachine::get_stats`. */
  function GetStats(vm: VirtualMachine): (s: VmStats)
    ensures s.cycles == vm.cpu.cycles && s.pc == vm.cpu.pc && s.memorySize == Size(vm.memory)
  {
    VmStats(vm.cpu.cycles, vm.cpu.pc, Size(vm.memory))
  }
}
