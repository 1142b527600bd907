/** `SyscallHandler`: the `ecall` interface. The call number is in a7 and
    the arguments in a0..a2, following the Linux RISC-V calling
    convention; the result goes to a0. Host output is not performed here:
    what would be written to stdout or stderr is returned as a `HostWrite`
    for the caller to carry. */
module Syscalls {
  import opened Errors
  import opened Registers
  import opened ByteMemory
  import opened Cpu

  /** The three supported system calls. */
  datatype Syscall = Exit | Write | Read

  /** The Linux RISC-V number of each system call. */
  function Number(s: Syscall): bv32 {
    match s
    case Exit => 93
    case Write => 64
    case Read => 63
  }

  /** `Syscall::from_number`: exactly the three numbers are known. */
  function FromNumber(n: bv32): (r: Option<Syscall>)
    ensures r.Some? <==> n == 93 || n == 64 || n == 63
  {
    if n == 93 then Some(Exit)
    else if n == 64 then Some(Write)
    else if n == 63 then Some(Read)
    else None
  }

  /** `FromNumber` and `Number` are inverse on the supported calls. */
  lemma NumberRoundTrip(s: Syscall, n: bv32)
    ensures FromNumber(Number(s)) == Some(s)
    ensures FromNumber(n).Some? ==> Number(FromNumber(n).value) == n
  {
  }

  /** The host stream a write goes to. */
  datatype Stream = Stdout | Stderr

  /** Bytes written to a host stream. */
  datatype HostWrite = HostWrite(stream: Stream, bytes: seq<bv8>)

  /** The outcome of a system call that did not fail: the new CPU state,
      whether the machine must halt, and the host output it produced. */
  datatype SyscallOutcome = SyscallOutcome(cpu: CpuState, halt: bool, output: Option<HostWrite>)

  /** `SyscallHandler::handle_syscall`. Memory is only read. */
  function HandleSyscall(cpu: CpuState, memory: Memory): (r: Result<SyscallOutcome>)
    ensures r.Ok? ==> r.value.cpu.pc == cpu.pc && r.value.cpu.cycles == cpu.cycles
    ensures r.Ok? ==> forall x: RegisterIndex :: x != A0 ==> ReadRegister(r.value.cpu, x) == ReadRegister(cpu, x)
    ensures r.Ok? && r.value.halt ==> r.value.cpu == cpu && r.value.output == None
    ensures r.Err? ==> r.error.SyscallError?
  {
    var number := ReadRegister(cpu, A7);
    var arg0 := ReadRegister(cpu, A0);
    var arg1 := ReadRegister(cpu, A1);
    var arg2 := ReadRegister(cpu, A2);
    match FromNumber(number)
    case None => Err(SyscallError(UnknownSyscall(number)))
    case Some(Exit) => Ok(SyscallOutcome(cpu, true, None))
    case Some(Write) =>
      if arg0 == 1 || arg0 == 2 then
        match LoadBytes(memory, arg1, arg2 as nat)
        case Err(_) => Err(SyscallError(InvalidBufferAddress))
        case Ok(bytes) =>
          var stream := if arg0 == 1 then Stdout else Stderr;
          Ok(SyscallOutcome(WriteRegister(cpu, A0, arg2), false, Some(HostWrite(stream, bytes))))
      else Err(SyscallError(UnsupportedFileDescriptor(arg0)))
    case Some(Read) =>
      if arg0 == 0 then Ok(SyscallOutcome(WriteRegister(cpu, A0, 0), false, None))
      else Err(SyscallError(UnsupportedFileDescriptor(arg0)))
  }

  /* What each call does, stated against the registers it reads. */

  /** Exit halts, changes nothing, and writes nothing. */
  lemma ExitHalts(cpu: CpuState, memory: Memory)
    requires ReadRegister(cpu, A7) == Number(Exit)
    ensures HandleSyscall(cpu, memory) == Ok(SyscallOutcome(cpu, true, None))
  {
  }

  /** A write to stdout or stderr succeeds exactly when the buffer lies in
      memory; it then emits the buffer's bytes to the chosen stream and
      returns the byte count in a0. Any other descriptor is refused. */
  lemma WriteBehaviour(cpu: CpuState, memory: Memory)
    requires ReadRegister(cpu, A7) == Number(Write)
    ensures var fd := ReadRegister(cpu, A0);
      var buf := ReadRegister(cpu, A1);
      var count := ReadRegister(cpu, A2);
      var r := HandleSyscall(cpu, memory);
      && (fd != 1 && fd != 2 ==> r == Err(SyscallError(UnsupportedFileDescriptor(fd))))
      && ((fd == 1 || fd == 2) && !InBounds(memory, buf, count as nat) ==> r == Err(SyscallError(InvalidBufferAddress)))
      && ((fd == 1 || fd == 2) && InBounds(memory, buf, count as nat) ==>
            && r.Ok? && !r.value.halt
            && r.value.cpu == WriteRegister(cpu, A0, count)
            && r.value.output == Some(HostWrite(if fd == 1 then Stdout else Stderr, LoadBytes(memory, buf, count as nat).value)))
  {
  }

  /** A read from stdin reports zero bytes read; any other descriptor is
      refused. */
  lemma ReadBehaviour(cpu: CpuState, memory: Memory)
    requires ReadRegister(cpu, A7) == Number(Read)
    ensures var fd := ReadRegister(cpu, A0);
      var r := HandleSyscall(cpu, memory);
      && (fd == 0 ==> r.Ok? && !r.value.halt && ReadRegister(r.value.cpu, A0) == 0 && r.value.output == None)
      && (fd != 0 ==> r == Err(SyscallError(UnsupportedFileDescriptor(fd))))
  {
  }

  /** Any other call number is refused and names the number. */
  lemma UnknownRefused(cpu: CpuState, memory: Memory)
    requires FromNumber(ReadRegister(cpu, A7)).None?
    ensures HandleSyscall(cpu, memory) == Err(SyscallError(UnknownSyscall(ReadRegister(cpu, A7))))
  {
  }
}
