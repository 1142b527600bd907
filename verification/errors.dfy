/** Error kinds of the virtual machine and the failure-compatible wrappers
    (`Option`, `Result`) that the rest of the model returns. */
module Errors {

  /** Why a system call failed. The source formats these as message strings;
      the model keeps the data that the message interpolates. */
  datatype SyscallFault =
    | UnknownSyscall(number: bv32)
    | InvalidBufferAddress
    | UnsupportedFileDescriptor(fd: bv32)

  /** Why execution stopped with an execution error. */
  datatype ExecutionFault =
    | MaximumCyclesExceeded
    | BreakpointEncountered

  /** The error enumeration of the virtual machine. */
  datatype VmError =
    | InvalidInstruction(word: bv32)
    | MemoryViolation(address: bv32)
    | InvalidRegister(index: bv32)
    | ElfError(message: string)
    | IoError(message: string)
    | SerializationError(message: string)
    | ProofError(message: string)
    | VerificationError(message: string)
    | SyscallError(fault: SyscallFault)
    | ExecutionError(reason: ExecutionFault)

  /** The optional value returned by the validating constructors. */
  datatype Option<+T> = None | Some(value: T)

  /** `Result<T, VmError>`; usable with `:-`, like Rust's `?`. */
  datatype Result<+T> = Ok(value: T) | Err(error: VmError) {

    predicate IsFailure() {
      Err?
    }

    function PropagateFailure<U>(): Result<U>
      requires Err?
    {
      Err(error)
    }

    function Extract(): T
      requires Ok?
    {
      value
    }
  }
}
