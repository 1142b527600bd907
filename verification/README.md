# RV32I virtual machine: a Dafny model

This project models the execution core of a small RISC-V (RV32I) virtual
machine written in Rust, and proves properties of it. It covers:

- the decoder from 32-bit instruction words to instructions, and the
  instruction formats;
- the register file, with x0 hard-wired to zero;
- the bounds-checked little-endian byte memory;
- the CPU state: registers, program counter and cycle counter;
- the executor: one step per instruction, and the fetch-decode-execute
  cycle;
- the `exit`, `write` and `read` system calls;
- the `VirtualMachine` operations that drive a run under a cycle budget.

All state is immutable. Every operation is a pure function that returns a
new state or an error. Machine words are bit-vectors (`bv32`, `bv16`,
`bv8`). Rust's `wrapping_add`, its `as i32` / `as u8` / `as i16` casts and
its arithmetic shifts are written out explicitly.

Files, one module each unless noted:

| file | module | models |
|---|---|---|
| errors.dfy | Errors | `VmError`, plus the `Option` / `Result` wrappers |
| config.dfy | Config | `VmConfig` and its default |
| words.dfy | Words | signed comparison, arithmetic shift, sign extension, truncation on `bv32` |
| registers.dfy | Registers | `RegisterIndex`, `RegisterFile` |
| instructions.dfy | Instructions | `Instruction`, `InstructionFormat`, `Instruction::format` |
| encoding.dfy | Encoding | a reference RV32I encoder (sections 2.2 and 2.3 of the RISC-V Unprivileged ISA), which the decoder is checked against |
| decoder.dfy | Decoder | `Decoder::decode` |
| roundtrip.dfy | RoundTrip | decode/encode round trips in both directions |
| memory.dfy | ByteMemory | `Memory` |
| cpu.dfy | Cpu | `CpuState` |
| syscalls.dfy | Syscalls | `Syscall`, `SyscallHandler::handle_syscall` |
| executor.dfy | Executor | `Executor::execute_instruction`, `Executor::execute_cycle` |
| vm.dfy | Vm | `VirtualMachine`, `VmStats` |
| scenarios.dfy | ProgramImage, Scenarios | whole runs of the example program and of a test program |

Host output is not performed. A `write` system call returns the bytes it
would write, tagged with the stream. A run collects these in order.

The source's run loop is `Vm.Execute`: the loop over the source's own
cycle (`Executor.ExecuteCycle`), whose `ecall` leaves pc on the `ecall`
and counts no cycle. That loop need not return, so it is followed for a
given number of iterations (`fuel`), through the generic `Vm.ExecuteFuel`.
`None` means the loop has not returned by then.

The corrected machine (see Findings) moves a continuing `ecall` on to the
next instruction (`Executor.ExecuteCycleCorrected`). Its loop
(`Vm.ExecuteWith`, `Vm.ExecuteCorrected`) is measured by the remaining
budget and always returns.

Both loops are generic over the cycle function. Their lemmas need only
what the loop relies on from a cycle:

- `Vm.Steps`: an exit changes nothing, and a cycle that goes on counts
  at most one cycle and keeps the memory size;
- `Vm.Counts`: in addition, a cycle that goes on counts exactly one.

`Vm.ExecuteCycleSteps` proves the first of the source's cycle, and
`Vm.ExecuteCycleDoesNotCount` shows that it lacks the second.
`Vm.ExecuteCycleCorrectedCounts` proves the second of the corrected cycle.
The two loops are tied together by these lemmas:

- `Vm.FuelMatchesBudget`: with enough fuel, the fuel loop gives the
  budget loop's run;
- `Vm.SourceAgreesWithCorrected` and `Vm.SourceRunIsCorrectedRun`: a
  source run that never reaches a continuing `ecall` is the corrected
  run.

## Model

| member | source | states |
|---|---|---|
| Config.Default | src/utils/config.rs:15-22 | 4 MiB of memory, proofs disabled, a budget of one million cycles |
| Registers.FromU32 | src/risc_v/registers.rs:43-49 | Some exactly when the value is at most 31, and the index then has that value |
| Registers.FromU32RoundTrip | src/risc_v/registers.rs:43-49 | every register index converts back to itself |
| Registers.New | src/risc_v/registers.rs:60-64 | every register of a new file reads zero |
| Registers.Reset | src/risc_v/registers.rs:83-85 | after a reset every register reads zero, whatever the file held |
| Registers.Write | src/risc_v/registers.rs:75-80 | a write to x0 leaves the file unchanged; otherwise the written register reads the value and every other register reads as before |
| Registers.Read | src/risc_v/registers.rs:67-71 | x0 reads zero whatever the file holds |
| Registers.WriteOwnValue | src/risc_v/registers.rs:67-80 | writing a register's own value back leaves the file unchanged |
| Registers.ZeroRegisterAlwaysZero | src/risc_v/registers.rs:67-80 | x0 reads zero before and after any write |
| Instructions.Format | src/risc_v/instructions.rs:77-101 | ecall and ebreak are I format, and J is exactly jal |
| Instructions.FormatByGroup | src/risc_v/instructions.rs:77-101 | register arithmetic is exactly the R format; stores, branches, lui/auipc and jal are exactly S, B, U and J; immediate arithmetic, shifts, loads, jalr, ecall and ebreak are I |
| Encoding.FormatOfOpcode | src/risc_v/instructions.rs:77-101 | each instruction's format is the one the ISA's opcode map gives its major opcode |
| Words.SignedLessByBias | src/vm/executor.rs:31-35 | the `as i32` comparison is the unsigned comparison with the sign bit flipped |
| Words.ShiftRightArithmetic20 | src/risc_v/decoder.rs:41 | `(w as i32) >> 20` keeps bits 31:20 and fills the top 12 bits with the sign |
| Words.ShiftRightArithmetic25 | src/risc_v/decoder.rs:79 | `(w as i32) >> 25` keeps bits 31:25 and fills the top 7 bits with the sign |
| Words.ShiftRightArithmetic31 | src/risc_v/decoder.rs:91 | `(w as i32) >> 31` is all ones for a negative word and zero otherwise |
| Words.SignExtendByteBits | src/vm/executor.rs:126-130 | a sign-extended byte keeps its low 8 bits and copies bit 7 into all 24 bits above |
| Words.SignExtendHalfBits | src/vm/executor.rs:132-136 | a sign-extended halfword keeps its low 16 bits and copies bit 15 into all 16 bits above |
| Words.TruncationBits | src/vm/executor.rs:157-167 | `as u8` and `as u16` keep exactly the low 8 and 16 bits |
| Words.SignExtendByShifting | src/vm/executor.rs:126-136 | sign extension equals moving the value to the top of the word and shifting it back arithmetically |
| Decoder.RegisterField | src/risc_v/decoder.rs:12-18 | accepts exactly field values up to 31, keeps the value, and otherwise fails with the word |
| Decoder.Decode | src/risc_v/decoder.rs:10-156 | every rejection is `InvalidInstruction` carrying the rejected word itself |
| Decoder.ImmIAsShift | src/risc_v/decoder.rs:41 | the I immediate is the source's `(w as i32) >> 20` |
| Decoder.ImmSAsShift | src/risc_v/decoder.rs:79 | the S immediate is the source's shift-and-or expression |
| Decoder.ImmBAsShift | src/risc_v/decoder.rs:91-94 | the B immediate is the source's shift-and-or expression |
| Decoder.ImmJAsShift | src/risc_v/decoder.rs:109-112 | the J immediate is the source's shift-and-or expression |
| Decoder.ImmIBits | src/risc_v/decoder.rs:41 | the I immediate's low 12 bits are word bits 31:20, and as an `i32` it lies in [-2048, 2047] |
| Decoder.ImmSBits | src/risc_v/decoder.rs:79 | the S immediate is bits 31:25 joined to bits 11:7, and lies in [-2048, 2047] |
| Decoder.ImmBBits | src/risc_v/decoder.rs:91-94 | the B immediate is even; its bits 12, 11, 10:5 and 4:1 are word bits 31, 7, 30:25 and 11:8; it lies in [-4096, 4094] |
| Decoder.ImmJBits | src/risc_v/decoder.rs:109-112 | the J immediate is even; its bits 20, 19:12, 11 and 10:1 are word bits 31, 19:12, 20 and 30:21; it lies in [-2^20, 2^20 - 2] |
| Decoder.ImmUBits | src/risc_v/decoder.rs:130-136 | the U immediate keeps bits 31:12 in place and has its low 12 bits zero |
| RoundTrip.DecodeByFields | src/risc_v/decoder.rs:11-19 | the register-field checks never fail: decoding depends only on bits 11:7, 19:15 and 24:20 as rd, rs1 and rs2 |
| RoundTrip.DecodeEncode | src/risc_v/decoder.rs:10-156 | every instruction whose immediate fits its format decodes back from its canonical encoding |
| RoundTrip.EncodeDecode | src/risc_v/decoder.rs:10-156 | every accepted word is the canonical encoding of what it decodes to, except the funct7 bits the immediate shifts never examine |
| RoundTrip.DecodeRegisterWord | src/risc_v/decoder.rs:23-37 | under opcode 0x33 only the ten R-type (funct3, funct7) pairs are accepted, and the fields are carried over |
| RoundTrip.DecodeImmediateWord | src/risc_v/decoder.rs:40-61 | under opcode 0x13 every funct3 other than 1 and 5 is accepted as immediate arithmetic with the I immediate |
| RoundTrip.DecodeSlli | src/risc_v/decoder.rs:46 | funct3 1 gives slli with the shift amount from bits 24:20, whatever bits 31:25 hold |
| RoundTrip.DecodeSrli | src/risc_v/decoder.rs:50-53 | funct3 5 with bit 30 clear gives srli |
| RoundTrip.DecodeSrai | src/risc_v/decoder.rs:50-56 | funct3 5 with bit 30 set gives srai; the other funct7 bits are not examined |
| RoundTrip.EncodeDecodeSrai | src/risc_v/decoder.rs:50-56 | srai re-encodes to the word with only bit 30 kept of bits 31:25 |
| RoundTrip.DecodeLoadWord | src/risc_v/decoder.rs:64-75 | an accepted load carries rd, rs1, the I immediate and its funct3 |
| RoundTrip.DecodeStoreWord | src/risc_v/decoder.rs:78-87 | an accepted store carries rs1, rs2, the S immediate and its funct3 |
| RoundTrip.DecodeBranchWord | src/risc_v/decoder.rs:90-105 | an accepted branch carries rs1, rs2, the B immediate and its funct3 |
| RoundTrip.DecodeJalWord | src/risc_v/decoder.rs:108-115 | opcode 0x6f always decodes to jal with the J immediate |
| RoundTrip.DecodeJalrWord | src/risc_v/decoder.rs:118-126 | an accepted opcode 0x67 is jalr with the I immediate |
| RoundTrip.DecodeLuiWord | src/risc_v/decoder.rs:129-132 | opcode 0x37 always decodes to lui with `w & 0xfffff000` |
| RoundTrip.DecodeAuipcWord | src/risc_v/decoder.rs:135-138 | opcode 0x17 always decodes to auipc with `w & 0xfffff000` |
| RoundTrip.DecodeSystemWord | src/risc_v/decoder.rs:141-152 | under opcode 0x73 only ecall and ebreak are accepted |
| RoundTrip.EncodeDecodeSystem | src/risc_v/decoder.rs:141-152 | an accepted system word is exactly the canonical encoding of the ecall or ebreak it decodes to, with no unexamined bits |
| RoundTrip.AcceptedOpcodes | src/risc_v/decoder.rs:21-154 | only the eleven RV32I major opcodes are accepted |
| RoundTrip.DecodedFormat | src/risc_v/decoder.rs:21-154 | a decoded instruction has the format the opcode map gives the word's opcode |
| ByteMemory.New | src/vm/memory.rs:15-20 | `size` bytes, all zero |
| ByteMemory.LoadByte | src/vm/memory.rs:23-29 | succeeds exactly when the address is inside memory; otherwise `MemoryViolation` with the address |
| ByteMemory.LoadHalfword | src/vm/memory.rs:32-38 | succeeds exactly when addr + 2 <= size; otherwise `MemoryViolation` with the address |
| ByteMemory.LoadWord | src/vm/memory.rs:41-47 | succeeds exactly when addr + 4 <= size; otherwise `MemoryViolation` with the address |
| ByteMemory.LoadBytes | src/vm/memory.rs:80-86 | succeeds exactly when addr + len <= size, with exactly `len` bytes |
| ByteMemory.StoreByte | src/vm/memory.rs:50-57 | succeeds exactly in bounds; only the addressed byte changes and the size stays |
| ByteMemory.StoreHalfword | src/vm/memory.rs:60-67 | succeeds exactly in bounds; only the two addressed bytes change, least significant first |
| ByteMemory.StoreWord | src/vm/memory.rs:70-77 | succeeds exactly in bounds; only the four addressed bytes change, least significant first |
| ByteMemory.StoreBytes | src/vm/memory.rs:89-96 | succeeds exactly when addr + len <= size; only the bytes [addr, addr + len) change |
| ByteMemory.Clear | src/vm/memory.rs:104-106 | every byte is zero and the size is unchanged |
| ByteMemory.LoadStoreByte | src/vm/memory.rs:23-57 | a byte load after a byte store at the same address returns the stored byte |
| ByteMemory.LoadStoreHalfword | src/vm/memory.rs:32-67 | a halfword load after a halfword store at the same address returns the stored value |
| ByteMemory.LoadStoreWord | src/vm/memory.rs:41-77 | a word load after a word store at the same address returns the stored value |
| ByteMemory.LoadStoreBytes | src/vm/memory.rs:80-96 | `load_bytes` after `store_bytes` returns the stored data |
| ByteMemory.StoreWordFrame | src/vm/memory.rs:70-77 | a word store leaves every non-overlapping word as it was |
| ByteMemory.Size | src/vm/memory.rs:99-101 | the size is the number of bytes held |
| ByteMemory.WordBytesRoundTrip | src/vm/memory.rs:41-77 | joining the little-endian bytes of a word gives the word back |
| ByteMemory.WordBytesRoundTripReverse | src/vm/memory.rs:41-77 | splitting the word joined from four bytes gives the same four bytes back |
| ByteMemory.WordBytesLittleEndian | src/vm/memory.rs:75 | byte k of a stored word holds bits 8k+7..8k |
| Cpu.New | src/vm/cpu.rs:18-24 | pc 0, no cycles, every register zero |
| Cpu.Reset | src/vm/cpu.rs:27-31 | from any state, back to exactly the state `new` builds |
| Cpu.ReadRegister | src/vm/cpu.rs:34-36 | x0 reads zero in any state |
| Cpu.WriteRegister | src/vm/cpu.rs:39-41 | only the named register changes, never x0; pc and cycles stay |
| Cpu.IncrementPc | src/vm/cpu.rs:44-47 | pc advances by 4, wrapping; one more cycle; registers stay |
| Cpu.SetPc | src/vm/cpu.rs:50-53 | pc set; one more cycle; registers stay |
| Cpu.IncrementIsSetNext | src/vm/cpu.rs:44-53 | falling through is the same as a jump to pc + 4 |
| Syscalls.FromNumber | src/vm/syscalls.rs:18-25 | known exactly for 93, 64 and 63 |
| Syscalls.NumberRoundTrip | src/vm/syscalls.rs:10-25 | `from_number` inverts the enum's numbering |
| Syscalls.HandleSyscall | src/vm/syscalls.rs:33-101 | success keeps pc, cycles and every register but a0; an exit changes nothing and writes nothing; every failure is a `SyscallError` |
| Syscalls.ExitHalts | src/vm/syscalls.rs:49-53 | exit halts with the state unchanged |
| Syscalls.WriteBehaviour | src/vm/syscalls.rs:55-83 | fd other than 1 or 2 is refused with that fd; an out-of-bounds buffer is refused; otherwise the buffer goes to stdout or stderr, a0 receives the count, and nothing else changes |
| Syscalls.ReadBehaviour | src/vm/syscalls.rs:85-97 | fd 0 puts 0 in a0 and continues; any other fd is refused with that fd |
| Syscalls.UnknownRefused | src/vm/syscalls.rs:45-46 | an unknown number is refused and names the number |
| Executor.WriteBack | src/vm/executor.rs:263-265 | rd receives the value (x0 excepted), nothing else changes, and control falls through with one cycle |
| Executor.Alu | src/vm/executor.rs:19-123 | slt and sltu give only 0 or 1 |
| Executor.SubUndoesAdd | src/vm/executor.rs:19-29 | wrapping subtraction undoes wrapping addition |
| Executor.AddUndoesSub | src/vm/executor.rs:19-29 | wrapping addition undoes wrapping subtraction |
| Executor.SetLessThanMeaning | src/vm/executor.rs:31-35 | slt/slti give 1 exactly on signed order and 0 otherwise |
| Executor.SetLessThanUnsignedMeaning | src/vm/executor.rs:37-41 | sltu/sltiu give 1 exactly on unsigned order and 0 otherwise |
| Executor.SetLessThanIsStrictOrder | src/vm/executor.rs:31-41 | both comparisons are irreflexive and asymmetric |
| Executor.ShiftsByShamt | src/vm/executor.rs:110-123 | the immediate shifts shift by the decoded amount unmasked |
| Executor.ShiftRightArithmeticSign | src/vm/executor.rs:73-77 | on a non-negative value sra is srl; on a negative value the result stays negative |
| Executor.ExecuteRegisterOp | src/vm/executor.rs:19-77 | rd receives the operation on rs1 and rs2; no other register or memory changes; control falls through |
| Executor.ExecuteImmediateOp | src/vm/executor.rs:80-123 | rd receives the operation on rs1 and the immediate; nothing else changes; control falls through |
| Executor.ExecuteArithmetic | src/vm/executor.rs:19-123 | an arithmetic instruction changes only rd, never memory, and falls through |
| Executor.LoadValue | src/vm/executor.rs:126-154 | succeeds exactly in bounds for the access width; lbu and lhu give values of at most 8 and 16 bits |
| Executor.LoadHalfSigned | src/vm/executor.rs:132-136 | lh sign-extends the loaded halfword |
| Executor.LoadHalfUnsigned | src/vm/executor.rs:150-154 | lhu zero-extends the loaded halfword |
| Executor.ByteLoadsAgree | src/vm/executor.rs:126-148 | lb and lbu agree on the low 8 bits |
| Executor.HalfLoadsAgree | src/vm/executor.rs:132-154 | lh and lhu agree on the low 16 bits |
| Executor.ExecuteLoad | src/vm/executor.rs:126-154 | fails exactly out of bounds at rs1 + imm, with that address; otherwise only rd changes, memory stays and control falls through |
| Executor.StoreValue | src/vm/executor.rs:157-173 | succeeds exactly in bounds for the access width and keeps the memory size |
| Executor.WordStoreThenLoad | src/vm/executor.rs:138-173 | lw after sw at the same address returns the stored value |
| Executor.HalfStoreThenLoad | src/vm/executor.rs:150-167 | lhu after sh returns the low 16 bits of the stored value |
| Executor.ByteStoreThenLoad | src/vm/executor.rs:144-161 | lbu after sb returns the low 8 bits of the stored value |
| Executor.ExecuteStore | src/vm/executor.rs:157-173 | fails exactly out of bounds at rs1 + imm; otherwise registers stay, the memory is the store of rs2, and control falls through |
| Executor.BranchPairsComplementary | src/vm/executor.rs:176-228 | bne, bge and bgeu are taken exactly when beq, blt and bltu are not |
| Executor.ExecuteBranch | src/vm/executor.rs:176-228 | taken: pc + imm; not taken: pc + 4; one cycle either way; registers and memory stay |
| Executor.ExecuteJal | src/vm/executor.rs:231-235 | rd receives the return address, pc moves to pc + imm, one cycle, no other register changes |
| Executor.ExecuteJalr | src/vm/executor.rs:237-242 | pc moves to (rs1 + imm) with bit 0 cleared, computed from rs1 before rd is written; rd receives the return address |
| Executor.ExecuteUpper | src/vm/executor.rs:245-251 | lui puts the immediate in rd; auipc puts pc + imm; control falls through |
| Executor.LinkAddress | src/vm/executor.rs:232 | the return address is 4 past pc, modulo 2^32 |
| Executor.LinkAddressAsWritten | src/vm/executor.rs:232 | with the source's non-wrapping `+`, there is no return address exactly when pc > 0xFFFFFFFB |
| Executor.LinkAddressOverflow | src/vm/executor.rs:232-239 | the two agree wherever the source's sum exists; at pc = 0xFFFFFFFC they part |
| Executor.EcallStepAsWritten | src/vm/executor.rs:254-256 | a successful ecall leaves pc and the cycle count where they were |
| Executor.EcallAsWrittenRepeats | src/vm/executor.rs:254-256 | a stdin read leaves the machine exactly as it was, so the same ecall runs again |
| Executor.EcallStep | src/vm/executor.rs:254-256 | fails exactly when the handler fails, with its error; an exit changes nothing; any other call falls through with one cycle |
| Executor.EcallStepCorrection | src/vm/executor.rs:254-256 | the corrected ecall agrees with the source's on failure, halting, output and registers; it is the source's ecall with a continuing call moved on to the next instruction |
| Executor.ExecuteInstruction | src/vm/executor.rs:12-266 | only loads, stores, ecall and ebreak fail; a load or store fails with its effective address; ebreak always fails with a breakpoint; only ecall halts or writes; a halt changes nothing; every instruction but ecall counts one cycle, and a successful ecall keeps pc and the counter; only stores change memory |
| Executor.EcallInstruction | src/vm/executor.rs:254-256 | the source executes ecall by handing the machine to the system-call handler and returning its result |
| Executor.ExecuteInstructionCorrected | src/vm/executor.rs:12-266 | with the corrected ecall, every step that goes on counts one cycle; a halt changes nothing; memory keeps its size |
| Executor.InstructionCorrection | src/vm/executor.rs:254-266 | the corrected step is the source's step, except that a continuing ecall is moved on to the next instruction |
| Executor.Fetch | src/vm/executor.rs:273-277 | a word outside memory fails with pc; an undecodable word fails with the word; otherwise the decoded instruction |
| Executor.ExecuteCycle | src/vm/executor.rs:269-281 | a failed fetch is the cycle's error; otherwise the fetched instruction executes; a fetched ecall keeps pc and the counter, every other cycle that goes on counts one |
| Executor.FetchAtPc | src/vm/executor.rs:274 | the fetched instruction depends only on pc and memory |
| Executor.EcallCycle | src/vm/executor.rs:254-280 | a cycle that fetches ecall is the source's ecall step |
| Executor.ExecuteCycleCorrected | src/vm/executor.rs:269-281 | with the corrected ecall, a cycle that goes on counts exactly one and a halt changes nothing |
| Executor.CycleCorrection | src/vm/executor.rs:254-281 | the two cycles agree except on a fetched ecall that goes on, where the corrected one also moves pc on by 4 and counts one |
| Vm.WithConfig | src/vm/mod.rs:34-40 | the configuration kept; pc, cycles and registers zero; memory of the configured size, all zero |
| Vm.New | src/vm/mod.rs:28-31 | the default configuration with 4 MiB of memory and a new CPU |
| Vm.LoadBinary | src/vm/mod.rs:49-52 | succeeds exactly when the data fits at addr; otherwise `MemoryViolation` with addr; the CPU, configuration and size stay, the data reads back, and every byte outside [addr, addr + len) is unchanged |
| Vm.SetPc | src/vm/mod.rs:55-57 | pc set and one cycle counted; registers, memory and configuration stay |
| Vm.SetRegister | src/vm/mod.rs:60-62 | the x0 rule holds; every other register, pc, cycles, memory and configuration stay |
| Vm.ExecuteCycleSteps | src/vm/executor.rs:269-281 | the source's cycle never raises the budget error, keeps the memory size, changes nothing on exit, and counts at most one cycle otherwise |
| Vm.ExecuteCycleDoesNotCount | src/vm/executor.rs:254-256 | the source's cycle does not count every cycle that goes on: a stdin read counts none |
| Vm.ExecuteCycleCorrectedCounts | src/vm/executor.rs:269-281 | the corrected cycle, in addition, counts exactly one cycle whenever it goes on |
| Vm.ExecuteFuel | src/vm/mod.rs:65-81 | for a cycle that counts at most one, a run that returns keeps the configuration and memory size, never lowers the counter, never passes a budget it started within, and ends with the budget error exactly when the counter reached the budget |
| Vm.Execute | src/vm/mod.rs:65-81 | the same, for the source's cycle |
| Vm.FuelStopsAt | src/vm/mod.rs:65-81 | a run that returns successfully ends at a machine whose next cycle, within budget, exits; one that fails within its budget ends, unchanged, at the machine whose next cycle raised that error |
| Vm.FuelContinues | src/vm/mod.rs:72-77 | a cycle that goes on is followed by the run from the machine it leaves, with one iteration fewer and its output first |
| Vm.FuelExits | src/vm/mod.rs:75-80 | a cycle that exits ends the run successfully, with the machine unchanged and nothing written |
| Vm.FuelQuietStep | src/vm/mod.rs:72-77 | a cycle that goes on and writes nothing hands the rest of the run to the machine it reaches |
| Vm.FuelNeverReturns | src/vm/mod.rs:66-78 | a cycle that goes on to a machine whose run does not return within the remaining iterations does not return either |
| Vm.ExecuteQuietStep | src/vm/mod.rs:72-77 | the same, for the source's cycle |
| Vm.MoreFuelSameRun | src/vm/mod.rs:65-81 | once the loop has returned, further iterations change nothing |
| Vm.FuelFollowsCycles | src/vm/mod.rs:65-81 | a run that returns ends at the machine, and with the output, of some number of successful continuing cycles fewer than its iterations |
| Vm.FuelLargerBudgetSameExit | src/vm/mod.rs:67-70 | a run that exits successfully exits the same way, with the same machine and output, under any larger budget |
| Vm.ExecuteWith | src/vm/mod.rs:65-81 | the loop for a cycle that counts every cycle always returns; it keeps the configuration and memory size, never lowers the counter, never passes a budget it started within, and ends with the budget error exactly when the counter reached the budget |
| Vm.ExecuteCorrected | src/vm/mod.rs:65-81 | the same, for the corrected cycle |
| Vm.FuelMatchesBudget | src/vm/mod.rs:65-81 | for a cycle that counts every cycle, more iterations than the remaining budget give exactly the budget loop's run |
| Vm.ExecuteStopsAt | src/vm/mod.rs:65-81 | for a cycle that counts every cycle, a successful run ends at a machine whose next cycle, within budget, exits; a run that fails within its budget ends, unchanged, at the machine whose next cycle raised that error |
| Vm.ExecuteContinues | src/vm/mod.rs:72-77 | for such a cycle, a cycle that goes on is followed by the run from the machine it leaves, its output first |
| Vm.ExecuteExits | src/vm/mod.rs:75-80 | for such a cycle, a cycle that exits ends the run successfully, with the machine unchanged and nothing written |
| Vm.Advance | src/vm/mod.rs:66-78 | after n successful continuing cycles the configuration and size are kept and the counter has advanced by at most n, and by exactly n for a cycle that counts every cycle |
| Vm.ExecuteFollowsCycles | src/vm/mod.rs:65-81 | for such a cycle, the final machine and output of a run are those of exactly as many cycles as the counter advanced |
| Vm.LargerBudgetSameExit | src/vm/mod.rs:67-70 | for such a cycle, a run that exits within its budget exits the same way, with the same machine and output, under any larger budget |
| Vm.StdinReadSpins | src/vm/mod.rs:66-78 | a fetched stdin read leaves the machine as it was, so the source's loop never returns, whatever the budget |
| Vm.WriteCycle | src/vm/syscalls.rs:55-83 | a fetched write to stdout or stderr emits the buffer and puts the count in a0, leaving pc on the ecall |
| Vm.RefusedWriteCycle | src/vm/syscalls.rs:80-82 | a fetched write to any other descriptor fails with that descriptor |
| Vm.WriteRepeatsThenFails | src/vm/mod.rs:66-78 | a write whose count is neither 1 nor 2 is written once; the repeated call then uses the count as its descriptor and the run fails with `UnsupportedFileDescriptor(count)` |
| Vm.WriteRepeatsForever | src/vm/mod.rs:66-78 | a write to stdout or stderr whose count is 1 or 2 leaves a descriptor the repeated call accepts, so the buffer is written again and again (to the other stream when count and descriptor differ) and the source's loop never returns |
| Vm.SourceAgreesWithCorrected | src/vm/mod.rs:65-81 | a run that never reaches a continuing ecall is the same under the source's cycle and the corrected one |
| Vm.SourceRunIsCorrectedRun | src/vm/mod.rs:65-81 | such a run, once it returns, is the corrected machine's run |
| Vm.ExecuteWithProof | src/vm/mod.rs:84-94 | proofs disabled: `ProofError` before anything runs, machine unchanged; enabled: a plain run of the source's loop |
| Vm.Reset | src/vm/mod.rs:117-120 | a new CPU and all-zero memory of the same size, configuration kept |
| Vm.ResetIsFresh | src/vm/mod.rs:117-120 | resetting gives exactly the machine `with_config` builds from the same configuration |
| Vm.GetStats | src/vm/mod.rs:123-129 | reports the current cycles, pc and memory size |
| ProgramImage.WordOfImage | examples/simple_program.rs:30-32 | the k-th word of a program's little-endian image is the k-th instruction word |
| ProgramImage.ImageLoaded | examples/simple_program.rs:30-32 | after the image is written at a, the word at a + 4k is the k-th instruction |
| Scenarios.BootLoads | examples/simple_program.rs:10-35 | a fitting program lands at 0x1000, pc is 0x1000, and the set-pc cycle is counted |
| Scenarios.AddiStep | src/vm/executor.rs:80-83 | a fetched addi continues: rd receives rs1 + imm, nothing else changes but pc and the counter |
| Scenarios.AddStep | src/vm/executor.rs:19-23 | a fetched add continues: rd receives rs1 + rs2 |
| Scenarios.EcallExits | src/vm/syscalls.rs:49-53 | ecall with 93 in a7 halts with the machine unchanged |
| Scenarios.ExitStep | src/vm/executor.rs:254-256 | a fetched ecall with 93 in a7 ends the run there |
| Scenarios.ExampleDecodes | examples/simple_program.rs:18-25 | the example's six words decode to the instructions their comments name |
| Scenarios.ExampleLoadsTen | examples/simple_program.rs:19 | addi x1, x0, 10 puts 10 in x1 |
| Scenarios.ExampleLoadsThirtyTwo | examples/simple_program.rs:20 | addi x2, x0, 32 puts 32 in x2 |
| Scenarios.ExampleAdds | examples/simple_program.rs:21 | add x3, x1, x2 puts 42 in x3 |
| Scenarios.ExampleMovesResult | examples/simple_program.rs:22 | addi x10, x3, 0 puts 42 in a0 |
| Scenarios.ExampleLoadsExitNumber | examples/simple_program.rs:23 | addi x17, x0, 93 puts 93 in a7 |
| Scenarios.ExampleRunsFrom5 | examples/simple_program.rs:24 | the exit call ends the run at once, successfully, with the machine unchanged, 42 in a0 and nothing written |
| Scenarios.ExampleRunsFrom0 | examples/simple_program.rs:18-51 | from the loaded start, six iterations of the source's loop end the run successfully at the exit call, with nothing written |
| Scenarios.ExampleProgram | examples/simple_program.rs:18-51 | booted and given six loop iterations or more, the example exits successfully after six cycles with 42 in a0, pc 0x1014 and nothing written |
| Scenarios.AddiThenExitDecodes | tests/execution_tests.rs:8-38 | 0x02a00093 decodes to addi x1, x0, 42, and the exit words decode as their comments say |
| Scenarios.AddiThenExitProgram | tests/execution_tests.rs:28-49 | booted and given four loop iterations or more, the test program exits successfully after four cycles with 42 in x1 and nothing written |

## Left out

- Cycle counter: the source's `u64` is an unbounded `nat`. Overflow would need 2^64 cycles, and `execute` stops at `max_cycles` long before.
- Memory size: `usize` is an unbounded `nat`. The bounds checks add in `usize`, so they never wrap on a 64-bit host; the model's integer comparison matches them.
- Syscalls.HandleSyscall: the stdout and stderr `write_all` / `flush` calls are host I/O. The model returns the bytes as a `HostWrite` instead of writing them. The `SyscallError`s those calls raise on host failure are not modelled.
- The `tracing::info!` log line of the exit call is not modelled.
- `VirtualMachine::load_elf` and the loader always fail with `ElfError` and are not modelled.
- The proof object: `execute_with_proof` returns a placeholder proof. Vm.ExecuteWithProof returns the run only.
- The `zk` module, the command-line program and the module re-exports are not modelled.
- `cpu_state`, `cpu_state_mut`, `memory`, `memory_mut`, `get_pc` and `get_cycles` are plain field access in the model.
- Error messages: the source formats errors as strings. The model keeps the data each message interpolates (`SyscallFault`, `ExecutionFault`). The `ProofError` text is kept verbatim.
- `InvalidRegister`, `IoError`, `SerializationError` and `VerificationError` are never raised by the core. They exist only as constructors.
- Decoder.Decode: its own contract states only the error value. Acceptance, fields and immediates are stated by the RoundTrip and Decoder lemmas.
- Executor.ExecuteJal, Executor.ExecuteJalr: the return address is the wrapping `Executor.LinkAddress`, the release-build result: at pc = 0xFFFFFFFC the model links to 0 and goes on. The debug-build panic there is modelled only by `Executor.LinkAddressAsWritten` (see Findings).
- Executor.ExecuteInstruction: the exact bounds condition under which a load or store fails is stated on Executor.ExecuteLoad and Executor.ExecuteStore, not repeated here.
- Vm.Execute: the source's loop need not return, so it is followed for a given number of iterations (`fuel`). `None` means it has not returned by then. A stdin read spins forever (Vm.StdinReadSpins). A write whose count is 1 or 2 repeats forever (Vm.WriteRepeatsForever). Any other count fails on the second pass (Vm.WriteRepeatsThenFails).
- Vm.ExecuteFuel: its bounds on the counter and the memory size are stated only for a cycle that counts at most one cycle (Vm.Steps), which the source's cycle is (Vm.ExecuteCycleSteps).
- Program loading: the example and the tests store the program one `store_word` at a time. The scenarios load the same little-endian bytes with one `load_binary` (Scenarios.Boot). That the two give the same memory is not proved.
- The integration test that increments pc by hand after loading one word is not modelled.

## Findings

| source | as written | input that shows it | evidently intended | confidence | as-written member | corrected member |
|---|---|---|---|---|---|---|
| src/vm/executor.rs:232 | jal and jalr write `cpu.get_pc() + 4` with Rust's plain `+` on `u32`, while `increment_pc` uses `wrapping_add` | jal or jalr at pc = 0xFFFFFFFC: the sum overflows, a panic in a debug build | the return address wraps to 0 like the sequential successor | medium; not executed | Executor.LinkAddressAsWritten, Executor.LinkAddressOverflow | Executor.LinkAddress |
| src/vm/executor.rs:254-256 | `ecall` returns the handler's result without `increment_pc`, so a system call that continues leaves pc on the `ecall` and counts no cycle | a7 = 63, a0 = 0 (read from stdin): the cycle leaves the machine unchanged, the same `ecall` is fetched again forever, and `max_cycles` never stops it. A write (a7 = 64) puts its count in a0, and the same `ecall` runs again with the count as its descriptor: it repeats forever when the count is 1 or 2, and otherwise fails with `UnsupportedFileDescriptor(count)` after one write (a 0-byte write fails with descriptor 0) | a continuing system call moves on to the next instruction and counts one cycle, like every other instruction | high; not executed | Executor.EcallStepAsWritten, Executor.EcallAsWrittenRepeats, Vm.ExecuteCycleDoesNotCount, Vm.StdinReadSpins, Vm.WriteRepeatsForever, Vm.WriteRepeatsThenFails | Executor.EcallStep, Executor.EcallStepCorrection, Executor.ExecuteCycleCorrected, Executor.CycleCorrection, Vm.ExecuteCycleCorrectedCounts, Vm.ExecuteCorrected |
