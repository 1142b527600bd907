/** Construction-time configuration of a virtual machine. */
module Config {

  /** Memory size in bytes, whether proof generation is enabled, and the
      cycle budget of one run. */
  datatype VmConfig = VmConfig(memorySize: nat, enableProofs: bool, maxCycles: nat)

  /** The default configuration: 4 MiB of memory, proofs disabled,
      one million cycles. */
  function Default(): (c: VmConfig)
    ensures c.memorySize == 0x40_0000
    ensures !c.enableProofs
    ensures c.maxCycles == 1_000_000
  {
    VmConfig(4 * 1024 * 1024, false, 1_000_000)
  }
}
