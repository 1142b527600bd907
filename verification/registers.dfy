/** The general-purpose register file: 32 slots of 32 bits, with x0
    hard-wired to zero. */
module Registers {
  import opened Errors

  /** A register number, x0 through x31. */
  type RegisterIndex = bv5

  /** The ABI registers the system-call interface uses. */
  const A0: RegisterIndex := 10
  const A1: RegisterIndex := 11
  const A2: RegisterIndex := 12
  const A7: RegisterIndex := 17

  /** The 32 register slots. Slot 0 is stored but never read. */
  type RegisterFile = s: seq<bv32> | |s| == 32 witness Zeroed()

  /** The validating conversion from an untrusted number: it rejects, and
      never reinterprets, a value above 31. */
  function FromU32(v: bv32): (r: Option<RegisterIndex>)
    ensures r.Some? <==> v <= 31
    ensures r.Some? ==> r.value as bv32 == v
  {
    if v <= 31 then Some(v as bv5) else None
  }

  /** Every register index converts back to itself. */
  lemma FromU32RoundTrip(r: RegisterIndex)
    ensures FromU32(r as bv32) == Some(r)
  {
  }

  /** A register file with every slot zero. */
  function Zeroed(): (rf: seq<bv32>)
    ensures |rf| == 32
    ensures forall i :: 0 <= i < 32 ==> rf[i] == 0
  {
    seq(32, _ => 0)
  }

  /** `RegisterFile::new`. */
  function New(): (rf: RegisterFile)
    ensures forall r: RegisterIndex :: Read(rf, r) == 0
  {
    Zeroed()
  }

  /** `RegisterFile::reset`: every register reads zero again, whatever the
      file held before. */
  function Reset(rf: RegisterFile): (rf': RegisterFile)
    ensures forall r: RegisterIndex :: Read(rf', r) == 0
  {
    Zeroed()
  }

  /** `RegisterFile::read`: x0 reads zero. */
  function Read(rf: RegisterFile, index: RegisterIndex): (v: bv32)
    ensures index == 0 ==> v == 0
  {
    if index == 0 then 0 else rf[index]
  }

  /** `RegisterFile::write`: a write to x0 is discarded. */
  function Write(rf: RegisterFile, index: RegisterIndex, value: bv32): (rf': RegisterFile)
    ensures index == 0 ==> rf' == rf
    ensures Read(rf', index) == (if index == 0 then 0 else value)
    ensures forall r: RegisterIndex :: r != index ==> Read(rf', r) == Read(rf, r)
  {
    if index == 0 then rf else rf[index := value]
  }

  /** Writing a register the value it already reads changes nothing. */
  lemma WriteOwnValue(rf: RegisterFile, index: RegisterIndex)
    ensures Write(rf, index, Read(rf, index)) == rf
  {
  }

  /** x0 reads zero whatever has been written to any register. */
  lemma ZeroRegisterAlwaysZero(rf: RegisterFile, index: RegisterIndex, value: bv32)
    ensures Read(rf, 0) == 0
    ensures Read(Write(rf, index, value), 0) == 0
  {
  }
}
