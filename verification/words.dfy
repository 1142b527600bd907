/** Operations on 32-bit machine words that the source performs through
    Rust's `as i32`, `as u8`, `as i16` casts and signed shifts. A bv32 value
    is read as two's complement wherever the source casts it to `i32`. */
module Words {

  /** `x` is negative when read as an `i32`. */
  predicate IsNegative(x: bv32) {
    x & 0x8000_0000 != 0
  }

  /** `(a as i32) < (b as i32)`: a negative value is below every
      non-negative one, and two values of the same sign compare like their
      unsigned bit patterns. */
  predicate SignedLess(a: bv32, b: bv32) {
    if IsNegative(a) != IsNegative(b) then IsNegative(a) else a < b
  }

  /** Flipping the sign bit maps the signed order onto the unsigned one. */
  lemma SignedLessByBias(a: bv32, b: bv32)
    ensures SignedLess(a, b) <==> (a ^ 0x8000_0000) < (b ^ 0x8000_0000)
  {
  }

  /** `((x as i32) >> s) as u32`: shift right, filling with the sign bit. */
  function ShiftRightArithmetic(x: bv32, s: bv32): bv32
    requires s < 32
  {
    if IsNegative(x) then !((!x) >> s) else x >> s
  }

  /** `((x as i32) >> 31) as u32`: all ones for a negative value, zero
      otherwise. */
  function SignFill(x: bv32): bv32 {
    if IsNegative(x) then 0xFFFF_FFFF else 0
  }

  /* An arithmetic shift by a constant keeps the shifted field and fills
     the vacated top bits with the sign. */
  lemma ShiftRightArithmetic20(x: bv32)
    ensures ShiftRightArithmetic(x, 20) == (x >> 20) | (SignFill(x) << 12)
  {
    if IsNegative(x) {
      assert ShiftRightArithmetic(x, 20) == !((!x) >> 20);
    } else {
      assert ShiftRightArithmetic(x, 20) == x >> 20;
    }
  }

  lemma ShiftRightArithmetic25(x: bv32)
    ensures ShiftRightArithmetic(x, 25) == (x >> 25) | (SignFill(x) << 7)
  {
    if IsNegative(x) {
      assert ShiftRightArithmetic(x, 25) == !((!x) >> 25);
    } else {
      assert ShiftRightArithmetic(x, 25) == x >> 25;
    }
  }

  lemma ShiftRightArithmetic31(x: bv32)
    ensures ShiftRightArithmetic(x, 31) == SignFill(x)
  {
    if IsNegative(x) {
      assert ShiftRightArithmetic(x, 31) == !((!x) >> 31);
    } else {
      assert ShiftRightArithmetic(x, 31) == x >> 31;
    }
  }

  /** `(b as i8) as i32 as u32`. */
  function SignExtendByte(b: bv8): bv32 {
    if b & 0x80 == 0 then b as bv32 else (b as bv32) | 0xFFFF_FF00
  }

  /** `(h as i16) as i32 as u32`. */
  function SignExtendHalf(h: bv16): bv32 {
    if h & 0x8000 == 0 then h as bv32 else (h as bv32) | 0xFFFF_0000
  }

  /** `x as u8`: the low 8 bits. */
  function Low8(x: bv32): bv8 {
    (x & 0xFF) as bv8
  }

  /** `x as u16`: the low 16 bits. */
  function Low16(x: bv32): bv16 {
    (x & 0xFFFF) as bv16
  }

  /** `x`, read as an `i32`, lies in [-2^11, 2^11 - 1]. */
  predicate FitsSigned12(x: bv32) {
    x <= 0x7FF || x >= 0xFFFF_F800
  }

  /** `x`, read as an `i32`, lies in [-2^12, 2^12 - 1]. */
  predicate FitsSigned13(x: bv32) {
    x <= 0xFFF || x >= 0xFFFF_F000
  }

  /** `x`, read as an `i32`, lies in [-2^20, 2^20 - 1]. */
  predicate FitsSigned21(x: bv32) {
    x <= 0xF_FFFF || x >= 0xFFF0_0000
  }

  /* Sign extension keeps the low bits and copies the sign bit into every
     bit above them. */
  lemma SignExtendByteBits(b: bv8)
    ensures SignExtendByte(b) & 0xFF == b as bv32
    ensures SignExtendByte(b) >> 8 == (if b & 0x80 == 0 then 0 else 0xFF_FFFF)
  {
  }

  lemma SignExtendHalfBits(h: bv16)
    ensures SignExtendHalf(h) & 0xFFFF == h as bv32
    ensures SignExtendHalf(h) >> 16 == (if h & 0x8000 == 0 then 0 else 0xFFFF)
  {
    var x := h as bv32;
    assert SignExtendHalf(h) == (if h & 0x8000 == 0 then x else x | 0xFFFF_0000);
  }

  /** Truncation keeps exactly the low bits. */
  lemma TruncationBits(x: bv32)
    ensures Low8(x) as bv32 == x & 0xFF
    ensures Low16(x) as bv32 == x & 0xFFFF
  {
  }

  /** Sign-extending a byte or a halfword is the same as moving it to the
      top of the word and shifting it back arithmetically. */
  lemma SignExtendByShifting(b: bv8, h: bv16)
    ensures SignExtendByte(b) == ShiftRightArithmetic((b as bv32) << 24, 24)
    ensures SignExtendHalf(h) == ShiftRightArithmetic((h as bv32) << 16, 16)
  {
  }
}
