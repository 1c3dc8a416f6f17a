/** The C integer conversions and sign-bit manipulations the helpers apply to
    their 64-bit register operands (XLEN = 64, so target_ulong is 64 bits). */
module Bits {

  /** INT32_MIN and INT64_MIN as unsigned masks: the sign bit of binary32
      (bit 31) and of binary64 (bit 63). */
  const SignBit32: bv32 := 0x8000_0000
  const SignBit64: bv64 := 0x8000_0000_0000_0000

  /** A 64-bit operand passed where a 32-bit C type is expected (float32,
      `(int32_t)`, `(uint32_t)`): only its low 32 bits survive. */
  function Low32(x: bv64): (r: bv32)
    ensures r as bv64 == x & 0xFFFF_FFFF
  {
    (x & 0xFFFF_FFFF) as bv32
  }

  /** A float32 or uint32_t result stored into a uint64_t: zero-extended. */
  function ZeroExtend32(x: bv32): (r: bv64)
    ensures Low32(r) == x
    ensures r >> 32 == 0
  {
    x as bv64
  }

  /** An int32_t stored into a 64-bit unsigned variable (directly or through
      `(int64_t)`): the two's-complement value is kept, so bit 31 is copied into
      bits 63..32. */
  function SignExtend32(x: bv32): (r: bv64)
    ensures Low32(r) == x
  {
    // bit 31 replicated across the upper word
    (x as bv64) | ((0 - ((x >> 31) as bv64)) << 32)
  }

  /** The upper word of a sign-extended value: all ones for a negative int32,
      all zeros otherwise. */
  lemma SignExtendUpper(x: bv32)
    ensures SignExtend32(x) >> 32 == if x & SignBit32 != 0 then 0xFFFF_FFFF else 0
  {
  }

  /** Bits 63..31 are all equal: the value is a sign-extended 32-bit integer. */
  predicate IsSignExtended32(r: bv64) {
    r & 0xFFFF_FFFF_8000_0000 == 0 || r & 0xFFFF_FFFF_8000_0000 == 0xFFFF_FFFF_8000_0000
  }

  /** Sign extension and truncation are inverse: truncating loses nothing from a
      sign-extended value, and every sign-extended value is one. */
  lemma SignExtendLow32(r: bv64)
    ensures IsSignExtended32(r) <==> SignExtend32(Low32(r)) == r
  {
    if IsSignExtended32(r) {
      SignExtendOfSignExtended(r);
    } else {
      SignExtendIsSignExtended(Low32(r));
    }
  }

  lemma SignExtendOfSignExtended(r: bv64)
    requires IsSignExtended32(r)
    ensures SignExtend32(Low32(r)) == r
  {
  }

  lemma SignExtendIsSignExtended(x: bv32)
    ensures IsSignExtended32(SignExtend32(x))
  {
  }

  /** Negating a binary32 operand by XOR with its sign bit: exactly bit 31
      changes. */
  function FlipSign32(x: bv32): (r: bv32)
    ensures r & !SignBit32 == x & !SignBit32
    ensures r & SignBit32 != x & SignBit32
  {
    x ^ SignBit32
  }

  /** Negating a binary64 operand by XOR with its sign bit: exactly bit 63
      changes. */
  function FlipSign64(x: bv64): (r: bv64)
    ensures r & !SignBit64 == x & !SignBit64
    ensures r & SignBit64 != x & SignBit64
  {
    x ^ SignBit64
  }

  /** Flipping a sign twice gives the operand back. */
  lemma FlipSignInvolutive(x: bv32, y: bv64)
    ensures FlipSign32(FlipSign32(x)) == x
    ensures FlipSign64(FlipSign64(y)) == y
  {
  }

  /** The single-precision helpers XOR the whole 64-bit register with
      `(uint32_t)INT32_MIN` before it is narrowed to float32: the binary32 operand
      the library receives is the original one with its sign flipped. */
  lemma FlipBeforeNarrowing(x: bv64)
    ensures Low32(x ^ (SignBit32 as bv64)) == FlipSign32(Low32(x))
  {
  }
}
