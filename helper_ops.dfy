/** The value and the library flags of the helpers whose result is more than
    the library's own: the fused multiply-add sign variants, the comparisons,
    the 32-bit integer conversions and the float32/float64 conversions. Each
    function takes the rounding mode installed in `fp_status`; the `Cpu`
    methods of module FpuHelper are specified by these. */
module HelperOps {
  import opened SoftFloat
  import opened Bits

  /** A float32 result returned in a uint64_t: zero-extended, with the
      library's flags. */
  function Single(o: LibOut<bv32>): (r: LibOut<bv64>)
    ensures Low32(r.value) == o.value && r.raised == o.raised
  {
    LibOut(ZeroExtend32(o.value), o.raised)
  }

  /** An int32_t result returned in a 64-bit register: sign-extended, with the
      library's flags. */
  function Signed(o: LibOut<bv32>): (r: LibOut<bv64>)
    ensures IsSignExtended32(r.value)
    ensures Low32(r.value) == o.value && r.raised == o.raised
  {
    SignExtendIsSignExtended(o.value);
    LibOut(SignExtend32(o.value), o.raised)
  }

  /** A C boolean returned in a register: 1 for true, 0 for false. */
  function Flag(o: LibOut<bool>): (r: LibOut<bv64>)
    ensures r.value == 0 || r.value == 1
    ensures r.value == 1 <==> o.value
    ensures r.raised == o.raised
  {
    LibOut(if o.value then 1 else 0, o.raised)
  }

  /* ---- fused multiply-add, binary32 ------------------------------------- */

  /** fmadd.s: frs1*frs2 + frs3, no negation requested from the library. */
  function FmaddS(lib: Library, rm: RoundingMode, frs1: bv64, frs2: bv64, frs3: bv64): (out: LibOut<bv64>)
    ensures out.value >> 32 == 0
    ensures Low32(out.value) == lib.muladd32(rm, Low32(frs1), Low32(frs2), Low32(frs3), 0).value
    ensures out.raised == lib.muladd32(rm, Low32(frs1), Low32(frs2), Low32(frs3), 0).raised
  {
    Single(lib.muladd32(rm, Low32(frs1), Low32(frs2), Low32(frs3), 0))
  }

  /** fmsub.s: the library receives the addend with its sign flipped and
      nothing else changed, and a zero negation-flags argument. */
  function FmsubS(lib: Library, rm: RoundingMode, frs1: bv64, frs2: bv64, frs3: bv64): (out: LibOut<bv64>)
    ensures out == Single(lib.muladd32(rm, Low32(frs1), Low32(frs2), FlipSign32(Low32(frs3)), 0))
  {
    FlipBeforeNarrowing(frs3);
    Single(lib.muladd32(rm, Low32(frs1), Low32(frs2), Low32(frs3 ^ (SignBit32 as bv64)), 0))
  }

  /** fnmsub.s: the library receives the first factor with its sign flipped. */
  function FnmsubS(lib: Library, rm: RoundingMode, frs1: bv64, frs2: bv64, frs3: bv64): (out: LibOut<bv64>)
    ensures out == Single(lib.muladd32(rm, FlipSign32(Low32(frs1)), Low32(frs2), Low32(frs3), 0))
  {
    FlipBeforeNarrowing(frs1);
    Single(lib.muladd32(rm, Low32(frs1 ^ (SignBit32 as bv64)), Low32(frs2), Low32(frs3), 0))
  }

  /** fnmadd.s: the library receives the first factor and the addend with
      their signs flipped. */
  function FnmaddS(lib: Library, rm: RoundingMode, frs1: bv64, frs2: bv64, frs3: bv64): (out: LibOut<bv64>)
    ensures out == Single(lib.muladd32(rm, FlipSign32(Low32(frs1)), Low32(frs2), FlipSign32(Low32(frs3)), 0))
  {
    FlipBeforeNarrowing(frs1);
    FlipBeforeNarrowing(frs3);
    Single(lib.muladd32(rm, Low32(frs1 ^ (SignBit32 as bv64)), Low32(frs2),
                        Low32(frs3 ^ (SignBit32 as bv64)), 0))
  }

  /* ---- fused multiply-add, binary64 ------------------------------------- */

  /** fmadd.d: frs1*frs2 + frs3 on the whole registers, unmodified, with a
      zero negation-flags argument; value and flags are the library's. */
  function FmaddD(lib: Library, rm: RoundingMode, frs1: bv64, frs2: bv64, frs3: bv64): (out: LibOut<bv64>)
    ensures out == lib.muladd64(rm, frs1, frs2, frs3, 0)
  {
    lib.muladd64(rm, frs1, frs2, frs3, 0)
  }

  /** fmsub.d: fmadd.d of the addend with its sign flipped. */
  function FmsubD(lib: Library, rm: RoundingMode, frs1: bv64, frs2: bv64, frs3: bv64): (out: LibOut<bv64>)
    ensures out == FmaddD(lib, rm, frs1, frs2, FlipSign64(frs3))
  {
    lib.muladd64(rm, frs1, frs2, frs3 ^ SignBit64, 0)
  }

  /** fnmsub.d: fmadd.d of the first factor with its sign flipped. */
  function FnmsubD(lib: Library, rm: RoundingMode, frs1: bv64, frs2: bv64, frs3: bv64): (out: LibOut<bv64>)
    ensures out == FmaddD(lib, rm, FlipSign64(frs1), frs2, frs3)
  {
    lib.muladd64(rm, frs1 ^ SignBit64, frs2, frs3, 0)
  }

  /** fnmadd.d: fmadd.d of the first factor and the addend with their signs
      flipped. */
  function FnmaddD(lib: Library, rm: RoundingMode, frs1: bv64, frs2: bv64, frs3: bv64): (out: LibOut<bv64>)
    ensures out == FmaddD(lib, rm, FlipSign64(frs1), frs2, FlipSign64(frs3))
  {
    lib.muladd64(rm, frs1 ^ SignBit64, frs2, frs3 ^ SignBit64, 0)
  }

  /** The single-precision variants are each other's sign flips: negating the
      addend of fmsub.s or the first factor of fnmsub.s gives fmadd.s back, and
      fnmadd.s is fnmsub.s with the addend negated. */
  lemma FmaSignVariantsS(lib: Library, rm: RoundingMode, a: bv64, b: bv64, c: bv64)
    ensures FmsubS(lib, rm, a, b, c ^ (SignBit32 as bv64)) == FmaddS(lib, rm, a, b, c)
    ensures FnmsubS(lib, rm, a ^ (SignBit32 as bv64), b, c) == FmaddS(lib, rm, a, b, c)
    ensures FnmaddS(lib, rm, a, b, c) == FnmsubS(lib, rm, a, b, c ^ (SignBit32 as bv64))
    ensures FnmaddS(lib, rm, a, b, c)
            == FmaddS(lib, rm, a ^ (SignBit32 as bv64), b, c ^ (SignBit32 as bv64))
  {
    FlipBeforeNarrowing(a);
    FlipBeforeNarrowing(c);
    FlipSignInvolutive(Low32(a), 0);
    FlipSignInvolutive(Low32(c), 0);
  }

  /** The same for double precision: fmsub.d and fnmsub.d are fmadd.d with one
      operand negated, so negating it again gives fmadd.d back, and fnmadd.d is
      fnmsub.d with the addend negated. (fnmadd.d as fmadd.d with both operands
      negated is the contract of FnmaddD itself.) */
  lemma FmaSignVariantsD(lib: Library, rm: RoundingMode, a: bv64, b: bv64, c: bv64)
    ensures FmsubD(lib, rm, a, b, FlipSign64(c)) == FmaddD(lib, rm, a, b, c)
    ensures FnmsubD(lib, rm, FlipSign64(a), b, c) == FmaddD(lib, rm, a, b, c)
    ensures FnmaddD(lib, rm, a, b, c) == FnmsubD(lib, rm, a, b, FlipSign64(c))
  {
    FlipSignInvolutive(0, a);
    FlipSignInvolutive(0, c);
  }

  /* ---- comparisons ------------------------------------------------------ */

  /** fle.s, flt.s, feq.s: 1 exactly when the library's relation holds. */
  function FleS(lib: Library, rm: RoundingMode, frs1: bv64, frs2: bv64): (out: LibOut<bv64>)
    ensures out.value == 1 <==> lib.le32(rm, Low32(frs1), Low32(frs2)).value
    ensures out.value == 0 || out.value == 1
    ensures out.raised == lib.le32(rm, Low32(frs1), Low32(frs2)).raised
  {
    Flag(lib.le32(rm, Low32(frs1), Low32(frs2)))
  }

  function FltS(lib: Library, rm: RoundingMode, frs1: bv64, frs2: bv64): (out: LibOut<bv64>)
    ensures out.value == 1 <==> lib.lt32(rm, Low32(frs1), Low32(frs2)).value
    ensures out.value == 0 || out.value == 1
    ensures out.raised == lib.lt32(rm, Low32(frs1), Low32(frs2)).raised
  {
    Flag(lib.lt32(rm, Low32(frs1), Low32(frs2)))
  }

  function FeqS(lib: Library, rm: RoundingMode, frs1: bv64, frs2: bv64): (out: LibOut<bv64>)
    ensures out.value == 1 <==> lib.eqQuiet32(rm, Low32(frs1), Low32(frs2)).value
    ensures out.value == 0 || out.value == 1
    ensures out.raised == lib.eqQuiet32(rm, Low32(frs1), Low32(frs2)).raised
  {
    Flag(lib.eqQuiet32(rm, Low32(frs1), Low32(frs2)))
  }

  /** fle.d, flt.d, feq.d: 1 exactly when the library's relation holds. */
  function FleD(lib: Library, rm: RoundingMode, frs1: bv64, frs2: bv64): (out: LibOut<bv64>)
    ensures out.value == 1 <==> lib.le64(rm, frs1, frs2).value
    ensures out.value == 0 || out.value == 1
    ensures out.raised == lib.le64(rm, frs1, frs2).raised
  {
    Flag(lib.le64(rm, frs1, frs2))
  }

  function FltD(lib: Library, rm: RoundingMode, frs1: bv64, frs2: bv64): (out: LibOut<bv64>)
    ensures out.value == 1 <==> lib.lt64(rm, frs1, frs2).value
    ensures out.value == 0 || out.value == 1
    ensures out.raised == lib.lt64(rm, frs1, frs2).raised
  {
    Flag(lib.lt64(rm, frs1, frs2))
  }

  function FeqD(lib: Library, rm: RoundingMode, frs1: bv64, frs2: bv64): (out: LibOut<bv64>)
    ensures out.value == 1 <==> lib.eqQuiet64(rm, frs1, frs2).value
    ensures out.value == 0 || out.value == 1
    ensures out.raised == lib.eqQuiet64(rm, frs1, frs2).raised
  {
    Flag(lib.eqQuiet64(rm, frs1, frs2))
  }

  /* ---- conversions to 32-bit integers ----------------------------------- */

  /** fcvt.w.s: the int32 the library returns, sign-extended to 64 bits. */
  function FcvtWS(lib: Library, rm: RoundingMode, frs1: bv64): (out: LibOut<bv64>)
    ensures IsSignExtended32(out.value)
    ensures Low32(out.value) == lib.float32ToInt32(rm, Low32(frs1)).value
    ensures out.raised == lib.float32ToInt32(rm, Low32(frs1)).raised
  {
    Signed(lib.float32ToInt32(rm, Low32(frs1)))
  }

  /** fcvt.wu.s: the uint32 the library returns is cast to int32_t first, so it
      too is sign-extended; a result with bit 31 set has its upper word all
      ones. */
  function FcvtWuS(lib: Library, rm: RoundingMode, frs1: bv64): (out: LibOut<bv64>)
    ensures IsSignExtended32(out.value)
    ensures Low32(out.value) == lib.float32ToUint32(rm, Low32(frs1)).value
    ensures out.raised == lib.float32ToUint32(rm, Low32(frs1)).raised
  {
    Signed(lib.float32ToUint32(rm, Low32(frs1)))
  }

  /** fcvt.w.d: `(int64_t)(int32_t)` of the library's int32, sign-extended. */
  function FcvtWD(lib: Library, rm: RoundingMode, frs1: bv64): (out: LibOut<bv64>)
    ensures IsSignExtended32(out.value)
    ensures Low32(out.value) == lib.float64ToInt32(rm, frs1).value
    ensures out.raised == lib.float64ToInt32(rm, frs1).raised
  {
    Signed(lib.float64ToInt32(rm, frs1))
  }

  /** fcvt.wu.d: `(int64_t)(int32_t)` of the library's uint32, sign-extended. */
  function FcvtWuD(lib: Library, rm: RoundingMode, frs1: bv64): (out: LibOut<bv64>)
    ensures IsSignExtended32(out.value)
    ensures Low32(out.value) == lib.float64ToUint32(rm, frs1).value
    ensures out.raised == lib.float64ToUint32(rm, frs1).raised
  {
    Signed(lib.float64ToUint32(rm, frs1))
  }

  /* ---- conversions from 32-bit integers --------------------------------- */

  /** fcvt.s.w: the library converts `(int32_t)rs1`; the float32 is returned
      zero-extended. */
  function FcvtSW(lib: Library, rm: RoundingMode, rs1: bv64): (out: LibOut<bv64>)
    ensures out.value >> 32 == 0
    ensures Low32(out.value) == lib.int32ToFloat32(rm, Low32(rs1)).value
    ensures out.raised == lib.int32ToFloat32(rm, Low32(rs1)).raised
  {
    Single(lib.int32ToFloat32(rm, Low32(rs1)))
  }

  /** fcvt.s.wu: the library converts `(uint32_t)rs1`. */
  function FcvtSWu(lib: Library, rm: RoundingMode, rs1: bv64): (out: LibOut<bv64>)
    ensures out.value >> 32 == 0
    ensures Low32(out.value) == lib.uint32ToFloat32(rm, Low32(rs1)).value
    ensures out.raised == lib.uint32ToFloat32(rm, Low32(rs1)).raised
  {
    Single(lib.uint32ToFloat32(rm, Low32(rs1)))
  }

  /** fcvt.d.w: the library converts `(int32_t)rs1`, the low word of the
      register, to binary64; value and flags are the library's. */
  function FcvtDW(lib: Library, rm: RoundingMode, rs1: bv64): (out: LibOut<bv64>)
    ensures out == lib.int32ToFloat64(rm, Low32(rs1))
  {
    lib.int32ToFloat64(rm, Low32(rs1))
  }

  /** fcvt.d.wu: the library converts `(uint32_t)rs1`, the low word of the
      register, to binary64; value and flags are the library's. */
  function FcvtDWu(lib: Library, rm: RoundingMode, rs1: bv64): (out: LibOut<bv64>)
    ensures out == lib.uint32ToFloat64(rm, Low32(rs1))
  {
    lib.uint32ToFloat64(rm, Low32(rs1))
  }

  /** The word-to-single conversions read only the low 32 bits of the integer
      register: two registers that agree there convert alike. */
  lemma FromWordLow32S(lib: Library, rm: RoundingMode, x: bv64, y: bv64)
    requires x & 0xFFFF_FFFF == y & 0xFFFF_FFFF
    ensures FcvtSW(lib, rm, x) == FcvtSW(lib, rm, y)
    ensures FcvtSWu(lib, rm, x) == FcvtSWu(lib, rm, y)
  {
    SameLow32(x, y);
  }

  /** The same for the word-to-double conversions. */
  lemma FromWordLow32D(lib: Library, rm: RoundingMode, x: bv64, y: bv64)
    requires x & 0xFFFF_FFFF == y & 0xFFFF_FFFF
    ensures FcvtDW(lib, rm, x) == FcvtDW(lib, rm, y)
    ensures FcvtDWu(lib, rm, x) == FcvtDWu(lib, rm, y)
  {
    SameLow32(x, y);
  }

  lemma SameLow32(x: bv64, y: bv64)
    requires x & 0xFFFF_FFFF == y & 0xFFFF_FFFF
    ensures Low32(x) == Low32(y)
  {
  }

  /** Every single-precision operand is narrowed to float32: the upper half of
      a floating-point register never affects a binary32 helper. */
  lemma SingleIgnoresUpperHalf(lib: Library, rm: RoundingMode, a: bv64, b: bv64, c: bv64,
                               a': bv64, b': bv64, c': bv64)
    requires a & 0xFFFF_FFFF == a' & 0xFFFF_FFFF
    requires b & 0xFFFF_FFFF == b' & 0xFFFF_FFFF
    requires c & 0xFFFF_FFFF == c' & 0xFFFF_FFFF
    ensures FmaddS(lib, rm, a, b, c) == FmaddS(lib, rm, a', b', c')
    ensures FmsubS(lib, rm, a, b, c) == FmsubS(lib, rm, a', b', c')
    ensures FnmsubS(lib, rm, a, b, c) == FnmsubS(lib, rm, a', b', c')
    ensures FnmaddS(lib, rm, a, b, c) == FnmaddS(lib, rm, a', b', c')
    ensures FleS(lib, rm, a, b) == FleS(lib, rm, a', b')
    ensures FltS(lib, rm, a, b) == FltS(lib, rm, a', b')
    ensures FeqS(lib, rm, a, b) == FeqS(lib, rm, a', b')
    ensures FcvtWS(lib, rm, a) == FcvtWS(lib, rm, a')
    ensures FcvtWuS(lib, rm, a) == FcvtWuS(lib, rm, a')
  {
    SameLow32(a, a');
    SameLow32(b, b');
    SameLow32(c, c');
  }

  /* ---- conversions between the formats --------------------------------- */

  /** fcvt.s.d: the library narrows, set_fp_exceptions runs, and only then is a
      NaN result silenced; the flags are those of the narrowing. */
  function FcvtSD(lib: Library, rm: RoundingMode, rs1: bv64): (out: LibOut<bv64>)
    ensures out.value >> 32 == 0
    ensures Low32(out.value) == lib.maybeSilenceNan32(lib.float64ToFloat32(rm, rs1).value)
    ensures out.raised == lib.float64ToFloat32(rm, rs1).raised
  {
    var o := lib.float64ToFloat32(rm, rs1);
    LibOut(ZeroExtend32(lib.maybeSilenceNan32(Low32(ZeroExtend32(o.value)))), o.raised)
  }

  /** fcvt.d.s: the library widens the float32 in the low half of the register,
      and a NaN result is silenced. */
  function FcvtDS(lib: Library, rm: RoundingMode, rs1: bv64): (out: LibOut<bv64>)
    ensures out.value == lib.maybeSilenceNan64(lib.float32ToFloat64(rm, Low32(rs1)).value)
    ensures out.raised == lib.float32ToFloat64(rm, Low32(rs1)).raised
  {
    var o := lib.float32ToFloat64(rm, Low32(rs1));
    LibOut(lib.maybeSilenceNan64(o.value), o.raised)
  }
}
