/** FCLASS.S and FCLASS.D (helper_fclass_s, helper_fclass_d): the one-hot
    10-bit classification of a binary32 or binary64 bit pattern defined in
    section 11.9 of the RISC-V Unprivileged ISA. The helpers take no CPU state:
    they neither round nor touch fflags or the softfloat status. */
module FClass {
  import opened Bits

  /** The ten categories, in the order of the bits of the FCLASS result. */
  datatype Category =
    | NegInfinity | NegNormal | NegSubnormal | NegZero
    | PosZero | PosSubnormal | PosNormal | PosInfinity
    | SignalingNaN | QuietNaN

  /** The bit of the FCLASS result that reports category `c`. */
  function Index(c: Category): (k: nat)
    ensures k < 10
  {
    match c
    case NegInfinity => 0
    case NegNormal => 1
    case NegSubnormal => 2
    case NegZero => 3
    case PosZero => 4
    case PosSubnormal => 5
    case PosNormal => 6
    case PosInfinity => 7
    case SignalingNaN => 8
    case QuietNaN => 9
  }

  /** The category of the operand with its sign flipped: infinities, normals,
      subnormals and zeros change sides; the NaN categories do not depend on
      the sign. */
  function Mirror(c: Category): (m: Category)
    ensures c.SignalingNaN? || c.QuietNaN? ==> m == c
    ensures !(c.SignalingNaN? || c.QuietNaN?) ==> Index(m) == 7 - Index(c)
  {
    match c
    case NegInfinity => PosInfinity
    case NegNormal => PosNormal
    case NegSubnormal => PosSubnormal
    case NegZero => PosZero
    case PosZero => NegZero
    case PosSubnormal => NegSubnormal
    case PosNormal => NegNormal
    case PosInfinity => NegInfinity
    case SignalingNaN => SignalingNaN
    case QuietNaN => QuietNaN
  }

  /** Exactly one of bits 0..9 is set. */
  predicate OneHot10(r: bv64) {
    r != 0 && r & (r - 1) == 0 && r <= 0x200
  }

  /* ---------------- binary32 ---------------- */

  /* The softfloat predicates the helper tests, on the binary32 layout of
     IEEE 754-2008 section 3.4 (sign bit 31, exponent bits 30..23, fraction
     bits 22..0). The quiet bit is the top fraction bit, as section 6.2.1
     recommends and as softfloat assumes when snan_bit_is_one is clear. */
  predicate IsNeg32(f: bv32) { f & SignBit32 != 0 }
  predicate IsInfinity32(f: bv32) { f & 0x7FFF_FFFF == 0x7F80_0000 }
  predicate IsZero32(f: bv32) { f & 0x7FFF_FFFF == 0 }
  predicate IsZeroOrDenormal32(f: bv32) { f & 0x7F80_0000 == 0 }
  predicate IsAnyNan32(f: bv32) { f & 0x7FFF_FFFF > 0x7F80_0000 }
  predicate IsQuietNan32(f: bv32) { f << 1 >= 0xFF80_0000 }

  /* The fields of a binary32 pattern. */
  function Exponent32(f: bv32): (e: bv32) { (f >> 23) & 0xFF }
  function Fraction32(f: bv32): (m: bv32) { f & 0x7F_FFFF }
  const QuietBit32: bv32 := 0x40_0000

  /** The classification of a binary32 pattern read field by field, as IEEE
      754-2008 section 3.4 defines the encodings: an independent reference for
      the helper's chain of tests. */
  function Category32(f: bv32): (c: Category) {
    var negative := f >> 31 == 1;
    if Exponent32(f) == 0xFF then
      if Fraction32(f) == 0 then (if negative then NegInfinity else PosInfinity)
      else if Fraction32(f) & QuietBit32 != 0 then QuietNaN
      else SignalingNaN
    else if Exponent32(f) == 0 then
      if Fraction32(f) == 0 then (if negative then NegZero else PosZero)
      else (if negative then NegSubnormal else PosSubnormal)
    else (if negative then NegNormal else PosNormal)
  }

  /** The chain of tests of helper_fclass_s on the narrowed operand. */
  function FClass32(f: bv32): (r: bv64)
    ensures OneHot10(r)
  {
    var sign := IsNeg32(f);
    if IsInfinity32(f) then (if sign then 1 << 0 else 1 << 7)
    else if IsZero32(f) then (if sign then 1 << 3 else 1 << 4)
    else if IsZeroOrDenormal32(f) then (if sign then 1 << 2 else 1 << 5)
    else if IsAnyNan32(f) then (if IsQuietNan32(f) then 1 << 9 else 1 << 8)
    else (if sign then 1 << 1 else 1 << 6)
  }

  /** helper_fclass_s: `float32 f = frs1` keeps the low 32 bits of the register.
      The result is total and one-hot. */
  function FClassS(frs1: bv64): (r: bv64)
    ensures OneHot10(r)
  {
    FClass32(Low32(frs1))
  }

  /** The helper's ordered chain of tests agrees with the field-by-field
      classification on every binary32 pattern. */
  lemma FClass32Category(f: bv32)
    ensures FClass32(f) == 1 << Index(Category32(f))
  {
    Predicates32(f);
  }

  /** Each softfloat predicate of the chain, stated on the binary32 fields. */
  lemma Predicates32(f: bv32)
    ensures IsNeg32(f) <==> f >> 31 == 1
    ensures IsInfinity32(f) <==> Exponent32(f) == 0xFF && Fraction32(f) == 0
    ensures IsZero32(f) <==> Exponent32(f) == 0 && Fraction32(f) == 0
    ensures IsZeroOrDenormal32(f) <==> Exponent32(f) == 0
    ensures IsAnyNan32(f) <==> Exponent32(f) == 0xFF && Fraction32(f) != 0
    ensures IsQuietNan32(f) <==> Exponent32(f) == 0xFF && Fraction32(f) & QuietBit32 != 0
  {
    NegField32(f);
    InfinityField32(f);
    ZeroField32(f);
    ZeroOrDenormalField32(f);
    AnyNanField32(f);
    QuietNanField32(f);
  }

  lemma NegField32(f: bv32) ensures IsNeg32(f) <==> f >> 31 == 1 {}
  lemma InfinityField32(f: bv32)
    ensures IsInfinity32(f) <==> Exponent32(f) == 0xFF && Fraction32(f) == 0 {}
  lemma ZeroField32(f: bv32)
    ensures IsZero32(f) <==> Exponent32(f) == 0 && Fraction32(f) == 0 {}
  lemma ZeroOrDenormalField32(f: bv32)
    ensures IsZeroOrDenormal32(f) <==> Exponent32(f) == 0 {}
  lemma AnyNanField32(f: bv32)
    ensures IsAnyNan32(f) <==> Exponent32(f) == 0xFF && Fraction32(f) != 0 {}
  lemma QuietNanField32(f: bv32)
    ensures IsQuietNan32(f) <==> Exponent32(f) == 0xFF && Fraction32(f) & QuietBit32 != 0 {}

  /** Flipping the sign moves a non-NaN binary32 from bit k to bit 7 - k and
      leaves a NaN's bit alone. */
  lemma Category32FlipSign(f: bv32)
    ensures Category32(FlipSign32(f)) == Mirror(Category32(f))
  {
    ExponentFlipSign32(f);
    FractionFlipSign32(f);
    NegativeFlipSign32(f);
  }

  /* Negation touches neither the exponent nor the fraction. */
  lemma ExponentFlipSign32(f: bv32) ensures Exponent32(FlipSign32(f)) == Exponent32(f) {}
  lemma FractionFlipSign32(f: bv32) ensures Fraction32(FlipSign32(f)) == Fraction32(f) {}
  lemma NegativeFlipSign32(f: bv32) ensures FlipSign32(f) >> 31 == 1 <==> f >> 31 != 1 {}

  /** FCLASS.S of the register with bit 31 flipped (the operand the sign-injecting
      and negating instructions produce): a non-NaN result moves from bit k to
      bit 7 - k, and a NaN result (bit 8 or 9) stays where it is. */
  lemma FClassSFlipSign(frs1: bv64, k: nat)
    requires k < 10 && FClassS(frs1) == 1 << k
    ensures k < 8 ==> FClassS(frs1 ^ (SignBit32 as bv64)) == 1 << (7 - k)
    ensures k >= 8 ==> FClassS(frs1 ^ (SignBit32 as bv64)) == FClassS(frs1)
  {
    var f := Low32(frs1);
    FClass32Category(f);
    FlipBeforeNarrowing(frs1);
    FClass32Category(FlipSign32(f));
    Category32FlipSign(f);
    MirrorBit(Category32(f), k);
  }

  /** If category `c` is reported at bit k, its mirror is reported at bit
      7 - k, unless `c` is a NaN category (bits 8 and 9), which is its own
      mirror. */
  lemma MirrorBit(c: Category, k: nat)
    requires k < 10 && (1 as bv64) << Index(c) == (1 as bv64) << k
    ensures k < 8 ==> (1 as bv64) << Index(Mirror(c)) == (1 as bv64) << (7 - k)
    ensures k >= 8 ==> Mirror(c) == c
  {
    ShiftInjective(k, Index(c));
  }

  /** Distinct bits below bit 10 are distinct values. */
  lemma ShiftInjective(j: nat, k: nat)
    requires j < 10 && k < 10 && (1 as bv64) << j == (1 as bv64) << k
    ensures j == k
  {
  }

  /** A NaN's FCLASS.S bit ignores the sign and depends on bit 22 only. */
  lemma FClassSNaN(frs1: bv64)
    requires IsAnyNan32(Low32(frs1))
    ensures FClassS(frs1) == if frs1 & 0x40_0000 != 0 then 1 << 9 else 1 << 8
  {
  }

  /* ---------------- binary64 ---------------- */

  /* The same predicates on the binary64 layout (sign bit 63, exponent bits
     62..52, fraction bits 51..0, quiet bit 51). */
  predicate IsNeg64(f: bv64) { f & SignBit64 != 0 }
  predicate IsInfinity64(f: bv64) { f & 0x7FFF_FFFF_FFFF_FFFF == 0x7FF0_0000_0000_0000 }
  predicate IsZero64(f: bv64) { f & 0x7FFF_FFFF_FFFF_FFFF == 0 }
  predicate IsZeroOrDenormal64(f: bv64) { f & 0x7FF0_0000_0000_0000 == 0 }
  predicate IsAnyNan64(f: bv64) { f & 0x7FFF_FFFF_FFFF_FFFF > 0x7FF0_0000_0000_0000 }
  predicate IsQuietNan64(f: bv64) { f << 1 >= 0xFFF0_0000_0000_0000 }

  /* The fields of a binary64 pattern. */
  function Exponent64(f: bv64): (e: bv64) { (f >> 52) & 0x7FF }
  function Fraction64(f: bv64): (m: bv64) { f & 0xF_FFFF_FFFF_FFFF }
  const QuietBit64: bv64 := 0x8_0000_0000_0000

  /** The field-by-field classification of a binary64 pattern. */
  function Category64(f: bv64): (c: Category) {
    var negative := f >> 63 == 1;
    if Exponent64(f) == 0x7FF then
      if Fraction64(f) == 0 then (if negative then NegInfinity else PosInfinity)
      else if Fraction64(f) & QuietBit64 != 0 then QuietNaN
      else SignalingNaN
    else if Exponent64(f) == 0 then
      if Fraction64(f) == 0 then (if negative then NegZero else PosZero)
      else (if negative then NegSubnormal else PosSubnormal)
    else (if negative then NegNormal else PosNormal)
  }

  /** helper_fclass_d: the chain of tests on the whole register. */
  function FClassD(frs1: bv64): (r: bv64)
    ensures OneHot10(r)
  {
    var f := frs1;
    var sign := IsNeg64(f);
    if IsInfinity64(f) then (if sign then 1 << 0 else 1 << 7)
    else if IsZero64(f) then (if sign then 1 << 3 else 1 << 4)
    else if IsZeroOrDenormal64(f) then (if sign then 1 << 2 else 1 << 5)
    else if IsAnyNan64(f) then (if IsQuietNan64(f) then 1 << 9 else 1 << 8)
    else (if sign then 1 << 1 else 1 << 6)
  }

  /** The chain of tests agrees with the field-by-field classification on every
      binary64 pattern. */
  lemma FClassDCategory(f: bv64)
    ensures FClassD(f) == 1 << Index(Category64(f))
  {
    Predicates64(f);
  }

  /** Each softfloat predicate of the chain, stated on the binary64 fields. */
  lemma Predicates64(f: bv64)
    ensures IsNeg64(f) <==> f >> 63 == 1
    ensures IsInfinity64(f) <==> Exponent64(f) == 0x7FF && Fraction64(f) == 0
    ensures IsZero64(f) <==> Exponent64(f) == 0 && Fraction64(f) == 0
    ensures IsZeroOrDenormal64(f) <==> Exponent64(f) == 0
    ensures IsAnyNan64(f) <==> Exponent64(f) == 0x7FF && Fraction64(f) != 0
    ensures IsQuietNan64(f) <==> Exponent64(f) == 0x7FF && Fraction64(f) & QuietBit64 != 0
  {
    NegField64(f);
    InfinityField64(f);
    ZeroField64(f);
    ZeroOrDenormalField64(f);
    AnyNanField64(f);
    QuietNanField64(f);
  }

  lemma NegField64(f: bv64) ensures IsNeg64(f) <==> f >> 63 == 1 {}
  lemma InfinityField64(f: bv64)
    ensures IsInfinity64(f) <==> Exponent64(f) == 0x7FF && Fraction64(f) == 0 {}
  lemma ZeroField64(f: bv64)
    ensures IsZero64(f) <==> Exponent64(f) == 0 && Fraction64(f) == 0 {}
  lemma ZeroOrDenormalField64(f: bv64)
    ensures IsZeroOrDenormal64(f) <==> Exponent64(f) == 0 {}
  lemma AnyNanField64(f: bv64)
    ensures IsAnyNan64(f) <==> Exponent64(f) == 0x7FF && Fraction64(f) != 0 {}
  lemma QuietNanField64(f: bv64)
    ensures IsQuietNan64(f) <==> Exponent64(f) == 0x7FF && Fraction64(f) & QuietBit64 != 0 {}

  /** Flipping the sign moves a non-NaN binary64 from bit k to bit 7 - k and
      leaves a NaN's bit alone. */
  lemma Category64FlipSign(f: bv64)
    ensures Category64(FlipSign64(f)) == Mirror(Category64(f))
  {
    ExponentFlipSign64(f);
    FractionFlipSign64(f);
    NegativeFlipSign64(f);
  }

  /* Negation touches neither the exponent nor the fraction. */
  lemma ExponentFlipSign64(f: bv64) ensures Exponent64(FlipSign64(f)) == Exponent64(f) {}
  lemma FractionFlipSign64(f: bv64) ensures Fraction64(FlipSign64(f)) == Fraction64(f) {}
  lemma NegativeFlipSign64(f: bv64) ensures FlipSign64(f) >> 63 == 1 <==> f >> 63 != 1 {}

  /** FCLASS.D of the register with bit 63 flipped: a non-NaN result moves from
      bit k to bit 7 - k, and a NaN result stays where it is. */
  lemma FClassDFlipSign(f: bv64, k: nat)
    requires k < 10 && FClassD(f) == 1 << k
    ensures k < 8 ==> FClassD(FlipSign64(f)) == 1 << (7 - k)
    ensures k >= 8 ==> FClassD(FlipSign64(f)) == FClassD(f)
  {
    FClassDCategory(f);
    FClassDCategory(FlipSign64(f));
    Category64FlipSign(f);
    MirrorBit(Category64(f), k);
  }

  /** A NaN's FCLASS.D bit ignores the sign and depends on bit 51 only. */
  lemma FClassDNaN(f: bv64)
    requires IsAnyNan64(f)
    ensures FClassD(f) == if f & 0x8_0000_0000_0000 != 0 then 1 << 9 else 1 << 8
  {
  }
}
