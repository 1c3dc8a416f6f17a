/** The interface of the softfloat library as the RISC-V FPU helpers use it.

    The library itself (IEEE 754 arithmetic, comparisons, conversions) is not
    part of this model: every primitive is a field of the `Library` datatype, so
    each property proved about the helpers holds for ANY library behind them.
    A primitive sees the rounding mode installed in the shared `float_status`
    and returns its result together with the exception flags it raised; the
    library ORs those flags into `float_status` (its `float_raise`). */
module SoftFloat {

  /** The five rounding modes the helpers install, in the order of the
      `rm` encodings 0..4 of the RISC-V F extension (RNE, RTZ, RDN, RUP, RMM). */
  datatype RoundingMode = NearestEven | ToZero | Down | Up | TiesAway

  /* The library's exception flag bits (float_flag_*), as softfloat.h defines
     them. Only the facts that they are five distinct single bits are used. */
  const FlagInvalid: bv32 := 1
  const FlagDivByZero: bv32 := 4
  const FlagOverflow: bv32 := 8
  const FlagUnderflow: bv32 := 16
  const FlagInexact: bv32 := 32

  /** The part of softfloat's `float_status` that the helpers read or write:
      the rounding mode in force and the accumulated exception flags. */
  datatype FloatStatus = FloatStatus(roundingMode: RoundingMode, exceptionFlags: bv32)

  /** What a primitive returns: its value and the exception flags it raised. */
  datatype LibOut<T> = LibOut(value: T, raised: bv32)

  /** The softfloat primitives called by the helpers. Floating-point operands and
      results are raw IEEE 754 bit patterns (binary32 as bv32, binary64 as bv64);
      integer operands and results are the two's-complement or unsigned bit
      patterns of the C integer types (int32_t/uint32_t as bv32,
      int64_t/uint64_t as bv64). `muladd32`/`muladd64` take softfloat's
      negation-flags argument as their last parameter. */
  datatype Library = Library(
    muladd32: (RoundingMode, bv32, bv32, bv32, bv32) -> LibOut<bv32>,
    add32: (RoundingMode, bv32, bv32) -> LibOut<bv32>,
    sub32: (RoundingMode, bv32, bv32) -> LibOut<bv32>,
    mul32: (RoundingMode, bv32, bv32) -> LibOut<bv32>,
    div32: (RoundingMode, bv32, bv32) -> LibOut<bv32>,
    minnum32: (RoundingMode, bv32, bv32) -> LibOut<bv32>,
    maxnum32: (RoundingMode, bv32, bv32) -> LibOut<bv32>,
    sqrt32: (RoundingMode, bv32) -> LibOut<bv32>,
    le32: (RoundingMode, bv32, bv32) -> LibOut<bool>,
    lt32: (RoundingMode, bv32, bv32) -> LibOut<bool>,
    eqQuiet32: (RoundingMode, bv32, bv32) -> LibOut<bool>,
    float32ToInt32: (RoundingMode, bv32) -> LibOut<bv32>,
    float32ToUint32: (RoundingMode, bv32) -> LibOut<bv32>,
    float32ToInt64: (RoundingMode, bv32) -> LibOut<bv64>,
    float32ToUint64: (RoundingMode, bv32) -> LibOut<bv64>,
    int32ToFloat32: (RoundingMode, bv32) -> LibOut<bv32>,
    uint32ToFloat32: (RoundingMode, bv32) -> LibOut<bv32>,
    int64ToFloat32: (RoundingMode, bv64) -> LibOut<bv32>,
    uint64ToFloat32: (RoundingMode, bv64) -> LibOut<bv32>,
    muladd64: (RoundingMode, bv64, bv64, bv64, bv32) -> LibOut<bv64>,
    add64: (RoundingMode, bv64, bv64) -> LibOut<bv64>,
    sub64: (RoundingMode, bv64, bv64) -> LibOut<bv64>,
    mul64: (RoundingMode, bv64, bv64) -> LibOut<bv64>,
    div64: (RoundingMode, bv64, bv64) -> LibOut<bv64>,
    minnum64: (RoundingMode, bv64, bv64) -> LibOut<bv64>,
    maxnum64: (RoundingMode, bv64, bv64) -> LibOut<bv64>,
    sqrt64: (RoundingMode, bv64) -> LibOut<bv64>,
    le64: (RoundingMode, bv64, bv64) -> LibOut<bool>,
    lt64: (RoundingMode, bv64, bv64) -> LibOut<bool>,
    eqQuiet64: (RoundingMode, bv64, bv64) -> LibOut<bool>,
    float64ToInt32: (RoundingMode, bv64) -> LibOut<bv32>,
    float64ToUint32: (RoundingMode, bv64) -> LibOut<bv32>,
    float64ToInt64: (RoundingMode, bv64) -> LibOut<bv64>,
    float64ToUint64: (RoundingMode, bv64) -> LibOut<bv64>,
    int32ToFloat64: (RoundingMode, bv32) -> LibOut<bv64>,
    uint32ToFloat64: (RoundingMode, bv32) -> LibOut<bv64>,
    int64ToFloat64: (RoundingMode, bv64) -> LibOut<bv64>,
    uint64ToFloat64: (RoundingMode, bv64) -> LibOut<bv64>,
    float64ToFloat32: (RoundingMode, bv64) -> LibOut<bv32>,
    float32ToFloat64: (RoundingMode, bv32) -> LibOut<bv64>,
    maybeSilenceNan32: bv32 -> bv32,
    maybeSilenceNan64: bv64 -> bv64
  )
}
