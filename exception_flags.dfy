/** Translation of softfloat exception flags into the RISC-V `fflags` encoding
    and their sticky accumulation (fpu_helper.c, softfloat_flags_to_riscv). */
module ExceptionFlags {
  import opened SoftFloat

  /* The accrued-exception bits of the RISC-V `fflags` CSR
     (section 11.2 of the RISC-V Unprivileged ISA). */
  const NX: bv32 := 1   // inexact
  const UF: bv32 := 2   // underflow
  const OF: bv32 := 4   // overflow
  const DZ: bv32 := 8   // divide by zero
  const NV: bv32 := 16  // invalid operation
  const AllFflags: bv32 := 31

  /** The softfloat flag bits that have a RISC-V counterpart. */
  const TranslatedLibFlags: bv32 :=
    FlagInexact | FlagUnderflow | FlagOverflow | FlagDivByZero | FlagInvalid

  /** softfloat_flags_to_riscv: each RISC-V bit is set exactly when its softfloat
      counterpart is, and nothing outside NX|UF|OF|DZ|NV is ever set. Written
      as one mask-and-shift per flag, which is the source's chain of
      conditionals (see FlagsToRiscvConditional). */
  function FlagsToRiscv(flags: bv32): (r: bv32)
    ensures (r & NX != 0) <==> (flags & FlagInexact != 0)
    ensures (r & UF != 0) <==> (flags & FlagUnderflow != 0)
    ensures (r & OF != 0) <==> (flags & FlagOverflow != 0)
    ensures (r & DZ != 0) <==> (flags & FlagDivByZero != 0)
    ensures (r & NV != 0) <==> (flags & FlagInvalid != 0)
    ensures r & !AllFflags == 0
    ensures r == 0 <==> flags & TranslatedLibFlags == 0
  {
    ((flags >> 5) & NX)     // float_flag_inexact (bit 5) to NX (bit 0)
    | ((flags >> 3) & UF)   // float_flag_underflow (bit 4) to UF (bit 1)
    | ((flags >> 1) & OF)   // float_flag_overflow (bit 3) to OF (bit 2)
    | ((flags << 1) & DZ)   // float_flag_divbyzero (bit 2) to DZ (bit 3)
    | ((flags << 4) & NV)   // float_flag_invalid (bit 0) to NV (bit 4)
  }

  /** The translation as the source writes it: one conditional per softfloat
      flag, OR-ed together. */
  lemma FlagsToRiscvConditional(flags: bv32)
    ensures FlagsToRiscv(flags) ==
      (if flags & FlagInexact != 0 then NX else 0)
      | (if flags & FlagUnderflow != 0 then UF else 0)
      | (if flags & FlagOverflow != 0 then OF else 0)
      | (if flags & FlagDivByZero != 0 then DZ else 0)
      | (if flags & FlagInvalid != 0 then NV else 0)
  {
    InexactTerm(flags);
    UnderflowTerm(flags);
    OverflowTerm(flags);
    DivByZeroTerm(flags);
    InvalidTerm(flags);
  }

  /* Each mask-and-shift term is the corresponding conditional. */
  lemma InexactTerm(flags: bv32)
    ensures (flags >> 5) & NX == if flags & FlagInexact != 0 then NX else 0 {}
  lemma UnderflowTerm(flags: bv32)
    ensures (flags >> 3) & UF == if flags & FlagUnderflow != 0 then UF else 0 {}
  lemma OverflowTerm(flags: bv32)
    ensures (flags >> 1) & OF == if flags & FlagOverflow != 0 then OF else 0 {}
  lemma DivByZeroTerm(flags: bv32)
    ensures (flags << 1) & DZ == if flags & FlagDivByZero != 0 then DZ else 0 {}
  lemma InvalidTerm(flags: bv32)
    ensures (flags << 4) & NV == if flags & FlagInvalid != 0 then NV else 0 {}

  /** No library flag means no RISC-V flag. */
  lemma FlagsToRiscvZero()
    ensures FlagsToRiscv(0) == 0
  {
  }

  /** The translation distributes over bitwise OR, so translating the flags of
      several operations at once equals OR-ing their separate translations. */
  lemma FlagsToRiscvOr(a: bv32, b: bv32)
    ensures FlagsToRiscv(a | b) == FlagsToRiscv(a) | FlagsToRiscv(b)
  {
  }
}
