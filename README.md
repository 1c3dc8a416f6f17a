# RISC-V FPU helpers

A model of the floating-point helpers of QEMU's RISC-V target
(`target/riscv/fpu_helper.c`): the run-time routines that the translated code
calls for every F and D extension instruction. Every arithmetic, comparison
and conversion helper calls one softfloat primitive with the rounding mode
installed in the CPU's `fp_status`. The library records the exceptions it
raised there. Then `set_fp_exceptions` moves them, translated to the RISC-V
encoding, into the sticky `fflags` CSR. Finally the helper returns the result
bit pattern in a 64-bit register. `fcvt.s.d` and `fcvt.d.s` also pass that
result through softfloat's `maybe_silence_nan`, after `set_fp_exceptions`.
`helper_set_rounding_mode` resolves an instruction's `rm` field (7 meaning
the dynamic `frm` CSR) and installs the mode, or raises an illegal-instruction
trap. `fclass.s`/`fclass.d` classify a bit pattern into a one-hot 10-bit mask
and touch no state.

Modules, following the structure of the source file:

- `SoftFloat` (softfloat.dfy): the library interface. Every primitive is a
  field of the `Library` datatype, which is passed as a parameter, so every
  property holds for any library.
- `ExceptionFlags` (exception_flags.dfy): `softfloat_flags_to_riscv`.
- `Rounding` (rounding.dfy): `helper_set_rounding_mode`'s resolver.
- `Bits` (bits.dfy): the C conversions between 64-bit registers and 32-bit
  values: truncation, zero and sign extension, and the sign-bit XOR.
- `FClass` (fclass.dfy): `helper_fclass_s` and `helper_fclass_d`, with an
  independent field-by-field IEEE 754 classification to compare against.
- `FpState` (fp_state.dfy): `frm`, `fflags` and `fp_status` as a value, with
  `set_fp_exceptions` and the effect of a helper call on them, and the
  accrual of flags over any sequence of calls.
- `HelperOps` (helper_ops.dfy): the results of the helpers whose result is
  more than the library's: the fused multiply-add sign variants, the
  comparisons and the conversions involving 32-bit integers.
- `FpuHelper` (fpu_helper.dfy): class `Cpu` with the fields `frm`,
  `fflags` and `fp_status`, and one method per helper. Each method updates
  the fields in place, as the C code updates `CPURISCVState`.

XLEN is 64: `target_ulong` is 64 bits and the `TARGET_RISCV64` helpers
(`fcvt.l.s`, `fcvt.s.l`, ...) are included.

The rounding mode is not an argument of the helpers.
`helper_set_rounding_mode` installs it in `fp_status` (fpu_helper.c:76),
where it stays until the next call. `Cpu.SetRoundingMode` therefore changes
that field, and the helper methods read it.

## Model

| member | source | states |
|---|---|---|
| `ExceptionFlags.FlagsToRiscv` | target/riscv/fpu_helper.c:29-38 | each fflags bit (NX, UF, OF, DZ, NV) is set iff its softfloat flag (inexact, underflow, overflow, divbyzero, invalid) is; no bit outside the five is ever set; the result is 0 iff no translated flag is present |
| `ExceptionFlags.FlagsToRiscvConditional` | target/riscv/fpu_helper.c:31-37 | the mask-and-shift translation equals the source's OR of five conditionals |
| `ExceptionFlags.FlagsToRiscvZero` | target/riscv/fpu_helper.c:29-38 | no library flag translates to no fflags bit |
| `ExceptionFlags.FlagsToRiscvOr` | target/riscv/fpu_helper.c:29-38 | the translation distributes over OR |
| `Rounding.Encoding` | target/riscv/fpu_helper.c:56-71 | the ISA encoding of each rounding mode lies in 0..4 |
| `Rounding.Resolve` | target/riscv/fpu_helper.c:49-77 | a mode is installed iff the effective value (frm when rm is 7, rm otherwise) is in 0..4, and the installed mode is the one the ISA encodes by that value; anything else is the illegal-instruction trap |
| `Rounding.ResolveStatic` | target/riscv/fpu_helper.c:56-71 | rm 0..4 installs nearest-even, to-zero, down, up, ties-away, whatever frm holds |
| `Rounding.ResolveDynamic` | target/riscv/fpu_helper.c:53-55 | rm 7 resolves exactly as if the instruction had encoded frm |
| `Rounding.ResolveReserved` | target/riscv/fpu_helper.c:72-74 | rm 5 or 6, or rm 7 with frm 5..7, traps with IllegalInstruction |
| `Bits.Low32` | target/riscv/fpu_helper.c:251 | narrowing a register to float32/int32_t/uint32_t keeps exactly its low 32 bits |
| `Bits.ZeroExtend32` | target/riscv/fpu_helper.c:151-153 | a float32 returned in a uint64_t keeps its bits in the low half and clears the upper half |
| `Bits.SignExtend32` | target/riscv/fpu_helper.c:384 | an int32_t widened to 64 bits keeps its value in the low half |
| `Bits.SignExtendUpper` | target/riscv/fpu_helper.c:384 | the upper half of a widened int32_t is all copies of bit 31 |
| `Bits.SignExtendLow32` | target/riscv/fpu_helper.c:382-387 | a register is a sign-extended word iff sign-extending its low half gives it back |
| `Bits.FlipSign32` | target/riscv/fpu_helper.c:98 | XOR with INT32_MIN changes bit 31 and no other bit |
| `Bits.FlipSign64` | target/riscv/fpu_helper.c:107 | XOR with INT64_MIN changes bit 63 and no other bit |
| `Bits.FlipSignInvolutive` | target/riscv/fpu_helper.c:95-147 | flipping a sign twice gives the operand back |
| `Bits.FlipBeforeNarrowing` | target/riscv/fpu_helper.c:98 | XOR-ing the 64-bit register with (uint32_t)INT32_MIN and then narrowing is the same as flipping the sign of the narrowed float32 |
| `FClass.Index` | target/riscv/fpu_helper.c:284-295 | each class reports one of the bits 0..9 |
| `FClass.Mirror` | target/riscv/fpu_helper.c:282-295 | negation maps a non-NaN class at bit k to bit 7 - k and keeps NaN classes |
| `FClass.FClass32` | target/riscv/fpu_helper.c:279-296 | the chain of tests returns a one-hot value with its bit in 0..9 |
| `FClass.FClassS` | target/riscv/fpu_helper.c:279-296 | fclass.s of any register is one-hot, bit 9 at most |
| `FClass.FClass32Category` | target/riscv/fpu_helper.c:279-296 | the ordered chain agrees with the field-by-field IEEE 754 classification of every binary32 pattern |
| `FClass.Predicates32` | target/riscv/fpu_helper.c:282-292 | the softfloat predicates read as conditions on sign, exponent and fraction fields |
| `FClass.Category32FlipSign` | target/riscv/fpu_helper.c:282 | flipping the sign of a binary32 mirrors its class |
| `FClass.FClassSFlipSign` | target/riscv/fpu_helper.c:279-296 | fclass.s of the register with bit 31 flipped moves bit k < 8 to bit 7 - k and keeps bits 8 and 9 |
| `FClass.FClassSNaN` | target/riscv/fpu_helper.c:290-292 | a NaN is reported as bit 9 iff its quiet bit 22 is set, otherwise bit 8, whatever its sign |
| `FClass.FClassD` | target/riscv/fpu_helper.c:444-461 | fclass.d of any register is one-hot, bit 9 at most |
| `FClass.FClassDCategory` | target/riscv/fpu_helper.c:444-461 | the ordered chain agrees with the field-by-field classification of every binary64 pattern |
| `FClass.Predicates64` | target/riscv/fpu_helper.c:447-457 | the binary64 softfloat predicates as conditions on the fields |
| `FClass.Category64FlipSign` | target/riscv/fpu_helper.c:447 | flipping the sign of a binary64 mirrors its class |
| `FClass.FClassDFlipSign` | target/riscv/fpu_helper.c:444-461 | fclass.d of the negated register moves bit k < 8 to bit 7 - k and keeps bits 8 and 9 |
| `FClass.FClassDNaN` | target/riscv/fpu_helper.c:455-457 | a binary64 NaN is bit 9 iff its quiet bit 51 is set, otherwise bit 8 |
| `FpState.State.Raise` | target/riscv/fpu_helper.c:82 | the library's flag recording during a primitive call touches neither frm, fflags nor the rounding mode |
| `FpState.RaiseRecords` | target/riscv/fpu_helper.c:82 | the raised flags are recorded and no pending flag is forgotten |
| `FpState.State.SetFpExceptions` | target/riscv/fpu_helper.c:40-47 | afterwards the library flags are 0 and fflags is the old fflags OR the translation of the pending flags; frm and the rounding mode are unchanged |
| `FpState.SetFpExceptionsNoFlags` | target/riscv/fpu_helper.c:42-43 | with no pending flag set_fp_exceptions changes nothing |
| `FpState.SetFpExceptionsSticky` | target/riscv/fpu_helper.c:45 | set_fp_exceptions never clears an fflags bit |
| `FpState.SetFpExceptionsIdempotent` | target/riscv/fpu_helper.c:40-47 | a second set_fp_exceptions right after the first has no effect |
| `FpState.State.AfterCall` | target/riscv/fpu_helper.c:149-154 | one helper call (library call then set_fp_exceptions) leaves no flag pending and ORs the translation of everything pending or raised into fflags |
| `FpState.AfterCallFflags` | target/riscv/fpu_helper.c:40-47 | with nothing pending, one call adds exactly the translation of what it raised |
| `FpState.AfterCallsTranslate` | target/riscv/fpu_helper.c:40-47 | a sequence of calls adds the OR of their separate translations to fflags |
| `FpState.TranslateAllOr` | target/riscv/fpu_helper.c:29-38 | OR-ing separate translations equals translating the OR of the raised flags |
| `FpState.AfterCallsAccrue` | target/riscv/fpu_helper.c:40-47 | after any sequence of calls fflags is the old fflags OR the translation of the OR of all flags raised |
| `FpState.AfterCallsKeep` | target/riscv/fpu_helper.c:40-47 | helper calls never change frm or the installed rounding mode and leave no library flag pending |
| `FpState.AfterCallsSticky` | target/riscv/fpu_helper.c:45 | no sequence of helper calls clears an fflags bit |
| `FpState.AfterCallWithinMask` | target/riscv/fpu_helper.c:45 | if fflags holds only the five exception bits, it still does after a call |
| `HelperOps.FmaddS` | target/riscv/fpu_helper.c:79-85 | the low half of the result is muladd32 of the three low words with a zero negation-flags argument, the upper half is clear, and the flags are muladd's |
| `HelperOps.FmsubS` | target/riscv/fpu_helper.c:95-102 | muladd receives the addend with only its sign flipped, the factors unchanged and a zero negation-flags argument |
| `HelperOps.FnmsubS` | target/riscv/fpu_helper.c:113-120 | muladd receives the first factor with only its sign flipped and a zero negation-flags argument |
| `HelperOps.FnmaddS` | target/riscv/fpu_helper.c:131-138 | muladd receives the first factor and the addend with their signs flipped and a zero negation-flags argument |
| `HelperOps.FmaddD` | target/riscv/fpu_helper.c:87-93 | the result and flags are muladd64 of the three whole registers, unmodified, with a zero negation-flags argument |
| `HelperOps.FmsubD` | target/riscv/fpu_helper.c:104-111 | fmsub.d is fmadd.d of the addend with its sign flipped |
| `HelperOps.FnmsubD` | target/riscv/fpu_helper.c:122-129 | fnmsub.d is fmadd.d of the first factor with its sign flipped |
| `HelperOps.FnmaddD` | target/riscv/fpu_helper.c:140-147 | fnmadd.d is fmadd.d with the first factor and the addend negated |
| `HelperOps.FmaSignVariantsS` | target/riscv/fpu_helper.c:79-138 | negating the addend of fmsub.s or the first factor of fnmsub.s gives fmadd.s back; fnmadd.s is fnmsub.s with the addend negated and fmadd.s with both negated |
| `HelperOps.FmaSignVariantsD` | target/riscv/fpu_helper.c:87-147 | negating the addend of fmsub.d or the first factor of fnmsub.d gives fmadd.d back; fnmadd.d is fnmsub.d with the addend negated (fnmadd.d as fmadd.d with both negated is the contract of `FnmaddD`) |
| `HelperOps.FleS` | target/riscv/fpu_helper.c:198-203 | the result is 0 or 1, and 1 iff the library's relation holds; the flags are the comparison's |
| `HelperOps.FltS` | target/riscv/fpu_helper.c:205-210 | the result is 0 or 1, and 1 iff the library's relation holds; the flags are the comparison's |
| `HelperOps.FeqS` | target/riscv/fpu_helper.c:212-217 | the result is 0 or 1, and 1 iff the library's relation holds; the flags are the comparison's |
| `HelperOps.FleD` | target/riscv/fpu_helper.c:361-366 | the result is 0 or 1, and 1 iff the library's relation holds; the flags are the comparison's |
| `HelperOps.FltD` | target/riscv/fpu_helper.c:368-373 | the result is 0 or 1, and 1 iff the library's relation holds; the flags are the comparison's |
| `HelperOps.FeqD` | target/riscv/fpu_helper.c:375-380 | the result is 0 or 1, and 1 iff the library's relation holds; the flags are the comparison's |
| `HelperOps.FcvtWS` | target/riscv/fpu_helper.c:219-224 | the result is sign-extended and its low half is the library's int32; the flags are the conversion's |
| `HelperOps.FcvtWuS` | target/riscv/fpu_helper.c:226-231 | the uint32 result is sign-extended too (bit 31 copied into bits 63..32), its low half being the library's uint32; the flags are the conversion's |
| `HelperOps.FcvtWD` | target/riscv/fpu_helper.c:382-387 | the result is sign-extended and its low half is the library's int32; the flags are the conversion's |
| `HelperOps.FcvtWuD` | target/riscv/fpu_helper.c:389-394 | the uint32 result is sign-extended, its low half being the library's uint32; the flags are the conversion's |
| `HelperOps.FcvtSW` | target/riscv/fpu_helper.c:249-254 | the low half of the result is int32_to_float32 of the register's low word, the upper half is clear, and the flags are the conversion's |
| `HelperOps.FcvtSWu` | target/riscv/fpu_helper.c:256-261 | the low half of the result is uint32_to_float32 of the register's low word, the upper half is clear, and the flags are the conversion's |
| `HelperOps.FromWordLow32S` | target/riscv/fpu_helper.c:249-261 | fcvt.s.w and fcvt.s.wu give the same result and flags for two registers with the same low 32 bits |
| `HelperOps.FcvtDW` | target/riscv/fpu_helper.c:412-418 | the result and flags are int32_to_float64 of the register's low word |
| `HelperOps.FcvtDWu` | target/riscv/fpu_helper.c:420-426 | the result and flags are uint32_to_float64 of the register's low word |
| `HelperOps.FromWordLow32D` | target/riscv/fpu_helper.c:412-426 | fcvt.d.w and fcvt.d.wu give the same result and flags for two registers with the same low 32 bits |
| `HelperOps.SingleIgnoresUpperHalf` | target/riscv/fpu_helper.c:79-231 | the upper half of an operand register never affects the binary32 fused multiply-adds, comparisons or conversions to words |
| `HelperOps.FcvtSD` | target/riscv/fpu_helper.c:340-345 | the narrowed result is NaN-silenced after set_fp_exceptions, so the flags are those of the narrowing only, and is returned with the upper half clear |
| `HelperOps.FcvtDS` | target/riscv/fpu_helper.c:347-352 | the widened result is NaN-silenced; the flags are those of the widening |
| `FpuHelper.Cpu.SetFpExceptions` | target/riscv/fpu_helper.c:40-47 | the fields change as FpState.State.SetFpExceptions says |
| `FpuHelper.Cpu.SetRoundingMode` | target/riscv/fpu_helper.c:49-77 | returns Resolve(rm, frm); on success only the rounding mode of fp_status changes, to the resolved mode; on a trap nothing changes |
| `FpuHelper.Cpu.FmaddS` | target/riscv/fpu_helper.c:79-85 | returns the result of HelperOps.FmaddS, with the rounding mode installed in fp_status; fflags gains the translation of the flags raised, no flag stays pending, frm and the rounding mode are unchanged |
| `FpuHelper.Cpu.FmaddD` | target/riscv/fpu_helper.c:87-93 | returns the result of HelperOps.FmaddD, with the rounding mode installed in fp_status; fflags gains the translation of the flags raised, no flag stays pending, frm and the rounding mode are unchanged |
| `FpuHelper.Cpu.FmsubS` | target/riscv/fpu_helper.c:95-102 | returns the result of HelperOps.FmsubS, with the rounding mode installed in fp_status; fflags gains the translation of the flags raised, no flag stays pending, frm and the rounding mode are unchanged |
| `FpuHelper.Cpu.FmsubD` | target/riscv/fpu_helper.c:104-111 | returns the result of HelperOps.FmsubD, with the rounding mode installed in fp_status; fflags gains the translation of the flags raised, no flag stays pending, frm and the rounding mode are unchanged |
| `FpuHelper.Cpu.FnmsubS` | target/riscv/fpu_helper.c:113-120 | returns the result of HelperOps.FnmsubS, with the rounding mode installed in fp_status; fflags gains the translation of the flags raised, no flag stays pending, frm and the rounding mode are unchanged |
| `FpuHelper.Cpu.FnmsubD` | target/riscv/fpu_helper.c:122-129 | returns the result of HelperOps.FnmsubD, with the rounding mode installed in fp_status; fflags gains the translation of the flags raised, no flag stays pending, frm and the rounding mode are unchanged |
| `FpuHelper.Cpu.FnmaddS` | target/riscv/fpu_helper.c:131-138 | returns the result of HelperOps.FnmaddS, with the rounding mode installed in fp_status; fflags gains the translation of the flags raised, no flag stays pending, frm and the rounding mode are unchanged |
| `FpuHelper.Cpu.FnmaddD` | target/riscv/fpu_helper.c:140-147 | returns the result of HelperOps.FnmaddD, with the rounding mode installed in fp_status; fflags gains the translation of the flags raised, no flag stays pending, frm and the rounding mode are unchanged |
| `FpuHelper.Cpu.FaddS` | target/riscv/fpu_helper.c:149-154 | returns the library's binary32 result on the low halves of the operands, zero-extended; fflags gains the translation of the flags raised, no flag stays pending, frm and the rounding mode are unchanged |
| `FpuHelper.Cpu.FsubS` | target/riscv/fpu_helper.c:156-161 | returns the library's binary32 result on the low halves of the operands, zero-extended; fflags gains the translation of the flags raised, no flag stays pending, frm and the rounding mode are unchanged |
| `FpuHelper.Cpu.FmulS` | target/riscv/fpu_helper.c:163-168 | returns the library's binary32 result on the low halves of the operands, zero-extended; fflags gains the translation of the flags raised, no flag stays pending, frm and the rounding mode are unchanged |
| `FpuHelper.Cpu.FdivS` | target/riscv/fpu_helper.c:170-175 | returns the library's binary32 result on the low halves of the operands, zero-extended; fflags gains the translation of the flags raised, no flag stays pending, frm and the rounding mode are unchanged |
| `FpuHelper.Cpu.FminS` | target/riscv/fpu_helper.c:177-182 | returns the library's binary32 result on the low halves of the operands, zero-extended; fflags gains the translation of the flags raised, no flag stays pending, frm and the rounding mode are unchanged |
| `FpuHelper.Cpu.FmaxS` | target/riscv/fpu_helper.c:184-189 | returns the library's binary32 result on the low halves of the operands, zero-extended; fflags gains the translation of the flags raised, no flag stays pending, frm and the rounding mode are unchanged |
| `FpuHelper.Cpu.FsqrtS` | target/riscv/fpu_helper.c:191-196 | returns the library's binary32 square root of the low half of the operand, zero-extended; fflags gains the translation of the flags raised, no flag stays pending, frm and the rounding mode are unchanged |
| `FpuHelper.Cpu.FleS` | target/riscv/fpu_helper.c:198-203 | returns the result of HelperOps.FleS, with the rounding mode installed in fp_status; fflags gains the translation of the flags raised, no flag stays pending, frm and the rounding mode are unchanged |
| `FpuHelper.Cpu.FltS` | target/riscv/fpu_helper.c:205-210 | returns the result of HelperOps.FltS, with the rounding mode installed in fp_status; fflags gains the translation of the flags raised, no flag stays pending, frm and the rounding mode are unchanged |
| `FpuHelper.Cpu.FeqS` | target/riscv/fpu_helper.c:212-217 | returns the result of HelperOps.FeqS, with the rounding mode installed in fp_status; fflags gains the translation of the flags raised, no flag stays pending, frm and the rounding mode are unchanged |
| `FpuHelper.Cpu.FcvtWS` | target/riscv/fpu_helper.c:219-224 | returns the result of HelperOps.FcvtWS, with the rounding mode installed in fp_status; fflags gains the translation of the flags raised, no flag stays pending, frm and the rounding mode are unchanged |
| `FpuHelper.Cpu.FcvtWuS` | target/riscv/fpu_helper.c:226-231 | returns the result of HelperOps.FcvtWuS, with the rounding mode installed in fp_status; fflags gains the translation of the flags raised, no flag stays pending, frm and the rounding mode are unchanged |
| `FpuHelper.Cpu.FcvtLS` | target/riscv/fpu_helper.c:234-239 | returns the library's int64 conversion of the binary32 in the low half; fflags gains the translation of the flags raised, no flag stays pending, frm and the rounding mode are unchanged |
| `FpuHelper.Cpu.FcvtLuS` | target/riscv/fpu_helper.c:241-246 | returns the library's uint64 conversion of the binary32 in the low half; fflags gains the translation of the flags raised, no flag stays pending, frm and the rounding mode are unchanged |
| `FpuHelper.Cpu.FcvtSW` | target/riscv/fpu_helper.c:249-254 | returns the result of HelperOps.FcvtSW, with the rounding mode installed in fp_status; fflags gains the translation of the flags raised, no flag stays pending, frm and the rounding mode are unchanged |
| `FpuHelper.Cpu.FcvtSWu` | target/riscv/fpu_helper.c:256-261 | returns the result of HelperOps.FcvtSWu, with the rounding mode installed in fp_status; fflags gains the translation of the flags raised, no flag stays pending, frm and the rounding mode are unchanged |
| `FpuHelper.Cpu.FcvtSL` | target/riscv/fpu_helper.c:264-269 | returns the library's binary32 conversion of the whole register, zero-extended; fflags gains the translation of the flags raised, no flag stays pending, frm and the rounding mode are unchanged |
| `FpuHelper.Cpu.FcvtSLu` | target/riscv/fpu_helper.c:271-276 | returns the library's binary32 conversion of the whole register, zero-extended; fflags gains the translation of the flags raised, no flag stays pending, frm and the rounding mode are unchanged |
| `FpuHelper.Cpu.FaddD` | target/riscv/fpu_helper.c:298-303 | returns the library's binary64 result on the whole registers; fflags gains the translation of the flags raised, no flag stays pending, frm and the rounding mode are unchanged |
| `FpuHelper.Cpu.FsubD` | target/riscv/fpu_helper.c:305-310 | returns the library's binary64 result on the whole registers; fflags gains the translation of the flags raised, no flag stays pending, frm and the rounding mode are unchanged |
| `FpuHelper.Cpu.FmulD` | target/riscv/fpu_helper.c:312-317 | returns the library's binary64 result on the whole registers; fflags gains the translation of the flags raised, no flag stays pending, frm and the rounding mode are unchanged |
| `FpuHelper.Cpu.FdivD` | target/riscv/fpu_helper.c:319-324 | returns the library's binary64 result on the whole registers; fflags gains the translation of the flags raised, no flag stays pending, frm and the rounding mode are unchanged |
| `FpuHelper.Cpu.FminD` | target/riscv/fpu_helper.c:326-331 | returns the library's binary64 result on the whole registers; fflags gains the translation of the flags raised, no flag stays pending, frm and the rounding mode are unchanged |
| `FpuHelper.Cpu.FmaxD` | target/riscv/fpu_helper.c:333-338 | returns the library's binary64 result on the whole registers; fflags gains the translation of the flags raised, no flag stays pending, frm and the rounding mode are unchanged |
| `FpuHelper.Cpu.FcvtSD` | target/riscv/fpu_helper.c:340-345 | returns the result of HelperOps.FcvtSD, with the rounding mode installed in fp_status; fflags gains the translation of the flags raised, no flag stays pending, frm and the rounding mode are unchanged |
| `FpuHelper.Cpu.FcvtDS` | target/riscv/fpu_helper.c:347-352 | returns the result of HelperOps.FcvtDS, with the rounding mode installed in fp_status; fflags gains the translation of the flags raised, no flag stays pending, frm and the rounding mode are unchanged |
| `FpuHelper.Cpu.FsqrtD` | target/riscv/fpu_helper.c:354-359 | returns the library's binary64 square root of the whole register; fflags gains the translation of the flags raised, no flag stays pending, frm and the rounding mode are unchanged |
| `FpuHelper.Cpu.FleD` | target/riscv/fpu_helper.c:361-366 | returns the result of HelperOps.FleD, with the rounding mode installed in fp_status; fflags gains the translation of the flags raised, no flag stays pending, frm and the rounding mode are unchanged |
| `FpuHelper.Cpu.FltD` | target/riscv/fpu_helper.c:368-373 | returns the result of HelperOps.FltD, with the rounding mode installed in fp_status; fflags gains the translation of the flags raised, no flag stays pending, frm and the rounding mode are unchanged |
| `FpuHelper.Cpu.FeqD` | target/riscv/fpu_helper.c:375-380 | returns the result of HelperOps.FeqD, with the rounding mode installed in fp_status; fflags gains the translation of the flags raised, no flag stays pending, frm and the rounding mode are unchanged |
| `FpuHelper.Cpu.FcvtWD` | target/riscv/fpu_helper.c:382-387 | returns the result of HelperOps.FcvtWD, with the rounding mode installed in fp_status; fflags gains the translation of the flags raised, no flag stays pending, frm and the rounding mode are unchanged |
| `FpuHelper.Cpu.FcvtWuD` | target/riscv/fpu_helper.c:389-394 | returns the result of HelperOps.FcvtWuD, with the rounding mode installed in fp_status; fflags gains the translation of the flags raised, no flag stays pending, frm and the rounding mode are unchanged |
| `FpuHelper.Cpu.FcvtLD` | target/riscv/fpu_helper.c:397-402 | returns the library's int64 conversion of the binary64 register; fflags gains the translation of the flags raised, no flag stays pending, frm and the rounding mode are unchanged |
| `FpuHelper.Cpu.FcvtLuD` | target/riscv/fpu_helper.c:404-409 | returns the library's uint64 conversion of the binary64 register; fflags gains the translation of the flags raised, no flag stays pending, frm and the rounding mode are unchanged |
| `FpuHelper.Cpu.FcvtDW` | target/riscv/fpu_helper.c:412-418 | returns the result of HelperOps.FcvtDW, with the rounding mode installed in fp_status; fflags gains the translation of the flags raised, no flag stays pending, frm and the rounding mode are unchanged |
| `FpuHelper.Cpu.FcvtDWu` | target/riscv/fpu_helper.c:420-426 | returns the result of HelperOps.FcvtDWu, with the rounding mode installed in fp_status; fflags gains the translation of the flags raised, no flag stays pending, frm and the rounding mode are unchanged |
| `FpuHelper.Cpu.FcvtDL` | target/riscv/fpu_helper.c:429-434 | returns the library's binary64 conversion of the register read as an int64; fflags gains the translation of the flags raised, no flag stays pending, frm and the rounding mode are unchanged |
| `FpuHelper.Cpu.FcvtDLu` | target/riscv/fpu_helper.c:436-441 | returns the library's binary64 conversion of the register read as a uint64; fflags gains the translation of the flags raised, no flag stays pending, frm and the rounding mode are unchanged |

## Left out

- Floating-point arithmetic itself (rounding, NaN propagation, the values of min/max, comparisons and conversions). It lives in softfloat, which is not part of this model. Every primitive is a field of the `Library` parameter that returns a value and the flags it raised.
- The exception flag bit values of softfloat (invalid 1, divbyzero 4, overflow 8, underflow 16, inexact 32) and the `fflags` bit values come from softfloat.h and cpu.h, which are not part of this model. They are written as constants.
- Delivery of the illegal-instruction trap: `do_raise_exception_err` does not return. `Cpu.SetRoundingMode` returns the `Trap` value with the state untouched.
- `float32_maybe_silence_nan`/`float64_maybe_silence_nan` are modelled as value-only functions of the library that raise no flag. This is consistent with `helper_fcvt_s_d` and `helper_fcvt_d_s` calling them after `set_fp_exceptions`.
- The softfloat comparison primitives return a C `int` used as a truth value; the model uses `bool`, and 1 for true, as the helpers' callers see it.
- `frm` and `fflags` are modelled as 32-bit fields. Their width in `CPURISCVState` is declared in cpu.h, which is not part of this model. The helpers only OR bits 0..4 into `fflags`, and any `frm` value outside 0..4 traps.
- The FP-unit-enabled check and `TARGET_RISCV64` conditional compilation are not modelled. The file has no such check, and the model fixes XLEN at 64.
- include/hw/riscv/sifive_test.h is not part of this model; it does not interact with the FPU helpers.

