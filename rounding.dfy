/** The rounding-mode resolver of helper_set_rounding_mode: the 3-bit `rm`
    field of an instruction, or the dynamic `frm` setting when `rm` is 7, mapped
    to a softfloat rounding mode (the rounding-mode table in section 11.2 of the
    RISC-V Unprivileged ISA). */
module Rounding {
  import opened SoftFloat

  /** The only fault the helpers raise: RISCV_EXCP_ILLEGAL_INST. */
  datatype Exception = IllegalInstruction

  datatype Resolved = Installed(mode: RoundingMode) | Trap(exception: Exception)

  /** The `rm` value meaning "use the dynamic rounding mode held in frm". */
  const DynamicRm: bv32 := 7

  /** The ISA's encoding of each rounding mode (RNE 000, RTZ 001, RDN 010,
      RUP 011, RMM 100); an independent statement of the table the resolver
      implements. */
  function Encoding(m: RoundingMode): (e: bv32)
    ensures e <= 4
  {
    match m
    case NearestEven => 0
    case ToZero => 1
    case Down => 2
    case Up => 3
    case TiesAway => 4
  }

  /** The value the switch of helper_set_rounding_mode looks at. */
  function EffectiveRm(rm: bv32, frm: bv32): (eff: bv32) {
    if rm == DynamicRm then frm else rm
  }

  /** helper_set_rounding_mode without its side effect: the mode it installs, or
      the illegal-instruction trap for any effective value outside 0..4. The
      resolver installs a mode exactly when the effective value is 0..4, and the
      mode installed is the one the ISA encodes by that value. */
  function Resolve(rm: bv32, frm: bv32): (r: Resolved)
    ensures r.Installed? <==> EffectiveRm(rm, frm) <= 4
    ensures r.Installed? ==> Encoding(r.mode) == EffectiveRm(rm, frm)
    ensures r.Trap? ==> r.exception == IllegalInstruction
  {
    var eff := EffectiveRm(rm, frm);
    if eff == 0 then Installed(NearestEven)
    else if eff == 1 then Installed(ToZero)
    else if eff == 2 then Installed(Down)
    else if eff == 3 then Installed(Up)
    else if eff == 4 then Installed(TiesAway)
    else Trap(IllegalInstruction)
  }

  /** For every static `rm` in 0..4 the resolver installs the mode the ISA
      assigns to it, whatever `frm` holds: nearest-even, to-zero, down, up and
      ties-away, in that order. */
  lemma ResolveStatic(m: RoundingMode, frm: bv32)
    ensures Resolve(Encoding(m), frm) == Installed(m)
  {
  }

  /** `rm == 7` behaves exactly as if the instruction had encoded `frm`. */
  lemma ResolveDynamic(frm: bv32)
    ensures Resolve(DynamicRm, frm) == Resolve(frm, frm)
  {
  }

  /** The reserved encodings 5 and 6, and a dynamic mode whose `frm` is 5, 6 or
      7, always trap. */
  lemma ResolveReserved(rm: bv32, frm: bv32)
    requires rm == 5 || rm == 6 || (rm == DynamicRm && 5 <= frm <= 7)
    ensures Resolve(rm, frm) == Trap(IllegalInstruction)
  {
  }
}
