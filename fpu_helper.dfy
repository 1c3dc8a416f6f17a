/** The floating-point side of the RISC-V CPU state and the helpers that act on
    it (target/riscv/fpu_helper.c). Every helper calls one softfloat primitive
    with the rounding mode installed in `fp_status`, lets the library record
    the flags it raised there, runs set_fp_exceptions to move them into
    `fflags`, and returns the result in a 64-bit register. The library is the
    `lib` parameter; a trap of helper_set_rounding_mode is returned as a
    value. */
module FpuHelper {
  import opened SoftFloat
  import opened ExceptionFlags
  import opened Rounding
  import opened Bits
  import FpState
  import HelperOps

  /** CPURISCVState, restricted to the fields the helpers read or write. */
  class Cpu {
    var frm: bv32
    var fflags: bv32
    var fpStatus: FloatStatus

    /** The fields as a value, so that the helpers can be specified by the
        transitions of module FpState. */
    function State(): FpState.State
      reads this
    {
      FpState.State(frm, fflags, fpStatus)
    }

    constructor(s: FpState.State)
      ensures State() == s
    {
      frm := s.frm;
      fflags := s.fflags;
      fpStatus := s.fpStatus;
    }

    /** The library recording the flags it raised in `fp_status`. */
    method Raise(raised: bv32)
      modifies this
      ensures State() == old(State()).Raise(raised)
    {
      ghost var before := State();
      fpStatus := fpStatus.(exceptionFlags := fpStatus.exceptionFlags | raised);
      assert State() == before.Raise(raised);
    }

    /** set_fp_exceptions */
    method SetFpExceptions()
      modifies this
      ensures State() == old(State()).SetFpExceptions()
    {
      var flags := fpStatus.exceptionFlags;
      if flags != 0 {
        fpStatus := fpStatus.(exceptionFlags := 0);
        fflags := fflags | FlagsToRiscv(flags);
      }
    }

    /** helper_set_rounding_mode: resolves `rm` (7 meaning `frm`) and installs
        the rounding mode in `fp_status`, or traps with the illegal-instruction
        exception and changes nothing. */
    method SetRoundingMode(rm: bv32) returns (res: Resolved)
      modifies this
      ensures res == Resolve(rm, old(frm))
      ensures res.Installed? ==>
        State() == old(State()).(fpStatus := old(fpStatus).(roundingMode := res.mode))
      ensures res.Trap? ==> State() == old(State())
    {
      var eff := rm;
      if eff == DynamicRm {
        eff := frm;
      }
      var softrm;
      if eff == 0 {
        softrm := NearestEven;
      } else if eff == 1 {
        softrm := ToZero;
      } else if eff == 2 {
        softrm := Down;
      } else if eff == 3 {
        softrm := Up;
      } else if eff == 4 {
        softrm := TiesAway;
      } else {
        res := Trap(IllegalInstruction);
        return;
      }
      fpStatus := fpStatus.(roundingMode := softrm);
      res := Installed(softrm);
    }

    /** helper_fmadd_s */
    method FmaddS(lib: Library, frs1: bv64, frs2: bv64, frs3: bv64) returns (r: bv64)
      modifies this
      ensures r == HelperOps.FmaddS(lib, old(fpStatus.roundingMode), frs1, frs2, frs3).value
      ensures State() == old(State()).AfterCall(HelperOps.FmaddS(lib, old(fpStatus.roundingMode), frs1, frs2, frs3).raised)
    {
      var o := lib.muladd32(fpStatus.roundingMode, Low32(frs1), Low32(frs2), Low32(frs3), 0);
      Raise(o.raised);
      SetFpExceptions();
      r := ZeroExtend32(o.value);
    }

    /** helper_fmadd_d */
    method FmaddD(lib: Library, frs1: bv64, frs2: bv64, frs3: bv64) returns (r: bv64)
      modifies this
      ensures r == HelperOps.FmaddD(lib, old(fpStatus.roundingMode), frs1, frs2, frs3).value
      ensures State() == old(State()).AfterCall(HelperOps.FmaddD(lib, old(fpStatus.roundingMode), frs1, frs2, frs3).raised)
    {
      var o := lib.muladd64(fpStatus.roundingMode, frs1, frs2, frs3, 0);
      Raise(o.raised);
      SetFpExceptions();
      r := o.value;
    }

    /** helper_fmsub_s */
    method FmsubS(lib: Library, frs1: bv64, frs2: bv64, frs3: bv64) returns (r: bv64)
      modifies this
      ensures r == HelperOps.FmsubS(lib, old(fpStatus.roundingMode), frs1, frs2, frs3).value
      ensures State() == old(State()).AfterCall(HelperOps.FmsubS(lib, old(fpStatus.roundingMode), frs1, frs2, frs3).raised)
    {
      var o := lib.muladd32(fpStatus.roundingMode, Low32(frs1), Low32(frs2), Low32(frs3 ^ (SignBit32 as bv64)), 0);
      Raise(o.raised);
      SetFpExceptions();
      r := ZeroExtend32(o.value);
    }

    /** helper_fmsub_d */
    method FmsubD(lib: Library, frs1: bv64, frs2: bv64, frs3: bv64) returns (r: bv64)
      modifies this
      ensures r == HelperOps.FmsubD(lib, old(fpStatus.roundingMode), frs1, frs2, frs3).value
      ensures State() == old(State()).AfterCall(HelperOps.FmsubD(lib, old(fpStatus.roundingMode), frs1, frs2, frs3).raised)
    {
      var o := lib.muladd64(fpStatus.roundingMode, frs1, frs2, frs3 ^ SignBit64, 0);
      Raise(o.raised);
      SetFpExceptions();
      r := o.value;
    }

    /** helper_fnmsub_s */
    method FnmsubS(lib: Library, frs1: bv64, frs2: bv64, frs3: bv64) returns (r: bv64)
      modifies this
      ensures r == HelperOps.FnmsubS(lib, old(fpStatus.roundingMode), frs1, frs2, frs3).value
      ensures State() == old(State()).AfterCall(HelperOps.FnmsubS(lib, old(fpStatus.roundingMode), frs1, frs2, frs3).raised)
    {
      var o := lib.muladd32(fpStatus.roundingMode, Low32(frs1 ^ (SignBit32 as bv64)), Low32(frs2), Low32(frs3), 0);
      Raise(o.raised);
      SetFpExceptions();
      r := ZeroExtend32(o.value);
    }

    /** helper_fnmsub_d */
    method FnmsubD(lib: Library, frs1: bv64, frs2: bv64, frs3: bv64) returns (r: bv64)
      modifies this
      ensures r == HelperOps.FnmsubD(lib, old(fpStatus.roundingMode), frs1, frs2, frs3).value
      ensures State() == old(State()).AfterCall(HelperOps.FnmsubD(lib, old(fpStatus.roundingMode), frs1, frs2, frs3).raised)
    {
      var o := lib.muladd64(fpStatus.roundingMode, frs1 ^ SignBit64, frs2, frs3, 0);
      Raise(o.raised);
      SetFpExceptions();
      r := o.value;
    }

    /** helper_fnmadd_s */
    method FnmaddS(lib: Library, frs1: bv64, frs2: bv64, frs3: bv64) returns (r: bv64)
      modifies this
      ensures r == HelperOps.FnmaddS(lib, old(fpStatus.roundingMode), frs1, frs2, frs3).value
      ensures State() == old(State()).AfterCall(HelperOps.FnmaddS(lib, old(fpStatus.roundingMode), frs1, frs2, frs3).raised)
    {
      var o := lib.muladd32(fpStatus.roundingMode, Low32(frs1 ^ (SignBit32 as bv64)), Low32(frs2), Low32(frs3 ^ (SignBit32 as bv64)), 0);
      Raise(o.raised);
      SetFpExceptions();
      r := ZeroExtend32(o.value);
    }

    /** helper_fnmadd_d */
    method FnmaddD(lib: Library, frs1: bv64, frs2: bv64, frs3: bv64) returns (r: bv64)
      modifies this
      ensures r == HelperOps.FnmaddD(lib, old(fpStatus.roundingMode), frs1, frs2, frs3).value
      ensures State() == old(State()).AfterCall(HelperOps.FnmaddD(lib, old(fpStatus.roundingMode), frs1, frs2, frs3).raised)
    {
      var o := lib.muladd64(fpStatus.roundingMode, frs1 ^ SignBit64, frs2, frs3 ^ SignBit64, 0);
      Raise(o.raised);
      SetFpExceptions();
      r := o.value;
    }

    /** helper_fadd_s */
    method FaddS(lib: Library, frs1: bv64, frs2: bv64) returns (r: bv64)
      modifies this
      ensures r == HelperOps.Single(lib.add32(old(fpStatus.roundingMode), Low32(frs1), Low32(frs2))).value
      ensures State() == old(State()).AfterCall(HelperOps.Single(lib.add32(old(fpStatus.roundingMode), Low32(frs1), Low32(frs2))).raised)
    {
      var o := lib.add32(fpStatus.roundingMode, Low32(frs1), Low32(frs2));
      Raise(o.raised);
      SetFpExceptions();
      r := ZeroExtend32(o.value);
    }

    /** helper_fsub_s */
    method FsubS(lib: Library, frs1: bv64, frs2: bv64) returns (r: bv64)
      modifies this
      ensures r == HelperOps.Single(lib.sub32(old(fpStatus.roundingMode), Low32(frs1), Low32(frs2))).value
      ensures State() == old(State()).AfterCall(HelperOps.Single(lib.sub32(old(fpStatus.roundingMode), Low32(frs1), Low32(frs2))).raised)
    {
      var o := lib.sub32(fpStatus.roundingMode, Low32(frs1), Low32(frs2));
      Raise(o.raised);
      SetFpExceptions();
      r := ZeroExtend32(o.value);
    }

    /** helper_fmul_s */
    method FmulS(lib: Library, frs1: bv64, frs2: bv64) returns (r: bv64)
      modifies this
      ensures r == HelperOps.Single(lib.mul32(old(fpStatus.roundingMode), Low32(frs1), Low32(frs2))).value
      ensures State() == old(State()).AfterCall(HelperOps.Single(lib.mul32(old(fpStatus.roundingMode), Low32(frs1), Low32(frs2))).raised)
    {
      var o := lib.mul32(fpStatus.roundingMode, Low32(frs1), Low32(frs2));
      Raise(o.raised);
      SetFpExceptions();
      r := ZeroExtend32(o.value);
    }

    /** helper_fdiv_s */
    method FdivS(lib: Library, frs1: bv64, frs2: bv64) returns (r: bv64)
      modifies this
      ensures r == HelperOps.Single(lib.div32(old(fpStatus.roundingMode), Low32(frs1), Low32(frs2))).value
      ensures State() == old(State()).AfterCall(HelperOps.Single(lib.div32(old(fpStatus.roundingMode), Low32(frs1), Low32(frs2))).raised)
    {
      var o := lib.div32(fpStatus.roundingMode, Low32(frs1), Low32(frs2));
      Raise(o.raised);
      SetFpExceptions();
      r := ZeroExtend32(o.value);
    }

    /** helper_fmin_s */
    method FminS(lib: Library, frs1: bv64, frs2: bv64) returns (r: bv64)
      modifies this
      ensures r == HelperOps.Single(lib.minnum32(old(fpStatus.roundingMode), Low32(frs1), Low32(frs2))).value
      ensures State() == old(State()).AfterCall(HelperOps.Single(lib.minnum32(old(fpStatus.roundingMode), Low32(frs1), Low32(frs2))).raised)
    {
      var o := lib.minnum32(fpStatus.roundingMode, Low32(frs1), Low32(frs2));
      Raise(o.raised);
      SetFpExceptions();
      r := ZeroExtend32(o.value);
    }

    /** helper_fmax_s */
    method FmaxS(lib: Library, frs1: bv64, frs2: bv64) returns (r: bv64)
      modifies this
      ensures r == HelperOps.Single(lib.maxnum32(old(fpStatus.roundingMode), Low32(frs1), Low32(frs2))).value
      ensures State() == old(State()).AfterCall(HelperOps.Single(lib.maxnum32(old(fpStatus.roundingMode), Low32(frs1), Low32(frs2))).raised)
    {
      var o := lib.maxnum32(fpStatus.roundingMode, Low32(frs1), Low32(frs2));
      Raise(o.raised);
      SetFpExceptions();
      r := ZeroExtend32(o.value);
    }

    /** helper_fsqrt_s */
    method FsqrtS(lib: Library, frs1: bv64) returns (r: bv64)
      modifies this
      ensures r == HelperOps.Single(lib.sqrt32(old(fpStatus.roundingMode), Low32(frs1))).value
      ensures State() == old(State()).AfterCall(HelperOps.Single(lib.sqrt32(old(fpStatus.roundingMode), Low32(frs1))).raised)
    {
      var o := lib.sqrt32(fpStatus.roundingMode, Low32(frs1));
      Raise(o.raised);
      SetFpExceptions();
      r := ZeroExtend32(o.value);
    }

    /** helper_fle_s */
    method FleS(lib: Library, frs1: bv64, frs2: bv64) returns (r: bv64)
      modifies this
      ensures r == HelperOps.FleS(lib, old(fpStatus.roundingMode), frs1, frs2).value
      ensures State() == old(State()).AfterCall(HelperOps.FleS(lib, old(fpStatus.roundingMode), frs1, frs2).raised)
    {
      var o := lib.le32(fpStatus.roundingMode, Low32(frs1), Low32(frs2));
      Raise(o.raised);
      SetFpExceptions();
      r := if o.value then 1 else 0;
    }

    /** helper_flt_s */
    method FltS(lib: Library, frs1: bv64, frs2: bv64) returns (r: bv64)
      modifies this
      ensures r == HelperOps.FltS(lib, old(fpStatus.roundingMode), frs1, frs2).value
      ensures State() == old(State()).AfterCall(HelperOps.FltS(lib, old(fpStatus.roundingMode), frs1, frs2).raised)
    {
      var o := lib.lt32(fpStatus.roundingMode, Low32(frs1), Low32(frs2));
      Raise(o.raised);
      SetFpExceptions();
      r := if o.value then 1 else 0;
    }

    /** helper_feq_s */
    method FeqS(lib: Library, frs1: bv64, frs2: bv64) returns (r: bv64)
      modifies this
      ensures r == HelperOps.FeqS(lib, old(fpStatus.roundingMode), frs1, frs2).value
      ensures State() == old(State()).AfterCall(HelperOps.FeqS(lib, old(fpStatus.roundingMode), frs1, frs2).raised)
    {
      var o := lib.eqQuiet32(fpStatus.roundingMode, Low32(frs1), Low32(frs2));
      Raise(o.raised);
      SetFpExceptions();
      r := if o.value then 1 else 0;
    }

    /** helper_fcvt_w_s */
    method FcvtWS(lib: Library, frs1: bv64) returns (r: bv64)
      modifies this
      ensures r == HelperOps.FcvtWS(lib, old(fpStatus.roundingMode), frs1).value
      ensures State() == old(State()).AfterCall(HelperOps.FcvtWS(lib, old(fpStatus.roundingMode), frs1).raised)
    {
      var o := lib.float32ToInt32(fpStatus.roundingMode, Low32(frs1));
      Raise(o.raised);
      SetFpExceptions();
      r := SignExtend32(o.value);
    }

    /** helper_fcvt_wu_s */
    method FcvtWuS(lib: Library, frs1: bv64) returns (r: bv64)
      modifies this
      ensures r == HelperOps.FcvtWuS(lib, old(fpStatus.roundingMode), frs1).value
      ensures State() == old(State()).AfterCall(HelperOps.FcvtWuS(lib, old(fpStatus.roundingMode), frs1).raised)
    {
      var o := lib.float32ToUint32(fpStatus.roundingMode, Low32(frs1));
      Raise(o.raised);
      SetFpExceptions();
      r := SignExtend32(o.value);
    }

    /** helper_fcvt_l_s */
    method FcvtLS(lib: Library, frs1: bv64) returns (r: bv64)
      modifies this
      ensures r == lib.float32ToInt64(old(fpStatus.roundingMode), Low32(frs1)).value
      ensures State() == old(State()).AfterCall(lib.float32ToInt64(old(fpStatus.roundingMode), Low32(frs1)).raised)
    {
      var o := lib.float32ToInt64(fpStatus.roundingMode, Low32(frs1));
      Raise(o.raised);
      SetFpExceptions();
      r := o.value;
    }

    /** helper_fcvt_lu_s */
    method FcvtLuS(lib: Library, frs1: bv64) returns (r: bv64)
      modifies this
      ensures r == lib.float32ToUint64(old(fpStatus.roundingMode), Low32(frs1)).value
      ensures State() == old(State()).AfterCall(lib.float32ToUint64(old(fpStatus.roundingMode), Low32(frs1)).raised)
    {
      var o := lib.float32ToUint64(fpStatus.roundingMode, Low32(frs1));
      Raise(o.raised);
      SetFpExceptions();
      r := o.value;
    }

    /** helper_fcvt_s_w */
    method FcvtSW(lib: Library, rs1: bv64) returns (r: bv64)
      modifies this
      ensures r == HelperOps.FcvtSW(lib, old(fpStatus.roundingMode), rs1).value
      ensures State() == old(State()).AfterCall(HelperOps.FcvtSW(lib, old(fpStatus.roundingMode), rs1).raised)
    {
      var o := lib.int32ToFloat32(fpStatus.roundingMode, Low32(rs1));
      Raise(o.raised);
      SetFpExceptions();
      r := ZeroExtend32(o.value);
    }

    /** helper_fcvt_s_wu */
    method FcvtSWu(lib: Library, rs1: bv64) returns (r: bv64)
      modifies this
      ensures r == HelperOps.FcvtSWu(lib, old(fpStatus.roundingMode), rs1).value
      ensures State() == old(State()).AfterCall(HelperOps.FcvtSWu(lib, old(fpStatus.roundingMode), rs1).raised)
    {
      var o := lib.uint32ToFloat32(fpStatus.roundingMode, Low32(rs1));
      Raise(o.raised);
      SetFpExceptions();
      r := ZeroExtend32(o.value);
    }

    /** helper_fcvt_s_l */
    method FcvtSL(lib: Library, rs1: bv64) returns (r: bv64)
      modifies this
      ensures r == HelperOps.Single(lib.int64ToFloat32(old(fpStatus.roundingMode), rs1)).value
      ensures State() == old(State()).AfterCall(HelperOps.Single(lib.int64ToFloat32(old(fpStatus.roundingMode), rs1)).raised)
    {
      var o := lib.int64ToFloat32(fpStatus.roundingMode, rs1);
      Raise(o.raised);
      SetFpExceptions();
      r := ZeroExtend32(o.value);
    }

    /** helper_fcvt_s_lu */
    method FcvtSLu(lib: Library, rs1: bv64) returns (r: bv64)
      modifies this
      ensures r == HelperOps.Single(lib.uint64ToFloat32(old(fpStatus.roundingMode), rs1)).value
      ensures State() == old(State()).AfterCall(HelperOps.Single(lib.uint64ToFloat32(old(fpStatus.roundingMode), rs1)).raised)
    {
      var o := lib.uint64ToFloat32(fpStatus.roundingMode, rs1);
      Raise(o.raised);
      SetFpExceptions();
      r := ZeroExtend32(o.value);
    }

    /** helper_fadd_d */
    method FaddD(lib: Library, frs1: bv64, frs2: bv64) returns (r: bv64)
      modifies this
      ensures r == lib.add64(old(fpStatus.roundingMode), frs1, frs2).value
      ensures State() == old(State()).AfterCall(lib.add64(old(fpStatus.roundingMode), frs1, frs2).raised)
    {
      var o := lib.add64(fpStatus.roundingMode, frs1, frs2);
      Raise(o.raised);
      SetFpExceptions();
      r := o.value;
    }

    /** helper_fsub_d */
    method FsubD(lib: Library, frs1: bv64, frs2: bv64) returns (r: bv64)
      modifies this
      ensures r == lib.sub64(old(fpStatus.roundingMode), frs1, frs2).value
      ensures State() == old(State()).AfterCall(lib.sub64(old(fpStatus.roundingMode), frs1, frs2).raised)
    {
      var o := lib.sub64(fpStatus.roundingMode, frs1, frs2);
      Raise(o.raised);
      SetFpExceptions();
      r := o.value;
    }

    /** helper_fmul_d */
    method FmulD(lib: Library, frs1: bv64, frs2: bv64) returns (r: bv64)
      modifies this
      ensures r == lib.mul64(old(fpStatus.roundingMode), frs1, frs2).value
      ensures State() == old(State()).AfterCall(lib.mul64(old(fpStatus.roundingMode), frs1, frs2).raised)
    {
      var o := lib.mul64(fpStatus.roundingMode, frs1, frs2);
      Raise(o.raised);
      SetFpExceptions();
      r := o.value;
    }

    /** helper_fdiv_d */
    method FdivD(lib: Library, frs1: bv64, frs2: bv64) returns (r: bv64)
      modifies this
      ensures r == lib.div64(old(fpStatus.roundingMode), frs1, frs2).value
      ensures State() == old(State()).AfterCall(lib.div64(old(fpStatus.roundingMode), frs1, frs2).raised)
    {
      var o := lib.div64(fpStatus.roundingMode, frs1, frs2);
      Raise(o.raised);
      SetFpExceptions();
      r := o.value;
    }

    /** helper_fmin_d */
    method FminD(lib: Library, frs1: bv64, frs2: bv64) returns (r: bv64)
      modifies this
      ensures r == lib.minnum64(old(fpStatus.roundingMode), frs1, frs2).value
      ensures State() == old(State()).AfterCall(lib.minnum64(old(fpStatus.roundingMode), frs1, frs2).raised)
    {
      var o := lib.minnum64(fpStatus.roundingMode, frs1, frs2);
      Raise(o.raised);
      SetFpExceptions();
      r := o.value;
    }

    /** helper_fmax_d */
    method FmaxD(lib: Library, frs1: bv64, frs2: bv64) returns (r: bv64)
      modifies this
      ensures r == lib.maxnum64(old(fpStatus.roundingMode), frs1, frs2).value
      ensures State() == old(State()).AfterCall(lib.maxnum64(old(fpStatus.roundingMode), frs1, frs2).raised)
    {
      var o := lib.maxnum64(fpStatus.roundingMode, frs1, frs2);
      Raise(o.raised);
      SetFpExceptions();
      r := o.value;
    }

    /** helper_fcvt_s_d */
    method FcvtSD(lib: Library, rs1: bv64) returns (r: bv64)
      modifies this
      ensures r == HelperOps.FcvtSD(lib, old(fpStatus.roundingMode), rs1).value
      ensures State() == old(State()).AfterCall(HelperOps.FcvtSD(lib, old(fpStatus.roundingMode), rs1).raised)
    {
      var o := lib.float64ToFloat32(fpStatus.roundingMode, rs1);
      var v := ZeroExtend32(o.value);
      Raise(o.raised);
      SetFpExceptions();
      r := ZeroExtend32(lib.maybeSilenceNan32(Low32(v)));
    }

    /** helper_fcvt_d_s */
    method FcvtDS(lib: Library, rs1: bv64) returns (r: bv64)
      modifies this
      ensures r == HelperOps.FcvtDS(lib, old(fpStatus.roundingMode), rs1).value
      ensures State() == old(State()).AfterCall(HelperOps.FcvtDS(lib, old(fpStatus.roundingMode), rs1).raised)
    {
      var o := lib.float32ToFloat64(fpStatus.roundingMode, Low32(rs1));
      Raise(o.raised);
      SetFpExceptions();
      r := lib.maybeSilenceNan64(o.value);
    }

    /** helper_fsqrt_d */
    method FsqrtD(lib: Library, frs1: bv64) returns (r: bv64)
      modifies this
      ensures r == lib.sqrt64(old(fpStatus.roundingMode), frs1).value
      ensures State() == old(State()).AfterCall(lib.sqrt64(old(fpStatus.roundingMode), frs1).raised)
    {
      var o := lib.sqrt64(fpStatus.roundingMode, frs1);
      Raise(o.raised);
      SetFpExceptions();
      r := o.value;
    }

    /** helper_fle_d */
    method FleD(lib: Library, frs1: bv64, frs2: bv64) returns (r: bv64)
      modifies this
      ensures r == HelperOps.FleD(lib, old(fpStatus.roundingMode), frs1, frs2).value
      ensures State() == old(State()).AfterCall(HelperOps.FleD(lib, old(fpStatus.roundingMode), frs1, frs2).raised)
    {
      var o := lib.le64(fpStatus.roundingMode, frs1, frs2);
      Raise(o.raised);
      SetFpExceptions();
      r := if o.value then 1 else 0;
    }

    /** helper_flt_d */
    method FltD(lib: Library, frs1: bv64, frs2: bv64) returns (r: bv64)
      modifies this
      ensures r == HelperOps.FltD(lib, old(fpStatus.roundingMode), frs1, frs2).value
      ensures State() == old(State()).AfterCall(HelperOps.FltD(lib, old(fpStatus.roundingMode), frs1, frs2).raised)
    {
      var o := lib.lt64(fpStatus.roundingMode, frs1, frs2);
      Raise(o.raised);
      SetFpExceptions();
      r := if o.value then 1 else 0;
    }

    /** helper_feq_d */
    method FeqD(lib: Library, frs1: bv64, frs2: bv64) returns (r: bv64)
      modifies this
      ensures r == HelperOps.FeqD(lib, old(fpStatus.roundingMode), frs1, frs2).value
      ensures State() == old(State()).AfterCall(HelperOps.FeqD(lib, old(fpStatus.roundingMode), frs1, frs2).raised)
    {
      var o := lib.eqQuiet64(fpStatus.roundingMode, frs1, frs2);
      Raise(o.raised);
      SetFpExceptions();
      r := if o.value then 1 else 0;
    }

    /** helper_fcvt_w_d */
    method FcvtWD(lib: Library, frs1: bv64) returns (r: bv64)
      modifies this
      ensures r == HelperOps.FcvtWD(lib, old(fpStatus.roundingMode), frs1).value
      ensures State() == old(State()).AfterCall(HelperOps.FcvtWD(lib, old(fpStatus.roundingMode), frs1).raised)
    {
      var o := lib.float64ToInt32(fpStatus.roundingMode, frs1);
      Raise(o.raised);
      SetFpExceptions();
      r := SignExtend32(o.value);
    }

    /** helper_fcvt_wu_d */
    method FcvtWuD(lib: Library, frs1: bv64) returns (r: bv64)
      modifies this
      ensures r == HelperOps.FcvtWuD(lib, old(fpStatus.roundingMode), frs1).value
      ensures State() == old(State()).AfterCall(HelperOps.FcvtWuD(lib, old(fpStatus.roundingMode), frs1).raised)
    {
      var o := lib.float64ToUint32(fpStatus.roundingMode, frs1);
      Raise(o.raised);
      SetFpExceptions();
      r := SignExtend32(o.value);
    }

    /** helper_fcvt_l_d */
    method FcvtLD(lib: Library, frs1: bv64) returns (r: bv64)
      modifies this
      ensures r == lib.float64ToInt64(old(fpStatus.roundingMode), frs1).value
      ensures State() == old(State()).AfterCall(lib.float64ToInt64(old(fpStatus.roundingMode), frs1).raised)
    {
      var o := lib.float64ToInt64(fpStatus.roundingMode, frs1);
      Raise(o.raised);
      SetFpExceptions();
      r := o.value;
    }

    /** helper_fcvt_lu_d */
    method FcvtLuD(lib: Library, frs1: bv64) returns (r: bv64)
      modifies this
      ensures r == lib.float64ToUint64(old(fpStatus.roundingMode), frs1).value
      ensures State() == old(State()).AfterCall(lib.float64ToUint64(old(fpStatus.roundingMode), frs1).raised)
    {
      var o := lib.float64ToUint64(fpStatus.roundingMode, frs1);
      Raise(o.raised);
      SetFpExceptions();
      r := o.value;
    }

    /** helper_fcvt_d_w */
    method FcvtDW(lib: Library, rs1: bv64) returns (r: bv64)
      modifies this
      ensures r == HelperOps.FcvtDW(lib, old(fpStatus.roundingMode), rs1).value
      ensures State() == old(State()).AfterCall(HelperOps.FcvtDW(lib, old(fpStatus.roundingMode), rs1).raised)
    {
      var o := lib.int32ToFloat64(fpStatus.roundingMode, Low32(rs1));
      Raise(o.raised);
      SetFpExceptions();
      r := o.value;
    }

    /** helper_fcvt_d_wu */
    method FcvtDWu(lib: Library, rs1: bv64) returns (r: bv64)
      modifies this
      ensures r == HelperOps.FcvtDWu(lib, old(fpStatus.roundingMode), rs1).value
      ensures State() == old(State()).AfterCall(HelperOps.FcvtDWu(lib, old(fpStatus.roundingMode), rs1).raised)
    {
      var o := lib.uint32ToFloat64(fpStatus.roundingMode, Low32(rs1));
      Raise(o.raised);
      SetFpExceptions();
      r := o.value;
    }

    /** helper_fcvt_d_l */
    method FcvtDL(lib: Library, rs1: bv64) returns (r: bv64)
      modifies this
      ensures r == lib.int64ToFloat64(old(fpStatus.roundingMode), rs1).value
      ensures State() == old(State()).AfterCall(lib.int64ToFloat64(old(fpStatus.roundingMode), rs1).raised)
    {
      var o := lib.int64ToFloat64(fpStatus.roundingMode, rs1);
      Raise(o.raised);
      SetFpExceptions();
      r := o.value;
    }

    /** helper_fcvt_d_lu */
    method FcvtDLu(lib: Library, rs1: bv64) returns (r: bv64)
      modifies this
      ensures r == lib.uint64ToFloat64(old(fpStatus.roundingMode), rs1).value
      ensures State() == old(State()).AfterCall(lib.uint64ToFloat64(old(fpStatus.roundingMode), rs1).raised)
    {
      var o := lib.uint64ToFloat64(fpStatus.roundingMode, rs1);
      Raise(o.raised);
      SetFpExceptions();
      r := o.value;
    }
  }
}
