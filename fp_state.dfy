/** The floating-point fields of CPURISCVState as a value, and the transitions
    the helpers apply to them: set_fp_exceptions and the library call that
    precedes it. The `Cpu` class of module FpuHelper is specified by these. */
module FpState {
  import opened SoftFloat
  import opened ExceptionFlags

  /** OR of a sequence of library flag words. */
  function OrAll(rs: seq<bv32>): (flags: bv32) {
    if rs == [] then 0 else rs[0] | OrAll(rs[1..])
  }

  /** `frm` (the dynamic rounding mode), `fflags` (the accrued exceptions) and
      `fp_status` (the softfloat status shared with the library). */
  datatype State = State(frm: bv32, fflags: bv32, fpStatus: FloatStatus) {

    /** The library raising `raised` during a primitive call (softfloat's
        float_raise): the flags are ORed into fp_status. */
    function Raise(raised: bv32): (t: State)
      ensures t.frm == frm && t.fflags == fflags
      ensures t.fpStatus.roundingMode == fpStatus.roundingMode
    {
      this.(fpStatus := fpStatus.(exceptionFlags := fpStatus.exceptionFlags | raised))
    }

    /** set_fp_exceptions: afterwards the library flags are clear and fflags
        has gained the RISC-V translation of what they held; frm and the
        rounding mode are untouched. */
    function SetFpExceptions(): (t: State)
      ensures t.fpStatus.exceptionFlags == 0
      ensures t.fflags == fflags | FlagsToRiscv(fpStatus.exceptionFlags)
      ensures t.frm == frm && t.fpStatus.roundingMode == fpStatus.roundingMode
    {
      var flags := fpStatus.exceptionFlags;
      if flags != 0 then
        this.(fpStatus := fpStatus.(exceptionFlags := 0),
              fflags := fflags | FlagsToRiscv(flags))
      else
        this
    }

    /** The state after a helper's library call raised `raised` and the helper
        called set_fp_exceptions. */
    function AfterCall(raised: bv32): (t: State)
      ensures t.fpStatus.exceptionFlags == 0
      ensures t.fflags == fflags | FlagsToRiscv(fpStatus.exceptionFlags | raised)
      ensures t.frm == frm && t.fpStatus.roundingMode == fpStatus.roundingMode
    {
      Raise(raised).SetFpExceptions()
    }

    /** The state after a sequence of helper calls raising `rs[0]`, `rs[1]`, ... */
    function AfterCalls(rs: seq<bv32>): (t: State)
      decreases |rs|
    {
      if rs == [] then this else AfterCall(rs[0]).AfterCalls(rs[1..])
    }
  }

  /** float_raise records the new flags and forgets none of the pending ones. */
  lemma RaiseRecords(s: State, raised: bv32)
    ensures s.Raise(raised).fpStatus.exceptionFlags & raised == raised
    ensures s.Raise(raised).fpStatus.exceptionFlags & s.fpStatus.exceptionFlags
            == s.fpStatus.exceptionFlags
  {
  }

  /** With no library flag raised set_fp_exceptions changes nothing. */
  lemma SetFpExceptionsNoFlags(s: State)
    requires s.fpStatus.exceptionFlags == 0
    ensures s.SetFpExceptions() == s
  {
  }

  /** set_fp_exceptions never clears a bit of fflags. */
  lemma SetFpExceptionsSticky(s: State)
    ensures s.SetFpExceptions().fflags & s.fflags == s.fflags
  {
  }

  /** A second set_fp_exceptions right after the first has nothing to do. */
  lemma SetFpExceptionsIdempotent(s: State)
    ensures s.SetFpExceptions().SetFpExceptions() == s.SetFpExceptions()
  {
  }

  /** OR of the RISC-V translations of a sequence of library flag words. */
  function TranslateAll(rs: seq<bv32>): (fflags: bv32) {
    if rs == [] then 0 else FlagsToRiscv(rs[0]) | TranslateAll(rs[1..])
  }

  lemma {:induction false} TranslateAllOr(rs: seq<bv32>)
    ensures TranslateAll(rs) == FlagsToRiscv(OrAll(rs))
  {
    if rs == [] {
      FlagsToRiscvZero();
    } else {
      TranslateAllOr(rs[1..]);
      FlagsToRiscvOr(rs[0], OrAll(rs[1..]));
    }
  }

  lemma AfterCallFflags(s: State, r: bv32)
    requires s.fpStatus.exceptionFlags == 0
    ensures s.AfterCall(r).fflags == s.fflags | FlagsToRiscv(r)
  {
    assert 0 | r == r;
  }

  lemma {:induction false} AfterCallsTranslate(s: State, rs: seq<bv32>)
    requires s.fpStatus.exceptionFlags == 0
    ensures s.AfterCalls(rs).fflags == s.fflags | TranslateAll(rs)
    decreases |rs|
  {
    if rs != [] {
      AfterCallFflags(s, rs[0]);
      AfterCallsTranslate(s.AfterCall(rs[0]), rs[1..]);
    }
  }

  lemma AfterCallsAccrue(s: State, rs: seq<bv32>)
    requires s.fpStatus.exceptionFlags == 0
    ensures s.AfterCalls(rs).fflags == s.fflags | FlagsToRiscv(OrAll(rs))
  {
    AfterCallsTranslate(s, rs);
    TranslateAllOr(rs);
  }

  /** Helper calls never change frm or the installed rounding mode, and leave
      no library flag pending. */
  lemma {:induction false} AfterCallsKeep(s: State, rs: seq<bv32>)
    ensures s.AfterCalls(rs).frm == s.frm
    ensures s.AfterCalls(rs).fpStatus.roundingMode == s.fpStatus.roundingMode
    ensures rs != [] ==> s.AfterCalls(rs).fpStatus.exceptionFlags == 0
    decreases |rs|
  {
    if rs != [] {
      AfterCallsKeep(s.AfterCall(rs[0]), rs[1..]);
    }
  }

  /** Hence no sequence of helper calls ever clears a bit of fflags. */
  lemma AfterCallsSticky(s: State, rs: seq<bv32>)
    ensures s.AfterCalls(rs).fflags & s.fflags == s.fflags
  {
    if rs != [] {
      var t := s.AfterCall(rs[0]);
      assert s.AfterCalls(rs) == t.AfterCalls(rs[1..]);
      AfterCallsAccrue(t, rs[1..]);
    }
  }

  /** fflags keeps holding only the five accrued-exception bits. */
  lemma AfterCallWithinMask(s: State, r: bv32)
    requires s.fflags & !AllFflags == 0
    ensures s.AfterCall(r).fflags & !AllFflags == 0
  {
  }
}
