// The software-step state machine (section D2.12 of the ARM Architecture Reference Manual
// for A-profile, DDI 0487): the state of the step the guest is being debugged through is
// held in two bits, MDSCR_EL1.SS (stepping enabled) and the saved PSTATE.SS in SPSR_EL2
// (whether the next instruction still has to execute before the step exception).
module SingleStep {
  import opened Bits
  import opened CoreContext

  datatype SingleStepState = Inactive | ActiveNotPending | ActivePending
  {
    /** The value of the C enumerator; an integer argument may hold any other value. */
    function Code(): int {
      match this
      case Inactive => 0
      case ActiveNotPending => 1
      case ActivePending => 2
    }
  }

  /** MDSCR_EL1.SS is bit 0 of MDSCR_EL1. */
  const MdscrSs: nat := 0
  /** PSTATE.SS is bit 21 of the saved program status. */
  const PstateSs: nat := 21

  /** The state the two bits encode. */
  function DecodeState(mdscr: Reg64, spsr: Reg64): (s: SingleStepState)
    ensures s == Inactive <==> !mdscr[MdscrSs]
    ensures s == ActiveNotPending <==> mdscr[MdscrSs] && spsr[PstateSs]
    ensures s == ActivePending <==> mdscr[MdscrSs] && !spsr[PstateSs]
  {
    var mdscrSs := mdscr[MdscrSs];
    var pstateSs := spsr[PstateSs];
    if !mdscrSs then Inactive
    else if pstateSs then ActiveNotPending
    else ActivePending
  }

  /** singleStepGetNextState: the state the calling core's registers encode. */
  function SingleStepGetNextState(sys: SysRegs, frame: ExceptionStackFrame): (s: SingleStepState)
    reads sys, frame
    ensures s == Inactive <==> !sys.mdscrEl1[MdscrSs]
    ensures s == ActiveNotPending <==> sys.mdscrEl1[MdscrSs] && frame.spsrEl2[PstateSs]
    ensures s == ActivePending <==> sys.mdscrEl1[MdscrSs] && !frame.spsrEl2[PstateSs]
  {
    DecodeState(sys.mdscrEl1, frame.spsrEl2)
  }

  /** MDSCR_EL1 after setting state `code`: SS cleared for Inactive, set for either active
      state, and the register unchanged for any other value; no other bit moves. */
  function NextMdscr(mdscr: Reg64, code: int): (r: Reg64)
    ensures forall k :: 0 <= k < 64 && k != MdscrSs ==> r[k] == mdscr[k]
    ensures r[MdscrSs] == if code == 0 then false else if code == 1 || code == 2 then true else mdscr[MdscrSs]
  {
    if code == Inactive.Code() then mdscr[MdscrSs := false]
    else if code == ActiveNotPending.Code() || code == ActivePending.Code() then mdscr[MdscrSs := true]
    else mdscr
  }

  /** SPSR_EL2 after setting state `code`: PSTATE.SS set for ActiveNotPending, cleared for
      ActivePending, and untouched otherwise (Inactive included); no other bit moves. */
  function NextSpsr(spsr: Reg64, code: int): (r: Reg64)
    ensures forall k :: 0 <= k < 64 && k != PstateSs ==> r[k] == spsr[k]
    ensures r[PstateSs] == if code == 1 then true else if code == 2 then false else spsr[PstateSs]
  {
    if code == ActiveNotPending.Code() then spsr[PstateSs := true]
    else if code == ActivePending.Code() then spsr[PstateSs := false]
    else spsr
  }

  /** singleStepSetNextState.  `state` is the C enum argument, which may be out of range. */
  method SingleStepSetNextState(sys: SysRegs, frame: ExceptionStackFrame, state: int)
    modifies sys`mdscrEl1, frame`spsrEl2
    ensures sys.mdscrEl1 == NextMdscr(old(sys.mdscrEl1), state)
    ensures frame.spsrEl2 == NextSpsr(old(frame.spsrEl2), state)
  {
    var mdscr := sys.mdscrEl1;
    if state == Inactive.Code() {
      // Unset MDSCR_EL1.SS
      mdscr := mdscr[MdscrSs := false];
    } else if state == ActiveNotPending.Code() {
      // Set MDSCR_EL1.SS and PSTATE.SS
      mdscr := mdscr[MdscrSs := true];
      frame.spsrEl2 := frame.spsrEl2[PstateSs := true];
    } else if state == ActivePending.Code() {
      // Set MDSCR_EL1.SS and clear PSTATE.SS
      mdscr := mdscr[MdscrSs := true];
      frame.spsrEl2 := frame.spsrEl2[PstateSs := false];
    }
    sys.mdscrEl1 := mdscr;
  }

  /** Setting a state and reading it back yields that state, whatever the registers held. */
  lemma SetThenGet(mdscr: Reg64, spsr: Reg64, s: SingleStepState)
    ensures DecodeState(NextMdscr(mdscr, s.Code()), NextSpsr(spsr, s.Code())) == s
  {
  }

  /** Setting the same state twice leaves the registers as setting it once. */
  lemma SetIdempotent(mdscr: Reg64, spsr: Reg64, code: int)
    ensures NextMdscr(NextMdscr(mdscr, code), code) == NextMdscr(mdscr, code)
    ensures NextSpsr(NextSpsr(spsr, code), code) == NextSpsr(spsr, code)
  {
  }

  /** An out-of-range state leaves both registers as they were; Inactive leaves the saved
      program status as it was. */
  lemma SetLeavesUnchanged(mdscr: Reg64, spsr: Reg64, code: int)
    ensures code != 0 && code != 1 && code != 2 ==> NextMdscr(mdscr, code) == mdscr && NextSpsr(spsr, code) == spsr
    ensures NextSpsr(spsr, Inactive.Code()) == spsr
  {
  }

  /** handleSingleStep: re-arm the step while the return address is inside the stepping
      range [start, end), disarm it otherwise.  The exception syndrome it receives only
      feeds a log message and is not modelled. */
  method HandleSingleStep(sys: SysRegs, frame: ExceptionStackFrame, ctx: CoreCtx)
    modifies sys`mdscrEl1, frame`spsrEl2
    ensures var inRange := ctx.steppingRangeStartAddr <= frame.elrEl2 < ctx.steppingRangeEndAddr;
      SingleStepGetNextState(sys, frame) == if inRange then ActiveNotPending else Inactive
    ensures var code := if ctx.steppingRangeStartAddr <= frame.elrEl2 < ctx.steppingRangeEndAddr then 1 else 0;
      sys.mdscrEl1 == NextMdscr(old(sys.mdscrEl1), code) && frame.spsrEl2 == NextSpsr(old(frame.spsrEl2), code)
    ensures frame.elrEl2 == old(frame.elrEl2)
  {
    var addr := frame.elrEl2;
    if addr >= ctx.steppingRangeStartAddr && addr < ctx.steppingRangeEndAddr {
      // Reactivate single-step
      SingleStepSetNextState(sys, frame, ActiveNotPending.Code());
    } else {
      // Disable single-step
      SingleStepSetNextState(sys, frame, Inactive.Code());
    }
  }
}
