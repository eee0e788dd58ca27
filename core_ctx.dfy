// Per-core state the interrupt and single-step paths read and write: the core context,
// the trapped exception frame and the two system registers involved.
module CoreContext {
  import opened Bits

  class CoreCtx {
    const coreId: nat
    const isBootCore: bool
    const warmboot: bool
    /** This core's bit in the distributor's target bytes, captured by the initializer. */
    var gicInterfaceMask: bv8
    /** The guest's emulated physical-timer compare value. */
    var emulPtimerCval: u64
    /** The instruction-address window [start, end) in which single-step re-arms itself. */
    var steppingRangeStartAddr: u64
    var steppingRangeEndAddr: u64

    constructor (coreId: nat, isBootCore: bool, warmboot: bool)
      ensures this.coreId == coreId && this.isBootCore == isBootCore && this.warmboot == warmboot
      ensures gicInterfaceMask == 0 && emulPtimerCval == 0
      ensures steppingRangeStartAddr == 0 && steppingRangeEndAddr == 0
    {
      this.coreId, this.isBootCore, this.warmboot := coreId, isBootCore, warmboot;
      gicInterfaceMask, emulPtimerCval := 0, 0;
      steppingRangeStartAddr, steppingRangeEndAddr := 0, 0;
    }
  }

  /** The part of the trapped context these paths use: ELR_EL2 and SPSR_EL2. */
  class ExceptionStackFrame {
    var elrEl2: u64
    var spsrEl2: Reg64

    constructor (elr: u64, spsr: Reg64)
      ensures elrEl2 == elr && spsrEl2 == spsr
    {
      elrEl2, spsrEl2 := elr, spsr;
    }
  }

  /** The calling core's MDSCR_EL1 and CNTP_CVAL_EL0. */
  class SysRegs {
    var mdscrEl1: Reg64
    var cntpCvalEl0: u64

    constructor (mdscr: Reg64, cntpCval: u64)
      ensures mdscrEl1 == mdscr && cntpCvalEl0 == cntpCval
    {
      mdscrEl1, cntpCvalEl0 := mdscr, cntpCval;
    }
  }
}
