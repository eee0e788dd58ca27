// Interrupt numbering and the platform constants the interrupt path depends on.
//
// The architecture fixes the ID ranges (GICv2: SGIs 0-15, PPIs 16-31, SPIs from 32,
// 1023 is the spurious ID).  The IDs of the maintenance interrupt, the timers, the
// hypervisor's own SGIs and the host priority are platform-header constants; they are
// gathered in `PlatformIds`, and `Valid()` states only the relations the code relies on,
// so every property proved here holds for every platform that meets them.
module Platform {

  /** Lines addressable through the distributor's register banks (32 words of 32 bits). */
  const NumLines: nat := 1024

  /** First PPI and first SPI (shared peripheral interrupt) ID. */
  const FirstPpi: nat := 16
  const FirstSpi: nat := 32

  /** The special interrupt ID GICC_IAR returns when no interrupt is pending. */
  const Spurious: nat := 1023

  predicate IsPpi(id: nat) {
    FirstPpi <= id < FirstSpi
  }

  datatype PlatformIds = PlatformIds(
    // ThermosphereSgi_ExecuteFunction, _VgicUpdate, _DebugPause and _Max
    sgiExecuteFunction: nat,
    sgiVgicUpdate: nat,
    sgiDebugPause: nat,
    sgiMax: nat,
    // GIC_IRQID_MAINTENANCE
    maintenance: nat,
    // TIMER_IRQID(CURRENT_TIMER): the hypervisor's own timer
    currentTimer: nat,
    // TIMER_IRQID(NS_VIRT_TIMER) and TIMER_IRQID(NS_PHYS_TIMER): the guest's timers
    nsVirtTimer: nat,
    nsPhysTimer: nat,
    // GIC_IRQID_{NS_PHYS,NS_VIRT,SEC_PHYS,SEC_VIRT}_HYP_TIMER; a timer the platform lacks
    // is defined as the spurious ID
    nsPhysHypTimer: nat,
    nsVirtHypTimer: nat,
    secPhysHypTimer: nat,
    secVirtHypTimer: nat,
    // IRQ_PRIORITY_HOST
    hostPriority: bv8)
  {
    /** The relations the interrupt code relies on. */
    predicate Valid() {
      // the hypervisor's SGIs are the enumerators 0 .. ThermosphereSgi_Max - 1 and are SGIs
      && sgiExecuteFunction < sgiMax && sgiVgicUpdate < sgiMax && sgiDebugPause < sgiMax
      && sgiMax <= FirstPpi
      && sgiExecuteFunction != sgiVgicUpdate && sgiExecuteFunction != sgiDebugPause
      && sgiVgicUpdate != sgiDebugPause
      // the maintenance interrupt and the timers are distinct PPIs
      && IsPpi(maintenance) && IsPpi(currentTimer) && IsPpi(nsVirtTimer) && IsPpi(nsPhysTimer)
      && maintenance != currentTimer && maintenance != nsVirtTimer && maintenance != nsPhysTimer
      && currentTimer != nsVirtTimer && currentTimer != nsPhysTimer && nsVirtTimer != nsPhysTimer
      && HypTimerId(nsPhysHypTimer) && HypTimerId(nsVirtHypTimer)
      && HypTimerId(secPhysHypTimer) && HypTimerId(secVirtHypTimer)
    }

    static predicate HypTimerId(id: nat) {
      id == Spurious || IsPpi(id)
    }

    /** The lines `irqIsGuest` reserves for the hypervisor. */
    function HypervisorLines(): set<nat> {
      {maintenance, nsPhysHypTimer, nsVirtHypTimer, secPhysHypTimer, secVirtHypTimer}
    }

    predicate IsHostSgi(id: nat) {
      id < sgiMax
    }
  }
}
