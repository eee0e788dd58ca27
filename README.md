# Thermosphere interrupt path and software-step state machine, in Dafny

This project models two pieces of the Thermosphere hypervisor (the EL2 hypervisor of the
Atmosphère project) and proves properties about them.

**Physical interrupt controller and IRQ dispatch** (`thermosphere/src/irq.c`). The hypervisor
owns the physical ARM GICv2. The model covers:
- `initGic`: on cold boot it discovers the controller topology. It then resets this core's
  lines, and every shared line as well on the boot core.
- `doConfigureInterrupt`, `configureInterrupt` and `irqSetAffinity`: these program individual
  lines.
- `irqIsGuest`: it decides which lines belong to the guest.
- `handleIrqException`: on every physical IRQ it acknowledges the interrupt, runs the
  guest-timer gate, routes the interrupt, drops its priority and then either deactivates it or
  hands it to the virtual interrupt controller.

The GICv2 distributor and CPU interface are modelled as follows (ARM IHI 0048B, sections 4.3
and 4.4):
- The controller is a class, `GicHw.Gic`.
- The distributor's per-line state is a value, `Distributor`. It holds enable, pending, active,
  the priority byte, the target byte and the ICFGR words.
- Register writes are methods that reassign that value. Each write is defined by a pure
  function on the old value:
  - write-1-to-set and write-1-to-clear banks;
  - priority bits the hardware does not implement are read-as-zero and ignore writes;
  - ITARGETSR0-7 are read-only and return this core's CPU-interface bit.

Calls into code outside the model become events appended to an ordered trace,
`EventTrace.EventLog`. These are the virtual interrupt controller, the transport registry, the
timer subsystem and the host SGI handlers. The writes to GICC_EOIR (priority drop) and GICC_DIR
(deactivation) are events too. Under these conventions:
- The effect of the handler is one pure function, `IrqDispatch.DispatchEvents`. The method is
  proved to append exactly that trace.
- The ordering properties are lemmas about that function. Every interrupt taken gets one
  priority drop, followed by exactly one of deactivation or hand-over.

**Software step** (`thermosphere/src/single_step.c`). This is the ARMv8-A software-step state
machine (section D2.12 of the ARM Architecture Reference Manual for A-profile, DDI 0487):
- The three states (inactive, active-not-pending, active-pending) are encoded by MDSCR_EL1.SS
  and by the saved PSTATE.SS bit in SPSR_EL2.
- The model proves the decode truth table, the set-then-get round trip, idempotence and the
  frame property of the set operation.
- It also proves the stepping-range re-arm rule of `handleSingleStep`.

MDSCR_EL1 and SPSR_EL2 are modelled as 64-entry bit sequences. Entry k is bit k, so MDSCR_EL1.SS
is entry 0 and PSTATE.SS is entry 21. Setting or clearing one bit is a sequence update.

Constants from headers outside the model form the record `Platform.PlatformIds`:
- the hypervisor's SGI numbers and `ThermosphereSgi_Max`;
- the maintenance ID;
- the timer IDs;
- the four hypervisor-timer IDs;
- the host priority.

Its `Valid()` states only the relations the code relies on:
- the SGIs are `0 .. ThermosphereSgi_Max - 1` and lie below 16;
- the switch labels are distinct;
- the named timers and the maintenance line are PPIs;
- an absent hypervisor timer is the spurious ID.

Every property therefore holds for every platform that meets these relations.

Two remarks on the code as it stands:
- **`irqIsGuest` and SGIs.** `irqIsGuest` (`thermosphere/src/irq.c:178-197`) checks only the
  line count, the maintenance ID, the hypervisor-timer IDs and the transport registry, so an
  unclaimed host SGI passes it (`Irq.IrqIsGuestAdmitsHostSgi`). The handler's switch forwards
  only IDs of 16 and above (`thermosphere/src/irq.c:242`), so no SGI reaches the guest
  (`IrqDispatch.SgisAreNeverEnqueued`).
- **The virtual-timer gate.** For the guest's virtual-timer interrupt the gate compares the
  counter with `cntp_cval_el0` (`thermosphere/src/irq.c:122`). The model reads that register,
  `SysRegs.cntpCvalEl0`, on this path.

## Model

| member | source | states |
|---|---|---|
| Irq.IrqManager.constructor | thermosphere/src/irq.c:26 | the zero-initialised manager: every recorded topology field is 0 |
| Irq.DiscoverTopology | thermosphere/src/irq.c:36-44 | the shared-line count is a multiple of 32 that fits the 1024-line ID space; there are 1-8 CPU interfaces and 1-64 list registers; the priority shift is at most 8 and the level count is 2^(8 - priorityShift) |
| Irq.DiscoverPriorityResolution | thermosphere/src/irq.c:38-41 | a distributor implementing `bits` priority bits reads back as priorityShift = 8 - bits and 2^bits levels |
| Irq.PriorityLevelsAsWritten | thermosphere/src/irq.c:41 | the level count as the code stores it, `(u8)BIT(p)`: a value that fits the byte-wide field |
| Irq.PriorityLevelsAsWrittenWraps | thermosphere/src/irq.c:41 | as written, `(u8)BIT(popcount)` stores 0 levels when all eight priority bits are implemented, where the resolution is 256 levels |
| Irq.PriorityLevelsAsWrittenBelow8 | thermosphere/src/irq.c:41 | with fewer than eight implemented bits, the stored byte equals the true level count 2^p |
| Irq.DiscoverGic | thermosphere/src/irq.c:31-45 | cold-boot discovery: the manager records exactly what the controller's TYPER, VTR and priority read-back give; the distributor is disabled and priority byte 0 holds the implemented bits of 0xFF |
| Irq.NumInterrupts | thermosphere/src/irq.c:49-52 | a core resets at least its 32 private lines; a secondary core resets exactly those; the boot core resets the shared lines as well |
| Irq.ResetLineBits | thermosphere/src/irq.c:62-67 | every line below numInterrupts ends disabled, inactive and not pending; lines above keep their state; no other distributor field changes |
| Irq.ResetPriorities | thermosphere/src/irq.c:69-72 | every line below numInterrupts gets the lowest implemented priority; the rest are unchanged |
| Irq.ResetConfigs | thermosphere/src/irq.c:74-77 | ICFGR words 2 .. numInterrupts/16 - 1 become 0x55555555; the other words are unchanged |
| Irq.AllLevelSensitive | thermosphere/src/irq.c:76 | every 2-bit field of 0x55555555 is 1, the level-sensitive setting |
| Irq.ResetTargets | thermosphere/src/irq.c:79-81 | shared lines in [32, numInterrupts) target no CPU interface; private lines and lines above keep their targets |
| Irq.ResetDistributor | thermosphere/src/irq.c:60-81 | the four reset loops together give the reset state of the first numInterrupts lines and leave GICD_CTLR alone |
| Irq.ResetFromDiscovery | thermosphere/src/irq.c:69-72 | the discovery write to priority byte 0 is overwritten by the reset, so the reset state is the same relative to the state before discovery |
| Irq.ResetAndEnable | thermosphere/src/irq.c:49-96 | on every core: the reset of the given lines; GICD_CTLR = 1 on the boot core and untouched on the others; GICC_CTLR = BIT(9)\|1, PMR = 0xFF, BPR = 7; gicInterfaceMask = ITARGETSR0 = this core's CPU bit |
| Irq.InitGic | thermosphere/src/irq.c:28-97 | discovery on the cold-booting boot core only, with the topology unchanged otherwise; the reset of 32 lines, or 32 + numSharedInterrupts on the boot core; GICD_CTLR = 1 on the boot core and untouched on the others; GICC_CTLR = BIT(9)\|1, PMR = 0xFF, BPR = 7; gicInterfaceMask = ITARGETSR0 = this core's CPU bit |
| Irq.Configure | thermosphere/src/irq.c:131-145 | line `id` is enabled and not pending; no other line's enable or pending bit changes; active and GICD_CTLR are untouched; for an SGI or PPI, ICFGR and ITARGETSR are untouched |
| Irq.SetupSharedLine | thermosphere/src/irq.c:135-141 | the shared-line setup touches only ICFGR and ITARGETSR |
| Irq.ConfigureSharedSpec | thermosphere/src/irq.c:135-141 | for a shared line: target 0xFF (all CPU interfaces); its 2-bit config field is 3 (edge) or 1 (level); every other field of ICFGR word id/16 and every other word are unchanged; every other line keeps its target |
| Irq.ConfigureKeepsOtherConfigs | thermosphere/src/irq.c:136-139 | configuring a shared line leaves the Int_config field of every other line unchanged |
| Irq.ConfigurePriority | thermosphere/src/irq.c:143 | line `id` gets `(prio << priorityShift) & 0xFF`, as the distributor stores it; every other priority byte is unchanged |
| Irq.ConfigurePriorityExact | thermosphere/src/irq.c:143 | with the discovered shift, the scaled priority is stored without loss |
| Irq.ConfigureIdempotent | thermosphere/src/irq.c:164-169 | configuring a line twice with the same arguments yields the same distributor as configuring it once |
| Irq.DoConfigureInterrupt | thermosphere/src/irq.c:131-145 | the register writes leave exactly the distributor `Configure` describes |
| Irq.SetupSharedLineRegs | thermosphere/src/irq.c:136-140 | the ICFGR read-modify-write and the ITARGETSR write give `SetupSharedLine` |
| Irq.ConfigureInterrupt | thermosphere/src/irq.c:164-169 | the locked wrapper has the same effect as doConfigureInterrupt |
| Irq.IrqSetAffinity | thermosphere/src/irq.c:171-176 | only ITARGETSR[id] changes, to `affinity`; for ID 0-31 the register is read-only and nothing changes |
| Irq.ConfigureHostLines | thermosphere/src/irq.c:154-159 | every hypervisor SGI and the maintenance line is enabled and not pending at host priority; no other line's state changes |
| Irq.ResetThenHostLines | thermosphere/src/irq.c:151-159 | reset followed by host-line configuration is the initialised state, because the host lines are private lines |
| Irq.InitIrq | thermosphere/src/irq.c:147-162 | the initialised distributor: lines below numInterrupts are disabled, inactive and not pending at the lowest priority, except the host lines, which are enabled at host priority; shared lines target nothing and are level-sensitive; higher lines are untouched; the CPU-interface registers and gicInterfaceMask are as after initGic; discovery only on the cold-booting boot core, with the recorded topology unchanged otherwise; the virtual controller is initialised once |
| Irq.IrqIsGuest | thermosphere/src/irq.c:178-197 | true exactly when the ID is below 32 + numSharedInterrupts, is not the maintenance ID or one of the four hypervisor-timer IDs, and no transport is registered for it |
| Irq.IrqIsGuestAdmitsHostSgi | thermosphere/src/irq.c:178-197 | the predicate does not exclude the hypervisor's SGIs |
| Irq.GuestTimerDue | thermosphere/src/irq.c:117-129 | the virtual-timer interrupt is due iff cntp_cval_el0 <= vct, the physical-timer interrupt iff emulPtimerCval <= vct, and every other ID always |
| Irq.GuestTimerDueMonotonic | thermosphere/src/irq.c:99-129 | a due interrupt stays due as the counter advances |
| Irq.RescheduledBecomesDue | thermosphere/src/irq.c:103-111 | a physical-timer interrupt rescheduled with the same compare value is due on a later call once the counter has reached it |
| Irq.GateEvents | thermosphere/src/irq.c:103-110 | the gate has a side effect iff the interrupt is the physical-timer one and the counter is below the emulated compare value; the effect is one reschedule with that same value, and the interrupt is then not due |
| Irq.CheckRescheduleEmulatedPtimer | thermosphere/src/irq.c:99-114 | answers emulPtimerCval <= vct; when not due it reprograms the emulated compare value with the same value, and otherwise does nothing |
| Irq.CheckGuestTimerInterrupts | thermosphere/src/irq.c:117-129 | the verdict is `GuestTimerDue`; the reschedule is the only side effect, and only for a physical-timer interrupt that is not due |
| IrqDispatch.IarId | thermosphere/src/irq.c:206 | the interrupt ID is bits [9:0] of IAR, below 1024 |
| IrqDispatch.IarSource | thermosphere/src/irq.c:207 | the source core is bits [12:10] of IAR, below 8 |
| IrqDispatch.DecodeEncodeIar | thermosphere/src/irq.c:205-207 | decoding an acknowledge value recovers both the interrupt ID and the source core |
| IrqDispatch.Classify | thermosphere/src/irq.c:225-244 | the switch arm taken: each labelled arm exactly for its ID |
| IrqDispatch.RunHostHandler | thermosphere/src/irq.c:221-244 | runs the handler of the ID's arm; flags maintenance exactly for the maintenance ID; flags a forwarding candidate exactly for default-arm IDs of 16 and above |
| IrqDispatch.Complete | thermosphere/src/irq.c:256-264 | either the hand-over alone, or the maintenance handler (when flagged) followed by the deactivation |
| IrqDispatch.RouteInterrupt | thermosphere/src/irq.c:221-278 | after the gate, the handler appends exactly `RoutedEvents`: host handler, transport top half, priority drop, completion, vGIC update, bottom half |
| IrqDispatch.DispatchEvents | thermosphere/src/irq.c:199-280 | the handler's whole trace; the spurious ID gives the empty trace (the lemmas below state the rest of it) |
| IrqDispatch.HandleIrqException | thermosphere/src/irq.c:199-280 | one call appends exactly `DispatchEvents` for the acknowledged value, the transport registry, the timer compare values and the counter |
| IrqDispatch.DispatchDropsThenCompletesOnce | thermosphere/src/irq.c:214-264 | every non-spurious interrupt gets an EOI with its IAR value; nothing before the EOI drops, deactivates or hands over; exactly one deactivation or hand-over follows it, and no second EOI; that completion is DIR(iar) or the hand-over of this interrupt's ID |
| IrqDispatch.GateFailedDropsThenCompletes | thermosphere/src/irq.c:214-218 | the early path of a timer interrupt that is not due drops once and then deactivates once, with DIR(iar) |
| IrqDispatch.RoutedDropsThenCompletes | thermosphere/src/irq.c:221-278 | the routed path drops once and then completes once, with DIR(iar) or the hand-over of IarId(iar) |
| IrqDispatch.SpuriousIsIgnored | thermosphere/src/irq.c:211-213 | the trace is empty iff the ID is spurious |
| IrqDispatch.GateFailureShortCircuits | thermosphere/src/irq.c:214-218 | a timer interrupt that is not due ends with EOI(iar) then DIR(iar); there is no hand-over, no maintenance handler and no vGIC update |
| IrqDispatch.EnqueuedIffForwarded | thermosphere/src/irq.c:241-263 | hand-over to the vGIC iff: the interrupt passed the gate, took the default arm, has ID >= 16, no transport claimed it, and irqIsGuest accepts it |
| IrqDispatch.SgisAreNeverEnqueued | thermosphere/src/irq.c:242 | no SGI is ever handed to the vGIC |
| IrqDispatch.MaintenanceOnlyForMaintenanceIrq | thermosphere/src/irq.c:235-259 | the maintenance handler runs iff the ID is the maintenance ID |
| IrqDispatch.VgicUpdatedIffPastGate | thermosphere/src/irq.c:267 | the vGIC state is updated iff the interrupt is not spurious and passed the gate |
| IrqDispatch.BottomHalfIffClaimed | thermosphere/src/irq.c:246-278 | the transport bottom half runs iff a transport claimed the interrupt, which needs ID >= 32 |
| SingleStep.DecodeState | thermosphere/src/single_step.c:25-32 | Inactive iff MDSCR.SS is clear; ActiveNotPending iff MDSCR.SS and PSTATE.SS are both set; ActivePending iff MDSCR.SS is set and PSTATE.SS is clear |
| SingleStep.SingleStepGetNextState | thermosphere/src/single_step.c:22-33 | the same truth table, read from this core's MDSCR_EL1 and the frame's SPSR_EL2 |
| SingleStep.NextMdscr | thermosphere/src/single_step.c:37-59 | only MDSCR.SS can change: clear for Inactive, set for either active state, unchanged for an out-of-range value |
| SingleStep.NextSpsr | thermosphere/src/single_step.c:39-57 | only PSTATE.SS can change: set for ActiveNotPending, clear for ActivePending, unchanged otherwise (Inactive included) |
| SingleStep.SingleStepSetNextState | thermosphere/src/single_step.c:35-61 | the new MDSCR_EL1 and SPSR_EL2 are `NextMdscr` and `NextSpsr` of the old values |
| SingleStep.SetThenGet | thermosphere/src/single_step.c:22-61 | setting any of the three states, then decoding, gives that state back |
| SingleStep.SetIdempotent | thermosphere/src/single_step.c:35-61 | setting the same state twice equals setting it once, on both registers |
| SingleStep.SetLeavesUnchanged | thermosphere/src/single_step.c:39-57 | an out-of-range state leaves both registers unchanged; Inactive leaves SPSR_EL2 unchanged |
| SingleStep.HandleSingleStep | thermosphere/src/single_step.c:63-75 | the decoded state is ActiveNotPending iff start <= ELR_EL2 < end, and Inactive otherwise (never ActivePending); only the two step bits change; ELR_EL2 and the stepping range are unchanged |

The members above are proved over some primitive steps, which have no table rows:
- the register-write methods of `GicHw.Gic`;
- the trace's `EventTrace.EventLog.Emit`;
- the counting lemmas `EventTrace.CountAppend` and `EventTrace.CountZero`;
- the framing lemma `Irq.IsResetIgnoresCtlr`.

## Left out

- The recursive spinlock and IRQ masking around `initIrq`, `configureInterrupt` and
  `irqSetAffinity`, and the handler's lock: the model is of one core with no preemption.
  `exceptionEnterInterruptibleHypervisorCode` followed by `unmaskIrq` is one event,
  `EnterInterruptible`.
- The hardware effect of reading IAR and writing EOIR/DIR on a line's pending and active state:
  these writes are recorded as trace events. The handler's distributor is not modelled.
- The virtual interrupt controller, the transport registry, the timer subsystem and the host
  SGI handlers: these are calls into code outside the model. They are events in the trace.
  `vgicInit` is taken not to touch the physical distributor. The transport registry is a set
  of claimed IDs. `transportInterfaceIrqHandlerTopHalf` returns non-null exactly for a claimed
  ID.
- `computeCntvct`: the guest's counter value `vct` is an input. The repeated rescheduling of
  the emulated physical timer and its real-time behaviour are not modelled.
- `writeEmulatedPhysicalCompareValue` is the event `ReschedulePtimer(cval)`. Its effect on the
  timer hardware is not modelled.
- Banking of the distributor registers: the model is the view of one core. Lines 0-31 are
  this core's private lines. The other cores' banked copies are not modelled.
- IDs 1020-1022, which the architecture reserves, are ordinary IDs here. The handler in the
  code does not distinguish them either.
- `__isb`, the `DEBUG` logging and the exception-syndrome fields `handleSingleStep` reads for
  its log message only. The `isLowerEl`/`isA32` parameters are ignored in the code too.
- `thermosphere/src/debug_pause.h`: it declares only a cross-core pause barrier. The barrier
  is multi-core synchronisation with no logic to model. Its handler is the event
  `DebugPauseHandler`.
- `u16` IDs and `u8`/`u32` manager fields are unbounded naturals. Every ID that reaches these
  functions is below 1024, and every computed field fits its C width, with the one exception
  reported under Findings.
- The values of the `SingleStepState` enumerators are taken as 0, 1 and 2, in declaration
  order, because `single_step.h` is not part of this model. An argument of any other value
  takes the switch's default arm.
- `Irq.DiscoverTopology`, `Irq.DiscoverGic`, `Irq.InitGic` and `Irq.InitIrq` store the
  priority level count as an unbounded 2^p, where the code stores a byte. The last three record
  the value through `Discovered`. The byte as written is `Irq.PriorityLevelsAsWritten`, and it
  differs when p = 8 (see Findings).

## Findings

| source | as written | input that shows it | evidently intended | confidence | as-written member | corrected member |
|---|---|---|---|---|---|---|
| thermosphere/src/irq.c:41 | `numPriorityLevels = (u8)BIT(__builtin_popcount(ipriorityr[0]))` truncates 2^p to a byte | a GICv2 that implements all 8 priority bits (no security extensions) reads back 0xFF, so p = 8 and BIT(8) = 256 is stored as 0 | numPriorityLevels = 2^p = 256, consistent with priorityShift = 0 | not executed | Irq.PriorityLevelsAsWrittenWraps | Irq.DiscoverPriorityResolution |
