// The physical interrupt handler: acknowledge, filter, route, complete.
//
// GICC_IAR is read once; the handler then writes the same value to GICC_EOIR (priority
// drop) and either to GICC_DIR (deactivation) or hands the line to the virtual interrupt
// controller, which deactivates it later through a list register (EOImodeNS is set, so
// drop and deactivation are separate).  `DispatchEvents` is the trace a call appends,
// stated by what each interrupt class triggers; `HandleIrqException` computes it the way
// the handler does, with its flags.
module IrqDispatch {
  import opened Bits
  import opened Platform
  import opened EventTrace
  import opened CoreContext
  import opened Irq

  /** The interrupt ID field of GICC_IAR, bits [9:0]. */
  function IarId(iar: bv32): (id: nat)
    ensures id < NumLines
  {
    (iar & 0x3FF) as nat
  }

  /** The CPUID field of GICC_IAR, bits [12:10]: the core that sent an SGI. */
  function IarSource(iar: bv32): (src: nat)
    ensures src < 8
  {
    ((iar >> 10) & 7) as nat
  }

  /** The value the CPU interface presents in GICC_IAR for interrupt `id` sent by `src`. */
  function EncodeIar(id: bv32, src: bv32): bv32
    requires id < 1024 && src < 8
  {
    (src << 10) | id
  }

  /** Decoding recovers both fields of an acknowledge value. */
  lemma DecodeEncodeIar(id: bv32, src: bv32)
    requires id < 1024 && src < 8
    ensures IarId(EncodeIar(id, src)) == id as nat && IarSource(EncodeIar(id, src)) == src as nat
  {
    IdFieldOfEncoding(id, src);
    SourceFieldOfEncoding(id, src);
  }

  lemma IdFieldOfEncoding(id: bv32, src: bv32)
    requires id < 1024 && src < 8
    ensures EncodeIar(id, src) & 0x3FF == id
  {
  }

  lemma SourceFieldOfEncoding(id: bv32, src: bv32)
    requires id < 1024 && src < 8
    ensures (EncodeIar(id, src) >> 10) & 7 == src
  {
  }

  /** Which arm of the handler's switch an interrupt ID takes. */
  datatype IrqClass =
    | ExecuteFunctionSgi
    | VgicUpdateSgi
    | DebugPauseSgi
    | MaintenanceIrq
    | HostTimerIrq
    | OtherIrq

  function Classify(ids: PlatformIds, id: nat): (c: IrqClass)
    requires ids.Valid()
    ensures c == ExecuteFunctionSgi <==> id == ids.sgiExecuteFunction
    ensures c == VgicUpdateSgi <==> id == ids.sgiVgicUpdate
    ensures c == DebugPauseSgi <==> id == ids.sgiDebugPause
    ensures c == MaintenanceIrq <==> id == ids.maintenance
    ensures c == HostTimerIrq <==> id == ids.currentTimer
  {
    if id == ids.sgiExecuteFunction then ExecuteFunctionSgi
    else if id == ids.sgiVgicUpdate then VgicUpdateSgi
    else if id == ids.sgiDebugPause then DebugPauseSgi
    else if id == ids.maintenance then MaintenanceIrq
    else if id == ids.currentTimer then HostTimerIrq
    else OtherIrq
  }

  /** The host handler each class runs before the priority drop. */
  function HandlerEvents(c: IrqClass, src: nat): seq<Event> {
    match c
    case ExecuteFunctionSgi => [ExecuteFunction(src)]
    case DebugPauseSgi => [DebugPauseHandler]
    case HostTimerIrq => [TimerHandler]
    case _ => []
  }

  /** Whether the interrupt goes to the guest's virtual interrupt controller: it is not one
      the hypervisor handles itself, it is not an SGI, no transport claimed it, and
      irqIsGuest accepts it. */
  predicate Forwarded(ids: PlatformIds, numShared: nat, transport: set<nat>, id: nat)
    requires ids.Valid()
  {
    && Classify(ids, id) == OtherIrq
    && id >= FirstPpi
    && !(id >= FirstSpi && id in transport)
    && IrqIsGuest(ids, numShared, transport, id)
  }

  /** What runs before the priority drop: the host handler of the interrupt's class and,
      for a shared line, the transport top half. */
  function BeforeDrop(ids: PlatformIds, iar: bv32): seq<Event>
    requires ids.Valid()
  {
    var id := IarId(iar);
    HandlerEvents(Classify(ids, id), IarSource(iar)) + (if id >= FirstSpi then [TransportTopHalf(id)] else [])
  }

  /** The completion of an interrupt: the hand-over to the virtual interrupt controller,
      or else the maintenance handler (for that line only) and the deactivation. */
  function Completion(ids: PlatformIds, numShared: nat, transport: set<nat>, iar: bv32): seq<Event>
    requires ids.Valid()
  {
    var id := IarId(iar);
    if Forwarded(ids, numShared, transport, id) then [Enqueue(id)]
    else (if Classify(ids, id) == MaintenanceIrq then [Maintenance] else []) + [Dir(iar)]
  }

  /** The bottom half, run when a transport claimed the (shared) line. */
  function BottomHalf(transport: set<nat>, iar: bv32): seq<Event> {
    var id := IarId(iar);
    if id >= FirstSpi && id in transport then [EnterInterruptible, TransportBottomHalf(id)] else []
  }

  /** The trace of an interrupt that passed the timer gate. */
  function RoutedEvents(ids: PlatformIds, numShared: nat, transport: set<nat>, iar: bv32): seq<Event>
    requires ids.Valid()
  {
    BeforeDrop(ids, iar) + [Eoi(iar)] + Completion(ids, numShared, transport, iar)
      + [VgicUpdateState] + BottomHalf(transport, iar)
  }

  /** The trace one call of the handler appends, for the acknowledge value `iar`, a
      transport registry `transport`, the compare values of the guest's timers and the
      guest's view `vct` of the virtual counter: nothing for the spurious ID; the gate's
      own events, the priority drop and the deactivation for a timer interrupt that is not
      due; the routed trace otherwise. */
  function DispatchEvents(ids: PlatformIds, numShared: nat, transport: set<nat>, iar: bv32,
                          cntpCval: u64, emulCval: u64, vct: u64): (r: seq<Event>)
    requires ids.Valid()
    ensures IarId(iar) == Spurious ==> r == []
  {
    var id := IarId(iar);
    if id == Spurious then []
    else if !GuestTimerDue(ids, id, cntpCval, emulCval, vct) then
      GateEvents(ids, id, cntpCval, emulCval, vct) + [Eoi(iar), Dir(iar)]
    else RoutedEvents(ids, numShared, transport, iar)
  }

  /** The switch of handleIrqException: run the host handler of the interrupt's class and
      flag the maintenance interrupt and the candidates for forwarding to the guest. */
  method RunHostHandler(ids: PlatformIds, log: EventLog, irqId: nat, srcCore: nat)
    returns (isGuestInterrupt: bool, isMaintenanceInterrupt: bool)
    requires ids.Valid()
    modifies log
    ensures log.events == old(log.events) + HandlerEvents(Classify(ids, irqId), srcCore)
    ensures isMaintenanceInterrupt <==> Classify(ids, irqId) == MaintenanceIrq
    ensures isGuestInterrupt <==> Classify(ids, irqId) == OtherIrq && irqId >= FirstPpi
  {
    isGuestInterrupt, isMaintenanceInterrupt := false, false;
    if irqId == ids.sgiExecuteFunction {
      log.Emit(ExecuteFunction(srcCore));
    } else if irqId == ids.sgiVgicUpdate {
      // nothing in particular to do
    } else if irqId == ids.sgiDebugPause {
      log.Emit(DebugPauseHandler);
    } else if irqId == ids.maintenance {
      isMaintenanceInterrupt := true;
    } else if irqId == ids.currentTimer {
      log.Emit(TimerHandler);
    } else {
      isGuestInterrupt := irqId >= FirstPpi;
    }
  }

  /** handleIrqException.  The acknowledge value and the counter are inputs; the shared
      line count comes from the interrupt manager. */
  method HandleIrqException(ids: PlatformIds, mgr: IrqManager, sys: SysRegs, ctx: CoreCtx, log: EventLog,
                            transport: set<nat>, iar: bv32, vct: u64)
    requires ids.Valid()
    modifies log
    ensures log.events == old(log.events)
      + DispatchEvents(ids, mgr.numSharedInterrupts, transport, iar, sys.cntpCvalEl0, ctx.emulPtimerCval, vct)
  {
    var irqId := IarId(iar);

    if irqId == Spurious {
      return;
    }
    var due := CheckGuestTimerInterrupts(ids, sys, ctx, log, irqId, vct);
    if !due {
      // Deactivate the interrupt, return early
      log.Emit(Eoi(iar));
      log.Emit(Dir(iar));
      return;
    }

    RouteInterrupt(ids, mgr, log, transport, iar);
  }

  /** handleIrqException after the timer gate: the switch, the transport top half, the
      priority drop, the deactivation or hand-over, and the bottom half. */
  method RouteInterrupt(ids: PlatformIds, mgr: IrqManager, log: EventLog, transport: set<nat>, iar: bv32)
    requires ids.Valid()
    modifies log
    ensures log.events == old(log.events) + RoutedEvents(ids, mgr.numSharedInterrupts, transport, iar)
  {
    var irqId := IarId(iar);
    var srcCore := IarSource(iar);
    var isGuestInterrupt, isMaintenanceInterrupt := RunHostHandler(ids, log, irqId, srcCore);
    var hasBottomHalf := false;
    ghost var start := old(log.events);

    var transportIface := false;
    if irqId >= FirstSpi {
      log.Emit(TransportTopHalf(irqId));
      transportIface := irqId in transport;
    }
    hasBottomHalf := hasBottomHalf || transportIface;

    // Priority drop
    log.Emit(Eoi(iar));
    assert log.events == start + BeforeDrop(ids, iar) + [Eoi(iar)];
    ghost var dropped := log.events;

    isGuestInterrupt := isGuestInterrupt && !transportIface && IrqIsGuest(ids, mgr.numSharedInterrupts, transport, irqId);

    assert isGuestInterrupt == Forwarded(ids, mgr.numSharedInterrupts, transport, irqId);
    assert isMaintenanceInterrupt == (Classify(ids, irqId) == MaintenanceIrq);
    Complete(log, iar, isGuestInterrupt, isMaintenanceInterrupt);
    assert log.events == dropped + Completion(ids, mgr.numSharedInterrupts, transport, iar);
    log.Emit(VgicUpdateState);

    if hasBottomHalf {
      log.Emit(EnterInterruptible);
      if transportIface {
        log.Emit(TransportBottomHalf(irqId));
      }
    }
  }

  /** The deactivation (after the maintenance handler, for that line) or the hand-over. */
  method Complete(log: EventLog, iar: bv32, isGuestInterrupt: bool, isMaintenanceInterrupt: bool)
    modifies log
    ensures log.events == old(log.events)
      + if isGuestInterrupt then [Enqueue(IarId(iar))]
        else (if isMaintenanceInterrupt then [Maintenance] else []) + [Dir(iar)]
  {
    if !isGuestInterrupt {
      if isMaintenanceInterrupt {
        log.Emit(Maintenance);
      }
      // Deactivate the interrupt
      log.Emit(Dir(iar));
    } else {
      log.Emit(Enqueue(IarId(iar)));
    }
  }

  // Properties of the trace.

  /** Events of none of the counted kinds: handler calls, top halves and the like. */
  predicate Quiet(t: seq<Event>) {
    forall i :: 0 <= i < |t| ==> KindOf(t[i]) == OtherKind
  }

  lemma QuietCount(t: seq<Event>, k: Kind)
    requires Quiet(t) && k != OtherKind
    ensures Count(t, k) == 0
  {
    CountZero(t, k);
  }

  lemma CountOne(e: Event, k: Kind)
    ensures Count([e], k) == if KindOf(e) == k then 1 else 0
  {
    assert [e][1..] == [];
  }

  /** The completion is exactly one deactivation or exactly one hand-over. */
  lemma CompletionCounts(ids: PlatformIds, numShared: nat, transport: set<nat>, iar: bv32)
    requires ids.Valid()
    ensures var c := Completion(ids, numShared, transport, iar);
      var fwd := Forwarded(ids, numShared, transport, IarId(iar));
      && Count(c, EoiKind) == 0
      && Count(c, DirKind) == (if fwd then 0 else 1)
      && Count(c, EnqueueKind) == (if fwd then 1 else 0)
  {
    var id := IarId(iar);
    var maint := if Classify(ids, id) == MaintenanceIrq then [Maintenance] else [];
    if !Forwarded(ids, numShared, transport, id) {
      assert Quiet(maint) || maint == [Maintenance];
      CountAppend(maint, [Dir(iar)], EoiKind);
      CountAppend(maint, [Dir(iar)], DirKind);
      CountAppend(maint, [Dir(iar)], EnqueueKind);
      CountOne(Dir(iar), EoiKind);
      CountOne(Dir(iar), DirKind);
      CountOne(Dir(iar), EnqueueKind);
      if maint != [] {
        CountOne(Maintenance, EoiKind);
        CountOne(Maintenance, DirKind);
        CountOne(Maintenance, EnqueueKind);
      }
    } else {
      CountOne(Enqueue(id), EoiKind);
      CountOne(Enqueue(id), DirKind);
      CountOne(Enqueue(id), EnqueueKind);
    }
  }

  /** After the completion come only the state update and the bottom half. */
  lemma AfterCompletionCounts(transport: set<nat>, iar: bv32, k: Kind)
    requires k == EoiKind || k == DirKind || k == EnqueueKind
    ensures Count([VgicUpdateState] + BottomHalf(transport, iar), k) == 0
  {
    var b := BottomHalf(transport, iar);
    assert forall i :: 0 <= i < |b| ==> KindOf(b[i]) != k;
    CountZero(b, k);
    CountAppend([VgicUpdateState], b, k);
    CountOne(VgicUpdateState, k);
  }

  /** The completion, and whatever follows it, deactivates or hands over this very
      interrupt: DIR gets the acknowledge value, the hand-over its ID. */
  lemma CompletionNamesInterrupt(ids: PlatformIds, numShared: nat, transport: set<nat>, iar: bv32, tail: seq<Event>)
    requires ids.Valid()
    ensures var post := Completion(ids, numShared, transport, iar) + tail;
      Dir(iar) in post || Enqueue(IarId(iar)) in post
  {
    var c := Completion(ids, numShared, transport, iar);
    assert c[|c| - 1] == Dir(iar) || c[0] == Enqueue(IarId(iar));
    assert (c + tail)[|c| - 1] == c[|c| - 1] && (c + tail)[0] == c[0];
  }

  /** The split of a trace at position `i`: nothing before it drops a priority, deactivates
      or hands over; exactly one deactivation or hand-over and no drop follow it. */
  predicate DropThenComplete(e: seq<Event>, i: nat)
    requires i < |e|
  {
    && Count(e[..i], EoiKind) == 0 && Count(e[..i], DirKind) == 0 && Count(e[..i], EnqueueKind) == 0
    && Count(e[i + 1..], EoiKind) == 0
    && Count(e[i + 1..], DirKind) + Count(e[i + 1..], EnqueueKind) == 1
  }

  /** A timer interrupt that is not due yet is dropped and deactivated at once. */
  lemma GateFailedDropsThenCompletes(ids: PlatformIds, iar: bv32, cntpCval: u64, emulCval: u64, vct: u64)
    requires ids.Valid()
    ensures var e := GateEvents(ids, IarId(iar), cntpCval, emulCval, vct) + [Eoi(iar), Dir(iar)];
      exists i :: 0 <= i < |e| && e[i] == Eoi(iar) && DropThenComplete(e, i) && Dir(iar) in e[i + 1..]
  {
    var pre := GateEvents(ids, IarId(iar), cntpCval, emulCval, vct);
    var e := pre + [Eoi(iar), Dir(iar)];
    var i := |pre|;
    assert e[..i] == pre && e[i + 1..] == [Dir(iar)];
    assert Quiet(pre);
    QuietCount(pre, EoiKind);
    QuietCount(pre, DirKind);
    QuietCount(pre, EnqueueKind);
    CountOne(Dir(iar), EoiKind);
    CountOne(Dir(iar), DirKind);
    CountOne(Dir(iar), EnqueueKind);
    assert e[i] == Eoi(iar) && DropThenComplete(e, i) && e[i + 1..][0] == Dir(iar);
  }

  /** An interrupt past the gate is dropped once, then completed once. */
  lemma RoutedDropsThenCompletes(ids: PlatformIds, numShared: nat, transport: set<nat>, iar: bv32)
    requires ids.Valid()
    ensures var e := RoutedEvents(ids, numShared, transport, iar);
      exists i :: 0 <= i < |e| && e[i] == Eoi(iar) && DropThenComplete(e, i)
        && (Dir(iar) in e[i + 1..] || Enqueue(IarId(iar)) in e[i + 1..])
  {
    var e := RoutedEvents(ids, numShared, transport, iar);
    var pre := BeforeDrop(ids, iar);
    var c := Completion(ids, numShared, transport, iar);
    var tail := [VgicUpdateState] + BottomHalf(transport, iar);
    var post := c + tail;
    assert e == pre + [Eoi(iar)] + post;
    var i := |pre|;
    assert e[..i] == pre && e[i + 1..] == post;
    assert Quiet(pre);
    QuietCount(pre, EoiKind);
    QuietCount(pre, DirKind);
    QuietCount(pre, EnqueueKind);
    CompletionCounts(ids, numShared, transport, iar);
    AfterCompletionCounts(transport, iar, EoiKind);
    AfterCompletionCounts(transport, iar, DirKind);
    AfterCompletionCounts(transport, iar, EnqueueKind);
    CountAppend(c, tail, EoiKind);
    CountAppend(c, tail, DirKind);
    CountAppend(c, tail, EnqueueKind);
    assert e[i] == Eoi(iar) && DropThenComplete(e, i);
    CompletionNamesInterrupt(ids, numShared, transport, iar, tail);
  }

  /** Every interrupt the handler takes (any ID but the spurious one) gets exactly one
      priority drop, with the acknowledge value, and after it exactly one of a deactivation
      or a hand-over to the virtual interrupt controller, never both. */
  lemma DispatchDropsThenCompletesOnce(ids: PlatformIds, numShared: nat, transport: set<nat>, iar: bv32,
                                       cntpCval: u64, emulCval: u64, vct: u64)
    requires ids.Valid() && IarId(iar) != Spurious
    ensures var e := DispatchEvents(ids, numShared, transport, iar, cntpCval, emulCval, vct);
      exists i :: 0 <= i < |e| && e[i] == Eoi(iar) && DropThenComplete(e, i)
        && (Dir(iar) in e[i + 1..] || Enqueue(IarId(iar)) in e[i + 1..])
  {
    if GuestTimerDue(ids, IarId(iar), cntpCval, emulCval, vct) {
      assert DispatchEvents(ids, numShared, transport, iar, cntpCval, emulCval, vct)
          == RoutedEvents(ids, numShared, transport, iar);
      RoutedDropsThenCompletes(ids, numShared, transport, iar);
    } else {
      assert DispatchEvents(ids, numShared, transport, iar, cntpCval, emulCval, vct)
          == GateEvents(ids, IarId(iar), cntpCval, emulCval, vct) + [Eoi(iar), Dir(iar)];
      GateFailedDropsThenCompletes(ids, iar, cntpCval, emulCval, vct);
    }
  }

  /** A spurious acknowledge produces nothing; every other ID reaches the gate. */
  lemma SpuriousIsIgnored(ids: PlatformIds, numShared: nat, transport: set<nat>, iar: bv32,
                          cntpCval: u64, emulCval: u64, vct: u64)
    requires ids.Valid()
    ensures DispatchEvents(ids, numShared, transport, iar, cntpCval, emulCval, vct) == [] <==> IarId(iar) == Spurious
  {
    if IarId(iar) != Spurious {
      var e := DispatchEvents(ids, numShared, transport, iar, cntpCval, emulCval, vct);
      DispatchDropsThenCompletesOnce(ids, numShared, transport, iar, cntpCval, emulCval, vct);
      assert Eoi(iar) in e;
    }
  }

  /** A timer interrupt that is not due is dropped and deactivated as the last two events,
      never handed over, and the virtual interrupt controller is not updated. */
  lemma GateFailureShortCircuits(ids: PlatformIds, numShared: nat, transport: set<nat>, iar: bv32,
                                 cntpCval: u64, emulCval: u64, vct: u64)
    requires ids.Valid() && IarId(iar) != Spurious && !GuestTimerDue(ids, IarId(iar), cntpCval, emulCval, vct)
    ensures var e := DispatchEvents(ids, numShared, transport, iar, cntpCval, emulCval, vct);
      && |e| >= 2 && e[|e| - 2..] == [Eoi(iar), Dir(iar)]
      && Count(e, EnqueueKind) == 0 && Count(e, UpdateKind) == 0 && Count(e, MaintenanceKind) == 0
  {
    var pre := GateEvents(ids, IarId(iar), cntpCval, emulCval, vct);
    var e := pre + [Eoi(iar), Dir(iar)];
    assert Quiet(pre);
    assert forall i :: 0 <= i < |e| ==> KindOf(e[i]) != EnqueueKind && KindOf(e[i]) != UpdateKind && KindOf(e[i]) != MaintenanceKind;
    CountZero(e, EnqueueKind);
    CountZero(e, UpdateKind);
    CountZero(e, MaintenanceKind);
  }

  /** The handler hands an interrupt to the virtual interrupt controller exactly when it
      passed the gate, is not one the hypervisor handles itself, is not an SGI, no transport
      top half claimed it, and irqIsGuest accepts it. */
  lemma EnqueuedIffForwarded(ids: PlatformIds, numShared: nat, transport: set<nat>, iar: bv32,
                             cntpCval: u64, emulCval: u64, vct: u64)
    requires ids.Valid()
    ensures var id := IarId(iar);
      Enqueue(id) in DispatchEvents(ids, numShared, transport, iar, cntpCval, emulCval, vct)
      <==> && id != Spurious && GuestTimerDue(ids, id, cntpCval, emulCval, vct)
           && Classify(ids, id) == OtherIrq && id >= FirstPpi && !(id >= FirstSpi && id in transport)
           && IrqIsGuest(ids, numShared, transport, id)
  {
    var id := IarId(iar);
    if id != Spurious && GuestTimerDue(ids, id, cntpCval, emulCval, vct) {
      assert DispatchEvents(ids, numShared, transport, iar, cntpCval, emulCval, vct)
          == RoutedEvents(ids, numShared, transport, iar);
    }
  }

  /** No SGI is ever handed to the virtual interrupt controller, although irqIsGuest alone
      accepts the hypervisor's own SGIs. */
  lemma SgisAreNeverEnqueued(ids: PlatformIds, numShared: nat, transport: set<nat>, iar: bv32,
                             cntpCval: u64, emulCval: u64, vct: u64)
    requires ids.Valid() && IarId(iar) < FirstPpi
    ensures Count(DispatchEvents(ids, numShared, transport, iar, cntpCval, emulCval, vct), EnqueueKind) == 0
  {
    var e := DispatchEvents(ids, numShared, transport, iar, cntpCval, emulCval, vct);
    assert !Forwarded(ids, numShared, transport, IarId(iar));
    if GuestTimerDue(ids, IarId(iar), cntpCval, emulCval, vct) {
      assert e == RoutedEvents(ids, numShared, transport, iar);
    }
    assert forall i :: 0 <= i < |e| ==> KindOf(e[i]) != EnqueueKind;
    CountZero(e, EnqueueKind);
  }

  /** The maintenance handler runs exactly for the maintenance interrupt. */
  lemma MaintenanceOnlyForMaintenanceIrq(ids: PlatformIds, numShared: nat, transport: set<nat>, iar: bv32,
                                         cntpCval: u64, emulCval: u64, vct: u64)
    requires ids.Valid()
    ensures Maintenance in DispatchEvents(ids, numShared, transport, iar, cntpCval, emulCval, vct)
            <==> IarId(iar) == ids.maintenance
  {
    var id := IarId(iar);
    if id == ids.maintenance {
      assert GuestTimerDue(ids, id, cntpCval, emulCval, vct);
      assert DispatchEvents(ids, numShared, transport, iar, cntpCval, emulCval, vct)
          == RoutedEvents(ids, numShared, transport, iar);
    } else if id != Spurious && GuestTimerDue(ids, id, cntpCval, emulCval, vct) {
      assert DispatchEvents(ids, numShared, transport, iar, cntpCval, emulCval, vct)
          == RoutedEvents(ids, numShared, transport, iar);
    }
  }

  /** The virtual interrupt controller's state is updated on every path that passed the
      spurious check and the timer gate, and on no other. */
  lemma VgicUpdatedIffPastGate(ids: PlatformIds, numShared: nat, transport: set<nat>, iar: bv32,
                               cntpCval: u64, emulCval: u64, vct: u64)
    requires ids.Valid()
    ensures VgicUpdateState in DispatchEvents(ids, numShared, transport, iar, cntpCval, emulCval, vct)
            <==> IarId(iar) != Spurious && GuestTimerDue(ids, IarId(iar), cntpCval, emulCval, vct)
  {
    var id := IarId(iar);
    if id != Spurious && GuestTimerDue(ids, id, cntpCval, emulCval, vct) {
      assert DispatchEvents(ids, numShared, transport, iar, cntpCval, emulCval, vct)
          == RoutedEvents(ids, numShared, transport, iar);
    }
  }

  /** The bottom half runs exactly when a transport claimed the interrupt, which needs a
      shared line. */
  lemma BottomHalfIffClaimed(ids: PlatformIds, numShared: nat, transport: set<nat>, iar: bv32,
                             cntpCval: u64, emulCval: u64, vct: u64)
    requires ids.Valid()
    ensures var id := IarId(iar);
      TransportBottomHalf(id) in DispatchEvents(ids, numShared, transport, iar, cntpCval, emulCval, vct)
      <==> id != Spurious && GuestTimerDue(ids, id, cntpCval, emulCval, vct) && id >= FirstSpi && id in transport
  {
    var id := IarId(iar);
    if id != Spurious && GuestTimerDue(ids, id, cntpCval, emulCval, vct) {
      assert DispatchEvents(ids, numShared, transport, iar, cntpCval, emulCval, vct)
          == RoutedEvents(ids, numShared, transport, iar);
    }
  }
}
