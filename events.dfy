// What the interrupt path does outside the distributor, as an ordered trace: its writes
// to the CPU interface's completion registers and its calls into collaborators the
// model does not contain (the virtual interrupt controller, the transport registry, the
// timer subsystem and the host SGI handlers).
module EventTrace {
  import opened Bits

  datatype Event =
    | Eoi(iar: bv32)                // write to GICC_EOIR: priority drop
    | Dir(iar: bv32)                // write to GICC_DIR: deactivation
    | Enqueue(id: nat)              // vgicEnqueuePhysicalIrq
    | Maintenance                   // vgicMaintenanceInterruptHandler
    | VgicUpdateState               // vgicUpdateState
    | VgicInit                      // vgicInit
    | ExecuteFunction(srcCore: nat) // executeFunctionInterruptHandler
    | DebugPauseHandler             // debugManagerPauseSgiHandler
    | TimerHandler                  // timerInterruptHandler
    | TransportTopHalf(id: nat)     // transportInterfaceIrqHandlerTopHalf
    | EnterInterruptible            // exceptionEnterInterruptibleHypervisorCode, then unmaskIrq
    | TransportBottomHalf(id: nat)  // transportInterfaceIrqHandlerBottomHalf
    | ReschedulePtimer(cval: u64)   // writeEmulatedPhysicalCompareValue

  /** The kinds of event the dispatch properties count. */
  datatype Kind = EoiKind | DirKind | EnqueueKind | MaintenanceKind | UpdateKind | BottomHalfKind | OtherKind

  function KindOf(e: Event): Kind {
    match e
    case Eoi(_) => EoiKind
    case Dir(_) => DirKind
    case Enqueue(_) => EnqueueKind
    case Maintenance => MaintenanceKind
    case VgicUpdateState => UpdateKind
    case TransportBottomHalf(_) => BottomHalfKind
    case _ => OtherKind
  }

  /** Number of events of kind `k` in `t`. */
  function Count(t: seq<Event>, k: Kind): (n: nat)
    ensures n <= |t|
  {
    if t == [] then 0 else (if KindOf(t[0]) == k then 1 else 0) + Count(t[1..], k)
  }

  lemma {:induction false} CountAppend(a: seq<Event>, b: seq<Event>, k: Kind)
    ensures Count(a + b, k) == Count(a, k) + Count(b, k)
  {
    if a != [] {
      assert (a + b)[1..] == a[1..] + b;
      CountAppend(a[1..], b, k);
    } else {
      assert a + b == b;
    }
  }

  /** `t` has no event of kind `k` exactly when the count is zero. */
  lemma {:induction false} CountZero(t: seq<Event>, k: Kind)
    ensures Count(t, k) == 0 <==> forall i :: 0 <= i < |t| ==> KindOf(t[i]) != k
  {
    if t != [] {
      CountZero(t[1..], k);
      assert forall i :: 1 <= i < |t| ==> t[i] == t[1..][i - 1];
    }
  }

  /** The trace a core has produced so far. */
  class EventLog {
    var events: seq<Event>

    constructor ()
      ensures events == []
    {
      events := [];
    }

    method Emit(e: Event)
      modifies this
      ensures events == old(events) + [e]
    {
      events := events + [e];
    }
  }
}
