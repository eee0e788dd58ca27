// The interrupt manager and the controller operations of thermosphere/src/irq.c:
// topology discovery and reset of the physical GICv2, line configuration, affinity,
// the guest-ownership predicate and the guest-timer validity gate.  The recursive
// IRQ-masking lock that brackets the configuration calls is a no-op here (one core,
// no preemption).
module Irq {
  import opened Bits
  import opened Platform
  import opened GicHw
  import opened EventTrace
  import opened CoreContext

  /** The controller topology the boot core records on cold boot. */
  datatype Topology = Topology(
    numSharedInterrupts: nat,
    priorityShift: nat,
    numPriorityLevels: nat,
    numCpuInterfaces: nat,
    numListRegisters: nat)

  /** The process-wide interrupt manager, g_irqManager (zero-initialised). */
  class IrqManager {
    var numSharedInterrupts: nat
    var priorityShift: nat
    var numPriorityLevels: nat
    var numCpuInterfaces: nat
    var numListRegisters: nat

    ghost predicate Valid()
      reads this
    {
      && numSharedInterrupts % 32 == 0 && numSharedInterrupts <= NumLines - FirstSpi
      && priorityShift <= 8
    }

    constructor ()
      ensures Valid() && Recorded() == Topology(0, 0, 0, 0, 0)
    {
      numSharedInterrupts, priorityShift, numPriorityLevels := 0, 0, 0;
      numCpuInterfaces, numListRegisters := 0, 0;
    }

    function Recorded(): Topology
      reads this
    {
      Topology(numSharedInterrupts, priorityShift, numPriorityLevels, numCpuInterfaces, numListRegisters)
    }
  }

  /** What cold-boot discovery derives from GICD_TYPER, GICH_VTR and the byte read back
      after writing 0xFF to a priority field: 32 shared lines per ITLinesNumber step,
      CPUNumber + 1 interfaces, ListRegs + 1 list registers, and the priority resolution. */
  function DiscoverTopology(typer: bv32, vtr: bv32, priorityReadback: bv8): (t: Topology)
    ensures t.numSharedInterrupts % 32 == 0 && t.numSharedInterrupts <= NumLines - FirstSpi
    ensures 1 <= t.numCpuInterfaces <= 8 && 1 <= t.numListRegisters <= 64
    ensures t.priorityShift <= 8 && t.numPriorityLevels == Pow2(8 - t.priorityShift)
  {
    var implemented := PopCount8(priorityReadback);
    Topology(
      32 * ((typer & 0x1F) as nat),
      8 - implemented,
      Pow2(implemented),
      1 + ((typer >> 5) & 7) as nat,
      1 + (vtr & 0x3F) as nat)
  }

  /** `numPriorityLevels` exactly as the source stores it: `(u8)BIT(p)`. */
  function PriorityLevelsAsWritten(implemented: nat): (r: nat)
    requires implemented <= 8
    ensures r < 256
  {
    Pow2(implemented) % 256
  }

  /** With all eight priority bits implemented the stored level count wraps to 0,
      although the resolution is 2^(8 - priorityShift) = 256 levels. */
  lemma PriorityLevelsAsWrittenWraps()
    ensures PriorityLevelsAsWritten(PopCount8(0xFF)) == 0
    ensures Pow2(8 - (8 - PopCount8(0xFF))) == 256
  {
    PopCountTopBits(8);
    assert TopBits8(8) == 0xFF;
  }

  lemma {:induction false} Pow2Monotone(p: nat, q: nat)
    requires p <= q
    ensures Pow2(p) <= Pow2(q)
    decreases q
  {
    if p < q {
      Pow2Monotone(p, q - 1);
    }
  }

  /** Below eight implemented bits the source's byte is the true level count. */
  lemma PriorityLevelsAsWrittenBelow8(p: nat)
    requires p < 8
    ensures PriorityLevelsAsWritten(p) == Pow2(p)
  {
    Pow2Monotone(p, 7);
    assert Pow2(7) == 128;
  }

  /** The priority readback determines the shift: a distributor implementing `bits`
      priority bits gives priorityShift = 8 - bits and 2^bits levels. */
  lemma DiscoverPriorityResolution(typer: bv32, vtr: bv32, bits: nat)
    requires bits <= 8
    ensures DiscoverTopology(typer, vtr, TopBits8(bits)).priorityShift == 8 - bits
    ensures DiscoverTopology(typer, vtr, TopBits8(bits)).numPriorityLevels == Pow2(bits)
  {
    PopCountTopBits(bits);
  }

  /** The manager holds what cold-boot discovery reads from this controller. */
  ghost predicate Discovered(mgr: IrqManager, gic: Gic)
    reads mgr
  {
    gic.priorityBits <= 8 && mgr.Recorded() == DiscoverTopology(gic.typer, gic.vtr, TopBits8(gic.priorityBits))
  }

  /** Lines a core resets: its 32 banked lines, plus every shared line on the boot core. */
  function NumInterrupts(isBootCore: bool, numShared: nat): (n: nat)
    ensures n >= FirstSpi
    ensures !isBootCore ==> n == FirstSpi
    ensures isBootCore ==> n - FirstSpi == numShared
  {
    FirstSpi + (if isBootCore then numShared else 0)
  }

  /** `d` is `d0` after the initializer's reset of the first `n` lines. */
  ghost predicate IsReset(d0: Distributor, d: Distributor, n: nat, bits: nat)
    requires d0.WellFormed() && d.WellFormed() && bits <= 8
  {
    && (forall k :: 0 <= k < NumLines ==>
          && d.enabled[k] == (if k < n then false else d0.enabled[k])
          && d.pending[k] == (if k < n then false else d0.pending[k])
          && d.active[k] == (if k < n then false else d0.active[k])
          && d.priority[k] == (if k < n then TopBits8(bits) else d0.priority[k])
          && d.target[k] == (if FirstSpi <= k < n then 0 else d0.target[k]))
    && (forall w :: 0 <= w < NumLines / 16 ==>
          d.icfgr[w] == if FirstSpi / 16 <= w < n / 16 then 0x5555_5555 else d0.icfgr[w])
  }

  /** 0x55555555 configures all sixteen lines of a word as level-sensitive. */
  lemma AllLevelSensitive(f: bv32)
    requires f < 16
    ensures ConfigField(0x5555_5555, f) == 1
  {
  }

  /** The first loop of initGic: ICENABLER, ICACTIVER and ICPENDR words below numInterrupts / 32 get all ones. */
  method ResetLineBits(gic: Gic, numInterrupts: nat)
    requires gic.Valid() && numInterrupts % 32 == 0 && numInterrupts <= NumLines
    modifies gic`dist
    ensures gic.Valid()
    ensures gic.dist == old(gic.dist).(enabled := gic.dist.enabled, pending := gic.dist.pending, active := gic.dist.active)
    ensures forall k :: 0 <= k < NumLines ==>
      && gic.dist.enabled[k] == (if k < numInterrupts then false else old(gic.dist.enabled[k]))
      && gic.dist.pending[k] == (if k < numInterrupts then false else old(gic.dist.pending[k]))
      && gic.dist.active[k] == (if k < numInterrupts then false else old(gic.dist.active[k]))
  {
    ghost var d0 := gic.dist;
    for i := 0 to numInterrupts / 32
      invariant gic.Valid()
      invariant gic.dist == d0.(enabled := gic.dist.enabled, pending := gic.dist.pending, active := gic.dist.active)
      invariant forall k :: 0 <= k < NumLines ==>
        && gic.dist.enabled[k] == (if k < 32 * i then false else d0.enabled[k])
        && gic.dist.pending[k] == (if k < 32 * i then false else d0.pending[k])
        && gic.dist.active[k] == (if k < 32 * i then false else d0.active[k])
    {
      ghost var before := gic.dist;
      gic.WriteIcenabler(i, 0xFFFF_FFFF);
      gic.WriteIcactiver(i, 0xFFFF_FFFF);
      gic.WriteIcpendr(i, 0xFFFF_FFFF);
      forall k | 0 <= k < NumLines
        ensures gic.dist.enabled[k] == (if k < 32 * (i + 1) then false else d0.enabled[k])
        ensures gic.dist.pending[k] == (if k < 32 * (i + 1) then false else d0.pending[k])
        ensures gic.dist.active[k] == (if k < 32 * (i + 1) then false else d0.active[k])
      {
        WriteBankAllOnes(before.enabled, i, false, k);
        WriteBankAllOnes(before.active, i, false, k);
        WriteBankAllOnes(before.pending, i, false, k);
        assert k / 32 == i <==> 32 * i <= k < 32 * (i + 1);
      }
    }
  }

  /** The second loop of initGic: every priority byte below numInterrupts gets 0xFF. */
  method ResetPriorities(gic: Gic, numInterrupts: nat)
    requires gic.Valid() && numInterrupts <= NumLines
    modifies gic`dist
    ensures gic.Valid()
    ensures gic.dist == old(gic.dist).(priority := gic.dist.priority)
    ensures forall k :: 0 <= k < NumLines ==>
      gic.dist.priority[k] == if k < numInterrupts then TopBits8(gic.priorityBits) else old(gic.dist.priority[k])
  {
    ghost var d0 := gic.dist;
    for i := 0 to numInterrupts
      invariant gic.Valid()
      invariant gic.dist == d0.(priority := gic.dist.priority)
      invariant forall k :: 0 <= k < NumLines ==>
        gic.dist.priority[k] == if k < i then TopBits8(gic.priorityBits) else d0.priority[k]
    {
      gic.WriteIpriorityr(i, 0xFF);
    }
  }

  /** The third loop of initGic: ICFGR words 2 .. numInterrupts / 16 - 1 get 0x55555555. */
  method ResetConfigs(gic: Gic, numInterrupts: nat)
    requires gic.Valid() && FirstSpi <= numInterrupts <= NumLines
    modifies gic`dist
    ensures gic.Valid()
    ensures gic.dist == old(gic.dist).(icfgr := gic.dist.icfgr)
    ensures forall w :: 0 <= w < NumLines / 16 ==>
      gic.dist.icfgr[w] == if FirstSpi / 16 <= w < numInterrupts / 16 then 0x5555_5555 else old(gic.dist.icfgr[w])
  {
    ghost var d0 := gic.dist;
    for i := FirstSpi / 16 to numInterrupts / 16
      invariant gic.Valid()
      invariant gic.dist == d0.(icfgr := gic.dist.icfgr)
      invariant forall w :: 0 <= w < NumLines / 16 ==>
        gic.dist.icfgr[w] == if FirstSpi / 16 <= w < i then 0x5555_5555 else d0.icfgr[w]
    {
      gic.WriteIcfgr(i, 0x5555_5555);
    }
  }

  /** The fourth loop of initGic: the target byte of every shared line below numInterrupts gets 0. */
  method ResetTargets(gic: Gic, numInterrupts: nat)
    requires gic.Valid() && FirstSpi <= numInterrupts <= NumLines
    modifies gic`dist
    ensures gic.Valid()
    ensures gic.dist == old(gic.dist).(target := gic.dist.target)
    ensures forall k :: 0 <= k < NumLines ==>
      gic.dist.target[k] == if FirstSpi <= k < numInterrupts then 0 else old(gic.dist.target[k])
  {
    ghost var d0 := gic.dist;
    for i := FirstSpi to numInterrupts
      invariant gic.Valid()
      invariant gic.dist == d0.(target := gic.dist.target)
      invariant forall k :: 0 <= k < NumLines ==>
        gic.dist.target[k] == if FirstSpi <= k < i then 0 else d0.target[k]
    {
      gic.WriteItargetsr(i, 0);
    }
  }

  /** Whether the distributor was reset does not depend on its control register. */
  lemma IsResetIgnoresCtlr(d0: Distributor, d: Distributor, n: nat, bits: nat, ctlr: bv32)
    requires d0.WellFormed() && d.WellFormed() && bits <= 8
    requires IsReset(d0, d, n, bits)
    ensures IsReset(d0, d.(ctlr := ctlr), n, bits)
  {
  }

  /** The reset half of initGic: the four loops over the lines this core resets. */
  method ResetDistributor(gic: Gic, numInterrupts: nat)
    requires gic.Valid() && numInterrupts % 32 == 0 && FirstSpi <= numInterrupts <= NumLines
    modifies gic`dist
    ensures gic.Valid() && gic.dist.ctlr == old(gic.dist.ctlr)
    ensures IsReset(old(gic.dist), gic.dist, numInterrupts, gic.priorityBits)
  {
    // Disable all interrupts, clear active and pending status
    ResetLineBits(gic, numInterrupts);
    // Set priorities to lowest
    ResetPriorities(gic, numInterrupts);
    // Reset the configuration and targets of the shared lines
    ResetConfigs(gic, numInterrupts);
    ResetTargets(gic, numInterrupts);
  }

  /** The discovery half of initGic, done once on cold boot by the boot core: disable the
      distributor, record the number of shared lines, CPU interfaces and list registers,
      and write 0xFF to line 0's priority to read back how many priority bits exist. */
  method DiscoverGic(gic: Gic, mgr: IrqManager)
    requires gic.Valid() && mgr.Valid()
    modifies gic`dist, mgr
    ensures gic.Valid() && mgr.Valid() && Discovered(mgr, gic)
    ensures gic.dist == old(gic.dist).(ctlr := 0, priority := old(gic.dist).priority[0 := TopBits8(gic.priorityBits)])
  {
    gic.WriteDistributorCtlr(0);
    mgr.numSharedInterrupts := 32 * ((gic.typer & 0x1F) as nat);
    gic.WriteIpriorityr(0, 0xFF);
    var readback := gic.dist.priority[0];
    assert readback == TopBits8(gic.priorityBits);
    mgr.priorityShift := 8 - PopCount8(readback);
    mgr.numPriorityLevels := Pow2(PopCount8(readback));
    mgr.numCpuInterfaces := 1 + ((gic.typer >> 5) & 7) as nat;
    mgr.numListRegisters := 1 + (gic.vtr & 0x3F) as nat;
  }

  /** Discovery only touches line 0's priority, which the reset overwrites anyway. */
  lemma ResetFromDiscovery(d0: Distributor, d1: Distributor, d: Distributor, n: nat, bits: nat)
    requires d0.WellFormed() && d1.WellFormed() && d.WellFormed() && bits <= 8 && 0 < n
    requires d1 == d0 || d1 == d0.(ctlr := 0, priority := d0.priority[0 := TopBits8(bits)])
    requires IsReset(d1, d, n, bits)
    ensures IsReset(d0, d, n, bits)
  {
  }

  /** The part of initGic every core runs: mask the CPU interface, reset the lines this
      core owns, re-enable the distributor (boot core only) and the CPU interface, and
      capture this core's target mask from ITARGETSR0. */
  method ResetAndEnable(gic: Gic, ctx: CoreCtx, numInterrupts: nat)
    requires gic.Valid() && numInterrupts % 32 == 0 && FirstSpi <= numInterrupts <= NumLines
    modifies gic`dist, gic`cpuCtlr, gic`pmr, gic`bpr, ctx`gicInterfaceMask
    ensures gic.Valid()
    ensures IsReset(old(gic.dist), gic.dist, numInterrupts, gic.priorityBits)
    ensures gic.dist.ctlr == if ctx.isBootCore then 1 else old(gic.dist.ctlr)
    ensures gic.cpuCtlr == 0x201 && gic.pmr == 0xFF && gic.bpr == 7
    ensures ctx.gicInterfaceMask == gic.cpuMask
  {
    // Filter all interrupts, disable preemption
    gic.WritePmr(0);
    gic.WriteBpr(7);

    ResetDistributor(gic, numInterrupts);

    if ctx.isBootCore {
      ghost var d := gic.dist;
      gic.WriteDistributorCtlr(1);
      IsResetIgnoresCtlr(old(gic.dist), d, numInterrupts, gic.priorityBits, 1);
    }
    // EOImodeNS (bit 9): split priority drop and deactivation; bit 0 enables the interface
    gic.WriteCpuCtlr(Bit32(9) | 1);
    gic.WritePmr(0xFF);
    ctx.gicInterfaceMask := gic.dist.target[0];
  }

  /** initGic: reinitialise the distributor and this core's CPU interface. */
  method InitGic(gic: Gic, mgr: IrqManager, ctx: CoreCtx)
    requires gic.Valid() && mgr.Valid()
    modifies gic`dist, gic`cpuCtlr, gic`pmr, gic`bpr, mgr, ctx`gicInterfaceMask
    ensures gic.Valid() && mgr.Valid()
    ensures ctx.isBootCore && !ctx.warmboot ==> Discovered(mgr, gic)
    ensures !(ctx.isBootCore && !ctx.warmboot) ==> mgr.Recorded() == old(mgr.Recorded())
    ensures IsReset(old(gic.dist), gic.dist, NumInterrupts(ctx.isBootCore, mgr.numSharedInterrupts), gic.priorityBits)
    ensures gic.dist.ctlr == if ctx.isBootCore then 1 else old(gic.dist.ctlr)
    ensures gic.cpuCtlr == 0x201 && gic.pmr == 0xFF && gic.bpr == 7
    ensures ctx.gicInterfaceMask == gic.cpuMask
  {
    if ctx.isBootCore && !ctx.warmboot {
      DiscoverGic(gic, mgr);
    }

    var numInterrupts := FirstSpi;
    if ctx.isBootCore {
      numInterrupts := numInterrupts + mgr.numSharedInterrupts;
    }
    assert numInterrupts == NumInterrupts(ctx.isBootCore, mgr.numSharedInterrupts);

    ghost var d0 := gic.dist;
    ResetAndEnable(gic, ctx, numInterrupts);
    ResetFromDiscovery(old(gic.dist), d0, gic.dist, numInterrupts, gic.priorityBits);
  }

  /** The steps doConfigureInterrupt takes for a shared line only: the read-modify-write
      of its Int_config field, then routing it to every CPU interface.  Nothing but the
      ICFGR words and the targets changes. */
  function SetupSharedLine(d: Distributor, id: nat, isLevelSensitive: bool): (r: Distributor)
    requires d.WellFormed() && FirstSpi <= id < NumLines
    ensures r.WellFormed() && r == d.(target := r.target, icfgr := r.icfgr)
  {
    var cfgr := SetConfigField(d.icfgr[id / 16], CfgrField(id), if !isLevelSensitive then 3 else 1);
    ItargetsrWrite(IcfgrWrite(d, id / 16, cfgr), id, 0xFF)
  }

  /** The effect of doConfigureInterrupt on the distributor, line by line: disable the
      line, set up a shared line's trigger mode and routing, clear its pending state,
      write its scaled priority (of which only the implemented bits stick), enable it. */
  function Configure(d: Distributor, id: nat, prio: bv8, isLevelSensitive: bool, shift: nat, bits: nat): (r: Distributor)
    requires d.WellFormed() && id < NumLines && shift <= 8 && bits <= 8
    ensures r.WellFormed()
    ensures r.enabled == d.enabled[id := true] && r.pending == d.pending[id := false]
    ensures r.active == d.active && r.ctlr == d.ctlr
    ensures id < FirstSpi ==> r.target == d.target && r.icfgr == d.icfgr
  {
    var d1 := d.(enabled := d.enabled[id := false]);
    var d2 := if id >= FirstSpi then SetupSharedLine(d1, id, isLevelSensitive) else d1;
    var d3 := d2.(pending := d2.pending[id := false]);
    var d4 := IpriorityrWrite(d3, id, ScalePriority(prio, shift), bits);
    d4.(enabled := d4.enabled[id := true])
  }

  /** A shared line targets every CPU interface and gets Int_config 3 (edge) or 1 (level);
      the other fifteen fields of its ICFGR word are unchanged. */
  lemma ConfigureSharedSpec(d: Distributor, id: nat, prio: bv8, isLevelSensitive: bool, shift: nat, bits: nat)
    requires d.WellFormed() && FirstSpi <= id < NumLines && shift <= 8 && bits <= 8
    ensures var r := Configure(d, id, prio, isLevelSensitive, shift, bits);
      && r.target == d.target[id := 0xFF]
      && r.Config(id) == (if isLevelSensitive then 1 else 3)
      && r.icfgr == d.icfgr[id / 16 := r.icfgr[id / 16]]
      && forall f: bv32 :: f < 16 && f != CfgrField(id) ==>
           ConfigField(r.icfgr[id / 16], f) == ConfigField(d.icfgr[id / 16], f)
  {
    var v: bv32 := if !isLevelSensitive then 3 else 1;
    var w := SetConfigField(d.icfgr[id / 16], CfgrField(id), v);
    assert Configure(d, id, prio, isLevelSensitive, shift, bits).icfgr == d.icfgr[id / 16 := w];
    forall f: bv32 | f < 16
      ensures ConfigField(w, f) == if f == CfgrField(id) then v else ConfigField(d.icfgr[id / 16], f)
    {
      SetConfigFieldSpec(d.icfgr[id / 16], CfgrField(id), v, f);
    }
  }

  /** Configuring a shared line leaves the Int_config field of every other line as it was. */
  lemma ConfigureKeepsOtherConfigs(d: Distributor, id: nat, prio: bv8, isLevelSensitive: bool, shift: nat, bits: nat, k: nat)
    requires d.WellFormed() && FirstSpi <= id < NumLines && shift <= 8 && bits <= 8
    requires k < NumLines && k != id
    ensures Configure(d, id, prio, isLevelSensitive, shift, bits).Config(k) == d.Config(k)
  {
    ConfigureSharedSpec(d, id, prio, isLevelSensitive, shift, bits);
    if k / 16 == id / 16 {
      CfgrFieldValue(k);
      CfgrFieldValue(id);
      assert CfgrField(k) != CfgrField(id);
    }
  }

  /** Configuring a line twice with the same arguments leaves the state of configuring it once. */
  lemma ConfigureIdempotent(d: Distributor, id: nat, prio: bv8, isLevelSensitive: bool, shift: nat, bits: nat)
    requires d.WellFormed() && id < NumLines && shift <= 8 && bits <= 8
    ensures var once := Configure(d, id, prio, isLevelSensitive, shift, bits);
      Configure(once, id, prio, isLevelSensitive, shift, bits) == once
  {
    var once := Configure(d, id, prio, isLevelSensitive, shift, bits);
    var twice := Configure(once, id, prio, isLevelSensitive, shift, bits);
    assert twice.enabled == once.enabled;
    assert twice.pending == once.pending;
    assert twice.priority == once.priority;
    if id >= FirstSpi {
      var v: bv32 := if !isLevelSensitive then 3 else 1;
      SetConfigFieldIdempotent(d.icfgr[id / 16], CfgrField(id), v);
      assert twice.target == once.target;
      assert twice.icfgr == once.icfgr;
    }
  }

  /** Only line `id`'s priority changes, to the scaled priority less its unimplemented bits. */
  lemma ConfigurePriority(d: Distributor, id: nat, prio: bv8, isLevelSensitive: bool, shift: nat, bits: nat)
    requires d.WellFormed() && id < NumLines && shift <= 8 && bits <= 8
    ensures Configure(d, id, prio, isLevelSensitive, shift, bits).priority
         == d.priority[id := ScalePriority(prio, shift) & TopBits8(bits)]
  {
    var d1 := d.(enabled := d.enabled[id := false]);
    var d2 := if id >= FirstSpi then SetupSharedLine(d1, id, isLevelSensitive) else d1;
    assert d2.priority == d.priority;
    var d3 := d2.(pending := d2.pending[id := false]);
    var d4 := IpriorityrWrite(d3, id, ScalePriority(prio, shift), bits);
    assert Configure(d, id, prio, isLevelSensitive, shift, bits) == d4.(enabled := d4.enabled[id := true]);
  }

  /** Once discovery has run, the configured priority is stored exactly. */
  lemma ConfigurePriorityExact(d: Distributor, id: nat, prio: bv8, isLevelSensitive: bool, bits: nat)
    requires d.WellFormed() && id < NumLines && bits <= 8
    ensures Configure(d, id, prio, isLevelSensitive, 8 - bits, bits).priority[id] == ScalePriority(prio, 8 - bits)
  {
    ConfigurePriority(d, id, prio, isLevelSensitive, 8 - bits, bits);
    ScaledPriorityImplemented(prio, bits);
  }

  /** doConfigureInterrupt. */
  method DoConfigureInterrupt(gic: Gic, mgr: IrqManager, id: nat, prio: bv8, isLevelSensitive: bool)
    requires gic.Valid() && mgr.Valid() && id < NumLines
    modifies gic`dist
    ensures gic.Valid()
    ensures gic.dist == Configure(old(gic.dist), id, prio, isLevelSensitive, mgr.priorityShift, gic.priorityBits)
  {
    ghost var d := gic.dist;
    gic.WriteIcenabler(id / 32, Bit32(id % 32));
    WriteBankLine(d.enabled, id, false);
    assert gic.dist == d.(enabled := d.enabled[id := false]);

    if id >= FirstSpi {
      SetupSharedLineRegs(gic, id, isLevelSensitive);
    }
    ghost var d2 := gic.dist;
    gic.WriteIcpendr(id / 32, Bit32(id % 32));
    WriteBankLine(d2.pending, id, false);
    assert gic.dist == d2.(pending := d2.pending[id := false]);
    gic.WriteIpriorityr(id, (((prio as bv32) << mgr.priorityShift) & 0xFF) as bv8);
    ghost var d4 := gic.dist;
    assert d4 == IpriorityrWrite(d2.(pending := d2.pending[id := false]), id, ScalePriority(prio, mgr.priorityShift), gic.priorityBits);
    gic.WriteIsenabler(id / 32, Bit32(id % 32));
    WriteBankLine(d4.enabled, id, true);
  }

  /** The shared-line branch of doConfigureInterrupt: the ICFGR read-modify-write and the
      routing of the line to every CPU interface. */
  method SetupSharedLineRegs(gic: Gic, id: nat, isLevelSensitive: bool)
    requires gic.Valid() && FirstSpi <= id < NumLines
    modifies gic`dist
    ensures gic.Valid() && gic.dist == SetupSharedLine(old(gic.dist), id, isLevelSensitive)
  {
    var cfgr := gic.dist.icfgr[id / 16];
    cfgr := cfgr & !((3 as bv32) << (2 * CfgrField(id)));
    cfgr := cfgr | ((if !isLevelSensitive then 3 else 1) << (2 * CfgrField(id)));
    gic.WriteIcfgr(id / 16, cfgr);
    gic.WriteItargetsr(id, 0xFF); // all CPU interfaces
  }

  /** configureInterrupt: doConfigureInterrupt under the manager's lock. */
  method ConfigureInterrupt(gic: Gic, mgr: IrqManager, id: nat, prio: bv8, isLevelSensitive: bool)
    requires gic.Valid() && mgr.Valid() && id < NumLines
    modifies gic`dist
    ensures gic.Valid()
    ensures gic.dist == Configure(old(gic.dist), id, prio, isLevelSensitive, mgr.priorityShift, gic.priorityBits)
  {
    DoConfigureInterrupt(gic, mgr, id, prio, isLevelSensitive);
  }

  /** irqSetAffinity: only the target byte of line `id` changes, to `affinity` (the
      banked lines below 32 have read-only targets, so writing them changes nothing). */
  method IrqSetAffinity(gic: Gic, id: nat, affinity: bv8)
    requires gic.Valid() && id < NumLines
    modifies gic`dist
    ensures gic.Valid()
    ensures gic.dist == old(gic.dist).(target := gic.dist.target)
    ensures gic.dist.target == if id >= FirstSpi then old(gic.dist.target)[id := affinity] else old(gic.dist.target)
  {
    gic.WriteItargetsr(id, affinity);
  }

  /** Lines the hypervisor configures for itself in initIrq. */
  predicate HostLine(ids: PlatformIds, k: nat) {
    ids.IsHostSgi(k) || k == ids.maintenance
  }

  /** `d` is `r` with the host lines enabled, not pending and at priority `hostPrio`. */
  ghost predicate HostConfigured(r: Distributor, d: Distributor, ids: PlatformIds, hostPrio: bv8)
    requires r.WellFormed() && d.WellFormed()
  {
    && d.active == r.active && d.target == r.target && d.icfgr == r.icfgr && d.ctlr == r.ctlr
    && forall k :: 0 <= k < NumLines ==>
         && d.enabled[k] == (HostLine(ids, k) || r.enabled[k])
         && d.pending[k] == (!HostLine(ids, k) && r.pending[k])
         && d.priority[k] == if HostLine(ids, k) then hostPrio else r.priority[k]
  }

  /** The distributor initIrq leaves behind, relative to the one it started from: the `n`
      lines this core resets are disabled, inactive and not pending, at the lowest priority
      except for the host lines, which are enabled at `hostPrio`; shared lines among them
      target no CPU interface and are level-sensitive; lines above `n` are untouched. */
  ghost predicate IsInitialised(d0: Distributor, d: Distributor, n: nat, ids: PlatformIds, hostPrio: bv8, bits: nat)
    requires d0.WellFormed() && d.WellFormed() && bits <= 8
  {
    && (forall k :: 0 <= k < NumLines ==>
          && d.enabled[k] == (if k < n then HostLine(ids, k) else d0.enabled[k])
          && d.pending[k] == (if k < n then false else d0.pending[k])
          && d.active[k] == (if k < n then false else d0.active[k])
          && d.priority[k] ==
               (if k < n && HostLine(ids, k) then hostPrio
                else if k < n then TopBits8(bits)
                else d0.priority[k])
          && d.target[k] == (if FirstSpi <= k < n then 0 else d0.target[k]))
    && (forall w :: 0 <= w < NumLines / 16 ==>
          d.icfgr[w] == if FirstSpi / 16 <= w < n / 16 then 0x5555_5555 else d0.icfgr[w])
  }

  /** Resetting and then configuring the host lines, which are all below FirstSpi, yields
      the initialised state. */
  lemma ResetThenHostLines(d0: Distributor, r: Distributor, d: Distributor, n: nat, ids: PlatformIds, hostPrio: bv8, bits: nat)
    requires d0.WellFormed() && r.WellFormed() && d.WellFormed() && bits <= 8
    requires ids.Valid() && FirstSpi <= n
    requires IsReset(d0, r, n, bits) && HostConfigured(r, d, ids, hostPrio)
    ensures IsInitialised(d0, d, n, ids, hostPrio, bits)
  {
  }

  /** The last part of initIrq: every hypervisor SGI is configured edge-triggered and the
      maintenance interrupt level-sensitive, both at host priority. */
  method ConfigureHostLines(gic: Gic, mgr: IrqManager, ids: PlatformIds)
    requires ids.Valid() && gic.Valid() && mgr.Valid()
    modifies gic`dist
    ensures gic.Valid()
    ensures HostConfigured(old(gic.dist), gic.dist, ids,
                           ScalePriority(ids.hostPriority, mgr.priorityShift) & TopBits8(gic.priorityBits))
  {
    ghost var r := gic.dist;
    ghost var hostPrio := ScalePriority(ids.hostPriority, mgr.priorityShift) & TopBits8(gic.priorityBits);
    for i := 0 to ids.sgiMax
      invariant gic.Valid()
      invariant gic.dist.active == r.active && gic.dist.target == r.target
      invariant gic.dist.icfgr == r.icfgr && gic.dist.ctlr == r.ctlr
      invariant forall k :: 0 <= k < NumLines ==>
        && gic.dist.enabled[k] == (k < i || r.enabled[k])
        && gic.dist.pending[k] == (k >= i && r.pending[k])
        && gic.dist.priority[k] == (if k < i then hostPrio else r.priority[k])
    {
      DoConfigureInterrupt(gic, mgr, i, ids.hostPriority, false);
    }
    DoConfigureInterrupt(gic, mgr, ids.maintenance, ids.hostPriority, true);
  }

  /** initIrq: reset the controller, initialise the virtual controller, then enable the
      hypervisor's SGIs and the maintenance interrupt at host priority. */
  method InitIrq(gic: Gic, mgr: IrqManager, ctx: CoreCtx, log: EventLog, ids: PlatformIds)
    requires ids.Valid() && gic.Valid() && mgr.Valid()
    modifies gic`dist, gic`cpuCtlr, gic`pmr, gic`bpr, mgr, ctx`gicInterfaceMask, log
    ensures gic.Valid() && mgr.Valid()
    ensures (ctx.isBootCore && !ctx.warmboot) || old(Discovered(mgr, gic)) ==> Discovered(mgr, gic)
    ensures !(ctx.isBootCore && !ctx.warmboot) ==> mgr.Recorded() == old(mgr.Recorded())
    ensures log.events == old(log.events) + [VgicInit]
    ensures IsInitialised(old(gic.dist), gic.dist, NumInterrupts(ctx.isBootCore, mgr.numSharedInterrupts), ids,
                          ScalePriority(ids.hostPriority, mgr.priorityShift) & TopBits8(gic.priorityBits), gic.priorityBits)
    ensures gic.dist.ctlr == if ctx.isBootCore then 1 else old(gic.dist.ctlr)
    ensures gic.cpuCtlr == 0x201 && gic.pmr == 0xFF && gic.bpr == 7
    ensures ctx.gicInterfaceMask == gic.cpuMask
  {
    InitGic(gic, mgr, ctx);
    log.Emit(VgicInit);
    ghost var r := gic.dist;
    ConfigureHostLines(gic, mgr, ids);
    ResetThenHostLines(old(gic.dist), r, gic.dist, NumInterrupts(ctx.isBootCore, mgr.numSharedInterrupts), ids,
                       ScalePriority(ids.hostPriority, mgr.priorityShift) & TopBits8(gic.priorityBits), gic.priorityBits);
  }

  /** irqIsGuest: the line belongs to the guest's virtual interrupt controller exactly when
      the distributor implements it, the hypervisor does not reserve it (maintenance,
      hypervisor timers) and no transport interface is registered for it. */
  function IrqIsGuest(ids: PlatformIds, numShared: nat, transport: set<nat>, id: nat): (r: bool)
    ensures r <==> id < FirstSpi + numShared && id !in ids.HypervisorLines() && id !in transport
  {
    if id >= FirstSpi + numShared then
      false
    else
      true
      && id != ids.maintenance
      && id != ids.nsPhysHypTimer
      && id != ids.nsVirtHypTimer
      && id != ids.secPhysHypTimer
      && id != ids.secVirtHypTimer
      && id !in transport
  }

  /** The predicate does not itself exclude SGIs: an unclaimed hypervisor SGI passes it. */
  lemma IrqIsGuestAdmitsHostSgi(ids: PlatformIds, numShared: nat, transport: set<nat>)
    requires ids.Valid() && ids.sgiExecuteFunction !in transport
    ensures IrqIsGuest(ids, numShared, transport, ids.sgiExecuteFunction)
  {
  }

  /** checkGuestTimerInterrupts' verdict: a guest virtual-timer interrupt is honoured only
      once its compare value has been reached, an emulated physical-timer interrupt only
      once the emulated compare value has; any other interrupt always is. */
  function GuestTimerDue(ids: PlatformIds, irqId: nat, cntpCval: u64, emulCval: u64, vct: u64): (due: bool)
    requires ids.Valid()
    ensures due <==> (irqId == ids.nsVirtTimer ==> cntpCval <= vct) && (irqId == ids.nsPhysTimer ==> emulCval <= vct)
  {
    if irqId == ids.nsVirtTimer then cntpCval <= vct
    else if irqId == ids.nsPhysTimer then emulCval <= vct
    else true
  }

  /** A timer interrupt found not due becomes due once the counter reaches the same
      compare value, and stays due as the counter advances. */
  lemma GuestTimerDueMonotonic(ids: PlatformIds, irqId: nat, cntpCval: u64, emulCval: u64, vct: u64, vct': u64)
    requires ids.Valid() && vct <= vct'
    requires GuestTimerDue(ids, irqId, cntpCval, emulCval, vct)
    ensures GuestTimerDue(ids, irqId, cntpCval, emulCval, vct')
  {
  }

  /** An emulated physical-timer interrupt the gate rescheduled (with the same compare
      value) is let through by a later gate once the counter has reached that value. */
  lemma RescheduledBecomesDue(ids: PlatformIds, emulCval: u64, vct: u64, cntpCval: u64, vct': u64)
    requires ids.Valid()
    requires GateEvents(ids, ids.nsPhysTimer, cntpCval, emulCval, vct) == [ReschedulePtimer(emulCval)]
    requires emulCval <= vct'
    ensures !GuestTimerDue(ids, ids.nsPhysTimer, cntpCval, emulCval, vct)
    ensures GuestTimerDue(ids, ids.nsPhysTimer, cntpCval, emulCval, vct')
  {
  }

  /** The events the gate itself produces: the reschedule of a not-yet-due emulated timer. */
  function GateEvents(ids: PlatformIds, irqId: nat, cntpCval: u64, emulCval: u64, vct: u64): (r: seq<Event>)
    requires ids.Valid()
    ensures r != [] <==> irqId == ids.nsPhysTimer && vct < emulCval
    ensures r != [] ==> r == [ReschedulePtimer(emulCval)] && !GuestTimerDue(ids, irqId, cntpCval, emulCval, vct)
  {
    if irqId == ids.nsPhysTimer && !(emulCval <= vct) then [ReschedulePtimer(emulCval)] else []
  }

  /** checkRescheduleEmulatedPtimer: when the emulated compare value has not been reached,
      reprogram it with the same value and report not due. */
  method CheckRescheduleEmulatedPtimer(ctx: CoreCtx, log: EventLog, vct: u64) returns (due: bool)
    modifies log
    ensures due <==> ctx.emulPtimerCval <= vct
    ensures log.events == old(log.events) + (if due then [] else [ReschedulePtimer(ctx.emulPtimerCval)])
  {
    var cval := ctx.emulPtimerCval;
    if cval > vct {
      log.Emit(ReschedulePtimer(cval));
      return false;
    }
    return true;
  }

  /** checkGuestTimerInterrupts. */
  method CheckGuestTimerInterrupts(ids: PlatformIds, sys: SysRegs, ctx: CoreCtx, log: EventLog, irqId: nat, vct: u64)
    returns (due: bool)
    requires ids.Valid()
    modifies log
    ensures due == GuestTimerDue(ids, irqId, sys.cntpCvalEl0, ctx.emulPtimerCval, vct)
    ensures log.events == old(log.events) + GateEvents(ids, irqId, sys.cntpCvalEl0, ctx.emulPtimerCval, vct)
  {
    if irqId == ids.nsVirtTimer {
      var cval := sys.cntpCvalEl0;
      return cval <= vct;
    } else if irqId == ids.nsPhysTimer {
      due := CheckRescheduleEmulatedPtimer(ctx, log, vct);
    } else {
      return true;
    }
  }
}
