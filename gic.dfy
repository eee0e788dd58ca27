// The physical GICv2 the hypervisor owns, as one core sees it: the distributor's
// per-line state (ARM IHI 0048B section 4.3) and the CPU interface's control registers
// (section 4.4).  Each register write is a method whose effect is a pure function of the
// old distributor state, so that sequences of writes can be reasoned about as values.
module GicHw {
  import opened Bits
  import opened Platform

  /** The distributor state the interrupt code programs. */
  datatype Distributor = Distributor(
    ctlr: bv32,          // GICD_CTLR
    enabled: seq<bool>,  // GICD_ISENABLER / GICD_ICENABLER, one bit per line
    pending: seq<bool>,  // GICD_ISPENDR / GICD_ICPENDR
    active: seq<bool>,   // GICD_ISACTIVER / GICD_ICACTIVER
    priority: seq<bv8>,  // GICD_IPRIORITYR, one byte per line
    target: seq<bv8>,    // GICD_ITARGETSR, one byte per line
    icfgr: seq<bv32>)    // GICD_ICFGR, a 2-bit field per line, 16 lines per word
  {
    predicate WellFormed() {
      && |enabled| == NumLines && |pending| == NumLines && |active| == NumLines
      && |priority| == NumLines && |target| == NumLines && |icfgr| == NumLines / 16
    }

    /** The Int_config field of line `id`. */
    function Config(id: nat): bv32
      requires WellFormed() && id < NumLines
    {
      ConfigField(icfgr[id / 16], CfgrField(id))
    }
  }

  /** A write of `v` to word `n` of a write-1-to-set (`value`) or write-1-to-clear
      (`!value`) bank: lines whose bit is 1 in `v` take `value`, the others keep theirs. */
  function WriteBank(lines: seq<bool>, n: nat, v: bv32, value: bool): (r: seq<bool>)
    requires |lines| == NumLines && n < NumLines / 32
    ensures |r| == NumLines
  {
    seq(NumLines, k requires 0 <= k < NumLines =>
      if k / 32 == n && IsSet32(v, k % 32) then value else lines[k])
  }

  /** Writing BIT(id % 32) to word id / 32 affects line `id` only. */
  lemma WriteBankLine(lines: seq<bool>, id: nat, value: bool)
    requires |lines| == NumLines && id < NumLines
    ensures WriteBank(lines, id / 32, Bit32(id % 32), value) == lines[id := value]
  {
    var r := WriteBank(lines, id / 32, Bit32(id % 32), value);
    forall k | 0 <= k < NumLines
      ensures r[k] == lines[id := value][k]
    {
      Bit32Only(id % 32, k % 32);
    }
  }

  /** Writing all ones to word `n` sets every line of that word to `value`. */
  lemma WriteBankAllOnes(lines: seq<bool>, n: nat, value: bool, k: nat)
    requires |lines| == NumLines && n < NumLines / 32 && k < NumLines
    ensures WriteBank(lines, n, 0xFFFF_FFFF, value)[k] == if k / 32 == n then value else lines[k]
  {
  }

  function IcenablerWrite(d: Distributor, n: nat, v: bv32): (r: Distributor)
    requires d.WellFormed() && n < NumLines / 32
    ensures r.WellFormed()
  {
    d.(enabled := WriteBank(d.enabled, n, v, false))
  }

  function IsenablerWrite(d: Distributor, n: nat, v: bv32): (r: Distributor)
    requires d.WellFormed() && n < NumLines / 32
    ensures r.WellFormed()
  {
    d.(enabled := WriteBank(d.enabled, n, v, true))
  }

  function IcpendrWrite(d: Distributor, n: nat, v: bv32): (r: Distributor)
    requires d.WellFormed() && n < NumLines / 32
    ensures r.WellFormed()
  {
    d.(pending := WriteBank(d.pending, n, v, false))
  }

  function IcactiverWrite(d: Distributor, n: nat, v: bv32): (r: Distributor)
    requires d.WellFormed() && n < NumLines / 32
    ensures r.WellFormed()
  {
    d.(active := WriteBank(d.active, n, v, false))
  }

  /** The unimplemented (least significant) priority bits are RAZ/WI. */
  function IpriorityrWrite(d: Distributor, id: nat, v: bv8, bits: nat): (r: Distributor)
    requires d.WellFormed() && id < NumLines && bits <= 8
    ensures r.WellFormed()
  {
    d.(priority := d.priority[id := v & TopBits8(bits)])
  }

  /** ITARGETSR0-7 (the SGI and PPI lines) are read-only. */
  function ItargetsrWrite(d: Distributor, id: nat, v: bv8): (r: Distributor)
    requires d.WellFormed() && id < NumLines
    ensures r.WellFormed()
  {
    if id < FirstSpi then d else d.(target := d.target[id := v])
  }

  function IcfgrWrite(d: Distributor, n: nat, v: bv32): (r: Distributor)
    requires d.WellFormed() && n < NumLines / 16
    ensures r.WellFormed()
  {
    d.(icfgr := d.icfgr[n := v])
  }

  class Gic {
    /** GICD_TYPER and GICH_VTR: read-only identification registers. */
    const typer: bv32
    const vtr: bv32
    /** How many priority bits the distributor implements. */
    const priorityBits: nat
    /** This core's CPU-interface bit, which ITARGETSR0-7 return to it. */
    const cpuMask: bv8

    var dist: Distributor
    /** GICC_CTLR, GICC_PMR and GICC_BPR. */
    var cpuCtlr: bv32
    var pmr: bv32
    var bpr: bv32

    ghost predicate Valid()
      reads this
    {
      && dist.WellFormed() && priorityBits <= 8
      && forall k :: 0 <= k < FirstSpi ==> dist.target[k] == cpuMask
    }

    constructor (typer: bv32, vtr: bv32, priorityBits: nat, cpuMask: bv8, dist: Distributor)
      requires dist.WellFormed() && priorityBits <= 8
      requires forall k :: 0 <= k < FirstSpi ==> dist.target[k] == cpuMask
      ensures Valid()
      ensures this.typer == typer && this.vtr == vtr && this.priorityBits == priorityBits
      ensures this.cpuMask == cpuMask && this.dist == dist
      ensures cpuCtlr == 0 && pmr == 0 && bpr == 0
    {
      this.typer, this.vtr, this.priorityBits, this.cpuMask := typer, vtr, priorityBits, cpuMask;
      this.dist := dist;
      cpuCtlr, pmr, bpr := 0, 0, 0;
    }

    method WriteDistributorCtlr(v: bv32)
      requires Valid()
      modifies this`dist
      ensures Valid() && dist == old(dist).(ctlr := v)
    {
      dist := dist.(ctlr := v);
    }

    method WriteIcenabler(n: nat, v: bv32)
      requires Valid() && n < NumLines / 32
      modifies this`dist
      ensures Valid() && dist == IcenablerWrite(old(dist), n, v)
    {
      dist := IcenablerWrite(dist, n, v);
    }

    method WriteIsenabler(n: nat, v: bv32)
      requires Valid() && n < NumLines / 32
      modifies this`dist
      ensures Valid() && dist == IsenablerWrite(old(dist), n, v)
    {
      dist := IsenablerWrite(dist, n, v);
    }

    method WriteIcpendr(n: nat, v: bv32)
      requires Valid() && n < NumLines / 32
      modifies this`dist
      ensures Valid() && dist == IcpendrWrite(old(dist), n, v)
    {
      dist := IcpendrWrite(dist, n, v);
    }

    method WriteIcactiver(n: nat, v: bv32)
      requires Valid() && n < NumLines / 32
      modifies this`dist
      ensures Valid() && dist == IcactiverWrite(old(dist), n, v)
    {
      dist := IcactiverWrite(dist, n, v);
    }

    method WriteIpriorityr(id: nat, v: bv8)
      requires Valid() && id < NumLines
      modifies this`dist
      ensures Valid() && dist == IpriorityrWrite(old(dist), id, v, priorityBits)
    {
      dist := IpriorityrWrite(dist, id, v, priorityBits);
    }

    method WriteItargetsr(id: nat, v: bv8)
      requires Valid() && id < NumLines
      modifies this`dist
      ensures Valid() && dist == ItargetsrWrite(old(dist), id, v)
    {
      dist := ItargetsrWrite(dist, id, v);
    }

    method WriteIcfgr(n: nat, v: bv32)
      requires Valid() && n < NumLines / 16
      modifies this`dist
      ensures Valid() && dist == IcfgrWrite(old(dist), n, v)
    {
      dist := IcfgrWrite(dist, n, v);
    }

    method WriteCpuCtlr(v: bv32)
      modifies this`cpuCtlr
      ensures cpuCtlr == v
    {
      cpuCtlr := v;
    }

    method WritePmr(v: bv32)
      modifies this`pmr
      ensures pmr == v
    {
      pmr := v;
    }

    method WriteBpr(v: bv32)
      modifies this`bpr
      ensures bpr == v
    {
      bpr := v;
    }
  }
}
