// Bit-level helpers shared by the interrupt-controller and single-step models:
// unsigned machine integers, single-bit masks, the GICv2 priority-field masks and
// the population count the controller initializer uses to discover them.
module Bits {

  /** A C `u64`. */
  type u64 = x: int | 0 <= x < 0x1_0000_0000_0000_0000

  /** A 64-bit system register or saved program status, bit k at index k. */
  type Reg64 = r: seq<bool> | |r| == 64 witness seq(64, _ => false)

  function Pow2(n: nat): (r: nat)
    ensures r >= 1
  {
    if n == 0 then 1 else 2 * Pow2(n - 1)
  }

  /** BIT(k) for a 32-bit register. */
  function Bit32(k: nat): bv32
    requires k < 32
  {
    (1 as bv32) << k
  }

  predicate IsSet32(v: bv32, k: nat)
    requires k < 32
  {
    v & Bit32(k) != 0
  }

  predicate IsSet8(b: bv8, k: nat)
    requires k < 8
  {
    b & ((1 as bv8) << k) != 0
  }

  /** A priority byte whose `p` most significant bits are set and whose other bits are
      clear: the bits a GICv2 priority field implements when it implements `p` of them
      (the unimplemented, least significant bits are RAZ/WI). */
  function TopBits8(p: nat): bv8
    requires p <= 8
  {
    (0xFF as bv8) << (8 - p)
  }

  /** Number of set bits of `b` at positions `i` and above. */
  function PopCountFrom(b: bv8, i: nat): (r: nat)
    requires i <= 8
    ensures r <= 8 - i
    decreases 8 - i
  {
    if i == 8 then 0 else (if IsSet8(b, i) then 1 else 0) + PopCountFrom(b, i + 1)
  }

  /** `__builtin_popcount` of a byte. */
  function PopCount8(b: bv8): (r: nat)
    ensures r <= 8
  {
    PopCountFrom(b, 0)
  }

  lemma TopBitsBit(p: nat, i: nat)
    requires p <= 8 && i < 8
    ensures IsSet8(TopBits8(p), i) <==> i >= 8 - p
  {
  }

  lemma {:induction false} PopCountTopBitsFrom(p: nat, i: nat)
    requires p <= 8 && i <= 8
    ensures PopCountFrom(TopBits8(p), i) == 8 - (if i < 8 - p then 8 - p else i)
    decreases 8 - i
  {
    if i < 8 {
      PopCountTopBitsFrom(p, i + 1);
      TopBitsBit(p, i);
    }
  }

  /** Reading back an all-ones priority byte counts exactly the implemented bits. */
  lemma PopCountTopBits(p: nat)
    requires p <= 8
    ensures PopCount8(TopBits8(p)) == p
  {
    PopCountTopBitsFrom(p, 0);
  }

  /** `(prio << shift) & 0xFF` evaluated in 32-bit C arithmetic and stored in a byte. */
  function ScalePriority(prio: bv8, shift: nat): (r: bv8)
    requires shift <= 8
    ensures r & !TopBits8(8 - shift) == 0
  {
    (((prio as bv32) << shift) & 0xFF) as bv8
  }

  /** A priority scaled into the top `bits` bits survives the RAZ/WI masking unchanged. */
  lemma ScaledPriorityImplemented(prio: bv8, bits: nat)
    requires bits <= 8
    ensures ScalePriority(prio, 8 - bits) & TopBits8(bits) == ScalePriority(prio, 8 - bits)
  {
    var r := ScalePriority(prio, 8 - bits);
    assert r & !TopBits8(bits) == 0;
  }

  /** The 2-bit Int_config field `f` (0..15) of an ICFGR word (GICv2 section 4.3.13). */
  function ConfigField(w: bv32, f: bv32): (r: bv32)
    requires f < 16
    ensures r <= 3
  {
    (w >> (2 * f)) & 3
  }

  /** The read-modify-write that clears field `f` of `w` and ors `v` into it. */
  function SetConfigField(w: bv32, f: bv32, v: bv32): bv32
    requires f < 16 && v <= 3
  {
    (w & !((3 as bv32) << (2 * f))) | (v << (2 * f))
  }

  /** Field index of interrupt `id` within ICFGR word `id / 16`; IRQ_CFGR_SHIFT(id) is twice it. */
  function CfgrField(id: nat): (f: bv32)
    ensures f < 16
  {
    (id % 16) as bv32
  }

  lemma CfgrFieldValue(id: nat)
    ensures CfgrField(id) as int == id % 16
  {
  }

  /** The read-modify-write changes field `f` to `v` and leaves the other fifteen alone. */
  lemma SetConfigFieldSpec(w: bv32, f: bv32, v: bv32, g: bv32)
    requires f < 16 && v <= 3 && g < 16
    ensures ConfigField(SetConfigField(w, f, v), g) == if g == f then v else ConfigField(w, g)
  {
  }

  lemma SetConfigFieldIdempotent(w: bv32, f: bv32, v: bv32)
    requires f < 16 && v <= 3
    ensures SetConfigField(SetConfigField(w, f, v), f, v) == SetConfigField(w, f, v)
  {
  }

  /** BIT(j) has bit `i` set exactly when i == j. */
  lemma Bit32Only(j: nat, i: nat)
    requires j < 32 && i < 32
    ensures IsSet32(Bit32(j), i) <==> i == j
  {
    if i != j {
      assert (i as bv32) != (j as bv32) by {
        assert (i as bv32) as int == i;
        assert (j as bv32) as int == j;
      }
    }
  }
}
