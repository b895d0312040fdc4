/**
 * The GICv3 distributor driver of possum_os (possum_os/src/gic/gic_dist.rs):
 * global bring-up of GICD_CTLR, following section 4.1 of Arm's "GICv3
 * Software Overview" (DAI 0492B), and the per-interrupt register fields,
 * each a read-modify-write through `write_register`.
 */
module GicDist {
  import opened GicCommon

  const GICD_CTLR_OFFSET: Addr := 0x000
  const GICD_IGROUPR_OFFSET: Addr := 0x080
  const GICD_ISENABLER_OFFSET: Addr := 0x100
  const GICD_ICENABLER_OFFSET: Addr := 0x180
  const GICD_ISPENDR_OFFSET: Addr := 0x200
  const GICD_ICPENDR_OFFSET: Addr := 0x280
  const GICD_IPRIORITYR_OFFSET: Addr := 0x400
  const GICD_ITARGETSR_OFFSET: Addr := 0x800
  const GICD_ICFGR_OFFSET: Addr := 0xC00

  const GICD_IGROUPR_FIELD_SIZE: bv32 := 1
  const GICD_ISENABLER_FIELD_SIZE: bv32 := 1
  const GICD_ICENABLER_FIELD_SIZE: bv32 := 1
  const GICD_ISPENDR_FIELD_SIZE: bv32 := 1
  const GICD_ICPENDR_FIELD_SIZE: bv32 := 1
  const GICD_IPRIORITYR_FIELD_SIZE: bv32 := 8
  const GICD_ICFGR_FIELD_SIZE: bv32 := 2
  const GICD_ITARGETSR_SIZE: bv32 := 4
  const TARGET_BIT_WIDTH: bv32 := 8

  const GICD_CTLR_DISABLE_SECURITY: bv32 := 0x40   // 0b1 << 6
  const GICD_CTLR_ENABLE_G1NS: bv32 := 0x2         // 0b1 << 1
  const GICD_CTLR_ENABLE_G0: bv32 := 0x1           // 0b1 << 0
  const GICD_CTLR_ARE_NS_BIT: bv32 := 0x20         // 0b1 << 5

  /** `group as u32` */
  function BoolBits(b: bool): (r: bv32)
    ensures r <= 1 && (r == 1 <==> b)
  {
    if b then 1 else 0
  }

  /**
   * The three values `init_gic` writes to GICD_CTLR, in order, when the
   * register read as `c0`: security disabled, then both groups enabled, then
   * affinity routing for the non-secure state.
   */
  function CtlrWrites(c0: bv32): (s: seq<bv32>)
    ensures |s| == 3
  {
    var first := SetBits(c0, GICD_CTLR_DISABLE_SECURITY);
    var second := SetBits(first, GICD_CTLR_ENABLE_G1NS | GICD_CTLR_ENABLE_G0);
    var third := SetBits(second, GICD_CTLR_ARE_NS_BIT);
    [first, second, third]
  }

  /** No CTLR write clears a bit of the value before it. */
  lemma CtlrWritesGrow(c0: bv32)
    ensures var s := CtlrWrites(c0);
            c0 & !s[0] == 0 && s[0] & !s[1] == 0 && s[1] & !s[2] == 0
  {
  }

  /**
   * Each write adds its bits, and nothing else changes: the last value is
   * the read value with bits 0, 1, 5 and 6 set.
   */
  lemma CtlrWritesBits(c0: bv32)
    ensures var s := CtlrWrites(c0);
            && s[0] & GICD_CTLR_DISABLE_SECURITY == GICD_CTLR_DISABLE_SECURITY
            && s[1] & 0x3 == 0x3
            && s[2] & GICD_CTLR_ARE_NS_BIT == GICD_CTLR_ARE_NS_BIT
            && s[2] & !0x63 == c0 & !0x63 && s[2] & 0x63 == 0x63
  {
  }

  /*
   * In the set_target arithmetic below, GICD_ITARGETSR_SIZE (4) and
   * TARGET_BIT_WIDTH (8) are written as literals.
   */

  /** The bit `set_target` ORs in: byte `n % 4` of the word, bit `target` of that byte. */
  function TargetShift(n: bv32, target: CpuId): (k: bv32)
    ensures k <= 31
    ensures k / 8 == n % 4 && k % 8 == target.Bits()
  {
    (n % 4) * 8 + target.Bits()
  }

  /** `interrupt_target_mask`: a word with exactly one bit set. */
  function TargetMask(n: bv32, target: CpuId): (r: bv32)
    ensures r != 0 && r & (r - 1) == 0
  {
    (1 as bv32) << TargetShift(n, target)
  }

  /** `p.add(i)` on a `*mut u32`: the index is scaled by 4 bytes. */
  function AddWords(p: Addr, i: Addr): Addr {
    p + i * 4
  }

  /** `gicd_itargetsr.add(interrupt / 4)`, the ITARGETSR word of interrupt `n`. */
  function TargetAddr(gicd: Addr, n: bv32): Addr {
    AddWords(gicd + GICD_ITARGETSR_OFFSET, Widen(n / 4))
  }

  /** The memory `set_target(n, target)` leaves behind. */
  function Targeted(m: Memory, gicd: Addr, n: bv32, target: CpuId): Memory {
    var a := TargetAddr(gicd, n);
    m[Cell(a) := SetBits(Load(m, a), TargetMask(n, target))]
  }

  /** `set_target` never clears a bit and sets its own. */
  lemma TargetedKeepsBits(m: Memory, gicd: Addr, n: bv32, target: CpuId)
    ensures var a := TargetAddr(gicd, n);
            Load(m, a) & !Load(Targeted(m, gicd, n, target), a) == 0
            && Load(Targeted(m, gicd, n, target), a) & TargetMask(n, target) != 0
  {
  }

  /** `set_target` twice with the same arguments is `set_target` once. */
  lemma TargetedIdempotent(m: Memory, gicd: Addr, n: bv32, target: CpuId)
    ensures Targeted(Targeted(m, gicd, n, target), gicd, n, target) == Targeted(m, gicd, n, target)
  {
    var a := TargetAddr(gicd, n);
    assert (Load(m, a) | TargetMask(n, target)) | TargetMask(n, target) == Load(m, a) | TargetMask(n, target);
  }

  /** Targets add up: after routing to two processing elements, both bits are set. */
  lemma TargetedAdditive(m: Memory, gicd: Addr, n: bv32, t1: CpuId, t2: CpuId)
    ensures var a := TargetAddr(gicd, n);
            var word := Load(Targeted(Targeted(m, gicd, n, t1), gicd, n, t2), a);
            word & TargetMask(n, t1) != 0 && word & TargetMask(n, t2) != 0
  {
    TargetedKeepsBits(m, gicd, n, t1);
    TargetedKeepsBits(Targeted(m, gicd, n, t1), gicd, n, t2);
  }

  /** `GicDistributor`: the driver holds only the distributor's base address. */
  class GicDistributor {
    const gicdCtlr: Addr

    constructor (gicdCtlr: Addr)
      ensures this.gicdCtlr == gicdCtlr
    {
      this.gicdCtlr := gicdCtlr;
    }

    /** `init_gic`: three read-modify-writes of GICD_CTLR, each adding bits to the value read once. */
    method InitGic(bank: RegisterBank)
      modifies bank
      ensures var a := gicdCtlr + GICD_CTLR_OFFSET;
              var s := CtlrWrites(Load(old(bank.mem), a));
              && bank.trace == old(bank.trace) + [MmioWrite(a, s[0]), MmioWrite(a, s[1]), MmioWrite(a, s[2])]
              && bank.mem == old(bank.mem)[Cell(a) := s[2]]
    {
      var a := gicdCtlr + GICD_CTLR_OFFSET;
      var ctlrContents := bank.Read(a);
      ctlrContents := SetBits(ctlrContents, GICD_CTLR_DISABLE_SECURITY);
      bank.Store(a, ctlrContents);
      ctlrContents := SetBits(ctlrContents, GICD_CTLR_ENABLE_G1NS | GICD_CTLR_ENABLE_G0);
      bank.Store(a, ctlrContents);
      ctlrContents := SetBits(ctlrContents, GICD_CTLR_ARE_NS_BIT);
      bank.Store(a, ctlrContents);
    }

    /** `set_group`: the 1-bit IGROUPR field of `interrupt` becomes `group`. */
    method SetGroup(bank: RegisterBank, interrupt: bv32, group: bool)
      modifies bank
      ensures bank.WroteField(gicdCtlr + GICD_IGROUPR_OFFSET, GICD_IGROUPR_FIELD_SIZE, interrupt, BoolBits(group))
      ensures ReadRegister(bank.mem, gicdCtlr + GICD_IGROUPR_OFFSET, GICD_IGROUPR_FIELD_SIZE, interrupt) == BoolBits(group)
    {
      bank.WriteRegister(gicdCtlr + GICD_IGROUPR_OFFSET, GICD_IGROUPR_FIELD_SIZE, interrupt, BoolBits(group));
    }

    /** `set_enable`: a 1 into the ISENABLER bit of `interrupt`. */
    method SetEnable(bank: RegisterBank, interrupt: bv32)
      modifies bank
      ensures bank.WroteField(gicdCtlr + GICD_ISENABLER_OFFSET, GICD_ISENABLER_FIELD_SIZE, interrupt, 1)
      ensures ReadRegister(bank.mem, gicdCtlr + GICD_ISENABLER_OFFSET, GICD_ISENABLER_FIELD_SIZE, interrupt) == 1
    {
      bank.WriteRegister(gicdCtlr + GICD_ISENABLER_OFFSET, GICD_ISENABLER_FIELD_SIZE, interrupt, 1);
    }

    /** `clear_enable`: a 1 into the ICENABLER bit of `interrupt` (plain memory: ISENABLER is not touched). */
    method ClearEnable(bank: RegisterBank, interrupt: bv32)
      modifies bank
      ensures bank.WroteField(gicdCtlr + GICD_ICENABLER_OFFSET, GICD_ICENABLER_FIELD_SIZE, interrupt, 1)
      ensures ReadRegister(bank.mem, gicdCtlr + GICD_ICENABLER_OFFSET, GICD_ICENABLER_FIELD_SIZE, interrupt) == 1
    {
      bank.WriteRegister(gicdCtlr + GICD_ICENABLER_OFFSET, GICD_ICENABLER_FIELD_SIZE, interrupt, 1);
    }

    /** `set_priority`: the 8-bit IPRIORITYR field of `interrupt` becomes `priority`. */
    method SetPriority(bank: RegisterBank, interrupt: bv32, priority: bv8)
      modifies bank
      ensures bank.WroteField(gicdCtlr + GICD_IPRIORITYR_OFFSET, GICD_IPRIORITYR_FIELD_SIZE, interrupt, priority as bv32)
      ensures ReadRegister(bank.mem, gicdCtlr + GICD_IPRIORITYR_OFFSET, GICD_IPRIORITYR_FIELD_SIZE, interrupt) == priority as bv32
    {
      bank.WriteRegister(gicdCtlr + GICD_IPRIORITYR_OFFSET, GICD_IPRIORITYR_FIELD_SIZE, interrupt, priority as bv32);
    }

    /**
     * `set_target`: ORs the single bit of `target` into the byte of
     * `interrupt` in ITARGETSR word `interrupt / 4`, with one volatile write.
     */
    method SetTarget(bank: RegisterBank, interrupt: bv32, target: CpuId)
      modifies bank
      ensures bank.mem == Targeted(old(bank.mem), gicdCtlr, interrupt, target)
      ensures bank.trace == old(bank.trace)
                + [MmioWrite(TargetAddr(gicdCtlr, interrupt), Load(bank.mem, TargetAddr(gicdCtlr, interrupt)))]
    {
      var interruptTargetRegisterOffset := Widen(interrupt / 4);
      var gicdItargetsr := gicdCtlr + GICD_ITARGETSR_OFFSET;
      var register := AddWords(gicdItargetsr, interruptTargetRegisterOffset);
      var currentInterruptTarget := bank.Read(register);
      var interruptTargetMask := TargetMask(interrupt, target);
      var newInterruptTarget := SetBits(currentInterruptTarget, interruptTargetMask);
      bank.Store(register, newInterruptTarget);
    }

    /** `set_cfg`: the 2-bit ICFGR field of `interrupt` becomes the encoding of `cfg`. */
    method SetCfg(bank: RegisterBank, interrupt: bv32, cfg: InterruptType)
      modifies bank
      ensures bank.WroteField(gicdCtlr + GICD_ICFGR_OFFSET, GICD_ICFGR_FIELD_SIZE, interrupt, cfg.Bits())
      ensures ReadRegister(bank.mem, gicdCtlr + GICD_ICFGR_OFFSET, GICD_ICFGR_FIELD_SIZE, interrupt) == cfg.Bits()
    {
      bank.WriteRegister(gicdCtlr + GICD_ICFGR_OFFSET, GICD_ICFGR_FIELD_SIZE, interrupt, cfg.Bits());
    }

    /** `clear_pending`: a 1 into the ICPENDR bit of `interrupt` (plain memory: ISPENDR is not touched). */
    method ClearPending(bank: RegisterBank, interrupt: bv32)
      modifies bank
      ensures bank.WroteField(gicdCtlr + GICD_ICPENDR_OFFSET, GICD_ICPENDR_FIELD_SIZE, interrupt, 1)
      ensures ReadRegister(bank.mem, gicdCtlr + GICD_ICPENDR_OFFSET, GICD_ICPENDR_FIELD_SIZE, interrupt) == 1
    {
      bank.WriteRegister(gicdCtlr + GICD_ICPENDR_OFFSET, GICD_ICPENDR_FIELD_SIZE, interrupt, 1);
    }

    /** `get_pending`: whether the ISPENDR bit of `interrupt` reads 1. */
    method GetPending(bank: RegisterBank, interrupt: bv32) returns (pending: bool)
      ensures pending <==> Pending(bank.mem, gicdCtlr, interrupt)
    {
      var field := ReadRegister(bank.mem, gicdCtlr + GICD_ISPENDR_OFFSET, GICD_ISPENDR_FIELD_SIZE, interrupt);
      pending := field == 1;
    }

    /** `set_pending`: a 1 into the ISPENDR bit of `interrupt`, so `get_pending` then answers true. */
    method SetPending(bank: RegisterBank, interrupt: bv32)
      modifies bank
      ensures bank.WroteField(gicdCtlr + GICD_ISPENDR_OFFSET, GICD_ISPENDR_FIELD_SIZE, interrupt, 1)
      ensures Pending(bank.mem, gicdCtlr, interrupt)
    {
      bank.WriteRegister(gicdCtlr + GICD_ISPENDR_OFFSET, GICD_ISPENDR_FIELD_SIZE, interrupt, 1);
    }
  }

  /** What `get_pending` answers for `interrupt` of the distributor at `gicd`. */
  function Pending(m: Memory, gicd: Addr, n: bv32): bool {
    ReadRegister(m, gicd + GICD_ISPENDR_OFFSET, GICD_ISPENDR_FIELD_SIZE, n) == 1
  }

  /** `set_pending` and `get_pending` use the same field: a set interrupt reads as pending. */
  lemma PendingAfterSetPending(m: Memory, gicd: Addr, n: bv32)
    ensures Pending(Written(m, gicd + GICD_ISPENDR_OFFSET, GICD_ISPENDR_FIELD_SIZE, n, 1), gicd, n)
  {
    ReadAfterWrite(m, gicd + GICD_ISPENDR_OFFSET, GICD_ISPENDR_FIELD_SIZE, n, 1);
  }
}
