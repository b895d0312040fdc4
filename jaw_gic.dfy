/**
 * The GIC driver of jaw_os (jaw_os/src/gic.rs), the predecessor of the
 * possum_os drivers. Its private `write_register` and `read_register` are
 * the same code as possum_os's, and its distributor operations other than
 * `set_cfg` use the same offsets and widths as possum_os's distributor, so
 * those are GicCommon and GicDist here. What is its own: the one-piece
 * `init_gic`, and the redistributor and ICFGR accessors, which differ from
 * possum_os's.
 *
 * System registers are not memory: `mrs ICC_SRE_EL1` is an input, `sre`,
 * and every `msr` is an event in the trace.
 */
module JawGic {
  import opened Wrappers
  import opened GicCommon
  import GicRedist

  const GICD_CTLR_OFFSET: Addr := 0x000
  const GICR_WAKER_OFFSET: Addr := 0x014
  const WAKER_SLEEP_BIT: bv32 := 0x2            // 0b1 << 1
  const SRE_BYPASS: bv64 := 0x1
  const PMR_MINIMUM_PRIORITY: bv64 := 0xFF
  const GROUP_ENABLE: bv64 := 0x1
  /** The immediate of `msr DAIFclr, 0x2`: unmask IRQs. */
  const DAIF_IRQ: bv8 := 0x2

  /** Redistributor offsets as jaw_os writes them, from the redistributor's base. */
  const GICR_ISENABLER_OFFSET: Addr := 0x100
  const GICR_ICENABLER_OFFSET: Addr := 0x180
  const GICR_IPRIORITYR_OFFSET: Addr := 0x400
  const GICR_ISENABLER_FIELD_SIZE: bv32 := 1
  const GICR_ICENABLER_FIELD_SIZE: bv32 := 1
  const GICR_IPRIORITYR_FIELD_SIZE: bv32 := 8

  /** jaw_os's ICFGR: the offset of possum_os's, but a 16-bit field per interrupt. */
  const GICD_ICFGR_OFFSET: Addr := 0xC00
  const GICD_ICFGR_FIELD_SIZE: bv32 := 16

  /**
   * The one value `init_gic` writes to GICD_CTLR when it read `c0`: groups 0
   * and 1 enabled, security disabled, affinity routing (bit 4) cleared, and
   * bits 0 and 1 OR-ed in once more at the write.
   */
  function CtlrValue(c0: bv32): bv32 {
    SetBits(ClearBits(SetBits(SetBits(SetBits(c0, 0x1), 0x2), 0x40), 0x10), 0x3)
  }

  /** Bits 0, 1 and 6 are set, bit 4 is clear, every other bit is as read. */
  lemma CtlrValueBits(c0: bv32)
    ensures CtlrValue(c0) & 0x53 == 0x43
    ensures CtlrValue(c0) & !0x53 == c0 & !0x53
  {
  }

  /** `sre_el1_contents | SRE_BYPASS` */
  function SreValue(sre: bv64): bv64 {
    sre | SRE_BYPASS
  }

  /** The SRE write sets bit 0 and keeps the rest of ICC_SRE_EL1. */
  lemma SreValueBits(sre: bv64)
    ensures SreValue(sre) & 1 == 1
    ensures SreValue(sre) & !1 == sre & !1
  {
  }

  /**
   * Everything `init_gic` does that is observable, in order, when it wrote
   * `ctlr` to `ctlrAddr` and `waker` to `wakerAddr`. If the PE never wakes,
   * the driver spins after the SRE write and nothing else happens.
   */
  function InitEvents(ctlrAddr: Addr, ctlr: bv32, wakerAddr: Addr, waker: bv32, sre: bv64, awake: bool): seq<Event> {
    [MmioWrite(ctlrAddr, ctlr), MmioWrite(wakerAddr, waker), SysRegWrite(IccSreEl1, SreValue(sre))]
      + if awake then
          [WakeAcknowledged,
           SysRegWrite(IccPmrEl1, PMR_MINIMUM_PRIORITY),
           SysRegWrite(IccIgrpen1El1, GROUP_ENABLE),
           DaifClear(DAIF_IRQ)]
        else []
  }

  /**
   * Section 4.2.1 of the GICv3 Software Overview: no system register other
   * than ICC_SRE_EL1 is written before the PE is marked awake, and the
   * GICR_WAKER write comes before any system-register write.
   */
  lemma InitEventsWakeFirst(ctlrAddr: Addr, ctlr: bv32, wakerAddr: Addr, waker: bv32, sre: bv64, awake: bool)
    ensures var s := InitEvents(ctlrAddr, ctlr, wakerAddr, waker, sre, awake);
            forall i :: 0 <= i < |s| && s[i].SysRegWrite? ==> i > 1 && s[1] == MmioWrite(wakerAddr, waker)
    ensures var s := InitEvents(ctlrAddr, ctlr, wakerAddr, waker, sre, awake);
            forall i :: 0 <= i < |s| && s[i].SysRegWrite? && s[i].reg != IccSreEl1 ==> WakeAcknowledged in s[..i]
  {
    var s := InitEvents(ctlrAddr, ctlr, wakerAddr, waker, sre, awake);
    if awake {
      assert s[3] == WakeAcknowledged;
      forall i | 0 <= i < |s| && s[i].SysRegWrite? && s[i].reg != IccSreEl1
        ensures WakeAcknowledged in s[..i]
      {
        assert s[..i][3] == WakeAcknowledged;
      }
    }
  }

  /**
   * IRQs are unmasked only at the very end, right after group 1 is enabled,
   * and only when the PE woke up.
   */
  lemma InitEventsUnmaskLast(ctlrAddr: Addr, ctlr: bv32, wakerAddr: Addr, waker: bv32, sre: bv64, awake: bool)
    ensures var s := InitEvents(ctlrAddr, ctlr, wakerAddr, waker, sre, awake);
            awake ==> s[|s| - 1] == DaifClear(DAIF_IRQ) && s[|s| - 2] == SysRegWrite(IccIgrpen1El1, GROUP_ENABLE)
    ensures var s := InitEvents(ctlrAddr, ctlr, wakerAddr, waker, sre, awake);
            forall i :: 0 <= i < |s| && s[i].DaifClear? ==> awake && i == |s| - 1
  {
  }

  /** `Gic`: the distributor, CPU interface and redistributor base addresses. */
  class Gic {
    const gicdCtlr: Addr
    const giccCtlr: Addr
    const gicrCtlr: Addr

    constructor (gicdCtlr: Addr, giccCtlr: Addr, gicrCtlr: Addr)
      ensures this.gicdCtlr == gicdCtlr && this.giccCtlr == giccCtlr && this.gicrCtlr == gicrCtlr
    {
      this.gicdCtlr := gicdCtlr;
      this.giccCtlr := giccCtlr;
      this.gicrCtlr := gicrCtlr;
    }

    /**
     * `init_gic`: the GICD_CTLR read-modify-write, the GICR_WAKER
     * read-modify-write, the SRE write, the wait for ChildrenAsleep to clear
     * over the values `polls` the register shows, then the priority mask,
     * group 1 enable and IRQ unmask.
     */
    method InitGic(bank: RegisterBank, sre: bv64, polls: seq<bv32>) returns (awake: Option<nat>)
      modifies bank
      ensures awake.Some? ==> awake.value < |polls| && GicRedist.ChildrenAwake(polls[awake.value])
      ensures awake.Some? ==> forall j :: 0 <= j < awake.value ==> !GicRedist.ChildrenAwake(polls[j])
      ensures awake.None? <==> forall j :: 0 <= j < |polls| ==> !GicRedist.ChildrenAwake(polls[j])
      ensures var c := gicdCtlr + GICD_CTLR_OFFSET;
              var w := gicrCtlr + GICR_WAKER_OFFSET;
              var m1 := old(bank.mem)[Cell(c) := CtlrValue(Load(old(bank.mem), c))];
              var waker := GicRedist.Awakened(Load(m1, w));
              && bank.mem == m1[Cell(w) := waker]
              && bank.trace == old(bank.trace) + InitEvents(c, CtlrValue(Load(old(bank.mem), c)), w, waker, sre, awake.Some?)
    {
      EnableDistributor(bank);
      MarkAwake(bank);
      bank.Record(SysRegWrite(IccSreEl1, SreValue(sre)));
      awake := GicRedist.AwaitChildrenAwake(polls);
      if awake.Some? {
        EnableInterrupts(bank);
      }
    }

    /** The tail of `init_gic` once the PE is awake: lowest priority mask, group 1 on, IRQs unmasked. */
    method EnableInterrupts(bank: RegisterBank)
      modifies bank
      ensures bank.mem == old(bank.mem)
      ensures bank.trace == old(bank.trace)
                + [WakeAcknowledged,
                   SysRegWrite(IccPmrEl1, PMR_MINIMUM_PRIORITY),
                   SysRegWrite(IccIgrpen1El1, GROUP_ENABLE),
                   DaifClear(DAIF_IRQ)]
    {
      bank.Record(WakeAcknowledged);
      bank.Record(SysRegWrite(IccPmrEl1, PMR_MINIMUM_PRIORITY));
      bank.Record(SysRegWrite(IccIgrpen1El1, GROUP_ENABLE));
      bank.Record(DaifClear(DAIF_IRQ));
    }

    /** The GICD_CTLR part of `init_gic`: one read-modify-write, then a read whose value is only printed. */
    method EnableDistributor(bank: RegisterBank)
      modifies bank
      ensures var c := gicdCtlr + GICD_CTLR_OFFSET;
              var v := CtlrValue(Load(old(bank.mem), c));
              bank.mem == old(bank.mem)[Cell(c) := v] && bank.trace == old(bank.trace) + [MmioWrite(c, v)]
    {
      var ctlrAddr := gicdCtlr + GICD_CTLR_OFFSET;
      var ctlrContents := bank.Read(ctlrAddr);
      ctlrContents := SetBits(ctlrContents, 0x1);
      ctlrContents := SetBits(ctlrContents, 0x2);
      ctlrContents := SetBits(ctlrContents, 0x40);
      ctlrContents := ClearBits(ctlrContents, 0x10);
      bank.Store(ctlrAddr, SetBits(ctlrContents, 0x3));
      ctlrContents := bank.Read(ctlrAddr);
    }

    /** The GICR_WAKER part of `init_gic`: ProcessorSleep cleared by one read-modify-write. */
    method MarkAwake(bank: RegisterBank)
      modifies bank
      ensures var w := gicrCtlr + GICR_WAKER_OFFSET;
              var v := GicRedist.Awakened(Load(old(bank.mem), w));
              bank.mem == old(bank.mem)[Cell(w) := v] && bank.trace == old(bank.trace) + [MmioWrite(w, v)]
    {
      var wakerAddr := gicrCtlr + GICR_WAKER_OFFSET;
      var gicrWakerContents := bank.Read(wakerAddr);
      gicrWakerContents := ClearBits(gicrWakerContents, WAKER_SLEEP_BIT);
      bank.Store(wakerAddr, gicrWakerContents);
    }

    /** `set_redistributor_enable` as written: ISENABLER at the redistributor's base + 0x100. */
    method SetRedistributorEnable(bank: RegisterBank, interrupt: bv32)
      modifies bank
      ensures bank.WroteField(gicrCtlr + GICR_ISENABLER_OFFSET, GICR_ISENABLER_FIELD_SIZE, interrupt, 1)
    {
      bank.WriteRegister(gicrCtlr + GICR_ISENABLER_OFFSET, GICR_ISENABLER_FIELD_SIZE, interrupt, 1);
    }

    /** `clear_redistributor_enable` as written: ICENABLER at the redistributor's base + 0x180. */
    method ClearRedistributorEnable(bank: RegisterBank, interrupt: bv32)
      modifies bank
      ensures bank.WroteField(gicrCtlr + GICR_ICENABLER_OFFSET, GICR_ICENABLER_FIELD_SIZE, interrupt, 1)
    {
      bank.WriteRegister(gicrCtlr + GICR_ICENABLER_OFFSET, GICR_ICENABLER_FIELD_SIZE, interrupt, 1);
    }

    /** `set_redistributor_priority` as written: IPRIORITYR at the redistributor's base + 0x400. */
    method SetRedistributorPriority(bank: RegisterBank, interrupt: bv32, priority: bv8)
      modifies bank
      ensures bank.WroteField(gicrCtlr + GICR_IPRIORITYR_OFFSET, GICR_IPRIORITYR_FIELD_SIZE, interrupt, priority as bv32)
    {
      bank.WriteRegister(gicrCtlr + GICR_IPRIORITYR_OFFSET, GICR_IPRIORITYR_FIELD_SIZE, interrupt, priority as bv32);
    }

    /** `get_redistributor_priority` as written: the 8-bit field at the redistributor's base + 0x400. */
    method GetRedistributorPriority(bank: RegisterBank, interrupt: bv32) returns (priority: bv8)
      ensures priority as bv32 == ReadRegister(bank.mem, gicrCtlr + GICR_IPRIORITYR_OFFSET, GICR_IPRIORITYR_FIELD_SIZE, interrupt)
    {
      var field := ReadRegister(bank.mem, gicrCtlr + GICR_IPRIORITYR_OFFSET, GICR_IPRIORITYR_FIELD_SIZE, interrupt);
      ReadRegisterBound(bank.mem, gicrCtlr + GICR_IPRIORITYR_OFFSET, GICR_IPRIORITYR_FIELD_SIZE, interrupt);
      priority := field as bv8;
    }

    /** `set_cfg` as written: a 16-bit field per interrupt in ICFGR. */
    method SetCfg(bank: RegisterBank, interrupt: bv32, cfg: InterruptType)
      modifies bank
      ensures bank.WroteField(gicdCtlr + GICD_ICFGR_OFFSET, GICD_ICFGR_FIELD_SIZE, interrupt, cfg.Bits())
    {
      bank.WriteRegister(gicdCtlr + GICD_ICFGR_OFFSET, GICD_ICFGR_FIELD_SIZE, interrupt, cfg.Bits());
    }
  }

  /**
   * The redistributor's ISENABLER0, ICENABLER0 and IPRIORITYR live in its
   * SGI/PPI frame, 64 KiB above its base, where possum_os addresses them.
   * jaw_os's writes land in the first frame and leave those fields alone.
   */
  lemma RedistEnableMissesSgiFrame(m: Memory, gicr: Addr, n: bv32)
    ensures var m' := Written(m, gicr + GICR_ISENABLER_OFFSET, GICR_ISENABLER_FIELD_SIZE, n, 1);
            ReadRegister(m', gicr + GicRedist.GICR_ISENABLER_OFFSET, GICR_ISENABLER_FIELD_SIZE, n)
              == ReadRegister(m, gicr + GicRedist.GICR_ISENABLER_OFFSET, GICR_ISENABLER_FIELD_SIZE, n)
  {
    WriteMissesOtherBank(m, gicr + GICR_ISENABLER_OFFSET, gicr + GicRedist.GICR_ISENABLER_OFFSET, GICR_ISENABLER_FIELD_SIZE, n, 1);
  }

  lemma RedistClearEnableMissesSgiFrame(m: Memory, gicr: Addr, n: bv32)
    ensures var m' := Written(m, gicr + GICR_ICENABLER_OFFSET, GICR_ICENABLER_FIELD_SIZE, n, 1);
            ReadRegister(m', gicr + GicRedist.GICR_ICENABLER_OFFSET, GICR_ICENABLER_FIELD_SIZE, n)
              == ReadRegister(m, gicr + GicRedist.GICR_ICENABLER_OFFSET, GICR_ICENABLER_FIELD_SIZE, n)
  {
    WriteMissesOtherBank(m, gicr + GICR_ICENABLER_OFFSET, gicr + GicRedist.GICR_ICENABLER_OFFSET, GICR_ICENABLER_FIELD_SIZE, n, 1);
  }

  /** After jaw_os's `set_redistributor_priority`, the priority the GIC uses is unchanged. */
  lemma RedistPriorityMissesSgiFrame(m: Memory, gicr: Addr, n: bv32, p: bv8)
    ensures var m' := Written(m, gicr + GICR_IPRIORITYR_OFFSET, GICR_IPRIORITYR_FIELD_SIZE, n, p as bv32);
            GicRedist.Priority(m', gicr, n) == GicRedist.Priority(m, gicr, n)
  {
    WriteMissesOtherBank(m, gicr + GICR_IPRIORITYR_OFFSET, gicr + GicRedist.GICR_IPRIORITYR_OFFSET, GICR_IPRIORITYR_FIELD_SIZE, n, p as bv32);
  }

  /** jaw_os's `get_redistributor_priority` does not see a priority set in the SGI/PPI frame. */
  lemma RedistPriorityReadMissesSgiFrame(m: Memory, gicr: Addr, n: bv32, p: bv8)
    ensures var m' := Written(m, gicr + GicRedist.GICR_IPRIORITYR_OFFSET, GICR_IPRIORITYR_FIELD_SIZE, n, p as bv32);
            ReadRegister(m', gicr + GICR_IPRIORITYR_OFFSET, GICR_IPRIORITYR_FIELD_SIZE, n)
              == ReadRegister(m, gicr + GICR_IPRIORITYR_OFFSET, GICR_IPRIORITYR_FIELD_SIZE, n)
  {
    WriteMissesOtherBank(m, gicr + GicRedist.GICR_IPRIORITYR_OFFSET, gicr + GICR_IPRIORITYR_OFFSET, GICR_IPRIORITYR_FIELD_SIZE, n, p as bv32);
  }

  /** Within its own addresses, jaw_os's `get_redistributor_priority` reads back what `set_redistributor_priority` wrote. */
  lemma RedistPriorityReadBack(m: Memory, gicr: Addr, n: bv32, p: bv8)
    ensures var m' := Written(m, gicr + GICR_IPRIORITYR_OFFSET, GICR_IPRIORITYR_FIELD_SIZE, n, p as bv32);
            ReadRegister(m', gicr + GICR_IPRIORITYR_OFFSET, GICR_IPRIORITYR_FIELD_SIZE, n) == p as bv32
  {
    ReadAfterWrite(m, gicr + GICR_IPRIORITYR_OFFSET, GICR_IPRIORITYR_FIELD_SIZE, n, p as bv32);
  }

  /**
   * ICFGR holds 2 bits per interrupt. On fresh memory, jaw_os's
   * `set_cfg(1, EdgeTriggered)` leaves interrupt 1 level-sensitive and makes
   * interrupt 8 edge-triggered instead.
   */
  lemma CfgCounterexample(gicd: Addr)
    ensures var m' := Written(map[], gicd + GICD_ICFGR_OFFSET, GICD_ICFGR_FIELD_SIZE, 1, EdgeTriggered.Bits());
            && ReadRegister(m', gicd + GICD_ICFGR_OFFSET, 2, 1) == LevelSensitive.Bits()
            && ReadRegister(m', gicd + GICD_ICFGR_OFFSET, 2, 8) == EdgeTriggered.Bits()
  {
  }
}
