/**
 * The GICv3 redistributor driver of possum_os (possum_os/src/gic/gic_redist.rs):
 * waking the processing element through GICR_WAKER, following section 4.2.1
 * of Arm's "GICv3 Software Overview" (DAI 0492B), and the per-interrupt
 * fields of the SGI/PPI frame, which sits 64 KiB above the redistributor's
 * base.
 *
 * The hardware clears ChildrenAsleep on its own after the sleep bit is
 * cleared; that change of the register behind the driver's back is not
 * memory the driver writes, so the values the polling loop reads are an
 * input, `polls`, the successive values GICR_WAKER shows.
 */
module GicRedist {
  import opened Wrappers
  import opened GicCommon

  const GICR_SGI_BASE_OFFSET: Addr := 0x10000
  const GICR_WAKER_OFFSET: Addr := 0x014
  const WAKER_SLEEP_BIT: bv32 := 0x2                  // 0b1 << 1
  const GICR_WAKER_CHILDREN_ASLEEP_BIT: bv32 := 0x4   // 0b1 << 2

  const GICR_IGROUPR_OFFSET: Addr := 0x10000 + 0x080
  const GICR_ISENABLER_OFFSET: Addr := 0x10000 + 0x100
  const GICR_ICENABLER_OFFSET: Addr := 0x10000 + 0x180
  const GICR_ISPENDR_OFFSET: Addr := 0x10000 + 0x200
  const GICR_ICPENDR_OFFSET: Addr := 0x10000 + 0x280
  const GICR_IPRIORITYR_OFFSET: Addr := 0x10000 + 0x400
  const GICR_ICFGR_OFFSET: Addr := 0x10000 + 0xC00
  /** The offset `set_interrupt_config` uses for ICFGR, as written. */
  const GICR_ICFGR_OFFSET_AS_WRITTEN: Addr := 0x10000 + 0x0c

  const GICR_IGROUPR_FIELD_SIZE: bv32 := 1
  const GICR_ISENABLER_FIELD_SIZE: bv32 := 1
  const GICR_ICENABLER_FIELD_SIZE: bv32 := 1
  const GICR_ISPENDR_FIELD_SIZE: bv32 := 1
  const GICR_ICPENDR_FIELD_SIZE: bv32 := 1
  const GICR_IPRIORITYR_FIELD_SIZE: bv32 := 8
  const GICR_ICFGR_FIELD_SIZE: bv32 := 2

  /** GICR_WAKER with the ProcessorSleep bit cleared, everything else kept. */
  function Awakened(waker: bv32): bv32 {
    ClearBits(waker, WAKER_SLEEP_BIT)
  }

  /** Clearing the sleep bit touches that bit only. */
  lemma AwakenedBits(waker: bv32)
    ensures Awakened(waker) & 0x2 == 0
    ensures Awakened(waker) & !0x2 == waker & !0x2
  {
  }

  /** The loop's exit test: ChildrenAsleep reads 0. */
  predicate ChildrenAwake(waker: bv32) {
    waker & 0x4 == 0
  }

  /**
   * The polling loop of `init` over the values GICR_WAKER shows: it stops at
   * the first value with ChildrenAsleep clear. `None` says no value in
   * `polls` had it clear, so the driver would still be spinning.
   */
  method AwaitChildrenAwake(polls: seq<bv32>) returns (awake: Option<nat>)
    ensures awake.Some? ==> awake.value < |polls| && ChildrenAwake(polls[awake.value])
    ensures awake.Some? ==> forall j :: 0 <= j < awake.value ==> !ChildrenAwake(polls[j])
    ensures awake.None? <==> forall j :: 0 <= j < |polls| ==> !ChildrenAwake(polls[j])
  {
    var i := 0;
    while i < |polls|
      invariant 0 <= i <= |polls|
      invariant forall j :: 0 <= j < i ==> !ChildrenAwake(polls[j])
    {
      var wakerContents := polls[i];
      if wakerContents & GICR_WAKER_CHILDREN_ASLEEP_BIT == 0 {
        return Some(i);
      }
      i := i + 1;
    }
    return None;
  }

  /** `GicRedist`: the driver holds only the redistributor's base address. */
  class GicRedistributor {
    const gicrBase: Addr

    constructor (gicrBase: Addr)
      ensures this.gicrBase == gicrBase
    {
      this.gicrBase := gicrBase;
    }

    /**
     * `init`: one read-modify-write of GICR_WAKER clearing ProcessorSleep,
     * then the wait for ChildrenAsleep to clear.
     */
    method Init(bank: RegisterBank, polls: seq<bv32>) returns (awake: Option<nat>)
      modifies bank
      ensures var a := gicrBase + GICR_WAKER_OFFSET;
              var w := Awakened(Load(old(bank.mem), a));
              bank.mem == old(bank.mem)[Cell(a) := w] && bank.trace == old(bank.trace) + [MmioWrite(a, w)]
      ensures awake.Some? ==> awake.value < |polls| && ChildrenAwake(polls[awake.value])
      ensures awake.Some? ==> forall j :: 0 <= j < awake.value ==> !ChildrenAwake(polls[j])
      ensures awake.None? <==> forall j :: 0 <= j < |polls| ==> !ChildrenAwake(polls[j])
    {
      var a := gicrBase + GICR_WAKER_OFFSET;
      var gicrWakerContents := bank.Read(a);
      gicrWakerContents := ClearBits(gicrWakerContents, WAKER_SLEEP_BIT);
      bank.Store(a, gicrWakerContents);
      awake := AwaitChildrenAwake(polls);
    }

    /**
     * `set_interrupt_config` as written: the 2-bit field of `interrupt` at
     * SGI_base + 0x0c, which is not GICR_ICFGR (SGI_base + 0xC00).
     */
    method SetInterruptConfigAsWritten(bank: RegisterBank, interrupt: bv32, config: bv32)
      modifies bank
      ensures bank.WroteField(gicrBase + GICR_ICFGR_OFFSET_AS_WRITTEN, GICR_ICFGR_FIELD_SIZE, interrupt, config)
    {
      bank.WriteRegister(gicrBase + GICR_ICFGR_OFFSET_AS_WRITTEN, GICR_ICFGR_FIELD_SIZE, interrupt, config);
    }

    /** `set_interrupt_config` with the ICFGR offset `set_cfg` uses: the field of `interrupt` becomes `config & 3`. */
    method SetInterruptConfig(bank: RegisterBank, interrupt: bv32, config: bv32)
      modifies bank
      ensures bank.WroteField(gicrBase + GICR_ICFGR_OFFSET, GICR_ICFGR_FIELD_SIZE, interrupt, config)
      ensures ReadRegister(bank.mem, gicrBase + GICR_ICFGR_OFFSET, GICR_ICFGR_FIELD_SIZE, interrupt) == config & 3
    {
      bank.WriteRegister(gicrBase + GICR_ICFGR_OFFSET, GICR_ICFGR_FIELD_SIZE, interrupt, config);
    }

    /** `get_redistributor_pending` and `get_pending`: whether the ISPENDR bit of `interrupt` reads 1. */
    method GetPending(bank: RegisterBank, interrupt: bv32) returns (pending: bool)
      ensures pending <==> RedistPending(bank.mem, gicrBase, interrupt)
    {
      var field := ReadRegister(bank.mem, gicrBase + GICR_ISPENDR_OFFSET, GICR_ISPENDR_FIELD_SIZE, interrupt);
      pending := field == 1;
    }

    /** `set_enable`: a 1 into the ISENABLER bit of `interrupt`. */
    method SetEnable(bank: RegisterBank, interrupt: bv32)
      modifies bank
      ensures bank.WroteField(gicrBase + GICR_ISENABLER_OFFSET, GICR_ISENABLER_FIELD_SIZE, interrupt, 1)
      ensures ReadRegister(bank.mem, gicrBase + GICR_ISENABLER_OFFSET, GICR_ISENABLER_FIELD_SIZE, interrupt) == 1
    {
      bank.WriteRegister(gicrBase + GICR_ISENABLER_OFFSET, GICR_ISENABLER_FIELD_SIZE, interrupt, 1);
    }

    /** `clear_enable`: a 1 into the ICENABLER bit of `interrupt` (plain memory: ISENABLER is not touched). */
    method ClearEnable(bank: RegisterBank, interrupt: bv32)
      modifies bank
      ensures bank.WroteField(gicrBase + GICR_ICENABLER_OFFSET, GICR_ICENABLER_FIELD_SIZE, interrupt, 1)
      ensures ReadRegister(bank.mem, gicrBase + GICR_ICENABLER_OFFSET, GICR_ICENABLER_FIELD_SIZE, interrupt) == 1
    {
      bank.WriteRegister(gicrBase + GICR_ICENABLER_OFFSET, GICR_ICENABLER_FIELD_SIZE, interrupt, 1);
    }

    /** `set_priority`: the 8-bit IPRIORITYR field of `interrupt` becomes `priority`. */
    method SetPriority(bank: RegisterBank, interrupt: bv32, priority: bv8)
      modifies bank
      ensures bank.WroteField(gicrBase + GICR_IPRIORITYR_OFFSET, GICR_IPRIORITYR_FIELD_SIZE, interrupt, priority as bv32)
      ensures Priority(bank.mem, gicrBase, interrupt) == priority
    {
      bank.WriteRegister(gicrBase + GICR_IPRIORITYR_OFFSET, GICR_IPRIORITYR_FIELD_SIZE, interrupt, priority as bv32);
      PriorityAfterSetPriority(old(bank.mem), gicrBase, interrupt, priority);
    }

    /** `get_priority`: the 8-bit IPRIORITYR field of `interrupt`, narrowed to a byte without loss. */
    method GetPriority(bank: RegisterBank, interrupt: bv32) returns (priority: bv8)
      ensures priority as bv32 == ReadRegister(bank.mem, gicrBase + GICR_IPRIORITYR_OFFSET, GICR_IPRIORITYR_FIELD_SIZE, interrupt)
    {
      var field := ReadRegister(bank.mem, gicrBase + GICR_IPRIORITYR_OFFSET, GICR_IPRIORITYR_FIELD_SIZE, interrupt);
      ReadRegisterBound(bank.mem, gicrBase + GICR_IPRIORITYR_OFFSET, GICR_IPRIORITYR_FIELD_SIZE, interrupt);
      priority := field as bv8;
    }

    /** `set_pending`: a 1 into the ISPENDR bit of `interrupt`, so `get_pending` then answers true. */
    method SetPending(bank: RegisterBank, interrupt: bv32)
      modifies bank
      ensures bank.WroteField(gicrBase + GICR_ISPENDR_OFFSET, GICR_ISPENDR_FIELD_SIZE, interrupt, 1)
      ensures RedistPending(bank.mem, gicrBase, interrupt)
    {
      bank.WriteRegister(gicrBase + GICR_ISPENDR_OFFSET, GICR_ISPENDR_FIELD_SIZE, interrupt, 1);
    }

    /** `set_cfg`: the 2-bit ICFGR field of `interrupt` becomes the encoding of `cfg`. */
    method SetCfg(bank: RegisterBank, interrupt: bv32, cfg: InterruptType)
      modifies bank
      ensures bank.WroteField(gicrBase + GICR_ICFGR_OFFSET, GICR_ICFGR_FIELD_SIZE, interrupt, cfg.Bits())
      ensures ReadRegister(bank.mem, gicrBase + GICR_ICFGR_OFFSET, GICR_ICFGR_FIELD_SIZE, interrupt) == cfg.Bits()
    {
      bank.WriteRegister(gicrBase + GICR_ICFGR_OFFSET, GICR_ICFGR_FIELD_SIZE, interrupt, cfg.Bits());
    }

    /** `clear_pending`: a 1 into the ICPENDR bit of `interrupt` (plain memory: ISPENDR is not touched). */
    method ClearPending(bank: RegisterBank, interrupt: bv32)
      modifies bank
      ensures bank.WroteField(gicrBase + GICR_ICPENDR_OFFSET, GICR_ICPENDR_FIELD_SIZE, interrupt, 1)
      ensures ReadRegister(bank.mem, gicrBase + GICR_ICPENDR_OFFSET, GICR_ICPENDR_FIELD_SIZE, interrupt) == 1
    {
      bank.WriteRegister(gicrBase + GICR_ICPENDR_OFFSET, GICR_ICPENDR_FIELD_SIZE, interrupt, 1);
    }

    /** `set_group`: the 1-bit IGROUPR field of `interrupt` becomes `group`. */
    method SetGroup(bank: RegisterBank, interrupt: bv32, group: bool)
      modifies bank
      ensures bank.WroteField(gicrBase + GICR_IGROUPR_OFFSET, GICR_IGROUPR_FIELD_SIZE, interrupt, if group then 1 else 0)
      ensures ReadRegister(bank.mem, gicrBase + GICR_IGROUPR_OFFSET, GICR_IGROUPR_FIELD_SIZE, interrupt) == if group then 1 else 0
    {
      bank.WriteRegister(gicrBase + GICR_IGROUPR_OFFSET, GICR_IGROUPR_FIELD_SIZE, interrupt, if group then 1 else 0);
    }
  }

  /** What `get_pending` answers for `interrupt` of the redistributor at `gicr`. */
  function RedistPending(m: Memory, gicr: Addr, n: bv32): bool {
    ReadRegister(m, gicr + GICR_ISPENDR_OFFSET, GICR_ISPENDR_FIELD_SIZE, n) == 1
  }

  /** What `get_priority` answers for `interrupt` of the redistributor at `gicr`. */
  function Priority(m: Memory, gicr: Addr, n: bv32): bv8 {
    ReadRegisterBound(m, gicr + GICR_IPRIORITYR_OFFSET, GICR_IPRIORITYR_FIELD_SIZE, n);
    ReadRegister(m, gicr + GICR_IPRIORITYR_OFFSET, GICR_IPRIORITYR_FIELD_SIZE, n) as bv8
  }

  /** `get_priority` after `set_priority` answers the priority written. */
  lemma PriorityAfterSetPriority(m: Memory, gicr: Addr, n: bv32, p: bv8)
    ensures Priority(Written(m, gicr + GICR_IPRIORITYR_OFFSET, GICR_IPRIORITYR_FIELD_SIZE, n, p as bv32), gicr, n) == p
  {
    ReadAfterWrite(m, gicr + GICR_IPRIORITYR_OFFSET, GICR_IPRIORITYR_FIELD_SIZE, n, p as bv32);
  }

  /** `get_pending` after `set_pending` answers true. */
  lemma RedistPendingAfterSetPending(m: Memory, gicr: Addr, n: bv32)
    ensures RedistPending(Written(m, gicr + GICR_ISPENDR_OFFSET, GICR_ISPENDR_FIELD_SIZE, n, 1), gicr, n)
  {
    ReadAfterWrite(m, gicr + GICR_ISPENDR_OFFSET, GICR_ISPENDR_FIELD_SIZE, n, 1);
  }

  /**
   * `set_interrupt_config` as written never reaches GICR_ICFGR: for every
   * interrupt, the ICFGR field `set_cfg` reads and writes is left as it was.
   */
  lemma InterruptConfigMissesIcfgr(m: Memory, gicr: Addr, n: bv32, config: bv32)
    ensures var m' := Written(m, gicr + GICR_ICFGR_OFFSET_AS_WRITTEN, GICR_ICFGR_FIELD_SIZE, n, config);
            ReadRegister(m', gicr + GICR_ICFGR_OFFSET, GICR_ICFGR_FIELD_SIZE, n)
              == ReadRegister(m, gicr + GICR_ICFGR_OFFSET, GICR_ICFGR_FIELD_SIZE, n)
  {
    WriteMissesOtherBank(m, gicr + GICR_ICFGR_OFFSET_AS_WRITTEN, gicr + GICR_ICFGR_OFFSET, GICR_ICFGR_FIELD_SIZE, n, config);
  }

  /**
   * The input that shows it: on fresh memory, configuring interrupt 27 as
   * edge-triggered through `set_interrupt_config` leaves its ICFGR field
   * reading level-sensitive (0), where `set_cfg` would leave 2.
   */
  lemma InterruptConfigCounterexample(gicr: Addr)
    ensures var m' := Written(map[], gicr + GICR_ICFGR_OFFSET_AS_WRITTEN, GICR_ICFGR_FIELD_SIZE, 27, EdgeTriggered.Bits());
            ReadRegister(m', gicr + GICR_ICFGR_OFFSET, GICR_ICFGR_FIELD_SIZE, 27) == LevelSensitive.Bits()
  {
    InterruptConfigMissesIcfgr(map[], gicr, 27, EdgeTriggered.Bits());
  }

  /** With the corrected offset, configuring `n` as `cfg` reads back as `cfg`, as `set_cfg` does. */
  lemma InterruptConfigReadBack(m: Memory, gicr: Addr, n: bv32, cfg: InterruptType)
    ensures var m' := Written(m, gicr + GICR_ICFGR_OFFSET, GICR_ICFGR_FIELD_SIZE, n, cfg.Bits());
            ReadRegister(m', gicr + GICR_ICFGR_OFFSET, GICR_ICFGR_FIELD_SIZE, n) == cfg.Bits()
  {
    ReadAfterWrite(m, gicr + GICR_ICFGR_OFFSET, GICR_ICFGR_FIELD_SIZE, n, cfg.Bits());
  }
}
