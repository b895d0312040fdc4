# Verified model of the jaw_os / possum_os kernel helpers

This project is a Dafny model of the sequential core of the jaw_os repository,
a small AArch64 hobby kernel with its successor possum_os and an LZFSE port.
It covers six pieces:

- **GICv3 register-field accessor and drivers.** This is possum_os's `write_register`/`read_register` and its distributor and redistributor drivers, plus jaw_os's older combined `Gic` driver. The bring-up follows sections 4.1 and 4.2.1 of Arm's "GICv3 Software Overview" (DAI 0492B).
- **`RingBuffer<T, N>`.** A circular queue with FIFO `dequeue`, LIFO `pop` and a draining `flush`.
- **`Fifo<N>`.** The console's append-only byte buffer.
- **Flattened-devicetree reader.** It decodes the header (section 5.2 of the Devicetree Specification v0.4) and walks the structure-block tokens (section 5.4).
- **LZFSE bit-stream helpers.** The low-bit mask tables, bit-field extraction, and the 64-bit output accumulator with `out_push`, `out_flush` and `out_finish`.
- **jaw_os entry code.** `print_hex` and the byte stream `_rust_start` sends to the UART.

Module layout follows the source: one module per source file, plus `Wrappers` for `Option`/`Result`.

| module | file | models |
|---|---|---|
| `GicCommon` | `gic_common.dfy` | `possum_os/src/gic/common.rs`, and the private copies in `jaw_os/src/gic.rs` |
| `GicDist` | `gic_dist.dfy` | `possum_os/src/gic/gic_dist.rs`, and jaw_os's distributor operations with the same offsets |
| `GicRedist` | `gic_redist.dfy` | `possum_os/src/gic/gic_redist.rs` |
| `JawGic` | `jaw_gic.dfy` | the parts of `jaw_os/src/gic.rs` that differ from possum_os |
| `RingBuffers` | `ring_buffer.dfy` | `possum_os/src/ring_buffer.rs` |
| `Console` | `console.dfy` | `possum_os/src/console.rs` |
| `DeviceTree` | `device_tree.dfy` | `possum_os/src/device_tree.rs` |
| `Fse` | `fse.dfy` | `rs_lzfse/src/fse.rs` |
| `JawMain` | `jaw_main.dfy` | `jaw_os/src/main.rs` |

Device memory is a `map` from byte address to 32-bit word, held in a `RegisterBank` object. That object also keeps the trace of volatile writes and system-register events in program order.

Addresses are computed as the source computes them, except that `base + offset` on `usize` wraps modulo 2^64 in the model (see "## Left out"). `write_register` adds the word index to `base` unscaled, so the words of one register bank sit at consecutive byte addresses. On the real device those accesses overlap; in the model each address is an independent word. `set_target` uses `*mut u32::add`, which scales by 4.

The ring buffer and the Fifo are classes whose methods update their fields in place. Each is tied to a ghost sequence of its contents.

The devicetree reader runs over RAM given as a byte sequence. Its loops are methods, each proved equal to a specification function.

The FSE words are bounded integers:
- `>>` is `Shr`;
- `x & (2^n - 1)` is `Low`;
- `&` and `|` are `BitAnd` and `BitOr`.

## Model

| member | source | states |
|---|---|---|
| GicCommon.InterruptType.Bits | possum_os/src/gic/common.rs:4-10 | LevelSensitive encodes as 0 and EdgeTriggered as 2; only LevelSensitive encodes as 0 |
| GicCommon.CpuId.Bits | possum_os/src/gic/common.rs:12-21 | every CpuId encodes as a number below 8 |
| GicCommon.CpuIdEncoding | possum_os/src/gic/common.rs:12-21 | each of 0..7 is the encoding of one CpuId, and distinct CpuIds have distinct encodings |
| GicCommon.BitOffset | possum_os/src/gic/common.rs:38-40 | the field's bit offset within its word is below 32 |
| GicCommon.SourceArithmetic | possum_os/src/gic/common.rs:38-41 | for each supported width, the word index, bit offset and mask are `entry / (32 / w)`, `(entry % (32 / w)) * w` and `(1 << w) - 1` |
| GicCommon.FieldFits | possum_os/src/gic/common.rs:38-41 | for a width dividing 32 and below 32, `bit_offset + w <= 32` |
| GicCommon.WordAddrInjective | possum_os/src/gic/common.rs:39-43 | distinct word indices of one bank are distinct addresses, even with the model's wrapping 64-bit addition |
| GicCommon.InsertExtract | possum_os/src/gic/common.rs:40-45 | inserting `v` into an entry's field and extracting that field gives `v` masked to the width |
| GicCommon.InsertKeepsOtherEntry | possum_os/src/gic/common.rs:38-45 | inserting into one entry leaves the field of another entry in the same word unchanged |
| GicCommon.InsertKeepsOutside | possum_os/src/gic/common.rs:40-45 | bits outside `[bit_offset, bit_offset + w)` keep their old values |
| GicCommon.InsertIdempotent | possum_os/src/gic/common.rs:45 | inserting the same value twice is inserting it once |
| GicCommon.ReadRegisterBound | possum_os/src/gic/common.rs:62-71 | `read_register` returns at most `2^w - 1` |
| GicCommon.ReadAfterWrite | possum_os/src/gic/common.rs:37-71 | after `write_register(b, w, e, v)`, `read_register(b, w, e)` is `v & ((1 << w) - 1)`; jaw_os's copies (jaw_os/src/gic.rs:32-55) are the same code |
| GicCommon.WriteFrame | possum_os/src/gic/common.rs:38-48 | only the word at `base + e / (32 / w)` changes |
| GicCommon.WriteKeepsOtherWord | possum_os/src/gic/common.rs:38-48 | every other word of the bank keeps its contents |
| GicCommon.WriteKeepsSameWordEntry | possum_os/src/gic/common.rs:38-45 | another entry in the written word reads as before |
| GicCommon.WriteKeepsOtherWordEntry | possum_os/src/gic/common.rs:38-48 | an entry in another word reads as before |
| GicCommon.WriteKeepsOtherEntries | possum_os/src/gic/common.rs:37-71 | writing one entry leaves every other entry of the bank reading as before |
| GicCommon.WriteMissesOtherBank | possum_os/src/gic/common.rs:37-49 | a write to the bank at one base leaves the same entry of a bank at another base unchanged |
| GicCommon.WriteIdempotent | possum_os/src/gic/common.rs:45 | writing the same value to the same field twice leaves the memory of one write |
| GicCommon.RegisterBank.Store | possum_os/src/gic/common.rs:46-48 | a volatile write updates one word and appends one write event to the trace |
| GicCommon.RegisterBank.Read | possum_os/src/gic/common.rs:44 | a volatile read returns the stored word (0 if never written) |
| GicCommon.RegisterBank.Record | jaw_os/src/gic.rs:125-130 | a system-register write or IRQ unmask appends an event and leaves device memory alone |
| GicCommon.RegisterBank.WriteRegister | possum_os/src/gic/common.rs:37-49 | one volatile write of the updated word; the field reads back as `v` masked; every other entry of the bank reads as before (also jaw_os/src/gic.rs:32-44) |
| GicDist.BoolBits | possum_os/src/gic/gic_dist.rs:67 | `group as u32` is 0 or 1, and is 1 exactly when `group` is true |
| GicDist.CtlrWrites | possum_os/src/gic/gic_dist.rs:31-56 | `init_gic` writes CTLR exactly three times |
| GicDist.CtlrWritesGrow | possum_os/src/gic/gic_dist.rs:38-53 | each CTLR value written is a bitwise superset of the one before; no bit is cleared |
| GicDist.CtlrWritesBits | possum_os/src/gic/gic_dist.rs:36-56 | the writes set bit 6, then bits 0 and 1, then bit 5; the last value is the value read with bits 0, 1, 5 and 6 set and every other bit kept |
| GicDist.TargetShift | possum_os/src/gic/gic_dist.rs:115-116 | the target bit `(id % 4) * 8 + cpu` is at most 31, in byte `id % 4` at bit `cpu` |
| GicDist.TargetMask | possum_os/src/gic/gic_dist.rs:115-116 | the target mask has exactly one bit set |
| GicDist.TargetedKeepsBits | possum_os/src/gic/gic_dist.rs:105-128 | `set_target` never clears a bit of ITARGETSR word `id / 4`, and sets its own bit |
| GicDist.TargetedIdempotent | possum_os/src/gic/gic_dist.rs:115-117 | `set_target` twice with the same arguments equals `set_target` once |
| GicDist.TargetedAdditive | possum_os/src/gic/gic_dist.rs:115-117 | after targeting two CPUs, both bits are set |
| GicDist.GicDistributor.constructor | possum_os/src/gic/gic_dist.rs:19-23 | the driver keeps the distributor's base address |
| GicDist.GicDistributor.InitGic | possum_os/src/gic/gic_dist.rs:28-57 | the trace gains exactly the three CTLR writes, in order, and CTLR ends with the last value |
| GicDist.GicDistributor.SetGroup | possum_os/src/gic/gic_dist.rs:59-69 | the 1-bit IGROUPR field at 0x080 becomes `group`; other entries are unchanged |
| GicDist.GicDistributor.SetEnable | possum_os/src/gic/gic_dist.rs:71-78 | 1 goes into the ISENABLER bit at 0x100; other entries are unchanged |
| GicDist.GicDistributor.ClearEnable | possum_os/src/gic/gic_dist.rs:80-89 | 1 goes into the ICENABLER bit at 0x180; other entries are unchanged |
| GicDist.GicDistributor.SetPriority | possum_os/src/gic/gic_dist.rs:92-102 | the 8-bit IPRIORITYR field at 0x400 becomes `p`; other interrupts' priorities are unchanged |
| GicDist.GicDistributor.SetTarget | possum_os/src/gic/gic_dist.rs:105-129 | one volatile write of the word at `gicd + 0x800 + 4 * (id / 4)`, OR-ed with the target bit (also jaw_os/src/gic.rs:268-292) |
| GicDist.GicDistributor.SetCfg | possum_os/src/gic/gic_dist.rs:131-140 | the 2-bit ICFGR field at 0xC00 becomes 0 or 2 |
| GicDist.GicDistributor.ClearPending | possum_os/src/gic/gic_dist.rs:142-151 | 1 goes into the ICPENDR bit at 0x280; other entries are unchanged |
| GicDist.GicDistributor.GetPending | possum_os/src/gic/gic_dist.rs:153-161 | true exactly when the ISPENDR bit at 0x200 reads 1 |
| GicDist.GicDistributor.SetPending | possum_os/src/gic/gic_dist.rs:163-172 | sets the ISPENDR bit, after which `get_pending` answers true |
| GicDist.PendingAfterSetPending | possum_os/src/gic/gic_dist.rs:153-172 | `set_pending(id)` then `get_pending(id)` is true: both use the 1-bit field at 0x200 (also jaw_os/src/gic.rs:316-335) |
| GicRedist.AwakenedBits | possum_os/src/gic/gic_redist.rs:31-33 | the WAKER value written has bit 1 (ProcessorSleep) clear and every other bit as read |
| GicRedist.AwaitChildrenAwake | possum_os/src/gic/gic_redist.rs:40-48 | the poll stops at the first read value with bit 2 (ChildrenAsleep) clear; `None` exactly when no value has it clear |
| GicRedist.GicRedistributor.constructor | possum_os/src/gic/gic_redist.rs:13-15 | the driver keeps the redistributor's base address |
| GicRedist.GicRedistributor.Init | possum_os/src/gic/gic_redist.rs:20-50 | one WAKER write with only ProcessorSleep cleared, then the poll, which writes nothing |
| GicRedist.GicRedistributor.SetInterruptConfigAsWritten | possum_os/src/gic/gic_redist.rs:52-61 | the 2-bit field at `gicr + 0x10000 + 0x0c` becomes `config` |
| GicRedist.GicRedistributor.SetInterruptConfig | possum_os/src/gic/gic_redist.rs:52-61 | with the ICFGR offset 0x10000 + 0xC00, the field of `id` becomes `config & 3` |
| GicRedist.GicRedistributor.GetPending | possum_os/src/gic/gic_redist.rs:63-71 | `get_redistributor_pending` (and `get_pending`, lines 150-158, the same code) is true exactly when the ISPENDR bit at 0x10000 + 0x200 reads 1 |
| GicRedist.GicRedistributor.SetEnable | possum_os/src/gic/gic_redist.rs:73-82 | 1 goes into the ISENABLER bit at 0x10000 + 0x100 |
| GicRedist.GicRedistributor.ClearEnable | possum_os/src/gic/gic_redist.rs:84-93 | 1 goes into the ICENABLER bit at 0x10000 + 0x180 |
| GicRedist.GicRedistributor.SetPriority | possum_os/src/gic/gic_redist.rs:95-105 | the 8-bit field at 0x10000 + 0x400 becomes `p`; `get_priority` then answers `p` |
| GicRedist.GicRedistributor.GetPriority | possum_os/src/gic/gic_redist.rs:107-115 | the 8-bit field at 0x10000 + 0x400, narrowed to a byte without loss |
| GicRedist.GicRedistributor.SetPending | possum_os/src/gic/gic_redist.rs:117-126 | sets the ISPENDR bit at 0x10000 + 0x200, after which `get_pending` answers true |
| GicRedist.GicRedistributor.SetCfg | possum_os/src/gic/gic_redist.rs:128-137 | the 2-bit ICFGR field at 0x10000 + 0xC00 becomes 0 or 2 |
| GicRedist.GicRedistributor.ClearPending | possum_os/src/gic/gic_redist.rs:139-148 | 1 goes into the ICPENDR bit at 0x10000 + 0x280 |
| GicRedist.GicRedistributor.SetGroup | possum_os/src/gic/gic_redist.rs:160-170 | `group` as 0 or 1 goes into the IGROUPR bit at 0x10000 + 0x080, touching no other entry |
| GicRedist.PriorityAfterSetPriority | possum_os/src/gic/gic_redist.rs:95-115 | `set_priority(id, p)` then `get_priority(id)` returns `p` |
| GicRedist.RedistPendingAfterSetPending | possum_os/src/gic/gic_redist.rs:117-126 | after `set_pending(id)`, `get_pending(id)` and `get_redistributor_pending(id)` are true |
| GicRedist.InterruptConfigMissesIcfgr | possum_os/src/gic/gic_redist.rs:52-61 | `set_interrupt_config` as written leaves the ICFGR field that `set_cfg` uses unchanged, for every interrupt |
| GicRedist.InterruptConfigCounterexample | possum_os/src/gic/gic_redist.rs:52-61 | on fresh memory, configuring interrupt 27 as edge-triggered leaves ICFGR reading level-sensitive |
| GicRedist.InterruptConfigReadBack | possum_os/src/gic/gic_redist.rs:128-137 | at the corrected offset, a configuration reads back as written |
| JawGic.CtlrValueBits | jaw_os/src/gic.rs:75-91 | the one CTLR write is `((orig \| 1 \| 2 \| 0x40) & !0x10) \| 3`: bits 0, 1 and 6 set, bit 4 clear, the rest as read |
| JawGic.SreValueBits | jaw_os/src/gic.rs:116-130 | the ICC_SRE_EL1 write sets bit 0 and keeps the rest |
| JawGic.InitEventsWakeFirst | jaw_os/src/gic.rs:97-144 | the WAKER write precedes every system-register write; nothing but ICC_SRE_EL1 is written before the wake is acknowledged |
| JawGic.InitEventsUnmaskLast | jaw_os/src/gic.rs:165-177 | ICC_IGRPEN1_EL1 = 1 and then DAIFclr are the last two events, and only after the wake |
| JawGic.Gic.constructor | jaw_os/src/gic.rs:61-67 | the driver keeps the three base addresses |
| JawGic.Gic.InitGic | jaw_os/src/gic.rs:72-178 | the event trace is CTLR write, WAKER write, SRE write, poll, PMR = 0xFF, IGRPEN1 = 1, DAIFclr; memory changes only at CTLR and WAKER |
| JawGic.Gic.EnableDistributor | jaw_os/src/gic.rs:75-95 | one CTLR write of the value `CtlrValueBits` describes |
| JawGic.Gic.MarkAwake | jaw_os/src/gic.rs:101-111 | one WAKER write with only bit 1 cleared |
| JawGic.Gic.EnableInterrupts | jaw_os/src/gic.rs:165-177 | appends PMR = 0xFF, IGRPEN1 = 1 and DAIFclr, in this order, after the wake event; memory is unchanged |
| JawGic.Gic.SetRedistributorEnable | jaw_os/src/gic.rs:212-221 | 1 goes into the bit at `gicr + 0x100`, with no 0x10000 offset |
| JawGic.Gic.ClearRedistributorEnable | jaw_os/src/gic.rs:223-232 | 1 goes into the bit at `gicr + 0x180` |
| JawGic.Gic.SetRedistributorPriority | jaw_os/src/gic.rs:246-256 | the 8-bit field at `gicr + 0x400` becomes `p` |
| JawGic.Gic.GetRedistributorPriority | jaw_os/src/gic.rs:258-266 | the 8-bit field at `gicr + 0x400`, narrowed without loss |
| JawGic.RedistPriorityReadBack | jaw_os/src/gic.rs:246-266 | `set_redistributor_priority` then `get_redistributor_priority` returns the priority |
| JawGic.Gic.SetCfg | jaw_os/src/gic.rs:294-303 | writes a 16-bit field at 0xC00: `id` lands in word `id / 2` at bit `(id % 2) * 16` |
| JawGic.RedistEnableMissesSgiFrame | jaw_os/src/gic.rs:212-221 | the ISENABLER0 bit in the SGI/PPI frame (where possum_os writes it) is not touched |
| JawGic.RedistClearEnableMissesSgiFrame | jaw_os/src/gic.rs:223-232 | the ICENABLER0 bit in the SGI/PPI frame is not touched |
| JawGic.RedistPriorityMissesSgiFrame | jaw_os/src/gic.rs:246-256 | the priority read from the SGI/PPI frame is unchanged |
| JawGic.RedistPriorityReadMissesSgiFrame | jaw_os/src/gic.rs:258-266 | a priority written in the SGI/PPI frame is not what jaw_os reads |
| JawGic.CfgCounterexample | jaw_os/src/gic.rs:294-303 | on fresh memory, `set_cfg(1, EdgeTriggered)` leaves interrupt 1's 2-bit ICFGR field at 0 and sets interrupt 8's to 2 |
| RingBuffers.SlotIsMod | possum_os/src/ring_buffer.rs:37 | the model's slot arithmetic is the source's `(head + i) % N` |
| RingBuffers.NextSlot | possum_os/src/ring_buffer.rs:37 | `(k + 1) % N` is the next slot, wrapping to 0 |
| RingBuffers.PrevSlot | possum_os/src/ring_buffer.rs:60 | `(k + N - 1) % N` is the previous slot, wrapping to N - 1 |
| RingBuffers.HoldsAppend | possum_os/src/ring_buffer.rs:36-38 | writing the slot after the last element appends to the abstract queue |
| RingBuffers.HoldsTail | possum_os/src/ring_buffer.rs:48-50 | moving `head` on drops the front element |
| RingBuffers.HoldsPrefix | possum_os/src/ring_buffer.rs:60-62 | moving `tail` back drops the back element |
| RingBuffers.RingBuffer.constructor | possum_os/src/ring_buffer.rs:14-21 | N default slots, an empty queue, and the invariant holds |
| RingBuffers.RingBuffer.IsEmpty | possum_os/src/ring_buffer.rs:23-25 | true exactly when the queue is empty |
| RingBuffers.RingBuffer.IsFull | possum_os/src/ring_buffer.rs:27-29 | true exactly when the queue holds N elements |
| RingBuffers.RingBuffer.Enqueue | possum_os/src/ring_buffer.rs:31-41 | full: `Err(item)`, with all state unchanged; otherwise `Ok` and the item joins the back; the invariant `count <= N`, `tail == (head + count) % N` is kept |
| RingBuffers.RingBuffer.Dequeue | possum_os/src/ring_buffer.rs:43-53 | empty: `None`, nothing changes; otherwise the front element, removed |
| RingBuffers.RingBuffer.Pop | possum_os/src/ring_buffer.rs:55-65 | empty: `None`, nothing changes; otherwise the most recently enqueued element, removed |
| RingBuffers.RingBuffer.Flush | possum_os/src/ring_buffer.rs:67-77 | returns the old count and a fresh N-slot array whose first `count` slots are the old contents in FIFO order; the queue is left empty |
| Console.Fifo.constructor | possum_os/src/console.rs:9-14 | N zero bytes, `tail == 0` |
| Console.Fifo.IsEmpty | possum_os/src/console.rs:16-18 | true exactly when nothing has been pushed since the last flush |
| Console.Fifo.IsFull | possum_os/src/console.rs:20-22 | true exactly when `tail == N` |
| Console.Fifo.Push | possum_os/src/console.rs:24-33 | full: `Err("Fifo is full")`, with buffer and `tail` unchanged; otherwise `data` at the old `tail`, `tail + 1`, every other byte kept; `tail <= N` throughout |
| Console.Fifo.Flush | possum_os/src/console.rs:35-45 | a fresh copy of all N bytes, stale bytes included, whose first bytes are those pushed since the last flush, in order; `tail` becomes 0 and the buffer is not cleared |
| DeviceTree.BigEndianBound | possum_os/src/device_tree.rs:61-73 | a big-endian value of `k` bytes is below `256^k` |
| DeviceTree.LittleEndianBound | possum_os/src/device_tree.rs:62 | a native little-endian load of `k` bytes is below `256^k` |
| DeviceTree.WordBytes | possum_os/src/device_tree.rs:62 | the load reads four bytes |
| DeviceTree.ReadBigEndian | possum_os/src/device_tree.rs:61-73 | for bytes b0..b3 loaded as a little-endian word, the loop yields `b0 * 2^24 + b1 * 2^16 + b2 * 2^8 + b3` |
| DeviceTree.ShiftInByte | possum_os/src/device_tree.rs:65-70 | one loop pass moves the next byte from the bottom of `input` into the bottom of `result` |
| DeviceTree.BigEndianWordBytes | possum_os/src/device_tree.rs:61-73 | the big-endian value of the four bytes at `a` is the header word at `a` |
| DeviceTree.NulFrom | possum_os/src/device_tree.rs:75-87 | a found index has a NUL and no NUL before it; `None` means no NUL in range |
| DeviceTree.NulIndexFound | possum_os/src/device_tree.rs:75-87 | a found length is below `max`, with a NUL there and none before |
| DeviceTree.NulIndexMeaning | possum_os/src/device_tree.rs:75-87 | `strnlen(p, max)` is `Some(i)` iff `i < max`, bytes `0..i` are non-zero and byte `i` is 0; `None` iff the first `max` bytes are all non-zero |
| DeviceTree.StrNLen | possum_os/src/device_tree.rs:75-87 | the loop returns exactly the length `NulIndexMeaning` characterises |
| DeviceTree.NextFourByteAlign | possum_os/src/device_tree.rs:96-100 | the result is a multiple of 4, `o <= r < o + 4`, and the identity on multiples of 4 |
| DeviceTree.AlignIsLeast | possum_os/src/device_tree.rs:96-100 | the result is the least multiple of 4 that is at least `o` |
| DeviceTree.NewDeviceTree | possum_os/src/device_tree.rs:105-117 | a null base and all offsets and sizes zero |
| DeviceTree.DeviceTreeFromRamPtr | possum_os/src/device_tree.rs:29-59 | bad magic: `DeviceTree::new()`; otherwise the fields are the big-endian words at byte offsets 8, 12, 16, 20, 24, 32 and 36 |
| DeviceTree.Bytes | possum_os/src/device_tree.rs:123 | the slice has `len` bytes, those at `p` onward |
| DeviceTree.StringFromOffsetPanics | possum_os/src/device_tree.rs:119-125 | `get_string_from_offset` panics exactly when none of the 256 bytes at the name is NUL |
| DeviceTree.BytesBeforeNul | possum_os/src/device_tree.rs:119-125 | bytes before the first NUL are all non-zero |
| DeviceTree.StringFromOffsetContents | possum_os/src/device_tree.rs:119-125 | otherwise the string is the bytes before the first NUL: fewer than 256, none NUL, followed by a NUL |
| DeviceTree.Step | possum_os/src/device_tree.rs:138-206 | each pass advances the cursor by at least 4 and stays live, or stops in place for exactly one of the reasons the loop has |
| DeviceTree.StepBeginNode | possum_os/src/device_tree.rs:140-151 | BEGIN_NODE: depth + 1, cursor past `4 + align(name_len + 1)` |
| DeviceTree.StepEndNode | possum_os/src/device_tree.rs:157-166 | END_NODE: depth - 1 and 4 bytes on; at depth 0 invalid without advancing, so depth never goes negative |
| DeviceTree.StepProp | possum_os/src/device_tree.rs:168-193 | PROP: cursor past `12 + align(size)` |
| DeviceTree.StepNopEnd | possum_os/src/device_tree.rs:194-201 | NOP: 4 bytes on; END: stays put with `found_end` set |
| DeviceTree.WalkFrom | possum_os/src/device_tree.rs:136-207 | the walk terminates with the loop guard false, never moving the cursor back |
| DeviceTree.Token | possum_os/src/device_tree.rs:138-206 | the loop body computes `Step` |
| DeviceTree.BeginNodeToken | possum_os/src/device_tree.rs:140-156 | the BEGIN_NODE arm computes `BeginNode` |
| DeviceTree.PropToken | possum_os/src/device_tree.rs:168-193 | the PROP arm computes `Prop` |
| DeviceTree.PrintStructure | possum_os/src/device_tree.rs:127-211 | the loop ends at or past `structure_offset + structure_size`, or stopped for one named reason: END, an invalid node, a panic, or an unknown tag |
| DeviceTree.WalkStopsForAReason | possum_os/src/device_tree.rs:136-206 | every live walk ends past the block or stopped for exactly one of those reasons |
| Fse.LowShrSplit | rs_lzfse/src/fse.rs:29 | `x` is its `n` low bits plus `2^n` times `x >> n` |
| Fse.LowShrAreModDiv | rs_lzfse/src/fse.rs:29 | `x >> n` and `x & (2^n - 1)` are `x / 2^n` and `x % 2^n` |
| Fse.ShrShrinks | rs_lzfse/src/fse.rs:46 | a right shift never grows a word |
| Fse.AndLowMask | rs_lzfse/src/fse.rs:29 | `x & (2^n - 1)` is the `n` low bits of `x` |
| Fse.DisjointOr | rs_lzfse/src/fse.rs:112 | OR of bit fields that do not overlap is their sum |
| Fse.MTable64IsLowMask | rs_lzfse/src/fse.rs:5-28 | entry `i` of the 65-entry table is `2^i - 1` |
| Fse.MTable32IsLowMask | rs_lzfse/src/fse.rs:34-41 | entry `i` of the 33-entry table is `2^i - 1` |
| Fse.MaskLsb64 | rs_lzfse/src/fse.rs:4-30 | defined exactly for `0 <= nbits <= 64`, and then `x & (2^nbits - 1)` |
| Fse.MaskLsb32 | rs_lzfse/src/fse.rs:33-43 | defined exactly for `nbits <= 32`, and then `x & (2^nbits - 1)` |
| Fse.ExtractBits64 | rs_lzfse/src/fse.rs:45-47 | defined exactly for `start < 64` and `nbits <= 64`, and then `x >> start` masked to `nbits` bits |
| Fse.ExtractBits32 | rs_lzfse/src/fse.rs:49-51 | the same for 32-bit words |
| Fse.ExtractBitsFit | rs_lzfse/src/fse.rs:45-47 | the result is below `2^nbits` and equals `(x / 2^start) % 2^nbits` |
| Fse.Extract32Agrees | rs_lzfse/src/fse.rs:45-51 | on a 32-bit word, the 32-bit and 64-bit extractions agree |
| Fse.LeBytesValue | rs_lzfse/src/fse.rs:89 | the `k` low little-endian bytes encode `x mod 2^(8k)` |
| Fse.LeBytesRoundTrip | rs_lzfse/src/fse.rs:89 | `to_le_bytes` of a u64 decodes back to it |
| Fse.LeBytesPrefix | rs_lzfse/src/fse.rs:89-90 | the first `m` of its 8 bytes are the `m`-byte encoding |
| Fse.RotatedAt | rs_lzfse/src/fse.rs:90 | after `rotate_left(mid)`, element `i` is old element `(i + mid) % len` |
| Fse.RotatedInverse | rs_lzfse/src/fse.rs:90 | rotating back by `len - mid` undoes the rotation |
| Fse.RotateLeft | rs_lzfse/src/fse.rs:90 | the slice is rotated left by `mid`, in place |
| Fse.StoreLe | rs_lzfse/src/fse.rs:89 | `buf[..8]` becomes `to_le_bytes(x)`; the rest is unchanged |
| Fse.RotatedOutBytes | rs_lzfse/src/fse.rs:89-90 | the `m` bytes rotated to the end are the `8m` low bits of `x`, which with `x >> 8m` give back `x` |
| Fse.AlignDown8 | rs_lzfse/src/fse.rs:86 | `v & -8` is the multiple of 8 in `(v - 8, v]` |
| Fse.PushFits | rs_lzfse/src/fse.rs:112 | `accum \| b << k` loses no bit and is `accum + b * 2^k`, below `2^(k + n)` |
| Fse.PushReadBack | rs_lzfse/src/fse.rs:45-47 | after pushing `b` above `k` bits, `fse_extract_bits64(_, k, n)` returns `b` and `fse_mask_lsb64(_, k)` the old bits |
| Fse.FlushedAccumAsWritten | rs_lzfse/src/fse.rs:86-94 | flushing as written is a debug-build shift panic exactly when `accum_nbits >= 64` |
| Fse.FlushOfFullAccumulatorFails | rs_lzfse/src/fse.rs:85-117 | 64 one-bits pushed into a new stream keep `out_push`'s assertions, and the flush then shifts by 64 |
| Fse.FseOutStream64.constructor | rs_lzfse/src/fse.rs:78-83 | an empty accumulator, satisfying the stream invariant |
| Fse.FseOutStream64.OutPush | rs_lzfse/src/fse.rs:111-117 | keeps `0 <= accum_nbits <= 64` with no bit at or above `accum_nbits`; `n` bits of `b` go above the held bits |
| Fse.FseOutStream64.OutFlush | rs_lzfse/src/fse.rs:85-95 | removes `accum_nbits` rounded down to a multiple of 8, leaving `0 <= accum_nbits < 8` and `accum` shifted right by that; the buffer holds `to_le_bytes(accum)` then the rest, rotated left by the byte count |
| Fse.FseOutStream64.OutFinish | rs_lzfse/src/fse.rs:97-109 | removes `accum_nbits` rounded up to a multiple of 8, leaving `accum == 0` and `-7 <= accum_nbits <= 0`; the buffer as in `out_flush` |
| Fse.FlushWritesRemovedBits | rs_lzfse/src/fse.rs:85-95 | the bytes `out_flush` moves to the end of the buffer hold exactly the bits it removes |
| Fse.FinishWritesAllBits | rs_lzfse/src/fse.rs:97-109 | the bytes `out_finish` moves to the end hold every bit that was in the accumulator |
| JawMain.Uart.Write | jaw_os/src/main.rs:26 | a volatile UART write appends one byte to the output |
| JawMain.HexDigits | jaw_os/src/main.rs:20-29 | `print_hex` emits exactly `2 * size_of::<T>()` bytes |
| JawMain.HexDigitsAreHex | jaw_os/src/main.rs:16-24 | every emitted byte is one of `0123456789abcdef` |
| JawMain.HexDigitAt | jaw_os/src/main.rs:22-28 | byte `k` is `HEX[(val >> 4k) & 0xf]`, so the least significant nibble comes first |
| JawMain.PrintHex | jaw_os/src/main.rs:18-30 | the loop emits `HexDigits(val, 2 * size)` and nothing else |
| JawMain.RustStart | jaw_os/src/main.rs:33-43 | the UART receives the banner bytes in order, then the 16 digits of `VAL` |
| JawMain.RustStartDigits | jaw_os/src/main.rs:36-43 | those 16 digits are `0fedcba987654321` |

## Left out

- GIC register semantics: memory is plain storage. Write-1-to-set and write-1-to-clear aliasing is not modelled, so `clear_enable` does not clear the ISENABLER bit. Hardware changes to pending bits are not modelled either.
- GicCommon.ValidWidth: the field width is limited to 1, 2, 4, 8 or 16. The source accepts any width, but 0 divides by zero, 32 overflows `1 << 32`, and others leave gaps. Every caller uses one of these five.
- GIC addresses: consecutive word indices of `write_register` are consecutive byte addresses, as the source computes them. The model treats each address as an independent word, rather than as overlapping 32-bit accesses.
- GIC address arithmetic: `base + offset` (possum_os/src/gic/common.rs:43 and :68, and the driver offsets such as `gicd_ctlr + GICD_ITARGETSR_OFFSET`) is `usize` addition. It panics on overflow in a debug build. The model uses release-build wrapping modulo 2^64 (`bv64`), so that debug panic is not modelled.
- GicRedist.GicRedistributor.Init: the values the wake poll reads are an input sequence, `polls`. The hardware's own clearing of ChildrenAsleep is not modelled. An input on which the source would spin forever yields `None`.
- JawGic.Gic.InitGic: the system registers are inputs or trace events.
  - The `mrs` reads of ICC_CTLR_EL1 and ICC_BPR0_EL1 are only printed, so they are left out.
  - ICC_SRE_EL1's value is an input.
  - The poll is an input sequence, as above.
- jaw_os's `set_group`, `set_enable`, `clear_enable`, `set_priority`, `set_target`, `clear_pending`, `get_pending` and `set_pending` (jaw_os/src/gic.rs:180-244, 268-292, 305-335) are `GicDist.GicDistributor`'s methods. They have the same offsets, widths and code. The `gicc_ctlr` field is kept and never used, as in the source.
- `kprintf!`, `console_indent` and every text message: output only, left out. This covers the hex dump of property values in `print_structure`, and the "No end tag found" message.
- DeviceTree: pointers are unbounded naturals, with no `usize` wrap-around. A read past the end of the modelled RAM returns 0.
- DeviceTree.ReadBigEndian: only the `u32` instantiation is modelled, the only one the source uses.
- DeviceTree.StringFromOffset: the `unwrap` panic is `None`, and in the walk `Panicked`. The UTF-8 view of the bytes is not modelled.
- Fse.MaskLsb64, Fse.MaskLsb32: an out-of-table index (a panic in the source) is `None`. `fse_mask_lsb64`'s `nbits: i32` is modelled as an integer. `fse_extract_bits64` passes its `u32` `nbits` to that parameter, and the model passes it through unchanged.
- Fse.ExtractBits64, Fse.ExtractBits32: a shift by the word width or more is a panic in a debug build. It is modelled as `None`; the wrapping of release builds is not modelled.
- Fse.FseOutStream64.OutPush: the requires excludes four kinds of input; the model says nothing about them:
  - `accum_nbits == 64`, where `b << accum_nbits` is a debug-build shift panic;
  - a negative `n`, which the source's `assert!` lines let through whenever `accum` still fits below the lowered count;
  - `accum_nbits + n > 64`, which the first `assert!` rejects;
  - `b >= 2^n`, which the second `assert!` rejects only when `accum_nbits + n < 64`. When the total is exactly 64, the `u64` shift silently drops the bits of `b` above bit `n`. For example, a new stream, then `out_push(8, 0)` and `out_push(56, 1 << 57)`, passes both assertions with those bits lost. That truncation is not modelled.
- Fse.FseOutStream64.OutFlush, Fse.FseOutStream64.OutFinish: these require `buf.len() >= 8` (the slice `buf[..8]` panics otherwise). `rotate_left` is modelled by a copy loop computing the same permutation.
- The FSE input stream (rs_lzfse/src/fse.rs:125-151) does not compile and is not part of this model. `FseOutStream32`, `FseInStream64` and `FseInStream32` have no methods.
- JawMain.PrintHex: the generic `T` is modelled by its size in bytes, with the value as an unbounded natural. The UART is a byte trace; the `loop {}` after `_rust_start`'s output is not modelled.
- possum_os/src/main.rs, simple_uart.rs, kprint.rs, jaw_os/src/exception.rs, reg.rs and debug/regdump.py are not part of this model.
- RingBuffers.RingBuffer.Pop: `tail + N - 1` on `usize` is not checked for overflow, because an array of `usize::MAX` slots cannot exist.

## Findings

| source | as written | input that shows it | evidently intended | confidence | as-written member | corrected member |
|---|---|---|---|---|---|---|
| possum_os/src/gic/gic_redist.rs:52-61 | `set_interrupt_config` writes ICFGR at `GICR_SGI_BASE_OFFSET + 0x0c` | fresh memory, `set_interrupt_config(27, 2)`: the ICFGR field of 27 at 0x10000 + 0xC00 still reads 0 | the ICFGR offset 0xC00 that `set_cfg` (lines 128-137) uses | medium, not executed | GicRedist.GicRedistributor.SetInterruptConfigAsWritten, GicRedist.InterruptConfigCounterexample | GicRedist.GicRedistributor.SetInterruptConfig, GicRedist.InterruptConfigReadBack |
| jaw_os/src/gic.rs:294-303 | `set_cfg` uses a 16-bit field per interrupt in ICFGR | fresh memory, `set_cfg(1, EdgeTriggered)`: interrupt 1's 2-bit field reads 0 and interrupt 8's reads 2 | a 2-bit field, as in possum_os/src/gic/gic_dist.rs:131-140 | high, not executed | JawGic.Gic.SetCfg, JawGic.CfgCounterexample | GicDist.GicDistributor.SetCfg |
| jaw_os/src/gic.rs:212-266 | the redistributor enable and priority registers are addressed at `gicr + 0x100/0x180/0x400` | any `set_redistributor_priority(n, p)`: the priority in the SGI/PPI frame is unchanged | `gicr + 0x10000 + offset`, as in possum_os/src/gic/gic_redist.rs:73-115 | medium, not executed | JawGic.Gic.SetRedistributorPriority, JawGic.RedistPriorityMissesSgiFrame | GicRedist.GicRedistributor.SetPriority, GicRedist.PriorityAfterSetPriority |
| rs_lzfse/src/fse.rs:85-95 | `out_flush` shifts `accum >>= nbits` with `nbits` up to 64, which `out_push`'s own assertion allows | a new stream, `out_push(64, 0xffff_ffff_ffff_ffff)`, then `out_flush`: a shift of a `u64` by 64 (debug panic; on release builds the shift is masked to 0 and leaves `accum` unchanged) | shifting by 64 clears the accumulator | medium, not executed | Fse.FlushedAccumAsWritten, Fse.FlushOfFullAccumulatorFails | Fse.FseOutStream64.OutFlush, Fse.FlushWritesRemovedBits |
