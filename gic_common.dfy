/**
 * The register field accessor shared by the GIC drivers
 * (possum_os/src/gic/common.rs; jaw_os/src/gic.rs carries a private copy of
 * the same two functions, so both drivers are modelled on this module).
 *
 * Device memory is plain storage: a map from byte address to the 32-bit
 * word a volatile `u32` access at that address sees; an address never
 * written reads as 0. Addresses are `usize` on the 64-bit target, so they
 * are `bv64` and wrap modulo 2^64.
 *
 * NOTE: `write_register` adds the word index to `base` WITHOUT scaling it by
 * four, so the words of one register bank sit at consecutive BYTE addresses
 * (base, base+1, ...). On real hardware those 32-bit accesses overlap; in
 * this model every address is an independent word.
 */
module GicCommon {

  type Addr = bv64

  /** A memory cell, named by its byte address. */
  datatype Cell = Cell(addr: Addr)

  type Memory = map<Cell, bv32>

  /** What a volatile 32-bit read at `a` returns. */
  function Load(m: Memory, a: Addr): bv32 {
    if Cell(a) in m then m[Cell(a)] else 0
  }

  /** `InterruptType`: the value written into an interrupt's config field. */
  datatype InterruptType = LevelSensitive | EdgeTriggered {
    function Bits(): (r: bv32)
      ensures r == 0 || r == 2
      ensures (r == 0) == LevelSensitive?
    {
      match this
      case LevelSensitive => 0
      case EdgeTriggered => 2
    }
  }

  /** `CpuId`: a legacy target processing element, `Cpu0 = 0` .. `Cpu7 = 7`. */
  datatype CpuId = Cpu0 | Cpu1 | Cpu2 | Cpu3 | Cpu4 | Cpu5 | Cpu6 | Cpu7 {
    function Bits(): (r: bv32)
      ensures r < 8
    {
      match this
      case Cpu0 => 0
      case Cpu1 => 1
      case Cpu2 => 2
      case Cpu3 => 3
      case Cpu4 => 4
      case Cpu5 => 5
      case Cpu6 => 6
      case Cpu7 => 7
    }
  }

  /** Every target number 0..7 is the encoding of exactly one `CpuId`. */
  lemma CpuIdEncoding(n: bv32)
    requires n < 8
    ensures exists c: CpuId :: c.Bits() == n
    ensures forall c: CpuId, d: CpuId :: c.Bits() == d.Bits() ==> c == d
  {
    var all := [Cpu0, Cpu1, Cpu2, Cpu3, Cpu4, Cpu5, Cpu6, Cpu7];
    assert all[n as int].Bits() == n;
  }

  /** One observable action of the bring-up code, in program order. */
  datatype SysReg = IccSreEl1 | IccPmrEl1 | IccIgrpen1El1

  datatype Event =
    | MmioWrite(addr: Addr, value: bv32)     // ptr::write_volatile of a u32
    | SysRegWrite(reg: SysReg, bits: bv64)   // msr <reg>, <bits>
    | DaifClear(imm: bv8)                    // msr DAIFclr, #imm
    | WakeAcknowledged                       // the ChildrenAsleep poll saw bit 2 clear

  /**
   * The field widths `write_register` supports: 32 / field_width must divide
   * evenly, and width 32 is excluded because `1 << 32` overflows a u32.
   */
  predicate ValidWidth(w: bv32) {
    w == 1 || w == 2 || w == 4 || w == 8 || w == 16
  }

  /**
   * `entry / entries_per_register` with `entries_per_register = 32 / w`,
   * tabulated per supported width as a right shift (see SourceArithmetic).
   */
  function WordIndex(w: bv32, e: bv32): bv32
    requires ValidWidth(w)
  {
    if w == 1 then e >> 5
    else if w == 2 then e >> 4
    else if w == 4 then e >> 3
    else if w == 8 then e >> 2
    else e >> 1
  }

  /** `(entry % entries_per_register) * field_width`, as a mask and a shift. */
  function BitOffset(w: bv32, e: bv32): (r: bv32)
    requires ValidWidth(w)
    ensures r < 32
  {
    if w == 1 then e & 31
    else if w == 2 then (e & 15) << 1
    else if w == 4 then (e & 7) << 2
    else if w == 8 then (e & 3) << 3
    else (e & 1) << 4
  }

  /** `(1 << field_width) - 1` */
  function FieldMask(w: bv32): bv32
    requires ValidWidth(w)
  {
    if w == 1 then 0x1
    else if w == 2 then 0x3
    else if w == 4 then 0xF
    else if w == 8 then 0xFF
    else 0xFFFF
  }

  /** `as usize`: zero-extension of a u32 word index to a 64-bit address offset. */
  function Widen(x: bv32): bv64 {
    x as bv64
  }

  /** `base + offset`, wrapping modulo 2^64 as `usize` addition does in a release build. */
  function WordAddr(base: Addr, i: bv32): Addr {
    base + Widen(i)
  }

  /** The address of the word holding entry `e` of the bank at `base`. */
  function FieldAddr(base: Addr, w: bv32, e: bv32): Addr
    requires ValidWidth(w)
  {
    WordAddr(base, WordIndex(w, e))
  }

  /** The low 32 bits of `a - base`: recovers the word index from an address of the bank. */
  function Unshift(base: Addr, a: Addr): bv32 {
    ((a - base) & 0xFFFF_FFFF) as bv32
  }

  lemma UnshiftWordAddr(base: Addr, i: bv32)
    ensures Unshift(base, base + Widen(i)) == i
  {
  }

  /** `a - offset`: recovers the base from a word address. */
  function Rebase(a: Addr, i: bv32): Addr {
    a - Widen(i)
  }

  lemma RebaseSum(base: Addr, i: bv32)
    ensures Rebase(base + Widen(i), i) == base
  {
  }

  lemma RebaseWordAddr(base: Addr, i: bv32)
    ensures Rebase(WordAddr(base, i), i) == base
  {
    RebaseSum(base, i);
  }

  /**
   * Distinct word indices of one bank are distinct addresses: the offset is
   * below 2^32, so the 64-bit sum cannot wrap onto another word of the bank.
   */
  lemma WordAddrInjective(base: Addr, i: bv32, i2: bv32)
    requires i != i2
    ensures WordAddr(base, i) != WordAddr(base, i2)
  {
    UnshiftWordAddr(base, i);
    UnshiftWordAddr(base, i2);
  }

  /**
   * The tables above are the source's `entry / (32 / w)`,
   * `(entry % (32 / w)) * w` and `(1 << w) - 1`, width by width.
   */
  lemma SourceArithmetic(e: bv32)
    ensures WordIndex(1, e) == e / (32 / 1) && BitOffset(1, e) == (e % (32 / 1)) * 1
    ensures WordIndex(2, e) == e / (32 / 2) && BitOffset(2, e) == (e % (32 / 2)) * 2
    ensures WordIndex(4, e) == e / (32 / 4) && BitOffset(4, e) == (e % (32 / 4)) * 4
    ensures WordIndex(8, e) == e / (32 / 8) && BitOffset(8, e) == (e % (32 / 8)) * 8
    ensures WordIndex(16, e) == e / (32 / 16) && BitOffset(16, e) == (e % (32 / 16)) * 16
    ensures forall w | ValidWidth(w) :: FieldMask(w) == ((1 as bv32) << w) - 1
  {
  }

  /**
   * `x | bits` and `x & !bits`. The drivers' read-modify-write sequences go
   * through these names rather than the bare operators, which keeps the
   * verifier reasoning about the written values by congruence.
   */
  function SetBits(x: bv32, bits: bv32): bv32 {
    x | bits
  }

  function ClearBits(x: bv32, bits: bv32): bv32 {
    x & !bits
  }

  /** The word after clearing the field `mask << off` and OR-ing in `v & mask` there. */
  function Insert(cur: bv32, v: bv32, mask: bv32, off: bv32): bv32
    requires off < 32
  {
    (cur & !(mask << off)) | ((v & mask) << off)
  }

  /** The field `mask << off` of `x`, shifted down. */
  function Extract(x: bv32, mask: bv32, off: bv32): bv32
    requires off < 32
  {
    (x >> off) & mask
  }

  /*
   * Bit-field facts, one lemma per supported width: with a literal mask and
   * the offset written as a slot shifted into place, each is a small
   * problem for the solver, where the width-generic statement is not.
   */

  lemma FieldReadBack1(cur: bv32, v: bv32, e: bv32)
    ensures Extract(Insert(cur, v, 0x1, e & 31), 0x1, e & 31) == v & 0x1
  {
  }

  lemma FieldIndependent1(cur: bv32, v: bv32, e: bv32, e2: bv32)
    requires e != e2 && e >> 5 == e2 >> 5
    ensures Extract(Insert(cur, v, 0x1, e & 31), 0x1, e2 & 31) == Extract(cur, 0x1, e2 & 31)
  {
  }

  lemma FieldReadBack2(cur: bv32, v: bv32, e: bv32)
    ensures Extract(Insert(cur, v, 0x3, (e & 15) << 1), 0x3, (e & 15) << 1) == v & 0x3
  {
  }

  lemma FieldIndependent2(cur: bv32, v: bv32, e: bv32, e2: bv32)
    requires e != e2 && e >> 4 == e2 >> 4
    ensures Extract(Insert(cur, v, 0x3, (e & 15) << 1), 0x3, (e2 & 15) << 1) == Extract(cur, 0x3, (e2 & 15) << 1)
  {
  }

  lemma FieldReadBack4(cur: bv32, v: bv32, e: bv32)
    ensures Extract(Insert(cur, v, 0xF, (e & 7) << 2), 0xF, (e & 7) << 2) == v & 0xF
  {
  }

  lemma FieldIndependent4(cur: bv32, v: bv32, e: bv32, e2: bv32)
    requires e != e2 && e >> 3 == e2 >> 3
    ensures Extract(Insert(cur, v, 0xF, (e & 7) << 2), 0xF, (e2 & 7) << 2) == Extract(cur, 0xF, (e2 & 7) << 2)
  {
  }

  lemma FieldReadBack8(cur: bv32, v: bv32, e: bv32)
    ensures Extract(Insert(cur, v, 0xFF, (e & 3) << 3), 0xFF, (e & 3) << 3) == v & 0xFF
  {
  }

  lemma FieldIndependent8(cur: bv32, v: bv32, e: bv32, e2: bv32)
    requires e != e2 && e >> 2 == e2 >> 2
    ensures Extract(Insert(cur, v, 0xFF, (e & 3) << 3), 0xFF, (e2 & 3) << 3) == Extract(cur, 0xFF, (e2 & 3) << 3)
  {
  }

  lemma FieldReadBack16(cur: bv32, v: bv32, e: bv32)
    ensures Extract(Insert(cur, v, 0xFFFF, (e & 1) << 4), 0xFFFF, (e & 1) << 4) == v & 0xFFFF
  {
  }

  lemma FieldIndependent16(cur: bv32, v: bv32, e: bv32, e2: bv32)
    requires e != e2 && e >> 1 == e2 >> 1
    ensures Extract(Insert(cur, v, 0xFFFF, (e & 1) << 4), 0xFFFF, (e2 & 1) << 4) == Extract(cur, 0xFFFF, (e2 & 1) << 4)
  {
  }

  /** Inserting a value into the field of entry `e` and extracting it gives the value, masked. */
  lemma InsertExtract(cur: bv32, v: bv32, w: bv32, e: bv32)
    requires ValidWidth(w)
    ensures Extract(Insert(cur, v, FieldMask(w), BitOffset(w, e)), FieldMask(w), BitOffset(w, e))
            == v & FieldMask(w)
  {
    if w == 1 {
      FieldReadBack1(cur, v, e);
    } else if w == 2 {
      FieldReadBack2(cur, v, e);
    } else if w == 4 {
      FieldReadBack4(cur, v, e);
    } else if w == 8 {
      FieldReadBack8(cur, v, e);
    } else {
      FieldReadBack16(cur, v, e);
    }
  }

  /** Inserting into the field of entry `e` leaves the field of any other entry of that word alone. */
  lemma InsertKeepsOtherEntry(cur: bv32, v: bv32, w: bv32, e: bv32, e2: bv32)
    requires ValidWidth(w) && e != e2 && WordIndex(w, e) == WordIndex(w, e2)
    ensures Extract(Insert(cur, v, FieldMask(w), BitOffset(w, e)), FieldMask(w), BitOffset(w, e2))
            == Extract(cur, FieldMask(w), BitOffset(w, e2))
  {
    if w == 1 {
      FieldIndependent1(cur, v, e, e2);
    } else if w == 2 {
      FieldIndependent2(cur, v, e, e2);
    } else if w == 4 {
      FieldIndependent4(cur, v, e, e2);
    } else if w == 8 {
      FieldIndependent8(cur, v, e, e2);
    } else {
      FieldIndependent16(cur, v, e, e2);
    }
  }

  /** Inserting the same value twice is inserting it once. */
  lemma InsertIdempotent(cur: bv32, v: bv32, w: bv32, off: bv32)
    requires ValidWidth(w) && off < 32
    ensures Insert(Insert(cur, v, FieldMask(w), off), v, FieldMask(w), off) == Insert(cur, v, FieldMask(w), off)
  {
  }

  /** The field of entry `e` lies inside the word: `bit_offset + w <= 32`. */
  lemma FieldFits(w: bv32, e: bv32)
    requires ValidWidth(w)
    ensures BitOffset(w, e) as int + w as int <= 32
  {
  }

  /** Inserting changes no bit outside the field `mask << bit_offset`. */
  lemma InsertKeepsOutside(cur: bv32, v: bv32, w: bv32, e: bv32)
    requires ValidWidth(w)
    ensures var outside := !(FieldMask(w) << BitOffset(w, e));
            Insert(cur, v, FieldMask(w), BitOffset(w, e)) & outside == cur & outside
  {
  }

  /** `read_register`: the `w`-bit field of entry `e` in the bank at `base`. */
  function ReadRegister(m: Memory, base: Addr, w: bv32, e: bv32): bv32
    requires ValidWidth(w)
  {
    Extract(Load(m, FieldAddr(base, w, e)), FieldMask(w), BitOffset(w, e))
  }

  /** A field read is below 2^w. */
  lemma ReadRegisterBound(m: Memory, base: Addr, w: bv32, e: bv32)
    requires ValidWidth(w)
    ensures ReadRegister(m, base, w, e) <= FieldMask(w)
  {
  }

  /** The memory `write_register(base, w, e, v)` leaves behind. */
  function Written(m: Memory, base: Addr, w: bv32, e: bv32, v: bv32): Memory
    requires ValidWidth(w)
  {
    var a := FieldAddr(base, w, e);
    m[Cell(a) := Insert(Load(m, a), v, FieldMask(w), BitOffset(w, e))]
  }

  /** Reading back a written field gives the value masked to the field width. */
  lemma ReadAfterWrite(m: Memory, base: Addr, w: bv32, e: bv32, v: bv32)
    requires ValidWidth(w)
    ensures ReadRegister(Written(m, base, w, e, v), base, w, e) == v & FieldMask(w)
  {
    InsertExtract(Load(m, FieldAddr(base, w, e)), v, w, e);
  }

  /** Only the word at `base + e / (32 / w)` changes. */
  lemma WriteFrame(m: Memory, base: Addr, w: bv32, e: bv32, v: bv32, a: Addr)
    requires ValidWidth(w) && a != FieldAddr(base, w, e)
    ensures Load(Written(m, base, w, e, v), a) == Load(m, a)
  {
  }

  /** Every other word of the bank keeps its contents. */
  lemma WriteKeepsOtherWord(m: Memory, base: Addr, w: bv32, e: bv32, v: bv32, i: bv32)
    requires ValidWidth(w) && WordIndex(w, e) != i
    ensures Load(Written(m, base, w, e, v), WordAddr(base, i)) == Load(m, WordAddr(base, i))
  {
    WordAddrInjective(base, WordIndex(w, e), i);
  }

  /** Another entry in the same word: its bits are outside the written field. */
  lemma WriteKeepsSameWordEntry(m: Memory, base: Addr, w: bv32, e: bv32, e2: bv32, v: bv32)
    requires ValidWidth(w) && e != e2 && WordIndex(w, e) == WordIndex(w, e2)
    ensures ReadRegister(Written(m, base, w, e, v), base, w, e2) == ReadRegister(m, base, w, e2)
  {
    InsertKeepsOtherEntry(Load(m, FieldAddr(base, w, e)), v, w, e, e2);
  }

  /** An entry in another word: that word is not written at all. */
  lemma WriteKeepsOtherWordEntry(m: Memory, base: Addr, w: bv32, e: bv32, e2: bv32, v: bv32)
    requires ValidWidth(w) && WordIndex(w, e) != WordIndex(w, e2)
    ensures ReadRegister(Written(m, base, w, e, v), base, w, e2) == ReadRegister(m, base, w, e2)
  {
    WriteKeepsOtherWord(m, base, w, e, v, WordIndex(w, e2));
  }

  /** Writing one entry leaves every other entry of the same bank readable as before. */
  lemma WriteKeepsOtherEntries(m: Memory, base: Addr, w: bv32, e: bv32, e2: bv32, v: bv32)
    requires ValidWidth(w) && e != e2
    ensures ReadRegister(Written(m, base, w, e, v), base, w, e2) == ReadRegister(m, base, w, e2)
  {
    if WordIndex(w, e) == WordIndex(w, e2) {
      WriteKeepsSameWordEntry(m, base, w, e, e2, v);
    } else {
      WriteKeepsOtherWordEntry(m, base, w, e, e2, v);
    }
  }

  /** A write into one bank leaves the same entry of a bank at another base as it was. */
  lemma WriteMissesOtherBank(m: Memory, base: Addr, base2: Addr, w: bv32, e: bv32, v: bv32)
    requires ValidWidth(w) && base != base2
    ensures ReadRegister(Written(m, base, w, e, v), base2, w, e) == ReadRegister(m, base2, w, e)
  {
    RebaseWordAddr(base, WordIndex(w, e));
    RebaseWordAddr(base2, WordIndex(w, e));
    WriteFrame(m, base, w, e, v, FieldAddr(base2, w, e));
  }

  /** Writing the same value to the same field twice leaves the memory of one write. */
  lemma WriteIdempotent(m: Memory, base: Addr, w: bv32, e: bv32, v: bv32)
    requires ValidWidth(w)
    ensures Written(Written(m, base, w, e, v), base, w, e, v) == Written(m, base, w, e, v)
  {
    InsertIdempotent(Load(m, FieldAddr(base, w, e)), v, w, BitOffset(w, e));
  }

  /**
   * The device memory the drivers read and write, with the trace of every
   * volatile write and system-register event in program order.
   */
  class RegisterBank {
    var mem: Memory
    var trace: seq<Event>

    constructor (m: Memory)
      ensures mem == m && trace == []
    {
      mem := m;
      trace := [];
    }

    /** ptr::write_volatile(addr as *mut u32, value) */
    method Store(addr: Addr, value: bv32)
      modifies this
      ensures mem == old(mem)[Cell(addr) := value]
      ensures trace == old(trace) + [MmioWrite(addr, value)]
    {
      mem := mem[Cell(addr) := value];
      trace := trace + [MmioWrite(addr, value)];
    }

    /** ptr::read_volatile(addr as *mut u32): plain memory, so nothing changes. */
    method Read(addr: Addr) returns (value: bv32)
      ensures value == Load(mem, addr)
    {
      value := Load(mem, addr);
    }

    /**
     * The whole effect of `write_register(base, w, e, v)`: one volatile write
     * of the updated word, which reads back as `v` masked to the field, while
     * every other entry of the bank reads as before.
     */
    twostate predicate WroteField(base: Addr, w: bv32, e: bv32, v: bv32)
      requires ValidWidth(w)
      reads this
    {
      && mem == Written(old(mem), base, w, e, v)
      && trace == old(trace) + [MmioWrite(FieldAddr(base, w, e), Load(mem, FieldAddr(base, w, e)))]
      && ReadRegister(mem, base, w, e) == v & FieldMask(w)
      && (forall j :: j != e ==> ReadRegister(mem, base, w, j) == ReadRegister(old(mem), base, w, j))
    }

    /** A system-register or mask event that leaves device memory alone. */
    method Record(e: Event)
      requires !e.MmioWrite?
      modifies this
      ensures mem == old(mem) && trace == old(trace) + [e]
    {
      trace := trace + [e];
    }

    /** `write_register`: read the word, replace the field, write the whole word back. */
    method WriteRegister(base: Addr, fieldWidth: bv32, entry: bv32, value: bv32)
      requires ValidWidth(fieldWidth)
      modifies this
      ensures WroteField(base, fieldWidth, entry, value)
    {
      var bitOffset := BitOffset(fieldWidth, entry);
      var fieldMask := FieldMask(fieldWidth);
      var register := FieldAddr(base, fieldWidth, entry);
      var currentValue := Read(register);
      var valueToWrite := Insert(currentValue, value, fieldMask, bitOffset);
      ghost var m0 := mem;
      Store(register, valueToWrite);
      ReadAfterWrite(m0, base, fieldWidth, entry, value);
      forall j | j != entry
        ensures ReadRegister(mem, base, fieldWidth, j) == ReadRegister(m0, base, fieldWidth, j)
      {
        WriteKeepsOtherEntries(m0, base, fieldWidth, entry, j, value);
      }
    }
  }
}
