/**
 * The flattened-devicetree reader of possum_os (possum_os/src/device_tree.rs),
 * following section 5.2 (header) and section 5.4 (structure block) of the
 * Devicetree Specification v0.4.
 *
 * RAM is a sequence of bytes addressed from 0; a byte past its end reads as
 * 0. Pointers and `usize` offsets are unbounded `nat`s and the header's
 * `u32` fields are `u32`s. Shifting and masking an unsigned word by a byte
 * is written as multiplication, division and remainder by 256. The text
 * `kprintf!` and `console_indent` print is not modelled.
 */
module DeviceTree {
  import opened Wrappers

  type byte = b: int | 0 <= b < 0x100
  type u32 = w: int | 0 <= w < 0x1_0000_0000

  const FDT_MAGIC: u32 := 0xd00d_feed
  const FDT_BEGIN_NODE: u32 := 0x0000_0001
  const FDT_END_NODE: u32 := 0x0000_0002
  const FDT_PROP: u32 := 0x0000_0003
  const FDT_NOP: u32 := 0x0000_0004
  const FDT_END: u32 := 0x0000_0009
  /** Size of a structure-block token in bytes. */
  const FDT_TAG_SIZE: nat := 4
  const MAX_STR_LEN: nat := 256

  /** The byte at address `a`; 0 past the end of RAM. */
  function Byte(ram: seq<byte>, a: nat): byte {
    if a < |ram| then ram[a] else 0
  }

  // ---------------------------------------------------------------------------
  // read_big_endian (the u32 instantiation, the only one used)

  /** The big-endian 32-bit word at `a`: its first byte is the most significant. */
  function BigEndianWord(ram: seq<byte>, a: nat): (r: u32) {
    Byte(ram, a) * 0x100_0000 + Byte(ram, a + 1) * 0x1_0000 + Byte(ram, a + 2) * 0x100 + Byte(ram, a + 3)
  }

  /** The value of `s` read little-endian, as the processor loads a word. */
  function LittleEndian(s: seq<byte>): nat {
    if s == [] then 0 else s[0] + 0x100 * LittleEndian(s[1..])
  }

  /** The value of `s` read big-endian. */
  function BigEndian(s: seq<byte>): nat {
    if s == [] then 0 else BigEndian(s[..|s| - 1]) * 0x100 + s[|s| - 1]
  }

  /** 256 to the power `n`. */
  function Radix(n: nat): nat {
    if n == 0 then 1 else 0x100 * Radix(n - 1)
  }

  lemma {:induction false} BigEndianBound(s: seq<byte>)
    ensures BigEndian(s) < Radix(|s|)
  {
    if s != [] {
      BigEndianBound(s[..|s| - 1]);
    }
  }

  lemma {:induction false} LittleEndianBound(s: seq<byte>)
    ensures LittleEndian(s) < Radix(|s|)
  {
    if s != [] {
      LittleEndianBound(s[1..]);
    }
  }

  /** The four bytes at `a`, in address order. */
  function WordBytes(ram: seq<byte>, a: nat): (s: seq<byte>)
    ensures |s| == 4
  {
    [Byte(ram, a), Byte(ram, a + 1), Byte(ram, a + 2), Byte(ram, a + 3)]
  }

  /**
   * `read_big_endian`: load the word natively (little-endian) and move its
   * bytes, low first, into the result from the bottom, so that byte order
   * is reversed: the result is the big-endian word at `addr`.
   */
  method ReadBigEndian(ram: seq<byte>, addr: nat) returns (result: u32)
    ensures result == BigEndianWord(ram, addr)
  {
    var bytes := WordBytes(ram, addr);
    LittleEndianBound(bytes);
    var input: nat := LittleEndian(bytes);
    result := 0;
    for k := 0 to 4
      invariant input == LittleEndian(bytes[k..])
      invariant result == BigEndian(bytes[..k])
    {
      BigEndianBound(bytes[..k]);
      ShiftInByte(bytes, k);
      result := (result * 0x100) % 0x1_0000_0000;
      result := result + input % 0x100;
      input := input / 0x100;
    }
    assert bytes[..4] == bytes;
    BigEndianWordBytes(ram, addr);
  }

  /** One pass of `read_big_endian`'s loop moves byte `k` from the bottom of the input to the bottom of the result. */
  lemma ShiftInByte(bytes: seq<byte>, k: nat)
    requires k < |bytes|
    ensures LittleEndian(bytes[k..]) % 0x100 == bytes[k]
    ensures LittleEndian(bytes[k..]) / 0x100 == LittleEndian(bytes[k + 1..])
    ensures BigEndian(bytes[..k + 1]) == BigEndian(bytes[..k]) * 0x100 + bytes[k]
  {
    assert bytes[..k + 1][..k] == bytes[..k];
    assert bytes[k..][1..] == bytes[k + 1..];
  }

  /** The big-endian value of the four bytes at `a` is the big-endian word there. */
  lemma BigEndianWordBytes(ram: seq<byte>, a: nat)
    ensures BigEndian(WordBytes(ram, a)) == BigEndianWord(ram, a)
  {
    var s := WordBytes(ram, a);
    var t1, t2, t3 := [s[0]], [s[0], s[1]], [s[0], s[1], s[2]];
    assert s[..3] == t3 && t3[..2] == t2 && t2[..1] == t1 && t1[..0] == [];
    assert BigEndian(t1) == s[0] as int;
    assert BigEndian(t2) == s[0] as int * 0x100 + s[1];
    assert BigEndian(t3) == (s[0] as int * 0x100 + s[1]) * 0x100 + s[2];
  }

  // ---------------------------------------------------------------------------
  // strnlen

  /** The index of the first NUL among the `max` bytes at `p`, searching from `i`. */
  function NulFrom(ram: seq<byte>, p: nat, i: nat, max: nat): (r: Option<nat>)
    requires i <= max
    decreases max - i
    ensures r.Some? ==> i <= r.value < max && Byte(ram, p + r.value) == 0
                        && forall a :: p + i <= a < p + r.value ==> Byte(ram, a) != 0
    ensures r.None? ==> forall a :: p + i <= a < p + max ==> Byte(ram, a) != 0
  {
    if i == max then None
    else if Byte(ram, p + i) == 0 then Some(i)
    else NulFrom(ram, p, i + 1, max)
  }

  /**
   * What `strnlen(p, max)` returns: the length of the string at `p`, or
   * `None` if none of the `max` bytes at `p` is NUL.
   */
  function NulIndex(ram: seq<byte>, p: nat, max: nat): Option<nat> {
    NulFrom(ram, p, 0, max)
  }

  /** A found NUL is at the index returned, below `max`, with no NUL before it. */
  lemma NulIndexFound(ram: seq<byte>, p: nat, max: nat)
    requires NulIndex(ram, p, max).Some?
    ensures var i := NulIndex(ram, p, max).value;
            && i < max && Byte(ram, p + i) == 0
            && forall a :: p <= a < p + i ==> Byte(ram, a) != 0
  {
  }

  /**
   * `strnlen(p, max)` is `Some(i)` exactly when `i < max`, the `i` bytes at
   * `p` are not NUL and the next one is; it is `None` exactly when none of
   * the `max` bytes at `p` is NUL.
   */
  lemma NulIndexMeaning(ram: seq<byte>, p: nat, max: nat)
    ensures var r := NulIndex(ram, p, max);
            && (r.Some? <==> exists a :: p <= a < p + max && Byte(ram, a) == 0)
            && (r.Some? ==> r.value < max && Byte(ram, p + r.value) == 0
                            && forall a :: p <= a < p + r.value ==> Byte(ram, a) != 0)
            && (r.None? <==> forall a :: p <= a < p + max ==> Byte(ram, a) != 0)
  {
    var r := NulIndex(ram, p, max);
    if r.Some? {
      assert Byte(ram, p + r.value) == 0;
    }
  }

  /** `strnlen`: walk forward while fewer than `max_len` bytes are seen and the byte is not NUL. */
  method StrNLen(ram: seq<byte>, ptr: nat, maxLen: nat) returns (r: Option<nat>)
    ensures r == NulIndex(ram, ptr, maxLen)
  {
    var p := ptr;
    var i := 0;
    while i < maxLen && Byte(ram, p) != 0
      invariant i <= maxLen && p == ptr + i
      invariant NulFrom(ram, ptr, i, maxLen) == NulFrom(ram, ptr, 0, maxLen)
    {
      p := p + 1;
      i := i + 1;
    }
    if i == maxLen {
      r := None;
    } else {
      r := Some(i);
    }
  }

  // ---------------------------------------------------------------------------
  // next_four_byte_align

  /** `next_four_byte_align`: add 3 and clear the two low bits, rounding up to a multiple of 4. */
  function NextFourByteAlign(offset: nat): (r: nat)
    ensures r % 4 == 0 && offset <= r < offset + 4
    ensures offset % 4 == 0 ==> r == offset
  {
    (offset + 3) - (offset + 3) % 4
  }

  /** Rounding up is the least multiple of 4 that is at least `offset`. */
  lemma AlignIsLeast(offset: nat, m: nat)
    requires m % 4 == 0 && offset <= m
    ensures NextFourByteAlign(offset) <= m
  {
  }

  // ---------------------------------------------------------------------------
  // The header

  /** `DeviceTree`: the base address and the header words the reader keeps. */
  datatype DeviceTree = DeviceTree(
    base: nat,
    structureOffset: u32,
    stringsOffset: u32,
    memOffset: u32,
    version: u32,
    lastCompVersion: u32,
    structureSize: u32,
    stringsSize: u32)

  /** `DeviceTree::new`: a null base and every field zero. */
  function NewDeviceTree(): (dt: DeviceTree)
    ensures dt.base == 0
    ensures dt.structureOffset == 0 && dt.stringsOffset == 0 && dt.memOffset == 0
    ensures dt.version == 0 && dt.lastCompVersion == 0
    ensures dt.structureSize == 0 && dt.stringsSize == 0
  {
    DeviceTree(0, 0, 0, 0, 0, 0, 0, 0)
  }

  /**
   * `device_tree_from_ram_ptr`: a tree with a bad magic word is the empty
   * one; otherwise the fields are the header's big-endian words, at byte
   * offsets 8 (structure block), 12 (strings block), 16 (memory
   * reservation map), 20 (version), 24 (last compatible version), 32
   * (strings size) and 36 (structure size). The total size at 4 and the boot
   * CPU at 28 are read and dropped.
   */
  method DeviceTreeFromRamPtr(ram: seq<byte>, ramPtr: nat) returns (dt: DeviceTree)
    ensures BigEndianWord(ram, ramPtr) != FDT_MAGIC ==> dt == NewDeviceTree()
    ensures BigEndianWord(ram, ramPtr) == FDT_MAGIC ==>
              dt == DeviceTree(ramPtr,
                               BigEndianWord(ram, ramPtr + 8), BigEndianWord(ram, ramPtr + 12),
                               BigEndianWord(ram, ramPtr + 16), BigEndianWord(ram, ramPtr + 20),
                               BigEndianWord(ram, ramPtr + 24), BigEndianWord(ram, ramPtr + 36),
                               BigEndianWord(ram, ramPtr + 32))
  {
    dt := NewDeviceTree();
    var ptr := ramPtr;
    var magic := ReadBigEndian(ram, ptr);
    if magic != FDT_MAGIC {
      return;
    }
    var totalSize := ReadBigEndian(ram, ptr + 4);
    var offDtStruct := ReadBigEndian(ram, ptr + 8);
    var offDtStrings := ReadBigEndian(ram, ptr + 12);
    var offMemRsvmap := ReadBigEndian(ram, ptr + 16);
    var version := ReadBigEndian(ram, ptr + 20);
    var lastCompVersion := ReadBigEndian(ram, ptr + 24);
    var bootCpuidPhys := ReadBigEndian(ram, ptr + 28);
    var sizeDtStrings := ReadBigEndian(ram, ptr + 32);
    var sizeDtStruct := ReadBigEndian(ram, ptr + 36);
    dt := dt.(base := ramPtr);
    dt := dt.(structureOffset := offDtStruct);
    dt := dt.(stringsOffset := offDtStrings);
    dt := dt.(memOffset := offMemRsvmap);
    dt := dt.(version := version);
    dt := dt.(lastCompVersion := lastCompVersion);
    dt := dt.(structureSize := sizeDtStruct);
    dt := dt.(stringsSize := sizeDtStrings);
  }

  // ---------------------------------------------------------------------------
  // get_string_from_offset

  /** The `len` bytes at `p`. */
  function Bytes(ram: seq<byte>, p: nat, len: nat): (s: seq<byte>)
    ensures |s| == len && forall j {:trigger s[j]} :: 0 <= j < len ==> s[j] == Byte(ram, p + j)
  {
    seq<byte>(len, j requires 0 <= j => Byte(ram, p + j))
  }

  /**
   * `get_string_from_offset`: the NUL-terminated string at `offset` in the
   * strings block, at most `MAX_STR_LEN - 1` bytes; `None` stands for the
   * panic of unwrapping `strnlen`'s `None` when there is no NUL within
   * `MAX_STR_LEN` bytes.
   */
  function StringFromOffset(dt: DeviceTree, ram: seq<byte>, offset: u32): Option<seq<byte>> {
    var p := dt.base + dt.stringsOffset + offset;
    match NulIndex(ram, p, MAX_STR_LEN)
    case None => None
    case Some(len) => Some(Bytes(ram, p, len))
  }

  /** `get_string_from_offset` panics exactly when none of the `MAX_STR_LEN` bytes at the name is NUL. */
  lemma StringFromOffsetPanics(dt: DeviceTree, ram: seq<byte>, offset: u32)
    ensures var p := dt.base + dt.stringsOffset + offset;
            StringFromOffset(dt, ram, offset).None? <==> forall a :: p <= a < p + MAX_STR_LEN ==> Byte(ram, a) != 0
  {
    NulIndexMeaning(ram, dt.base + dt.stringsOffset + offset, MAX_STR_LEN);
  }

  /** The bytes before a NUL that has none before it are all non-zero. */
  lemma BytesBeforeNul(ram: seq<byte>, p: nat, len: nat)
    requires forall a :: p <= a < p + len ==> Byte(ram, a) != 0
    ensures var s := Bytes(ram, p, len);
            forall j {:trigger s[j]} :: 0 <= j < |s| ==> s[j] == Byte(ram, p + j) && s[j] != 0
  {
    var s := Bytes(ram, p, len);
    forall j | 0 <= j < len
      ensures s[j] == Byte(ram, p + j) && s[j] != 0
    {
      assert p <= p + j < p + len;
    }
  }

  /** Otherwise the string is the bytes before the first NUL: fewer than `MAX_STR_LEN`, none of them NUL. */
  lemma StringFromOffsetContents(dt: DeviceTree, ram: seq<byte>, offset: u32)
    requires StringFromOffset(dt, ram, offset).Some?
    ensures var p := dt.base + dt.stringsOffset + offset;
            var s := StringFromOffset(dt, ram, offset).value;
            && |s| < MAX_STR_LEN
            && (forall j {:trigger s[j]} :: 0 <= j < |s| ==> s[j] == Byte(ram, p + j) && s[j] != 0)
            && Byte(ram, p + |s|) == 0
  {
    var p := dt.base + dt.stringsOffset + offset;
    NulIndexFound(ram, p, MAX_STR_LEN);
    var len := NulIndex(ram, p, MAX_STR_LEN).value;
    BytesBeforeNul(ram, p, len);
  }

  // ---------------------------------------------------------------------------
  // print_structure: the token walk

  /** Why the walk stopped early, if it did: a `break` on an unknown tag, or a panic. */
  datatype Stop = Running | UnknownTag(tag: u32) | Panicked

  /** The walk's state: the cursor, the node depth (`indent`), and its flags. */
  datatype Walk = Walk(ptr: nat, indent: nat, valid: bool, foundEnd: bool, stop: Stop)

  /** End of the structure block. */
  function End(dt: DeviceTree): nat {
    dt.base + dt.structureOffset + dt.structureSize
  }

  /** The state before the first token. */
  function Initial(dt: DeviceTree): Walk {
    Walk(dt.base + dt.structureOffset, 0, true, false, Running)
  }

  /** The flags that keep the loop going, whatever the cursor. */
  predicate Live(w: Walk) {
    w.valid && !w.foundEnd && w.stop == Running
  }

  /** The loop's guard. */
  predicate Continues(dt: DeviceTree, w: Walk) {
    w.ptr < End(dt) && Live(w)
  }

  /**
   * Why a walk that is no longer live stopped where it is, with exactly one
   * reason: an END token under the cursor; a node whose name has no NUL
   * within `MAX_STR_LEN` bytes or an END_NODE at depth 0, when it turned
   * invalid; a property whose name has no NUL, when it panicked; or the
   * unknown tag itself.
   */
  predicate StoppedAt(dt: DeviceTree, ram: seq<byte>, r: Walk) {
    var tag := BigEndianWord(ram, r.ptr);
    && (r.foundEnd ==> r.valid && r.stop == Running && tag == FDT_END)
    && (!r.valid ==>
          && r.stop == Running
          && ((tag == FDT_BEGIN_NODE && NulIndex(ram, r.ptr + FDT_TAG_SIZE, MAX_STR_LEN).None?)
              || (tag == FDT_END_NODE && r.indent == 0)))
    && (r.stop == Panicked ==>
          r.valid && !r.foundEnd && tag == FDT_PROP && StringFromOffset(dt, ram, BigEndianWord(ram, r.ptr + 4)).None?)
    && (r.stop.UnknownTag? ==>
          && r.valid && !r.foundEnd && tag == r.stop.tag
          && tag != FDT_BEGIN_NODE && tag != FDT_END_NODE && tag != FDT_PROP && tag != FDT_NOP && tag != FDT_END)
  }

  /**
   * One pass of the loop body on the token at the cursor. Either the
   * cursor moves on by at least one token and the walk stays live, or the
   * walk stops where it is, for a reason `StoppedAt` names.
   */
  function Step(dt: DeviceTree, ram: seq<byte>, w: Walk): (r: Walk)
    ensures || (r.ptr >= w.ptr + FDT_TAG_SIZE && Live(r) == Live(w))
            || (r.ptr == w.ptr && r.indent == w.indent && !Live(r))
    ensures Live(w) && !Live(r) ==> StoppedAt(dt, ram, r)
  {
    var tag := BigEndianWord(ram, w.ptr);
    if tag == FDT_BEGIN_NODE then BeginNode(ram, w)
    else if tag == FDT_END_NODE then
      if w.indent > 0 then w.(indent := w.indent - 1, ptr := w.ptr + FDT_TAG_SIZE)
      else w.(valid := false)
    else if tag == FDT_PROP then Prop(dt, ram, w)
    else if tag == FDT_NOP then w.(ptr := w.ptr + FDT_TAG_SIZE)
    else if tag == FDT_END then w.(foundEnd := true)
    else w.(stop := UnknownTag(tag))
  }

  /** A BEGIN_NODE token: one level deeper, past the tag and the NUL-terminated name padded to 4 bytes. */
  function BeginNode(ram: seq<byte>, w: Walk): Walk {
    var nameStart := w.ptr + FDT_TAG_SIZE;
    match NulIndex(ram, nameStart, MAX_STR_LEN)
    case Some(nameLen) => w.(indent := w.indent + 1, ptr := nameStart + NextFourByteAlign(nameLen + 1))
    case None => w.(valid := false)
  }

  /**
   * A PROP token: look the name up in the strings block, then skip the
   * tag, the name offset, the size and the value padded to 4 bytes.
   */
  function Prop(dt: DeviceTree, ram: seq<byte>, w: Walk): Walk {
    var nameOffset := BigEndianWord(ram, w.ptr + 4);
    match StringFromOffset(dt, ram, nameOffset)
    case None => w.(stop := Panicked)
    case Some(_) =>
      var size := BigEndianWord(ram, w.ptr + 8);
      w.(ptr := w.ptr + 12 + NextFourByteAlign(size))
  }

  /** A BEGIN_NODE with a name goes one level deeper and past the tag and the name padded to 4 bytes. */
  lemma StepBeginNode(dt: DeviceTree, ram: seq<byte>, w: Walk)
    requires BigEndianWord(ram, w.ptr) == FDT_BEGIN_NODE
    requires NulIndex(ram, w.ptr + FDT_TAG_SIZE, MAX_STR_LEN).Some?
    ensures var r, len := Step(dt, ram, w), NulIndex(ram, w.ptr + FDT_TAG_SIZE, MAX_STR_LEN).value;
            r.ptr == w.ptr + FDT_TAG_SIZE + NextFourByteAlign(len + 1) && r.indent == w.indent + 1 && r.valid == w.valid
  {
    assert Step(dt, ram, w) == BeginNode(ram, w);
  }

  /** An END_NODE goes one level up and 4 bytes on, or at depth 0 makes the walk invalid where it is. */
  lemma StepEndNode(dt: DeviceTree, ram: seq<byte>, w: Walk)
    requires BigEndianWord(ram, w.ptr) == FDT_END_NODE
    ensures var r := Step(dt, ram, w);
            && (w.indent > 0 ==> r.ptr == w.ptr + FDT_TAG_SIZE && r.indent == w.indent - 1 && r.valid == w.valid)
            && (w.indent == 0 ==> r.ptr == w.ptr && r.indent == 0 && !r.valid)
  {
  }

  /** A PROP whose name is found moves past the tag, name offset, size and the value padded to 4 bytes. */
  lemma StepProp(dt: DeviceTree, ram: seq<byte>, w: Walk)
    requires BigEndianWord(ram, w.ptr) == FDT_PROP
    requires StringFromOffset(dt, ram, BigEndianWord(ram, w.ptr + 4)).Some?
    ensures var r := Step(dt, ram, w);
            r.ptr == w.ptr + 12 + NextFourByteAlign(BigEndianWord(ram, w.ptr + 8)) && r.indent == w.indent && r.stop == w.stop
  {
    assert Step(dt, ram, w) == Prop(dt, ram, w);
  }

  /** A NOP moves one tag on; an END leaves the cursor on it and ends the walk. */
  lemma StepNopEnd(dt: DeviceTree, ram: seq<byte>, w: Walk)
    requires BigEndianWord(ram, w.ptr) == FDT_NOP || BigEndianWord(ram, w.ptr) == FDT_END
    ensures var r := Step(dt, ram, w);
            && (BigEndianWord(ram, w.ptr) == FDT_NOP ==> r.ptr == w.ptr + FDT_TAG_SIZE && r.indent == w.indent)
            && (BigEndianWord(ram, w.ptr) == FDT_END ==> r.ptr == w.ptr && r.foundEnd)
  {
  }

  /** The distance the walk can still go, for termination. */
  function Remaining(dt: DeviceTree, w: Walk): nat {
    if w.ptr < End(dt) then End(dt) - w.ptr else 0
  }

  /** The walk run to the end from `w`. */
  function WalkFrom(dt: DeviceTree, ram: seq<byte>, w: Walk): (r: Walk)
    decreases Remaining(dt, w), if Live(w) then 1 else 0
    ensures !Continues(dt, r) && r.ptr >= w.ptr
  {
    if Continues(dt, w) then WalkFrom(dt, ram, Step(dt, ram, w)) else w
  }

  /**
   * One pass of `print_structure`'s loop body: read the tag at the cursor
   * and act on it.
   */
  method Token(dt: DeviceTree, ram: seq<byte>, w: Walk) returns (next: Walk)
    ensures next == Step(dt, ram, w)
  {
    var ptr := w.ptr;
    var tag := ReadBigEndian(ram, ptr);
    if tag == FDT_BEGIN_NODE {
      next := BeginNodeToken(ram, w);
    } else if tag == FDT_END_NODE {
      if w.indent > 0 {
        next := w.(indent := w.indent - 1, ptr := ptr + FDT_TAG_SIZE);
      } else {
        next := w.(valid := false);
      }
    } else if tag == FDT_PROP {
      next := PropToken(dt, ram, w);
    } else if tag == FDT_NOP {
      next := w.(ptr := ptr + FDT_TAG_SIZE);
    } else if tag == FDT_END {
      next := w.(foundEnd := true);
    } else {
      next := w.(stop := UnknownTag(tag));
    }
  }

  /** The BEGIN_NODE arm: measure the name with `strnlen`. */
  method BeginNodeToken(ram: seq<byte>, w: Walk) returns (next: Walk)
    ensures next == BeginNode(ram, w)
  {
    var nameStart := w.ptr + FDT_TAG_SIZE;
    var nameLen := StrNLen(ram, nameStart, MAX_STR_LEN);
    if nameLen.Some? {
      next := w.(indent := w.indent + 1, ptr := nameStart + NextFourByteAlign(nameLen.value + 1));
    } else {
      next := w.(valid := false);
    }
  }

  /** The PROP arm: read the name offset and the size; a name without NUL panics. */
  method PropToken(dt: DeviceTree, ram: seq<byte>, w: Walk) returns (next: Walk)
    ensures next == Prop(dt, ram, w)
  {
    var nameOffset := ReadBigEndian(ram, w.ptr + 4);
    var name := StringFromOffset(dt, ram, nameOffset);
    if name.None? {
      return w.(stop := Panicked);
    }
    var size := ReadBigEndian(ram, w.ptr + 8);
    var data := w.ptr + 12;
    next := w.(ptr := data + NextFourByteAlign(size));
  }

  /**
   * `print_structure`, without its output: the loop over the tokens of the
   * structure block, from its start until the end of the block, an END
   * token, an invalid node, a panic or (by `break`) an unknown tag.
   */
  method PrintStructure(dt: DeviceTree, ram: seq<byte>) returns (w: Walk)
    ensures w == WalkFrom(dt, ram, Initial(dt))
    ensures Live(w) ==> w.ptr >= End(dt)
    ensures !Live(w) ==> StoppedAt(dt, ram, w)
  {
    WalkStopsForAReason(dt, ram, Initial(dt));
    var end := dt.base + dt.structureOffset + dt.structureSize;
    w := Initial(dt);
    while w.ptr < end && w.valid && !w.foundEnd
      invariant end == End(dt) && w.stop == Running
      invariant WalkFrom(dt, ram, w) == WalkFrom(dt, ram, Initial(dt))
      decreases Remaining(dt, w), if Live(w) then 1 else 0
    {
      w := Token(dt, ram, w);
      if w.stop != Running {
        return;
      }
    }
  }

  /**
   * A live walk from `w` ends either with the cursor at or past the end of
   * the structure block, or stopped for one of the reasons `StoppedAt`
   * names.
   */
  lemma {:induction false} WalkStopsForAReason(dt: DeviceTree, ram: seq<byte>, w: Walk)
    requires Live(w)
    decreases Remaining(dt, w)
    ensures var r := WalkFrom(dt, ram, w);
            (Live(r) ==> r.ptr >= End(dt)) && (!Live(r) ==> StoppedAt(dt, ram, r))
  {
    if Continues(dt, w) {
      var s := Step(dt, ram, w);
      if Live(s) {
        WalkStopsForAReason(dt, ram, s);
      }
    }
  }
}
