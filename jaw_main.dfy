/**
 * The entry code of jaw_os (jaw_os/src/main.rs): `print_hex`, which writes
 * an unsigned integer to the UART as hexadecimal digits, least significant
 * nibble first, and `_rust_start`, which writes a banner and then
 * `print_hex(VAL)`.
 *
 * The UART's data register at 0x0900_0000 is a `Uart` object; each
 * volatile write of a byte appends that byte to `sent`.
 */
module JawMain {
  import Fse

  type byte = b: int | 0 <= b < 0x100

  /** `HEX`: the ASCII digits "0123456789abcdef". */
  const HEX: seq<byte> := [0x30, 0x31, 0x32, 0x33, 0x34, 0x35, 0x36, 0x37, 0x38, 0x39, 0x61, 0x62, 0x63, 0x64, 0x65, 0x66]

  /** `out_str`: the ASCII text "IPv6 Only Network Stack" and a line feed. */
  const OUT_STR: seq<byte> := [0x49, 0x50, 0x76, 0x36, 0x20, 0x4f, 0x6e, 0x6c, 0x79, 0x20, 0x4e, 0x65, 0x74, 0x77, 0x6f, 0x72, 0x6b, 0x20, 0x53, 0x74, 0x61, 0x63, 0x6b, 0x0a]

  /** `VAL`, the number `_rust_start` prints. */
  const VAL: nat := 0x1234_5678_9abc_def0

  /** The UART's transmit register, as the bytes written to it so far. */
  class Uart {
    var sent: seq<byte>

    constructor ()
      ensures sent == []
    {
      sent := [];
    }

    /** `ptr::write_volatile(UART0, b)` */
    method Write(b: byte)
      modifies this
      ensures sent == old(sent) + [b]
    {
      sent := sent + [b];
    }
  }

  function Pow16(k: nat): (r: nat)
    ensures r > 0
  {
    if k == 0 then 1 else 16 * Pow16(k - 1)
  }

  /** The `n` hex digits of `val` that `print_hex` emits, least significant first. */
  function HexDigits(val: nat, n: nat): (r: seq<byte>)
    ensures |r| == n
  {
    if n == 0 then [] else [HEX[val % 16]] + HexDigits(val / 16, n - 1)
  }

  /** Every emitted byte is one of the sixteen hex digits. */
  lemma {:induction false} HexDigitsAreHex(val: nat, n: nat)
    ensures forall k :: 0 <= k < n ==> HexDigits(val, n)[k] in HEX
  {
    if n > 0 {
      HexDigitsAreHex(val / 16, n - 1);
      assert HexDigits(val, n)[0] == HEX[val % 16];
    }
  }

  /** Shifting out one nibble, then `k - 1` more, is shifting out `k`. */
  lemma ShiftNibbles(val: nat, k: nat)
    requires k > 0
    ensures val / 16 / Pow16(k - 1) == val / Pow16(k)
  {
    Fse.ModMul(val, 16, Pow16(k - 1));
  }

  /** Byte `k` is the digit of nibble `k`, `HEX[(val >> 4k) & 0xf]`. */
  lemma {:induction false} HexDigitAt(val: nat, n: nat, k: nat)
    requires k < n
    ensures HexDigits(val, n)[k] == HEX[(val / Pow16(k)) % 16]
  {
    if k == 0 {
      assert val / Pow16(0) == val;
    } else {
      HexDigitAt(val / 16, n - 1, k - 1);
      assert HexDigits(val, n)[k] == HexDigits(val / 16, n - 1)[k - 1];
      ShiftNibbles(val, k);
      var d := (val / Pow16(k)) % 16;
      assert HexDigits(val / 16, n - 1)[k - 1] == HEX[d];
    }
  }

  /**
   * `print_hex(val)` for an unsigned integer type of `size` bytes: the loop
   * emits `2 * size` digits, shifting `val` right by 4 after each.
   */
  method PrintHex(uart: Uart, val: nat, size: nat)
    modifies uart
    ensures uart.sent == old(uart.sent) + HexDigits(val, 2 * size)
  {
    var nibbleLen: nat := size * 2;
    var v := val;
    while nibbleLen != 0
      invariant uart.sent + HexDigits(v, nibbleLen) == old(uart.sent) + HexDigits(val, 2 * size)
    {
      nibbleLen := nibbleLen - 1;
      var nibble := v % 16;
      var digit := HEX[nibble];
      uart.Write(digit);
      v := v / 16;
    }
  }

  /**
   * `_rust_start`: the banner, byte by byte, then `print_hex(VAL)` for a
   * `u64`. The idle loop that follows is not part of the model.
   */
  method RustStart(uart: Uart)
    modifies uart
    ensures uart.sent == old(uart.sent) + OUT_STR + HexDigits(VAL, 16)
  {
    for i := 0 to |OUT_STR|
      invariant uart.sent == old(uart.sent) + OUT_STR[..i]
    {
      uart.Write(OUT_STR[i]);
      assert OUT_STR[..i + 1] == OUT_STR[..i] + [OUT_STR[i]];
    }
    assert OUT_STR[..|OUT_STR|] == OUT_STR;
    PrintHex(uart, VAL, 8);
  }

  /** What `_rust_start` prints after the banner: the digits of `VAL` backwards, "0fedcba987654321". */
  lemma RustStartDigits()
    ensures HexDigits(VAL, 16) == [0x30, 0x66, 0x65, 0x64, 0x63, 0x62, 0x61, 0x39, 0x38, 0x37, 0x36, 0x35, 0x34, 0x33, 0x32, 0x31]
  {
    assert HexDigits(0x123456789abcdef0, 16) == [HEX[0]] + HexDigits(0x123456789abcdef, 15);
    assert HexDigits(0x123456789abcdef, 15) == [HEX[15]] + HexDigits(0x123456789abcde, 14);
    assert HexDigits(0x123456789abcde, 14) == [HEX[14]] + HexDigits(0x123456789abcd, 13);
    assert HexDigits(0x123456789abcd, 13) == [HEX[13]] + HexDigits(0x123456789abc, 12);
    assert HexDigits(0x123456789abc, 12) == [HEX[12]] + HexDigits(0x123456789ab, 11);
    assert HexDigits(0x123456789ab, 11) == [HEX[11]] + HexDigits(0x123456789a, 10);
    assert HexDigits(0x123456789a, 10) == [HEX[10]] + HexDigits(0x123456789, 9);
    assert HexDigits(0x123456789, 9) == [HEX[9]] + HexDigits(0x12345678, 8);
    assert HexDigits(0x12345678, 8) == [HEX[8]] + HexDigits(0x1234567, 7);
    assert HexDigits(0x1234567, 7) == [HEX[7]] + HexDigits(0x123456, 6);
    assert HexDigits(0x123456, 6) == [HEX[6]] + HexDigits(0x12345, 5);
    assert HexDigits(0x12345, 5) == [HEX[5]] + HexDigits(0x1234, 4);
    assert HexDigits(0x1234, 4) == [HEX[4]] + HexDigits(0x123, 3);
    assert HexDigits(0x123, 3) == [HEX[3]] + HexDigits(0x12, 2);
    assert HexDigits(0x12, 2) == [HEX[2]] + HexDigits(0x1, 1);
    assert HexDigits(0x1, 1) == [HEX[1]] + HexDigits(0x0, 0);
  }
}
