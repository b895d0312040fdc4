/**
 * The bit-stream helpers of the LZFSE port (rs_lzfse/src/fse.rs): the
 * low-bit mask tables, bit-field extraction, and the 64-bit output stream
 * that accumulates bits and writes them out a byte at a time.
 *
 * Words are held as bounded integers (`u64`, `u32`). `x >> n` is `Shr`,
 * `x & (2^n - 1)` is `Low`, both computed a bit at a time, and `&`, `|` are
 * `BitAnd`, `BitOr` on non-negative integers; `LowShrAreModDiv` ties `Shr`
 * and `Low` to division and remainder by 2^n. A shift by the word width or
 * more panics in a Rust debug build; the model treats it as an error
 * (`None`) or as a precondition.
 */
module Fse {
  import opened Wrappers

  type byte = b: int | 0 <= b < 0x100
  type u32 = x: int | 0 <= x < 0x1_0000_0000
  type u64 = x: int | 0 <= x < 0x1_0000_0000_0000_0000

  // ---------------------------------------------------------------------------
  // Arithmetic

  function Pow2(n: nat): (r: nat)
    ensures r > 0
  {
    if n == 0 then 1 else 2 * Pow2(n - 1)
  }

  lemma MulAssoc(a: int, b: int, c: int)
    ensures a * (b * c) == (a * b) * c
  {
  }

  lemma {:induction false} Pow2Add(a: nat, b: nat)
    ensures Pow2(a + b) == Pow2(a) * Pow2(b)
  {
    if a > 0 {
      Pow2Add(a - 1, b);
      MulAssoc(2, Pow2(a - 1), Pow2(b));
    }
  }

  lemma {:induction false} Pow2Mono(a: nat, b: nat)
    requires a <= b
    ensures Pow2(a) <= Pow2(b)
  {
    if a < b {
      Pow2Mono(a, b - 1);
    }
  }

  lemma MulLe(a: nat, b: nat, c: nat)
    requires a <= b
    ensures a * c <= b * c
  {
  }

  lemma Distrib(d: int, a: int, b: int)
    ensures d * (a - b) == d * a - d * b
  {
  }

  /** Quotient and remainder are the only ones: `x == d * q + r` with `0 <= r < d` fixes both. */
  lemma DivModUnique(x: int, d: int, q: int, r: int)
    requires d > 0 && 0 <= r < d && x == d * q + r
    ensures x / d == q && x % d == r
  {
    var q', r' := x / d, x % d;
    assert x == d * q' + r';
    if q' > q {
      MulLe(1, q' - q, d);
      Distrib(d, q', q);
      assert false;
    } else if q' < q {
      MulLe(1, q - q', d);
      Distrib(d, q, q');
      assert false;
    }
  }

  /** Dividing by `d * p` is dividing by `d`, then by `p`. */
  lemma ModMul(x: nat, d: nat, p: nat)
    requires d > 0 && p > 0
    ensures x % (d * p) == d * ((x / d) % p) + x % d
    ensures x / (d * p) == (x / d) / p
  {
    var q := x / d;
    var a, b := q / p, q % p;
    assert d * q == d * (p * a) + d * b;
    assert d * (p * a) == (d * p) * a;
    MulLe(b, p - 1, d);
    Distrib(d, p, 1);
    DivModUnique(x, d * p, a, d * b + x % d);
  }

  /** `x >> n`: `x` with its `n` low bits shifted out. */
  function Shr(x: nat, n: nat): nat
  {
    if n == 0 then x else Shr(x / 2, n - 1)
  }

  /** The `n` low bits of `x`. */
  function Low(x: nat, n: nat): nat
  {
    if n == 0 then 0 else x % 2 + 2 * Low(x / 2, n - 1)
  }

  /** A number is its `n` low bits plus the rest shifted back up; the low bits are below 2^n. */
  lemma {:induction false} LowShrSplit(x: nat, n: nat)
    ensures Low(x, n) < Pow2(n)
    ensures x == Low(x, n) + Pow2(n) * Shr(x, n)
  {
    if n > 0 {
      LowShrSplit(x / 2, n - 1);
      var p, q := Pow2(n - 1), Shr(x / 2, n - 1);
      assert Pow2(n) * q == 2 * (p * q);
    }
  }

  /** That split is the only one: `r < 2^n` and `x == r + 2^n * q` fix the low bits and the rest. */
  lemma {:induction false} LowShrUnique(x: nat, n: nat, r: nat, q: nat)
    requires r < Pow2(n) && x == r + Pow2(n) * q
    ensures Low(x, n) == r && Shr(x, n) == q
  {
    if n > 0 {
      var p := Pow2(n - 1);
      assert Pow2(n) * q == 2 * (p * q);
      LowShrUnique(x / 2, n - 1, r / 2, q);
    }
  }

  /** `Low` and `Shr` are the remainder and the quotient by 2^n. */
  lemma LowShrAreModDiv(x: nat, n: nat)
    ensures Low(x, n) == x % Pow2(n) && Shr(x, n) == x / Pow2(n)
  {
    LowShrSplit(x, n);
    DivModUnique(x, Pow2(n), Shr(x, n), Low(x, n));
  }

  lemma {:induction false} ShrShrinks(x: nat, n: nat)
    ensures Shr(x, n) <= x
  {
    if n > 0 {
      ShrShrinks(x / 2, n - 1);
    }
  }

  /** `x >> s` is below 2^(k - s) when `x` is below 2^k. */
  lemma {:induction false} ShrBound(x: nat, k: nat, s: nat)
    requires x < Pow2(k) && s <= k
    ensures Shr(x, s) < Pow2(k - s)
  {
    if s > 0 {
      ShrBound(x / 2, k - 1, s - 1);
    }
  }

  /** `a | b << k` is `a + b * 2^k` below 2^(k + n), for `a < 2^k` and `b < 2^n`. */
  lemma PushBound(a: nat, b: nat, k: nat, n: nat)
    requires a < Pow2(k) && b < Pow2(n)
    ensures a + b * Pow2(k) < Pow2(k + n)
  {
    MulLe(b, Pow2(n) - 1, Pow2(k));
    Distrib(Pow2(k), Pow2(n), 1);
    Pow2Add(k, n);
  }

  /** `&` on non-negative integers, bit by bit from the least significant. */
  function BitAnd(x: nat, y: nat): (r: nat)
    ensures r <= x && r <= y
  {
    if x == 0 || y == 0 then 0
    else 2 * BitAnd(x / 2, y / 2) + (if x % 2 == 1 && y % 2 == 1 then 1 else 0)
  }

  /** `|` on non-negative integers, bit by bit from the least significant. */
  function BitOr(x: nat, y: nat): nat
    decreases x + y
  {
    if x == 0 && y == 0 then 0
    else 2 * BitOr(x / 2, y / 2) + (if x % 2 == 1 || y % 2 == 1 then 1 else 0)
  }

  lemma AndOddStep(x: nat, m: nat, p: nat)
    requires x > 0 && p > 0 && m == 2 * p - 1
    ensures BitAnd(x, m) == 2 * BitAnd(x / 2, p - 1) + x % 2
  {
    assert m / 2 == p - 1 && m % 2 == 1;
  }

  lemma {:induction false} LowOfZero(n: nat)
    ensures Low(0, n) == 0
  {
    if n > 0 {
      LowOfZero(n - 1);
    }
  }

  lemma AndLowMaskStep(x: nat, n: nat)
    requires x > 0 && n > 0
    requires BitAnd(x / 2, Pow2(n - 1) - 1) == Low(x / 2, n - 1)
    ensures BitAnd(x, Pow2(n) - 1) == Low(x, n)
  {
    AndOddStep(x, Pow2(n) - 1, Pow2(n - 1));
  }

  /** `x & (2^n - 1)` keeps the `n` low bits of `x`. */
  lemma {:induction false} AndLowMask(x: nat, n: nat)
    ensures BitAnd(x, Pow2(n) - 1) == Low(x, n)
  {
    if n == 0 {
      assert Pow2(0) - 1 == 0;
    } else if x == 0 {
      LowOfZero(n);
    } else {
      AndLowMask(x / 2, n - 1);
      AndLowMaskStep(x, n);
    }
  }

  lemma {:induction false} OrZero(y: nat)
    ensures BitOr(0, y) == y
  {
    if y > 0 {
      OrZero(y / 2);
    }
  }

  /** When `a` has no bit at or above `k`, `a | c << k` is `a + c * 2^k`. */
  lemma {:induction false} DisjointOr(a: nat, c: nat, k: nat)
    requires a < Pow2(k)
    ensures BitOr(a, c * Pow2(k)) == a + c * Pow2(k)
  {
    if k == 0 {
      OrZero(c);
    } else {
      var p := Pow2(k - 1);
      var v := c * Pow2(k);
      assert v == 2 * (c * p);
      if a != 0 || v != 0 {
        assert v / 2 == c * p && v % 2 == 0;
        DisjointOr(a / 2, c, k - 1);
      }
    }
  }

  // ---------------------------------------------------------------------------
  // The mask tables

  /** Entry `i` of `fse_mask_lsb64`'s table `MTABLE`, looked up by halving the index range. */
  function MTable64(i: nat): nat
    requires i <= 64
  {
    if i <= 32 then (
      if i <= 16 then (
        if i <= 8 then (
          if i <= 4 then (
            if i <= 2 then (
              if i <= 1 then (
                if i <= 0 then (
                  0x0000000000000000
                ) else (
                  0x0000000000000001
                )
              ) else (
                0x0000000000000003
              )
            ) else (
              if i <= 3 then (
                0x0000000000000007
              ) else (
                0x000000000000000f
              )
            )
          ) else (
            if i <= 6 then (
              if i <= 5 then (
                0x000000000000001f
              ) else (
                0x000000000000003f
              )
            ) else (
              if i <= 7 then (
                0x000000000000007f
              ) else (
                0x00000000000000ff
              )
            )
          )
        ) else (
          if i <= 12 then (
            if i <= 10 then (
              if i <= 9 then (
                0x00000000000001ff
              ) else (
                0x00000000000003ff
              )
            ) else (
              if i <= 11 then (
                0x00000000000007ff
              ) else (
                0x0000000000000fff
              )
            )
          ) else (
            if i <= 14 then (
              if i <= 13 then (
                0x0000000000001fff
              ) else (
                0x0000000000003fff
              )
            ) else (
              if i <= 15 then (
                0x0000000000007fff
              ) else (
                0x000000000000ffff
              )
            )
          )
        )
      ) else (
        if i <= 24 then (
          if i <= 20 then (
            if i <= 18 then (
              if i <= 17 then (
                0x000000000001ffff
              ) else (
                0x000000000003ffff
              )
            ) else (
              if i <= 19 then (
                0x000000000007ffff
              ) else (
                0x00000000000fffff
              )
            )
          ) else (
            if i <= 22 then (
              if i <= 21 then (
                0x00000000001fffff
              ) else (
                0x00000000003fffff
              )
            ) else (
              if i <= 23 then (
                0x00000000007fffff
              ) else (
                0x0000000000ffffff
              )
            )
          )
        ) else (
          if i <= 28 then (
            if i <= 26 then (
              if i <= 25 then (
                0x0000000001ffffff
              ) else (
                0x0000000003ffffff
              )
            ) else (
              if i <= 27 then (
                0x0000000007ffffff
              ) else (
                0x000000000fffffff
              )
            )
          ) else (
            if i <= 30 then (
              if i <= 29 then (
                0x000000001fffffff
              ) else (
                0x000000003fffffff
              )
            ) else (
              if i <= 31 then (
                0x000000007fffffff
              ) else (
                0x00000000ffffffff
              )
            )
          )
        )
      )
    ) else (
      if i <= 48 then (
        if i <= 40 then (
          if i <= 36 then (
            if i <= 34 then (
              if i <= 33 then (
                0x00000001ffffffff
              ) else (
                0x00000003ffffffff
              )
            ) else (
              if i <= 35 then (
                0x00000007ffffffff
              ) else (
                0x0000000fffffffff
              )
            )
          ) else (
            if i <= 38 then (
              if i <= 37 then (
                0x0000001fffffffff
              ) else (
                0x0000003fffffffff
              )
            ) else (
              if i <= 39 then (
                0x0000007fffffffff
              ) else (
                0x000000ffffffffff
              )
            )
          )
        ) else (
          if i <= 44 then (
            if i <= 42 then (
              if i <= 41 then (
                0x000001ffffffffff
              ) else (
                0x000003ffffffffff
              )
            ) else (
              if i <= 43 then (
                0x000007ffffffffff
              ) else (
                0x00000fffffffffff
              )
            )
          ) else (
            if i <= 46 then (
              if i <= 45 then (
                0x00001fffffffffff
              ) else (
                0x00003fffffffffff
              )
            ) else (
              if i <= 47 then (
                0x00007fffffffffff
              ) else (
                0x0000ffffffffffff
              )
            )
          )
        )
      ) else (
        if i <= 56 then (
          if i <= 52 then (
            if i <= 50 then (
              if i <= 49 then (
                0x0001ffffffffffff
              ) else (
                0x0003ffffffffffff
              )
            ) else (
              if i <= 51 then (
                0x0007ffffffffffff
              ) else (
                0x000fffffffffffff
              )
            )
          ) else (
            if i <= 54 then (
              if i <= 53 then (
                0x001fffffffffffff
              ) else (
                0x003fffffffffffff
              )
            ) else (
              if i <= 55 then (
                0x007fffffffffffff
              ) else (
                0x00ffffffffffffff
              )
            )
          )
        ) else (
          if i <= 60 then (
            if i <= 58 then (
              if i <= 57 then (
                0x01ffffffffffffff
              ) else (
                0x03ffffffffffffff
              )
            ) else (
              if i <= 59 then (
                0x07ffffffffffffff
              ) else (
                0x0fffffffffffffff
              )
            )
          ) else (
            if i <= 62 then (
              if i <= 61 then (
                0x1fffffffffffffff
              ) else (
                0x3fffffffffffffff
              )
            ) else (
              if i <= 63 then (
                0x7fffffffffffffff
              ) else (
                0xffffffffffffffff
              )
            )
          )
        )
      )
    )
  }

  /** Entry `i` of `fse_mask_lsb32`'s table `MTABLE`, looked up by halving the index range. */
  function MTable32(i: nat): nat
    requires i <= 32
  {
    if i <= 16 then (
      if i <= 8 then (
        if i <= 4 then (
          if i <= 2 then (
            if i <= 1 then (
              if i <= 0 then (
                0x00000000
              ) else (
                0x00000001
              )
            ) else (
              0x00000003
            )
          ) else (
            if i <= 3 then (
              0x00000007
            ) else (
              0x0000000f
            )
          )
        ) else (
          if i <= 6 then (
            if i <= 5 then (
              0x0000001f
            ) else (
              0x0000003f
            )
          ) else (
            if i <= 7 then (
              0x0000007f
            ) else (
              0x000000ff
            )
          )
        )
      ) else (
        if i <= 12 then (
          if i <= 10 then (
            if i <= 9 then (
              0x000001ff
            ) else (
              0x000003ff
            )
          ) else (
            if i <= 11 then (
              0x000007ff
            ) else (
              0x00000fff
            )
          )
        ) else (
          if i <= 14 then (
            if i <= 13 then (
              0x00001fff
            ) else (
              0x00003fff
            )
          ) else (
            if i <= 15 then (
              0x00007fff
            ) else (
              0x0000ffff
            )
          )
        )
      )
    ) else (
      if i <= 24 then (
        if i <= 20 then (
          if i <= 18 then (
            if i <= 17 then (
              0x0001ffff
            ) else (
              0x0003ffff
            )
          ) else (
            if i <= 19 then (
              0x0007ffff
            ) else (
              0x000fffff
            )
          )
        ) else (
          if i <= 22 then (
            if i <= 21 then (
              0x001fffff
            ) else (
              0x003fffff
            )
          ) else (
            if i <= 23 then (
              0x007fffff
            ) else (
              0x00ffffff
            )
          )
        )
      ) else (
        if i <= 28 then (
          if i <= 26 then (
            if i <= 25 then (
              0x01ffffff
            ) else (
              0x03ffffff
            )
          ) else (
            if i <= 27 then (
              0x07ffffff
            ) else (
              0x0fffffff
            )
          )
        ) else (
          if i <= 30 then (
            if i <= 29 then (
              0x1fffffff
            ) else (
              0x3fffffff
            )
          ) else (
            if i <= 31 then (
              0x7fffffff
            ) else (
              0xffffffff
            )
          )
        )
      )
    )
  }

  lemma MTable64GrowsLow(i: nat)
    requires 1 <= i <= 32
    ensures MTable64(i) == 2 * MTable64(i - 1) + 1
  {
    if i == 1 {
    } else if i == 2 {
    } else if i == 3 {
    } else if i == 4 {
    } else if i == 5 {
    } else if i == 6 {
    } else if i == 7 {
    } else if i == 8 {
    } else if i == 9 {
    } else if i == 10 {
    } else if i == 11 {
    } else if i == 12 {
    } else if i == 13 {
    } else if i == 14 {
    } else if i == 15 {
    } else if i == 16 {
    } else if i == 17 {
    } else if i == 18 {
    } else if i == 19 {
    } else if i == 20 {
    } else if i == 21 {
    } else if i == 22 {
    } else if i == 23 {
    } else if i == 24 {
    } else if i == 25 {
    } else if i == 26 {
    } else if i == 27 {
    } else if i == 28 {
    } else if i == 29 {
    } else if i == 30 {
    } else if i == 31 {
    } else {
    }
  }

  lemma MTable64GrowsHigh(i: nat)
    requires 33 <= i <= 64
    ensures MTable64(i) == 2 * MTable64(i - 1) + 1
  {
    if i == 33 {
    } else if i == 34 {
    } else if i == 35 {
    } else if i == 36 {
    } else if i == 37 {
    } else if i == 38 {
    } else if i == 39 {
    } else if i == 40 {
    } else if i == 41 {
    } else if i == 42 {
    } else if i == 43 {
    } else if i == 44 {
    } else if i == 45 {
    } else if i == 46 {
    } else if i == 47 {
    } else if i == 48 {
    } else if i == 49 {
    } else if i == 50 {
    } else if i == 51 {
    } else if i == 52 {
    } else if i == 53 {
    } else if i == 54 {
    } else if i == 55 {
    } else if i == 56 {
    } else if i == 57 {
    } else if i == 58 {
    } else if i == 59 {
    } else if i == 60 {
    } else if i == 61 {
    } else if i == 62 {
    } else if i == 63 {
    } else {
    }
  }

  lemma MTable32Grows(i: nat)
    requires 1 <= i <= 32
    ensures MTable32(i) == 2 * MTable32(i - 1) + 1
  {
    if i == 1 {
    } else if i == 2 {
    } else if i == 3 {
    } else if i == 4 {
    } else if i == 5 {
    } else if i == 6 {
    } else if i == 7 {
    } else if i == 8 {
    } else if i == 9 {
    } else if i == 10 {
    } else if i == 11 {
    } else if i == 12 {
    } else if i == 13 {
    } else if i == 14 {
    } else if i == 15 {
    } else if i == 16 {
    } else if i == 17 {
    } else if i == 18 {
    } else if i == 19 {
    } else if i == 20 {
    } else if i == 21 {
    } else if i == 22 {
    } else if i == 23 {
    } else if i == 24 {
    } else if i == 25 {
    } else if i == 26 {
    } else if i == 27 {
    } else if i == 28 {
    } else if i == 29 {
    } else if i == 30 {
    } else if i == 31 {
    } else {
    }
  }

  /** Entry `i` of the 64-bit table is 2^i - 1, the mask of the `i` low bits. */
  lemma {:induction false} MTable64IsLowMask(i: nat)
    requires i <= 64
    ensures MTable64(i) == Pow2(i) - 1
  {
    if i > 0 {
      MTable64IsLowMask(i - 1);
      if i <= 32 {
        MTable64GrowsLow(i);
      } else {
        MTable64GrowsHigh(i);
      }
    }
  }

  /** Entry `i` of the 32-bit table is 2^i - 1, the mask of the `i` low bits. */
  lemma {:induction false} MTable32IsLowMask(i: nat)
    requires i <= 32
    ensures MTable32(i) == Pow2(i) - 1
  {
    if i > 0 {
      MTable32IsLowMask(i - 1);
      MTable32Grows(i);
    }
  }

  lemma Pow2Of64()
    ensures Pow2(64) == 0x1_0000_0000_0000_0000
  {
    MTable64IsLowMask(64);
  }

  lemma Pow2Of32()
    ensures Pow2(32) == 0x1_0000_0000
  {
    MTable32IsLowMask(32);
  }

  // ---------------------------------------------------------------------------
  // Masks and bit-field extraction

  /**
   * `fse_mask_lsb64`: `x & MTABLE[nbits]`, which is `x & (2^nbits - 1)`,
   * the `nbits` low bits of `x`. An `nbits` outside 0..64 indexes past the
   * table, a panic (`None`).
   */
  function MaskLsb64(x: u64, nbits: int): (r: Option<u64>)
    ensures r.Some? <==> 0 <= nbits <= 64
    ensures r.Some? ==> r.value == BitAnd(x, Pow2(nbits) - 1) && r.value == Low(x, nbits)
  {
    if 0 <= nbits <= 64 then
      MTable64IsLowMask(nbits);
      AndLowMask(x, nbits);
      Some(BitAnd(x, MTable64(nbits)))
    else
      None
  }

  /** `fse_mask_lsb32`: as `MaskLsb64` on 32-bit words, with a table of 33 entries. */
  function MaskLsb32(x: u32, nbits: nat): (r: Option<u32>)
    ensures r.Some? <==> nbits <= 32
    ensures r.Some? ==> r.value == BitAnd(x, Pow2(nbits) - 1) && r.value == Low(x, nbits)
  {
    if nbits <= 32 then
      MTable32IsLowMask(nbits);
      AndLowMask(x, nbits);
      Some(BitAnd(x, MTable32(nbits)))
    else
      None
  }

  /**
   * `fse_extract_bits64`: the `nbits` bits of `x` from bit `start` up,
   * `x >> start` masked to `nbits` bits. A shift by 64 or more overflows and
   * an `nbits` past 64 indexes past the table: both panic (`None`).
   */
  function ExtractBits64(x: u64, start: nat, nbits: nat): (r: Option<u64>)
    ensures r.Some? <==> start < 64 && nbits <= 64
    ensures r.Some? ==> r.value == Low(Shr(x, start), nbits)
  {
    if 64 <= start then
      None
    else
      ShrShrinks(x, start);
      MaskLsb64(Shr(x, start), nbits)
  }

  /** `fse_extract_bits32`: as `ExtractBits64` on 32-bit words. */
  function ExtractBits32(x: u32, start: nat, nbits: nat): (r: Option<u32>)
    ensures r.Some? <==> start < 32 && nbits <= 32
    ensures r.Some? ==> r.value == Low(Shr(x, start), nbits)
  {
    if 32 <= start then
      None
    else
      ShrShrinks(x, start);
      MaskLsb32(Shr(x, start), nbits)
  }

  /** An extracted field fits in its `nbits` bits and is `(x / 2^start) % 2^nbits`. */
  lemma ExtractBitsFit(x: u64, start: nat, nbits: nat)
    requires start < 64 && nbits <= 64
    ensures ExtractBits64(x, start, nbits).value < Pow2(nbits)
    ensures ExtractBits64(x, start, nbits).value == (x / Pow2(start)) % Pow2(nbits)
  {
    LowShrSplit(Shr(x, start), nbits);
    LowShrAreModDiv(x, start);
    LowShrAreModDiv(Shr(x, start), nbits);
  }

  /** On a 32-bit word, the 32-bit extraction agrees with the 64-bit one. */
  lemma Extract32Agrees(x: u32, start: nat, nbits: nat)
    requires start < 32 && nbits <= 32
    ensures ExtractBits64(x, start, nbits).Some? && ExtractBits32(x, start, nbits).Some?
    ensures ExtractBits64(x, start, nbits).value == ExtractBits32(x, start, nbits).value
  {
  }

  // ---------------------------------------------------------------------------
  // Little-endian bytes and rotation

  /** `to_le_bytes` of the `k` low bytes of `x`: least significant byte first. */
  function LeBytes(x: nat, k: nat): (r: seq<byte>)
    ensures |r| == k
  {
    if k == 0 then [] else [x % 0x100] + LeBytes(x / 0x100, k - 1)
  }

  /** The number whose little-endian bytes are `s`. */
  function FromLe(s: seq<byte>): nat
  {
    if s == [] then 0 else s[0] + 0x100 * FromLe(s[1..])
  }

  /** The `k` little-endian bytes of `x` are `x` modulo 2^(8k). */
  lemma {:induction false} LeBytesValue(x: nat, k: nat)
    ensures FromLe(LeBytes(x, k)) == x % Pow2(8 * k)
  {
    if k == 0 {
      assert Pow2(0) == 1;
    } else {
      var p := Pow2(8 * (k - 1));
      assert Pow2(8) == 0x100;
      Pow2Add(8, 8 * (k - 1));
      LeBytesValue(x / 0x100, k - 1);
      ModMul(x, 0x100, p);
      assert LeBytes(x, k)[1..] == LeBytes(x / 0x100, k - 1);
    }
  }

  /** `u64::to_le_bytes` and `u64::from_le_bytes` are inverse. */
  lemma LeBytesRoundTrip(x: u64)
    ensures FromLe(LeBytes(x, 8)) == x
  {
    LeBytesValue(x, 8);
    Pow2Of64();
    DivModUnique(x, Pow2(64), 0, x);
  }

  /** The first `m` of `k` little-endian bytes are the `m`-byte encoding. */
  lemma {:induction false} LeBytesPrefix(x: nat, k: nat, m: nat)
    requires m <= k
    ensures LeBytes(x, k)[..m] == LeBytes(x, m)
  {
    if m > 0 {
      LeBytesPrefix(x / 0x100, k - 1, m - 1);
      assert LeBytes(x, k)[..m] == [x % 0x100] + LeBytes(x / 0x100, k - 1)[..m - 1];
    }
  }

  /** `slice::rotate_left(mid)`: the first `mid` elements move to the end. */
  function Rotated<T>(s: seq<T>, mid: nat): seq<T>
    requires mid <= |s|
  {
    s[mid..] + s[..mid]
  }

  /** After rotating left by `mid`, element `i` is the one that was `mid` places further on, wrapping. */
  lemma RotatedAt<T>(s: seq<T>, mid: nat, i: nat)
    requires mid <= |s| && i < |s|
    ensures Rotated(s, mid)[i] == s[(i + mid) % |s|]
  {
    if i + mid < |s| {
      DivModUnique(i + mid, |s|, 0, i + mid);
    } else {
      DivModUnique(i + mid, |s|, 1, i + mid - |s|);
    }
  }

  /** Rotating back by the rest of the length undoes a rotation. */
  lemma RotatedInverse<T>(s: seq<T>, mid: nat)
    requires mid <= |s|
    ensures Rotated(Rotated(s, mid), |s| - mid) == s
  {
    var r := Rotated(s, mid);
    assert r[|s| - mid..] == s[..mid];
    assert r[..|s| - mid] == s[mid..];
  }

  /** `buf.rotate_left(mid)`, in place. */
  method RotateLeft(buf: array<byte>, mid: nat)
    requires mid <= buf.Length
    modifies buf
    ensures buf[..] == Rotated(old(buf[..]), mid)
  {
    var s := buf[..];
    var n := buf.Length;
    for i := 0 to n
      invariant buf[..i] == Rotated(s, mid)[..i]
      invariant buf[i..] == s[i..]
    {
      buf[i] := if i + mid < n then s[i + mid] else s[i + mid - n];
      assert buf[..i + 1] == buf[..i] + [buf[i]];
    }
  }

  /** `buf[..8].copy_from_slice(&x.to_le_bytes())`. */
  method StoreLe(buf: array<byte>, x: u64)
    requires buf.Length >= 8
    modifies buf
    ensures buf[..] == LeBytes(x, 8) + old(buf[8..])
  {
    var bytes := LeBytes(x, 8);
    for i := 0 to 8
      invariant buf[..i] == bytes[..i]
      invariant buf[8..] == old(buf[8..])
    {
      buf[i] := bytes[i];
      assert buf[..i + 1] == buf[..i] + [buf[i]];
    }
    assert buf[..] == buf[..8] + buf[8..];
  }

  /**
   * The `m` bytes that a rotation by `m` moves to the end of a buffer
   * starting with `to_le_bytes(x)` encode the `8m` low bits of `x`; with the
   * rest of `x` shifted back up they give back `x`.
   */
  lemma RotatedOutBytes(s: seq<byte>, x: u64, m: nat)
    requires |s| >= 8 && s[..8] == LeBytes(x, 8) && m <= 8
    ensures Rotated(s, m)[|s| - m..] == LeBytes(x, m)
    ensures FromLe(LeBytes(x, m)) == Low(x, 8 * m)
    ensures x == FromLe(LeBytes(x, m)) + Pow2(8 * m) * Shr(x, 8 * m)
  {
    assert Rotated(s, m)[|s| - m..] == s[..m] == LeBytes(x, 8)[..m];
    LeBytesPrefix(x, 8, m);
    LeBytesValue(x, m);
    LowShrAreModDiv(x, 8 * m);
    LowShrSplit(x, 8 * m);
  }

  // ---------------------------------------------------------------------------
  // The 64-bit output stream

  /** `v & -8` on a two's-complement integer: `v` rounded down to a multiple of 8. */
  function AlignDown8(v: int): (r: int)
    ensures r % 8 == 0 && r <= v < r + 8
  {
    v - v % 8
  }

  /**
   * What `out_push` asserts of the stream: `accum_nbits` is in 0..64 and
   * `accum` has no bit at or above `accum_nbits` (`accum >> accum_nbits == 0`
   * unless `accum_nbits` is 64).
   */
  ghost predicate StreamInvariant(accum: u64, nbits: int)
  {
    0 <= nbits <= 64 && accum < Pow2(nbits)
  }

  /** `b << s` on a `u64`: bits shifted past bit 63 are dropped. */
  function Shl64(b: u64, s: nat): u64
    requires s < 64
  {
    (b * Pow2(s)) % 0x1_0000_0000_0000_0000
  }

  /** `accum | b << k` is `accum + b * 2^k`, below 2^(k + n): no bit is lost or shared. */
  lemma PushFits(accum: u64, b: u64, k: nat, n: nat)
    requires accum < Pow2(k) && b < Pow2(n) && k < 64 && k + n <= 64
    ensures Shl64(b, k) == b * Pow2(k)
    ensures BitOr(accum, Shl64(b, k)) == accum + b * Pow2(k)
    ensures accum + b * Pow2(k) < Pow2(k + n) <= 0x1_0000_0000_0000_0000
  {
    PushBound(accum, b, k, n);
    Pow2Mono(k + n, 64);
    Pow2Of64();
    DivModUnique(b * Pow2(k), 0x1_0000_0000_0000_0000, 0, b * Pow2(k));
    DisjointOr(accum, b, k);
  }

  /** A pushed field reads back with `fse_extract_bits64`, and the bits below it with `fse_mask_lsb64`. */
  lemma PushReadBack(a: u64, b: u64, k: nat, n: nat)
    requires a < Pow2(k) && b < Pow2(n) && k < 64 && k + n <= 64
    ensures a + b * Pow2(k) < 0x1_0000_0000_0000_0000
    ensures ExtractBits64(a + b * Pow2(k), k, n) == Some(b)
    ensures MaskLsb64(a + b * Pow2(k), k) == Some(a)
  {
    PushFits(a, b, k, n);
    var x := a + b * Pow2(k);
    assert x == a + Pow2(k) * b;
    LowShrUnique(x, k, a, b);
    LowShrUnique(b, n, b, 0);
  }

  /**
   * The accumulator after `out_flush` exactly as written: `accum >> nbits`
   * with `nbits` the bit count rounded down to a multiple of 8. A shift by
   * 64 overflows, which a debug build reports as a panic (`None`).
   */
  function FlushedAccumAsWritten(accum: u64, accumNbits: int): (r: Option<u64>)
    requires 0 <= accumNbits
    ensures r.None? <==> accumNbits >= 64
  {
    var nbits := AlignDown8(accumNbits);
    if nbits < 64 then
      ShrShrinks(accum, nbits);
      Some(Shr(accum, nbits))
    else
      None
  }

  /**
   * A full accumulator, which `out_push`'s own assertion allows, cannot be
   * flushed as written: 64 one-bits pushed into a new stream keep the
   * stream's invariant, and the flush then shifts by 64.
   */
  lemma FlushOfFullAccumulatorFails()
    ensures StreamInvariant(0, 0) && 0xffff_ffff_ffff_ffff < Pow2(64)
    ensures StreamInvariant(0xffff_ffff_ffff_ffff, 64)
    ensures FlushedAccumAsWritten(0xffff_ffff_ffff_ffff, 64).None?
  {
    Pow2Of64();
  }

  class FseOutStream64 {
    var accum: u64
    var accumNbits: int

    ghost predicate Valid()
      reads this
    {
      StreamInvariant(accum, accumNbits)
    }

    /** `new`: an empty accumulator. */
    constructor ()
      ensures Valid() && accum == 0 && accumNbits == 0
    {
      accum, accumNbits := 0, 0;
    }

    /**
     * `out_push`: the `n` bits of `b` go above the `accum_nbits` bits held,
     * and the stream's assertions hold afterwards. `b` must fit in `n` bits
     * and the total in 64; the shift `b << accum_nbits` needs
     * `accum_nbits < 64`.
     */
    method OutPush(n: int, b: u64)
      requires Valid() && 0 <= n && accumNbits + n <= 64 && accumNbits < 64 && b < Pow2(n)
      modifies this
      ensures Valid()
      ensures accumNbits == old(accumNbits) + n
      ensures accum == old(accum) + b * Pow2(old(accumNbits))
    {
      PushFits(accum, b, accumNbits, n);
      accum := BitOr(accum, Shl64(b, accumNbits));
      accumNbits := accumNbits + n;
    }

    /**
     * `out_flush`: the 8 accumulator bytes go to the front of `buf`, which
     * is then rotated left by the number of whole bytes held; those bits
     * leave the accumulator and fewer than 8 stay. A full accumulator
     * flushes to 0 here, where the source's shift by 64 overflows.
     */
    method OutFlush(buf: array<byte>)
      requires Valid() && buf.Length >= 8
      modifies this, buf
      ensures Valid() && 0 <= accumNbits < 8
      ensures var nbits := AlignDown8(old(accumNbits));
        && accumNbits == old(accumNbits) - nbits
        && accum == Shr(old(accum), nbits)
        && buf[..] == Rotated(LeBytes(old(accum), 8) + old(buf[8..]), nbits / 8)
    {
      var nbits := AlignDown8(accumNbits);
      StoreLe(buf, accum);
      RotateLeft(buf, nbits / 8);
      ShrShrinks(accum, nbits);
      ShrBound(accum, accumNbits, nbits);
      accum := Shr(accum, nbits);
      accumNbits := accumNbits - nbits;
    }

    /**
     * `out_finish`: as `out_flush`, with the bit count rounded up to whole
     * bytes; the accumulator is emptied and `accum_nbits` is left in -7..0,
     * as the source asserts.
     */
    method OutFinish(buf: array<byte>)
      requires Valid() && buf.Length >= 8
      modifies this, buf
      ensures accum == 0 && -7 <= accumNbits <= 0
      ensures var nbits := AlignDown8(old(accumNbits) + 7);
        && accumNbits == old(accumNbits) - nbits
        && buf[..] == Rotated(LeBytes(old(accum), 8) + old(buf[8..]), nbits / 8)
    {
      var nbits := AlignDown8(accumNbits + 7);
      StoreLe(buf, accum);
      RotateLeft(buf, nbits / 8);
      accum := 0;
      accumNbits := accumNbits - nbits;
    }
  }

  /**
   * The bytes `out_flush` rotates to the end of the buffer hold exactly the
   * bits it removes: read back and put under the new accumulator, they give
   * the old accumulator.
   */
  lemma FlushWritesRemovedBits(s: seq<byte>, accum: u64, accumNbits: int)
    requires StreamInvariant(accum, accumNbits) && |s| >= 8 && s[..8] == LeBytes(accum, 8)
    ensures var nbits := AlignDown8(accumNbits);
      && nbits / 8 <= 8
      && accum == FromLe(Rotated(s, nbits / 8)[|s| - nbits / 8..]) + Pow2(nbits) * Shr(accum, nbits)
  {
    var nbits := AlignDown8(accumNbits);
    var m := nbits / 8;
    assert nbits == 8 * m;
    RotatedOutBytes(s, accum, m);
  }

  /** The bytes `out_finish` rotates to the end of the buffer hold every bit that was in the accumulator. */
  lemma FinishWritesAllBits(s: seq<byte>, accum: u64, accumNbits: int)
    requires StreamInvariant(accum, accumNbits) && |s| >= 8 && s[..8] == LeBytes(accum, 8)
    ensures var m := AlignDown8(accumNbits + 7) / 8;
      m <= 8 && FromLe(Rotated(s, m)[|s| - m..]) == accum
  {
    var nbits := AlignDown8(accumNbits + 7);
    var m := nbits / 8;
    assert nbits == 8 * m;
    RotatedOutBytes(s, accum, m);
    Pow2Mono(accumNbits, nbits);
    LowShrUnique(accum, 8 * m, accum, 0);
  }
}
