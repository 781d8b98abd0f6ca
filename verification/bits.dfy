/**
 * Bit-level helpers shared by the decoder and the ALU: powers of two,
 * bit-field extraction, sign extension, the two's-complement views of
 * 32- and 64-bit words (Rust's `as` casts) and the bitwise operators.
 *
 * Bit fields are computed arithmetically, `(x >> lo) & (2^len - 1)` being
 * `(x / 2^lo) % 2^len`, so that facts about decoded fields are linear
 * integer arithmetic. The bitwise operators are defined one bit at a
 * time on the same integers.
 */
module Bits {
  import opened Types

  const TWO_32: int := 0x1_0000_0000
  const TWO_64: int := 0x1_0000_0000_0000_0000

  /** 2^n for the bit positions of a 64-bit word, as a balanced decision
      on n: a literal position evaluates to a literal, and a symbolic one
      costs the solver a handful of case splits rather than one per entry. */
  function Pow2(n: nat): (r: nat)
    requires n <= 64
    ensures r >= 1
  {
    if n < 32 then
      if n < 16 then
        if n < 8 then
          if n < 4 then
            if n < 2 then
              if n < 1 then 0x1 else 0x2
            else
              if n < 3 then 0x4 else 0x8
          else
            if n < 6 then
              if n < 5 then 0x10 else 0x20
            else
              if n < 7 then 0x40 else 0x80
        else
          if n < 12 then
            if n < 10 then
              if n < 9 then 0x100 else 0x200
            else
              if n < 11 then 0x400 else 0x800
          else
            if n < 14 then
              if n < 13 then 0x1000 else 0x2000
            else
              if n < 15 then 0x4000 else 0x8000
      else
        if n < 24 then
          if n < 20 then
            if n < 18 then
              if n < 17 then 0x1_0000 else 0x2_0000
            else
              if n < 19 then 0x4_0000 else 0x8_0000
          else
            if n < 22 then
              if n < 21 then 0x10_0000 else 0x20_0000
            else
              if n < 23 then 0x40_0000 else 0x80_0000
        else
          if n < 28 then
            if n < 26 then
              if n < 25 then 0x100_0000 else 0x200_0000
            else
              if n < 27 then 0x400_0000 else 0x800_0000
          else
            if n < 30 then
              if n < 29 then 0x1000_0000 else 0x2000_0000
            else
              if n < 31 then 0x4000_0000 else 0x8000_0000
    else
      if n < 48 then
        if n < 40 then
          if n < 36 then
            if n < 34 then
              if n < 33 then 0x1_0000_0000 else 0x2_0000_0000
            else
              if n < 35 then 0x4_0000_0000 else 0x8_0000_0000
          else
            if n < 38 then
              if n < 37 then 0x10_0000_0000 else 0x20_0000_0000
            else
              if n < 39 then 0x40_0000_0000 else 0x80_0000_0000
        else
          if n < 44 then
            if n < 42 then
              if n < 41 then 0x100_0000_0000 else 0x200_0000_0000
            else
              if n < 43 then 0x400_0000_0000 else 0x800_0000_0000
          else
            if n < 46 then
              if n < 45 then 0x1000_0000_0000 else 0x2000_0000_0000
            else
              if n < 47 then 0x4000_0000_0000 else 0x8000_0000_0000
      else
        if n < 56 then
          if n < 52 then
            if n < 50 then
              if n < 49 then 0x1_0000_0000_0000 else 0x2_0000_0000_0000
            else
              if n < 51 then 0x4_0000_0000_0000 else 0x8_0000_0000_0000
          else
            if n < 54 then
              if n < 53 then 0x10_0000_0000_0000 else 0x20_0000_0000_0000
            else
              if n < 55 then 0x40_0000_0000_0000 else 0x80_0000_0000_0000
        else
          if n < 60 then
            if n < 58 then
              if n < 57 then 0x100_0000_0000_0000 else 0x200_0000_0000_0000
            else
              if n < 59 then 0x400_0000_0000_0000 else 0x800_0000_0000_0000
          else
            if n < 62 then
              if n < 61 then 0x1000_0000_0000_0000 else 0x2000_0000_0000_0000
            else
              if n < 63 then
                0x4000_0000_0000_0000
              else
                if n < 64 then 0x8000_0000_0000_0000 else 0x1_0000_0000_0000_0000
  }

  /** Each power is twice the one before it. */
  lemma Pow2Double(n: nat)
    requires 1 <= n <= 64
    ensures Pow2(n) == 2 * Pow2(n - 1)
  {
  }

  /** Bits [lo, lo + len) of x, i.e. `(x >> lo) & (2^len - 1)`. */
  function Field(x: nat, lo: nat, len: nat): (r: nat)
    requires lo <= 64 && len <= 64
    ensures r < Pow2(len)
  {
    (x / Pow2(lo)) % Pow2(len)
  }

  /** Two's-complement reading of a `width`-bit pattern, which is what the
      source's shift-left-then-arithmetic-shift-right pairs compute. */
  function SignExtend(v: nat, width: nat): (r: int)
    requires 1 <= width <= 64 && v < Pow2(width)
    ensures -(Pow2(width - 1) as int) <= r < Pow2(width - 1)
    ensures r == v || r == v - Pow2(width)
  {
    Pow2Double(width);
    if v < Pow2(width - 1) then v else v - Pow2(width)
  }

  /** `x as i64` for a u64. */
  function Signed64(x: u64): (r: i64)
    ensures (r - x) % TWO_64 == 0
  {
    if x < 0x8000_0000_0000_0000 then x else x - TWO_64
  }

  /** `x as u64` for any integer already reduced to i64/i128 arithmetic:
      the value modulo 2^64 (wrap-around). */
  function ToU64(x: int): u64 {
    x % TWO_64
  }

  /** `x as u32`: the low 32 bits. */
  function ToU32(x: int): u32 {
    x % TWO_32
  }

  /** `x as i32` for a u32. */
  function Signed32(x: u32): (r: i32)
    ensures (r - x) % TWO_32 == 0
  {
    if x < 0x8000_0000 then x else x - TWO_32
  }

  /** `x as i32 as i64 as u64`: sign extension of a 32-bit result to 64 bits. */
  function SignExtend32(x: i32): u64 {
    ToU64(x)
  }

  /** A 64-bit value whose bits 63:31 are all equal, i.e. the sign
      extension of its own low 32 bits. */
  predicate IsSignExtended32(v: u64) {
    v < 0x8000_0000 || v >= TWO_64 - 0x8000_0000
  }

  /** The low n bits of a AND b, combined one bit at a time. */
  function AndBits(a: nat, b: nat, n: nat): (r: nat)
    requires n <= 64
    ensures r < Pow2(n)
  {
    if n < 1 then 0
    else
      Pow2Double(n);
      (if a % 2 == 1 && b % 2 == 1 then 1 else 0) + 2 * AndBits(a / 2, b / 2, n - 1)
  }

  /** The low n bits of a OR b, combined one bit at a time. */
  function OrBits(a: nat, b: nat, n: nat): (r: nat)
    requires n <= 64
    ensures r < Pow2(n)
  {
    if n < 1 then 0
    else
      Pow2Double(n);
      (if a % 2 == 1 || b % 2 == 1 then 1 else 0) + 2 * OrBits(a / 2, b / 2, n - 1)
  }

  /** The low n bits of a XOR b, combined one bit at a time. */
  function XorBits(a: nat, b: nat, n: nat): (r: nat)
    requires n <= 64
    ensures r < Pow2(n)
  {
    if n < 1 then 0
    else
      Pow2Double(n);
      (if a % 2 != b % 2 then 1 else 0) + 2 * XorBits(a / 2, b / 2, n - 1)
  }

  /** Rust's `a & b` on u64. */
  function And64(a: u64, b: u64): u64 {
    AndBits(a, b, 64)
  }

  /** Rust's `a | b` on u64. */
  function Or64(a: u64, b: u64): u64 {
    OrBits(a, b, 64)
  }

  /** Rust's `a ^ b` on u64. */
  function Xor64(a: u64, b: u64): u64 {
    XorBits(a, b, 64)
  }

  /** Rust's `!a` on u64: flipping all 64 bits subtracts a from 2^64 - 1. */
  function Not64(a: u64): u64 {
    TWO_64 - 1 - a
  }

  /** `a << n` on u64 (bits shifted out are lost); Rust rejects n >= 64. */
  function Shl64(a: u64, n: nat): u64
    requires n < 64
  {
    (a * Pow2(n)) % TWO_64
  }

  /** `a >> n` on u64 (logical). */
  function Shr64(a: u64, n: nat): u64
    requires n < 64
  {
    a / Pow2(n)
  }

  /** `((a as i64) >> n) as u64`: arithmetic shift, i.e. floor division. */
  function Sra64(a: u64, n: nat): u64
    requires n < 64
  {
    ToU64(Signed64(a) / Pow2(n))
  }

  /** `a << n` on i32 (bits shifted out are lost). */
  function Shl32(a: i32, n: nat): i32
    requires n < 32
  {
    Signed32((ToU32(a) * Pow2(n)) % TWO_32)
  }

  /** `((a as u32) >> n) as i32`: logical shift of the 32-bit pattern. */
  function Shr32(a: i32, n: nat): i32
    requires n < 32
  {
    Signed32(ToU32(a) / Pow2(n))
  }

  /** `a >> n` on i32: arithmetic shift. */
  function Sra32(a: i32, n: nat): i32
    requires n < 32
  {
    a / Pow2(n)
  }

  /** AND with 2^k - 1 keeps the low k bits. */
  lemma {:induction false} AndLowMask(a: nat, k: nat, n: nat)
    requires k <= n <= 64
    ensures AndBits(a, Pow2(k) - 1, n) == a % Pow2(k)
  {
    if k == 0 {
      AndZero(a, n);
    } else {
      var m := Pow2(k - 1);
      Pow2Double(k);
      AndLowMask(a / 2, k - 1, n - 1);
      assert (Pow2(k) - 1) % 2 == 1 && (Pow2(k) - 1) / 2 == m - 1;
      assert AndBits(a, Pow2(k) - 1, n) == a % 2 + 2 * AndBits(a / 2, m - 1, n - 1);
      DivModSplit(a, m);
    }
  }

  /** AND with 0 is 0. */
  lemma {:induction false} AndZero(a: nat, n: nat)
    requires n <= 64
    ensures AndBits(a, 0, n) == 0
  {
    if n > 0 {
      AndZero(a / 2, n - 1);
    }
  }

  /** OR with 0 keeps the low n bits. */
  lemma {:induction false} OrZero(a: nat, n: nat)
    requires n <= 64
    ensures OrBits(a, 0, n) == a % Pow2(n)
    ensures OrBits(0, a, n) == a % Pow2(n)
  {
    if n > 0 {
      Pow2Double(n);
      OrZero(a / 2, n - 1);
      DivModSplit(a, Pow2(n - 1));
    }
  }

  /** When x lies below bit k and y has no bits below k, OR adds them. */
  lemma {:induction false} OrDisjoint(x: nat, y: nat, k: nat, n: nat)
    requires k <= n <= 64
    requires x < Pow2(k) && y % Pow2(k) == 0 && x + y < Pow2(n)
    ensures OrBits(x, y, n) == x + y
  {
    if k == 0 {
      assert Pow2(0) == 1;
      assert x == 0;
      OrZeroBelow(y, n);
      assert OrBits(x, y, n) == y;
    } else {
      OrDisjointStep(x, y, k, n);
      OrDisjoint(x / 2, y / 2, k - 1, n - 1);
      assert OrBits(x / 2, y / 2, n - 1) == x / 2 + y / 2;
      assert OrBits(x, y, n) == x + y;
    }
  }

  lemma OrZeroBelow(y: nat, n: nat)
    requires n <= 64 && y < Pow2(n)
    ensures OrBits(0, y, n) == y
  {
    OrZero(y, n);
    ModUnique(y, Pow2(n), 0, y);
  }

  /** One step of `OrDisjoint`: the low bit comes from x alone and the
      halves satisfy the same hypotheses one position lower. */
  lemma OrDisjointStep(x: nat, y: nat, k: nat, n: nat)
    requires 1 <= k <= n <= 64
    requires x < Pow2(k) && y % Pow2(k) == 0 && x + y < Pow2(n)
    ensures x / 2 < Pow2(k - 1) && (y / 2) % Pow2(k - 1) == 0 && x / 2 + y / 2 < Pow2(n - 1)
    ensures OrBits(x, y, n) == x % 2 + 2 * OrBits(x / 2, y / 2, n - 1)
    ensures x % 2 + 2 * (x / 2 + y / 2) == x + y
  {
    Pow2Double(k);
    Pow2Double(n);
    DivModSplit(y, Pow2(k - 1));
  }

  /** a mod 2m splits into the low bit and (a / 2) mod m. */
  lemma DivModSplit(a: nat, m: nat)
    requires m >= 1
    ensures a % (2 * m) == a % 2 + 2 * ((a / 2) % m)
  {
    var q := (a / 2) / m;
    var r := a % 2 + 2 * ((a / 2) % m);
    assert a == 2 * (a / 2) + a % 2;
    assert a / 2 == m * q + (a / 2) % m;
    assert a == (2 * m) * q + r;
    ModUnique(a, 2 * m, q, r);
  }

  lemma MulAtLeast(d: int, k: int)
    requires d > 0 && k >= 1
    ensures d * k >= d
  {
    assert d * k == d * (k - 1) + d;
  }

  /** The remainder is the unique r in [0, d) with a = d * q + r. */
  lemma ModUnique(a: int, d: int, q: int, r: int)
    requires d > 0 && 0 <= r < d && a == d * q + r
    ensures a % d == r && a / d == q
  {
    var q' := a / d;
    var r' := a % d;
    assert a == d * q' + r';
    assert d * (q - q') == r' - r;
    if q > q' {
      MulAtLeast(d, q - q');
    } else if q < q' {
      MulAtLeast(d, q' - q);
    }
  }

  /** Rust's `x & !1`: the low bit cleared, everything else kept. */
  lemma ClearLowBit(x: u64)
    ensures And64(x, Not64(1)) == x - x % 2
  {
    var m := Pow2(63);
    assert m == 0x8000_0000_0000_0000;
    var mask := Not64(1);
    assert mask == 2 * (m - 1);
    assert mask % 2 == 0 && mask / 2 == m - 1;
    var h := x / 2;
    assert h < m;
    AndLowMask(h, 63, 63);
    assert AndBits(h, m - 1, 63) == h;
    assert And64(x, mask) == 2 * AndBits(h, mask / 2, 63);
  }

  lemma SignExtend32IsSignExtended(x: i32)
    ensures IsSignExtended32(SignExtend32(x))
    ensures Signed32(ToU32(SignExtend32(x))) == x
  {
  }
}
