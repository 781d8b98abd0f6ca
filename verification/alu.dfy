/**
 * The arithmetic of `execute` (src/cpu.rs): the closures passed to the
 * register-register, register-immediate and word helpers, the branch
 * conditions and the load extensions. Register values are u64; the word
 * forms work on the i32 view of the low 32 bits.
 *
 * Division and remainder follow section 7.2 of the RISC-V Unprivileged ISA
 * (version 20191213), whose Table 7.1 fixes the results for a zero divisor
 * and for signed overflow; none of them is an error. Rust's `wrapping_div`
 * and `wrapping_rem` truncate toward zero, unlike Dafny's Euclidean `/` and
 * `%`, so truncating division is defined here explicitly.
 */
module Alu {
  import opened Types
  import opened Bits

  const U64_MAX: u64 := 0xFFFF_FFFF_FFFF_FFFF
  const I64_MIN: i64 := -0x8000_0000_0000_0000
  const I32_MIN: i32 := -0x8000_0000

  function Abs(x: int): nat {
    if x < 0 then -x else x
  }

  /** Integer division rounding toward zero (Rust's `/` on signed integers). */
  function TruncDiv(a: int, b: int): int
    requires b != 0
  {
    var q := Abs(a) / Abs(b);
    if (a < 0) == (b < 0) then q else -q
  }

  /** The remainder of `TruncDiv`, which takes the sign of the dividend
      (Rust's `%` on signed integers). */
  function TruncRem(a: int, b: int): int
    requires b != 0
  {
    var r := Abs(a) % Abs(b);
    if a < 0 then -r else r
  }

  /** The truncating quotient and remainder satisfy the division identity,
      the remainder is smaller than the divisor and never has the opposite
      sign of the dividend, and the quotient is no larger than the dividend. */
  lemma TruncDivRem(a: int, b: int)
    requires b != 0
    ensures b * TruncDiv(a, b) + TruncRem(a, b) == a
    ensures Abs(TruncRem(a, b)) < Abs(b)
    ensures TruncRem(a, b) == 0 || (TruncRem(a, b) < 0 <==> a < 0)
    ensures Abs(TruncDiv(a, b)) <= Abs(a)
  {
    var q, r := Abs(a) / Abs(b), Abs(a) % Abs(b);
    DivBelow(Abs(a), Abs(b));
    SignedRecombine(a, b, q, r);
  }

  /** Euclidean division of naturals: the identity and q <= a. */
  lemma DivBelow(a: nat, b: nat)
    requires b >= 1
    ensures a == b * (a / b) + a % b
    ensures a / b <= a
  {
    if a / b >= 1 {
      MulAtLeast(b, a / b);
    }
  }

  /** Restoring the signs of |a| = |b| * q + r. */
  lemma SignedRecombine(a: int, b: int, q: int, r: int)
    requires b != 0 && q >= 0 && r >= 0 && Abs(a) == Abs(b) * q + r
    ensures b * (if (a < 0) == (b < 0) then q else -q) + (if a < 0 then -r else r) == a
  {
    if b < 0 {
      assert b * q == -(Abs(b) * q);
      assert b * (-q) == Abs(b) * q;
    } else {
      assert b * (-q) == -(Abs(b) * q);
    }
  }

  /** `as i32` of a register: the i32 view of its low 32 bits. */
  function Low32(v: u64): i32 {
    Signed32(ToU32(v))
  }

  /** `imm as u64` for the register-immediate helper. */
  function ImmToU64(imm: Imm): u64 {
    ToU64(imm)
  }

  /** `imm as i32` for the word register-immediate helper. */
  function ImmToI32(imm: Imm): i32 {
    Signed32(ToU32(imm))
  }

  lemma Signed64RoundTrip(a: u64)
    ensures ToU64(Signed64(a)) == a
  {
  }

  lemma ToU64RoundTrip(x: i64)
    ensures Signed64(ToU64(x)) == x
  {
  }

  // ---- RV64I register-register and register-immediate closures ----

  function Add(a: u64, b: u64): u64 { ToU64(a + b) }
  function Sub(a: u64, b: u64): u64 { ToU64(a - b) }
  /** SLL/SLLI: only the low 6 bits of the shift operand count. */
  function Sll(a: u64, b: u64): u64 { Shl64(a, b % 64) }
  function Srl(a: u64, b: u64): u64 { Shr64(a, b % 64) }
  function Sra(a: u64, b: u64): u64 { Sra64(a, b % 64) }
  function Slt(a: u64, b: u64): u64 { if Signed64(a) < Signed64(b) then 1 else 0 }
  function Sltu(a: u64, b: u64): u64 { if a < b then 1 else 0 }

  // ---- RV64M ----

  /** The low 64 bits of the product. */
  function Mul(a: u64, b: u64): u64 { ToU64(a * b) }

  /** The upper 64 bits of the signed x signed 128-bit product: an
      arithmetic shift right by 64, i.e. floor division by 2^64. */
  function Mulh(a: u64, b: u64): u64 { ToU64((Signed64(a) * Signed64(b)) / TWO_64) }

  /** The upper 64 bits of the signed x unsigned product. */
  function Mulhsu(a: u64, b: u64): u64 { ToU64((Signed64(a) * b) / TWO_64) }

  /** The upper 64 bits of the unsigned x unsigned product. */
  function Mulhu(a: u64, b: u64): u64 { ToU64((a * b) / TWO_64) }

  /** DIV: a zero divisor gives all ones, signed overflow gives the
      dividend, otherwise the quotient rounds toward zero. */
  function Div(a: u64, b: u64): (r: u64)
    ensures b == 0 ==> r == U64_MAX
    ensures Signed64(a) == I64_MIN && Signed64(b) == -1 ==> r == a
  {
    var dividend, divisor := Signed64(a), Signed64(b);
    if divisor == 0 then U64_MAX
    else if dividend == I64_MIN && divisor == -1 then ToU64(dividend)
    else ToU64(TruncDiv(dividend, divisor))
  }

  /** DIVU: a zero divisor gives all ones. */
  function Divu(a: u64, b: u64): (r: u64)
    ensures b == 0 ==> r == U64_MAX
    ensures b != 0 ==> r <= a
  {
    if b == 0 then U64_MAX
    else
      DivBelow(a, b);
      a / b
  }

  /** REM: a zero divisor gives the dividend, signed overflow gives 0,
      otherwise the remainder has the sign of the dividend. */
  function Rem(a: u64, b: u64): (r: u64)
    ensures b == 0 ==> r == a
    ensures Signed64(a) == I64_MIN && Signed64(b) == -1 ==> r == 0
  {
    var dividend, divisor := Signed64(a), Signed64(b);
    if divisor == 0 then ToU64(dividend)
    else if dividend == I64_MIN && divisor == -1 then 0
    else ToU64(TruncRem(dividend, divisor))
  }

  /** REMU: a zero divisor gives the dividend. */
  function Remu(a: u64, b: u64): (r: u64)
    ensures b == 0 ==> r == a
    ensures b != 0 ==> r < b
  {
    if b == 0 then a else a % b
  }

  /** Section 7.2: for every pair of operands, including a zero divisor and
      signed overflow, dividend = divisor * quotient + remainder modulo
      2^64, reading all three as signed. */
  lemma DivRemIdentity(a: u64, b: u64)
    ensures ToU64(Signed64(b) * Signed64(Div(a, b)) + Signed64(Rem(a, b))) == a
  {
    var dividend, divisor := Signed64(a), Signed64(b);
    if divisor == 0 {
      Signed64RoundTrip(a);
    } else if dividend == I64_MIN && divisor == -1 {
      assert Signed64(Div(a, b)) == I64_MIN;
    } else {
      TruncDivRem(dividend, divisor);
      var q, r := TruncDiv(dividend, divisor), TruncRem(dividend, divisor);
      assert -0x8000_0000_0000_0000 <= q < 0x8000_0000_0000_0000;
      ToU64RoundTrip(q);
      ToU64RoundTrip(r);
      Signed64RoundTrip(a);
    }
  }

  /** Outside the two special cases the signed quotient rounds toward zero:
      the remainder is smaller than the divisor and has the sign of the
      dividend. */
  lemma RemRoundsTowardZero(a: u64, b: u64)
    requires Signed64(b) != 0 && !(Signed64(a) == I64_MIN && Signed64(b) == -1)
    ensures Abs(Signed64(Rem(a, b))) < Abs(Signed64(b))
    ensures Signed64(Rem(a, b)) == 0 || (Signed64(Rem(a, b)) < 0 <==> Signed64(a) < 0)
  {
    TruncDivRem(Signed64(a), Signed64(b));
    ToU64RoundTrip(TruncRem(Signed64(a), Signed64(b)));
  }

  /** The unsigned division identity, including a zero divisor. */
  lemma DivuRemuIdentity(a: u64, b: u64)
    ensures ToU64(b * Divu(a, b) + Remu(a, b)) == a
  {
    if b != 0 {
      assert b * (a / b) + a % b == a;
    }
    assert b * Divu(a, b) + Remu(a, b) == a;
    ModUnique(a, TWO_64, 0, a);
  }

  /** `MULHU` and `MUL` together are the full 128-bit unsigned product. */
  lemma MulhuMulIsProduct(a: u64, b: u64)
    ensures Mulhu(a, b) * TWO_64 + Mul(a, b) == a * b
  {
    ProductBound(a, b);
  }

  /** `MULH` and `MUL` together are the full 128-bit signed product. */
  lemma MulhMulIsProduct(a: u64, b: u64)
    ensures Signed64(Mulh(a, b)) * TWO_64 + Mul(a, b) == Signed64(a) * Signed64(b)
  {
    var p := Signed64(a) * Signed64(b);
    SignedProductBound(Signed64(a), Signed64(b));
    ToU64RoundTrip(p / TWO_64);
    ProductCongruent(a, b, Signed64(a), Signed64(b));
  }

  /** `MULHSU` and `MUL` together are the full signed x unsigned product. */
  lemma MulhsuMulIsProduct(a: u64, b: u64)
    ensures Signed64(Mulhsu(a, b)) * TWO_64 + Mul(a, b) == Signed64(a) * b
  {
    var p := Signed64(a) * b;
    MixedProductBound(Signed64(a), b);
    ToU64RoundTrip(p / TWO_64);
    ProductCongruent(a, b, Signed64(a), b);
  }

  lemma ProductBound(a: u64, b: u64)
    ensures 0 <= a * b < TWO_64 * TWO_64
  {
    MulLe(a, TWO_64 - 1, b);
    MulLe(b, TWO_64 - 1, TWO_64 - 1);
  }

  lemma SignedProductBound(x: i64, y: i64)
    ensures -TWO_64 * TWO_64 / 4 <= x * y <= TWO_64 * TWO_64 / 4
  {
    MulLe(Abs(x), 0x8000_0000_0000_0000, Abs(y));
    MulLe(Abs(y), 0x8000_0000_0000_0000, 0x8000_0000_0000_0000);
    assert Abs(x * y) == Abs(x) * Abs(y) by {
      if x < 0 && y >= 0 { assert x * y == -(Abs(x) * y); }
      else if x >= 0 && y < 0 { assert x * y == -(x * Abs(y)); }
      else if x < 0 && y < 0 { assert x * y == Abs(x) * Abs(y); }
    }
  }

  lemma MixedProductBound(x: i64, y: u64)
    ensures -TWO_64 * TWO_64 / 2 <= x * y < TWO_64 * TWO_64 / 2
  {
    MulLe(Abs(x), 0x8000_0000_0000_0000, y);
    MulLe(y, TWO_64 - 1, 0x8000_0000_0000_0000);
    if x < 0 { assert x * y == -(Abs(x) * y); }
  }

  /** Multiplication by a non-negative factor is monotone. */
  lemma MulLe(x: nat, y: nat, k: nat)
    requires x <= y
    ensures x * k <= y * k
  {
    assert y * k == x * k + (y - x) * k;
  }

  /** Values congruent modulo 2^64 have products congruent modulo 2^64. */
  lemma ProductCongruent(a: int, b: int, x: int, y: int)
    requires (a - x) % TWO_64 == 0 && (b - y) % TWO_64 == 0
    ensures (a * b) % TWO_64 == (x * y) % TWO_64
  {
    var i, j := (a - x) / TWO_64, (b - y) / TWO_64;
    assert a == x + TWO_64 * i;
    assert b == y + TWO_64 * j;
    assert a * b == x * y + TWO_64 * (i * y + x * j + TWO_64 * i * j);
    ModShift(x * y, i * y + x * j + TWO_64 * i * j);
  }

  /** Adding a multiple of 2^64 does not change the remainder. */
  lemma ModShift(v: int, k: int)
    ensures (v + TWO_64 * k) % TWO_64 == v % TWO_64
  {
    ModUnique(v + TWO_64 * k, TWO_64, v / TWO_64 + k, v % TWO_64);
  }

  // ---- RV64I / RV64M word forms, on the i32 view of the operands ----

  function AddW(a: i32, b: i32): i32 { Signed32(ToU32(a + b)) }
  function SubW(a: i32, b: i32): i32 { Signed32(ToU32(a - b)) }
  /** SLLW/SLLIW: only the low 5 bits of the shift operand count. */
  function SllW(a: i32, b: i32): i32 { Shl32(a, b % 32) }
  function SrlW(a: i32, b: i32): i32 { Shr32(a, b % 32) }
  function SraW(a: i32, b: i32): i32 { Sra32(a, b % 32) }
  function MulW(a: i32, b: i32): i32 { Signed32(ToU32(a * b)) }

  /** DIVW: a zero divisor gives -1, signed overflow gives the dividend. */
  function DivW(a: i32, b: i32): (r: i32)
    ensures b == 0 ==> r == -1
    ensures a == I32_MIN && b == -1 ==> r == a
  {
    if b == 0 then -1
    else if a == I32_MIN && b == -1 then a
    else TruncDivW(a, b)
  }

  /** The in-range truncating quotient of two i32 values. */
  function TruncDivW(a: i32, b: i32): (r: i32)
    requires b != 0 && !(a == I32_MIN && b == -1)
    ensures r == TruncDiv(a, b)
  {
    TruncDivRem(a, b);
    var q := TruncDiv(a, b);
    assert -0x8000_0000 <= q < 0x8000_0000;
    q
  }

  /** DIVUW: unsigned division of the low words; a zero divisor gives -1. */
  function DivuW(a: i32, b: i32): (r: i32)
    ensures ToU32(b) == 0 ==> r == -1
  {
    var d1, d2 := ToU32(a), ToU32(b);
    if d2 == 0 then -1 else Signed32(UDiv(d1, d2))
  }

  /** Unsigned division (`wrapping_div` on an unsigned type never wraps). */
  function UDiv(a: nat, b: nat): (r: nat)
    requires b >= 1
    ensures r <= a
  {
    DivBelow(a, b);
    a / b
  }

  /** Unsigned remainder. */
  function URem(a: nat, b: nat): (r: nat)
    requires b >= 1
    ensures r < b && r <= a
    ensures b * UDiv(a, b) + r == a
  {
    DivBelow(a, b);
    a % b
  }

  /** REMW: a zero divisor gives the dividend, signed overflow gives 0. */
  function RemW(a: i32, b: i32): (r: i32)
    ensures b == 0 ==> r == a
    ensures a == I32_MIN && b == -1 ==> r == 0
  {
    if b == 0 then a
    else if a == I32_MIN && b == -1 then 0
    else
      TruncDivRem(a, b);
      TruncRem(a, b)
  }

  /** REMUW: unsigned remainder of the low words; a zero divisor gives the
      dividend. */
  function RemuW(a: i32, b: i32): (r: i32)
    ensures ToU32(b) == 0 ==> r == a
  {
    var d1, d2 := ToU32(a), ToU32(b);
    if d2 == 0 then Signed32(d1) else Signed32(URem(d1, d2))
  }

  /** The signed word division identity modulo 2^32, for all operands. */
  lemma DivWRemWIdentity(a: i32, b: i32)
    ensures Signed32(ToU32(b * DivW(a, b) + RemW(a, b))) == a
  {
    if b != 0 && !(a == I32_MIN && b == -1) {
      TruncDivRem(a, b);
    }
  }

  /** The unsigned word division identity modulo 2^32, for all operands. */
  lemma DivuWRemuWIdentity(a: i32, b: i32)
    ensures ToU32(ToU32(b) * ToU32(DivuW(a, b)) + ToU32(RemuW(a, b))) == ToU32(a)
  {
    var d1, d2 := ToU32(a), ToU32(b);
    if d2 != 0 {
      assert ToU32(DivuW(a, b)) == UDiv(d1, d2);
      assert ToU32(RemuW(a, b)) == URem(d1, d2);
    }
  }

  // ---- branch conditions ----

  function Eq(a: u64, b: u64): bool { a == b }
  function Ne(a: u64, b: u64): bool { a != b }
  function Lt(a: u64, b: u64): bool { Signed64(a) < Signed64(b) }
  function Ge(a: u64, b: u64): bool { Signed64(a) >= Signed64(b) }
  function Ltu(a: u64, b: u64): bool { a < b }
  function Geu(a: u64, b: u64): bool { a >= b }

  // ---- load extensions ----

  /** `v as i8 as i64 as u64` and its 16- and 32-bit analogues: the low
      `bytes` bytes of v, sign-extended to 64 bits. */
  function SignExtendLoad(v: u64, bytes: nat): (r: u64)
    requires bytes == 1 || bytes == 2 || bytes == 4
    ensures r % Pow2(8 * bytes) == v % Pow2(8 * bytes)
    ensures r < Pow2(8 * bytes - 1) || r >= TWO_64 - Pow2(8 * bytes - 1)
  {
    var low := v % Pow2(8 * bytes);
    LowBytesOfSignExtension(low, bytes);
    ToU64(SignExtend(low, 8 * bytes))
  }

  /** The extensions LB, LH and LW pass to the load helper. */
  function SignExtendByte(v: u64): u64 { SignExtendLoad(v, 1) }
  function SignExtendHalf(v: u64): u64 { SignExtendLoad(v, 2) }
  function SignExtendWord(v: u64): u64 { SignExtendLoad(v, 4) }
  /** The extension LBU, LHU, LWU and LD pass: the loaded value as is. */
  function ZeroExtend(v: u64): u64 { v }

  lemma LowBytesOfSignExtension(low: nat, bytes: nat)
    requires bytes == 1 || bytes == 2 || bytes == 4
    requires low < Pow2(8 * bytes)
    ensures ToU64(SignExtend(low, 8 * bytes)) % Pow2(8 * bytes) == low
    ensures ToU64(SignExtend(low, 8 * bytes)) < Pow2(8 * bytes - 1)
            || ToU64(SignExtend(low, 8 * bytes)) >= TWO_64 - Pow2(8 * bytes - 1)
  {
    var p := Pow2(8 * bytes);
    var k := TWO_64 / p;
    assert TWO_64 == p * k by {
      if bytes == 1 { assert p == 0x100; }
      else if bytes == 2 { assert p == 0x1_0000; }
      else { assert p == 0x1_0000_0000; }
    }
    if SignExtend(low, 8 * bytes) != low {
      assert ToU64(SignExtend(low, 8 * bytes)) == low + p * (k - 1);
      ModUnique(low + p * (k - 1), p, k - 1, low);
    }
  }
}
