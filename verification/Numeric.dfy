/**
 Machine-integer ranges and the rounding of Rust's integer operators.

 Every quantity is a mathematical integer; the width that Rust gives it is a
 subset type, and each checked, saturating or truncating operation is written
 out where the program performs it.
 */
module Numeric {

  const I16_MIN: int := -32_768
  const I16_MAX: int := 32_767
  const I64_MAX: int := 0x7FFF_FFFF_FFFF_FFFF
  const I64_MIN: int := -0x8000_0000_0000_0000
  const U32_MAX: int := 0xFFFF_FFFF
  const U64_MAX: int := 0xFFFF_FFFF_FFFF_FFFF

  type i16 = x: int | I16_MIN <= x <= I16_MAX
  type i64 = x: int | I64_MIN <= x <= I64_MAX
  type u32 = x: int | 0 <= x <= U32_MAX
  type u64 = x: int | 0 <= x <= U64_MAX

  predicate FitsI64(x: int) { I64_MIN <= x <= I64_MAX }

  predicate FitsU64(x: int) { 0 <= x <= U64_MAX }

  function Abs(x: int): nat { if x < 0 then -x else x }

  function Min(x: int, y: int): int { if x < y then x else y }

  function Max(x: int, y: int): int { if x < y then y else x }

  /** Rust's `/`: the quotient rounded toward zero. */
  function TruncDiv(a: int, b: int): int
    requires b > 0
  {
    if a >= 0 then a / b else -((-a) / b)
  }

  /** `saturating_sub` on unsigned values. */
  function SaturatingSub(a: nat, b: nat): nat { if a < b then 0 else a - b }

  /** `saturating_add` on `u64`. */
  function SaturatingAdd(a: u64, b: nat): u64 { if a + b > U64_MAX then U64_MAX else a + b }

  /** Division of naturals, named so that its result is a natural. */
  function Quotient(x: nat, d: nat): (q: nat)
    requires d > 0
  {
    DivisionIdentity(x, d);
    x / d
  }

  lemma DivisionIdentity(x: nat, d: nat)
    requires d > 0
    ensures x == x / d * d + x % d && 0 <= x % d < d && x / d >= 0
  {
  }

  lemma ProductMonotone(a: nat, b: nat, c: nat)
    requires a <= b
    ensures a * c <= b * c && c * a <= c * b
  {
  }

  lemma ProductStep(a: int, c: int)
    ensures (a + 1) * c == a * c + c
  {
  }

  lemma ProductNegation(a: int, c: int)
    ensures (-a) * c == -(a * c)
  {
  }

  lemma ProductDifference(a: int, b: int, c: int)
    ensures (a - b) * c == a * c - b * c
  {
  }

  /** `k <= x / d` says exactly `k * d <= x`. */
  lemma QuotientBound(x: nat, d: nat, k: nat)
    requires d > 0
    ensures k <= x / d <==> k * d <= x
  {
    DivisionIdentity(x, d);
    if k <= x / d {
      ProductMonotone(k, x / d, d);
    } else {
      ProductMonotone(x / d + 1, k, d);
      ProductStep(x / d, d);
    }
  }
}
