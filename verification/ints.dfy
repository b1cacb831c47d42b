/**
 Fixed-width integer vocabulary of the firmware: the ranges of the C types
 `int16_t`, `int32_t`, `uint32_t` and `long long`, the arithmetic right shift
 the compiler emits for `>>` on a signed operand, and the `max`/`min`
 saturation idiom.
 */
module Ints {

  const INT16_MIN: int := -0x8000
  const INT16_MAX: int := 0x7FFF
  const INT32_MIN: int := -0x8000_0000
  const INT32_MAX: int := 0x7FFF_FFFF
  const INT64_MIN: int := -0x8000_0000_0000_0000
  const INT64_MAX: int := 0x7FFF_FFFF_FFFF_FFFF
  const UINT32_MODULUS: int := 0x1_0000_0000

  /** A value of C type `int16_t`. */
  type Int16 = x: int | INT16_MIN <= x <= INT16_MAX

  /** A value of C type `int32_t`. */
  type Int32 = x: int | INT32_MIN <= x <= INT32_MAX

  /** A value of C type `long long`. */
  type Int64 = x: int | INT64_MIN <= x <= INT64_MAX

  /** A value of C type `uint32_t`. */
  type UInt32 = x: int | 0 <= x < UINT32_MODULUS

  function Pow2(k: nat): (p: nat)
    ensures p >= 1
  {
    if k == 0 then 1 else 2 * Pow2(k - 1)
  }

  /** `x >> k` on a signed operand: the target compiler shifts arithmetically,
      so the result is x divided by 2^k rounded towards minus infinity. */
  function Asr(x: int, k: nat): (r: int)
    ensures r * Pow2(k) <= x < (r + 1) * Pow2(k)
  {
    x / Pow2(k)
  }

  function Min(a: int, b: int): (m: int)
  {
    if a <= b then a else b
  }

  function Max(a: int, b: int): (m: int)
  {
    if a >= b then a else b
  }

  /** `max(lo, min(hi, x))`: x saturated to the interval [lo, hi]. */
  function Clamp(x: int, lo: int, hi: int): (r: int)
    requires lo <= hi
    ensures lo <= r <= hi
    ensures lo <= x <= hi ==> r == x
    ensures x < lo ==> r == lo
    ensures hi < x ==> r == hi
  {
    Max(lo, Min(hi, x))
  }
}
