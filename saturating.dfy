/**
  * Rust's `usize` and the saturating arithmetic the repeat-count prefix uses.
  * The target is taken to be 64-bit.
  */
module Saturating {

  /** `usize::MAX` on a 64-bit target. */
  const MAX: nat := 0xFFFF_FFFF_FFFF_FFFF

  type Usize = n: nat | n <= MAX

  function Min(a: int, b: int): int {
    if a <= b then a else b
  }

  /** `a.saturating_add(b)`: the sum, clamped at `MAX` instead of wrapping. */
  function SaturatingAdd(a: Usize, b: Usize): Usize {
    if a + b <= MAX then a + b else MAX
  }

  /** `a.saturating_mul(b)`: the product, clamped at `MAX` instead of wrapping. */
  function SaturatingMul(a: Usize, b: Usize): Usize {
    if a * b <= MAX then a * b else MAX
  }

  /** `a.saturating_sub(b)`: the difference, clamped at 0 instead of wrapping. */
  function SaturatingSub(a: Usize, b: Usize): Usize {
    if b <= a then a - b else 0
  }
}
