/** Machine integer types of the source, written out explicitly. */
module Prim {

  /** Rust `i32` / C `int32_t`. */
  newtype i32 = x: int | -0x8000_0000 <= x < 0x8000_0000

  /** Rust `u8`: the halt-state byte. */
  newtype u8 = x: int | 0 <= x < 0x100

  /** `usize::MAX` on a 64-bit target. */
  const USIZE_MAX: nat := 0xFFFF_FFFF_FFFF_FFFF

  /** A `usize` value. */
  type usize = x: nat | x <= USIZE_MAX

  /** `NonZeroUsize`. */
  type NonZeroUsize = x: usize | x > 0 witness 1

  /** `usize::saturating_add(1)`. */
  function SaturatingInc(n: usize): (r: usize)
    ensures n < USIZE_MAX ==> r == n + 1
    ensures n == USIZE_MAX ==> r == USIZE_MAX
    ensures n <= r
  {
    if n < USIZE_MAX then n + 1 else USIZE_MAX
  }
}
