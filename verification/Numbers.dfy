/** Machine integers, where the source's width matters. */
module Numbers {

  const U32_MAX: nat := 0xFFFF_FFFF
  const U64_MAX: nat := 0xFFFF_FFFF_FFFF_FFFF
  const I64_MAX: int := 0x7FFF_FFFF_FFFF_FFFF
  const I64_MIN: int := -0x8000_0000_0000_0000

  function Min(a: int, b: int): int {
    if a <= b then a else b
  }

  function Max(a: int, b: int): int {
    if a < b then b else a
  }

  /** Signed 64-bit saturation. */
  function Saturate(x: int): int {
    if x > I64_MAX then I64_MAX else if x < I64_MIN then I64_MIN else x
  }

  /** A saturating unsigned increment. */
  function Increment(n: nat, max: nat): nat {
    if n < max then n + 1 else n
  }
}
