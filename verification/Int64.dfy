/** Go's 64-bit integers: the bounds the source compares against, two's
    complement wrap-around, and division that truncates towards zero. */
module Int64 {
  const MAX_INT64 := 0x7fff_ffff_ffff_ffff
  const MIN_INT64 := -0x8000_0000_0000_0000
  const TWO_TO_THE_64 := 0x1_0000_0000_0000_0000

  type int64 = x: int | MIN_INT64 <= x <= MAX_INT64

  function Min(a: int, b: int): int {
    if a <= b then a else b
  }

  function Max(a: int, b: int): int {
    if a >= b then a else b
  }

  /** The value an int64 variable holds after a sum of two int64 values. */
  function WrapSum(x: int): (w: int)
    requires 2 * MIN_INT64 <= x <= 2 * MAX_INT64
    ensures MIN_INT64 <= w <= MAX_INT64
    ensures MIN_INT64 <= x <= MAX_INT64 ==> w == x
  {
    if x > MAX_INT64 then x - TWO_TO_THE_64
    else if x < MIN_INT64 then x + TWO_TO_THE_64
    else x
  }

  /** Go's integer division: the quotient is rounded towards zero. */
  function TruncDiv(a: int, b: int): int
    requires b != 0
  {
    if a >= 0 then a / b else -(-a / b)
  }

  /** Go's remainder: it has the sign of the dividend. */
  function TruncMod(a: int, b: int): int
    requires b != 0
  {
    a - TruncDiv(a, b) * b
  }
}
