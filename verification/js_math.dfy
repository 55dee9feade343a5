/** The two `Math` helpers the pages use, on integers. */
module JsMath {

  /** `Math.max` on two integers. */
  function Max(a: int, b: int): int {
    if a >= b then a else b
  }

  /** `Math.min` on two integers. */
  function Min(a: int, b: int): int {
    if a <= b then a else b
  }
}
