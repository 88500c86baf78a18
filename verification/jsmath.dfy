/** The JavaScript `Math` functions the game uses, over exact numbers. */
module JsMath {

  /** `Math.min` of two integers. */
  function Min(a: int, b: int): int {
    if a <= b then a else b
  }

  /** `Math.round`: the nearest integer, halves rounded up. */
  function Round(x: real): int {
    (x + 0.5).Floor
  }

  /** `Math.ceil` */
  function Ceil(x: real): int {
    -((-x).Floor)
  }

  /** `Math.floor` */
  function Floor(x: real): int {
    x.Floor
  }

  /** `Math.trunc`: towards zero. */
  function Trunc(x: real): int {
    if x >= 0.0 then x.Floor else -((-x).Floor)
  }

  /** The `%` operator on numbers: the remainder of a division truncated
      towards zero, so it takes the sign of the dividend. */
  function Rem(x: real, y: real): real
    requires y != 0.0
  {
    x - y * Trunc(x / y) as real
  }
}
