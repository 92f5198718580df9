/**
 * Exact integer counterparts of PHP's `\floor($a / $b)` and `\ceil($a / $b)`.
 * PHP computes these in floating point; the model uses exact integers.
 */
module Arith {

  /** `\floor(a / b)` for a non-zero divisor of either sign. */
  function FloorDiv(a: int, b: int): (q: int)
    requires b != 0
    ensures b > 0 ==> q * b <= a < q * b + b
    ensures b < 0 ==> q * b + b < a <= q * b
  {
    if b > 0 then a / b else (-a) / (-b)
  }

  /** `\ceil(a / b)` for a positive divisor. */
  function CeilDiv(a: int, b: int): (q: int)
    requires b > 0
    ensures q * b - b < a <= q * b
  {
    -((-a) / b)
  }
}
