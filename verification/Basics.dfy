/** Vocabulary shared by the components: optional results, bounds and the
    two's-complement narrowing that 16-bit minute counts go through. */
module Basics {

  datatype Option<+T> = None | Some(value: T)

  function Min(a: int, b: int): int { if a <= b then a else b }

  function Max(a: int, b: int): int { if a <= b then b else a }

  function Abs(a: int): nat { if a < 0 then -a else a }

  /** The value a signed 16-bit integer keeps of `x`. */
  function Wrap16(x: int): int { (x + 0x8000) % 0x1_0000 - 0x8000 }

  /** Division as the source language does it: towards zero. */
  function TruncDiv(a: int, b: int): int
    requires b > 0
  {
    if a >= 0 then a / b else -((-a) / b)
  }

  /** What is cut off is less than the divisor and of the sign of the dividend. */
  lemma TruncatesTowardsZero(a: int, b: int)
    requires b > 0
    ensures var rest := a - TruncDiv(a, b) * b; -b < rest < b && (a >= 0 ==> rest >= 0) && (a <= 0 ==> rest <= 0)
  {
  }

  /** The value kept is a signed 16-bit one, and differs by a multiple of 2^16. */
  lemma WrapsBy16Bits(x: int)
    ensures -0x8000 <= Wrap16(x) < 0x8000 && (x - Wrap16(x)) % 0x1_0000 == 0
  {
  }
}
