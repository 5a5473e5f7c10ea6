/** What the models of several files share: options, bytes and words, and two conversions of Go. */
module Basics {

  datatype Option<+T> = None | Some(value: T)

  type byte = b: int | 0 <= b < 256
  type u64 = n: int | 0 <= n < 0x1_0000_0000_0000_0000

  /** Division of integers, which rounds towards zero. */
  function Quotient(a: int, b: int): int
    requires b > 0
  {
    if a < 0 then -(-a / b) else a / b
  }

  /** int(x) of a float64. */
  function Truncated(x: real): int { if x < 0.0 then -((-x).Floor) else x.Floor }
}
