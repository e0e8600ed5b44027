/**
 * The pieces of the Python runtime the memory consumer relies on:
 * floor division on unbounded integers, truncation of a float to an int,
 * and the exceptions the core can raise.
 */
module PyRuntime {

  /** The exception kinds the pattern and the consumer can raise, one per raising site. */
  datatype Error =
    | HeaderMissing      // TypeError: the csv file has no header row (`None[:-1]`)
    | RowTooShort(row: nat) // IndexError: `item[-1]` or, in one of the first two rows, `item[-2]`
    | ResolutionUnset    // AttributeError: fewer than two data rows, resolution never assigned
    | ZeroDivision       // ZeroDivisionError: `//` or `/` by zero
    | NoneOperand        // TypeError: arithmetic on the `None` of a missing pattern value
    | EmptyRandomRange   // ValueError: `random.randint(lo, hi)` with lo > hi
    | EmptyPatternType   // IndexError: `pattern_type[-1]` on an empty pattern type
    | NegativeSleep      // ValueError: `sleep` with a negative length

  /** Python's `a // b`: the quotient rounded towards minus infinity. */
  function FloorDiv(a: int, b: int): (q: int)
    requires b != 0
    ensures b > 0 ==> q * b <= a < q * b + b
    ensures b < 0 ==> q * b + b < a <= q * b
  {
    if b > 0 then a / b else (-a) / (-b)
  }

  /** Python's `int(x)` on a float: truncation towards zero. */
  function Trunc(x: real): (n: int)
    ensures x >= 0.0 ==> n as real <= x < n as real + 1.0
    ensures x < 0.0 ==> n as real - 1.0 < x <= n as real
  {
    if x >= 0.0 then x.Floor else -((-x).Floor)
  }

  function Max(a: int, b: int): (m: int)
    ensures m >= a && m >= b && (m == a || m == b)
  {
    if a >= b then a else b
  }

  function Abs(a: int): (m: nat)
    ensures m == a || m == -a
  {
    if a >= 0 then a else -a
  }
}
