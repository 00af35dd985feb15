/** Arithmetic as the sources' languages do it. */
module Arithmetic {

  function Min(x: real, y: real): real { if x < y then x else y }

  function Max(x: real, y: real): real { if x < y then y else x }

  /** Conversion to an integer drops the fraction, towards zero. */
  function Truncated(x: real): (n: int)
    ensures -1.0 < n as real - x < 1.0
    ensures (x >= 0.0 ==> 0.0 <= n as real <= x) && (x <= 0.0 ==> x <= n as real <= 0.0)
  {
    if x >= 0.0 then x.Floor else -((-x).Floor)
  }

  /** Division of an integer by two truncates as well. */
  function Half(x: int): int {
    if x >= 0 then x / 2 else -((-x) / 2)
  }

  // ---- Products by name, for proofs that need not look into them ----

  function Squared(x: real): real {
    x * x
  }

  function Product(a: real, b: real): real {
    a * b
  }
}
