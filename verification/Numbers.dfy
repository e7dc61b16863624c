/** Integers, and rounding of exact reals, standing for floating-point `round` and `floor`. */
module Numbers {

  function Abs(n: int): nat {
    if n < 0 then -n else n
  }

  lemma Distribute(factor: int, n: int, m: int)
    ensures factor * (n + m) == factor * n + factor * m
  {
  }

  /** Rounds to the nearest integer, halves away from zero. */
  function Round(x: real): (n: int)
    ensures x - 0.5 <= n as real <= x + 0.5
    ensures x >= 0.0 ==> x - 0.5 < n as real
    ensures x <= 0.0 ==> n as real < x + 0.5
  {
    if x >= 0.0 then (x + 0.5).Floor else -((-x + 0.5).Floor)
  }

  /** Rounding keeps order, and keeps integers. */
  lemma RoundMonotone(x: real, y: real)
    requires x <= y
    ensures Round(x) <= Round(y)
  {
  }

  lemma RoundInteger(n: int)
    ensures Round(n as real) == n
  {
  }
}
