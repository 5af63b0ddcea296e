/** Signed 64-bit integers, which Go durations and counters are, and powers of two. */
module Int64 {

  const TWO62: int := 0x4000_0000_0000_0000
  const TWO63: int := 0x8000_0000_0000_0000
  const TWO64: int := 0x1_0000_0000_0000_0000

  predicate InRange(x: int) {
    -TWO63 <= x < TWO63
  }

  // The value an arithmetic result wraps around to.
  function Wrap(x: int): (r: int)
    ensures InRange(r) && (InRange(x) ==> r == x)
  {
    (x + TWO63) % TWO64 - TWO63
  }

  function Pow2(n: nat): (r: int)
    ensures r >= 1
  {
    if n == 0 then 1 else 2 * Pow2(n - 1)
  }

  function Min(a: int, b: int): int {
    if a < b then a else b
  }

  function Max(a: int, b: int): int {
    if a < b then b else a
  }

  // Conversion of a product of reals to an integer cuts towards zero.
  function Truncated(x: real): (r: int)
    ensures x >= 0.0 ==> r as real <= x < r as real + 1.0
  {
    if x >= 0.0 then x.Floor else -((-x).Floor)
  }

  function Fraction(d: int, x: real): real {
    d as real * x
  }

  lemma FractionOrder(d: int, a: real, b: real)
    requires d > 0 && 0.0 <= a <= b
    ensures 0.0 <= Fraction(d, a) <= Fraction(d, b) && (a < b ==> Fraction(d, a) < Fraction(d, b))
  {
  }
}
