/** Numeric conversions of C++ that the model writes out explicitly. */
module CNumeric {

  /** The C++ conversion `(int)r` of a floating value: truncation toward zero.
      (Dafny's `Floor` rounds toward negative infinity, so negative values are
      handled separately.) */
  function TruncToInt(r: real): (n: int)
    ensures 0.0 <= r ==> 0 <= n && n as real <= r < n as real + 1.0
    ensures r < 0.0 ==> n <= 0 && n as real - 1.0 < r <= n as real
  {
    if r >= 0.0 then r.Floor else -((-r).Floor)
  }

  /** Converting a value that already is a whole number loses nothing. */
  lemma TruncOfWhole(n: int)
    ensures TruncToInt(n as real) == n
  {
  }

  /** Truncation preserves order (it is monotone on both sides of zero). */
  lemma TruncMonotone(a: real, b: real)
    requires a <= b
    ensures TruncToInt(a) <= TruncToInt(b)
  {
  }
}
