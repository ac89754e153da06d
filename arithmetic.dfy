/** C#'s integer `/` and `%`, which truncate toward zero (Dafny's own
    operators are Euclidean and differ for negative dividends). */
module Arithmetic {

  /** `a / b` in C#, for a positive divisor: the quotient rounded toward zero. */
  function TruncDiv(a: int, b: int): (q: int)
    requires b > 0
    ensures a >= 0 ==> 0 <= q && q * b <= a < q * b + b
    ensures a < 0 ==> q <= 0 && q * b - b < a <= q * b
  {
    if a >= 0 then DivBounds(a, b); a / b else DivBounds(-a, b); -((-a) / b)
  }

  /** Euclidean division of a non-negative dividend brackets it between two
      consecutive multiples of the divisor. */
  lemma DivBounds(a: nat, b: int)
    requires b > 0
    ensures 0 <= a / b && (a / b) * b <= a < (a / b) * b + b
  {
    var q, r := a / b, a % b;
    assert a == q * b + r && 0 <= r < b;
  }

  /** `a % b` in C#, for a positive divisor: the remainder takes the sign of `a`. */
  function TruncRem(a: int, b: int): (r: int)
    requires b > 0
    ensures a == TruncDiv(a, b) * b + r
    ensures a >= 0 ==> 0 <= r < b
    ensures a < 0 ==> -b < r <= 0
  {
    a - TruncDiv(a, b) * b
  }
}
