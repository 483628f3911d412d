/**
 Rust's `/` and `%` on signed integers truncate toward zero, while Dafny's
 are Euclidean. `Quot` and `Rem` model the Rust operators for a positive
 divisor, which is the only kind the modelled code uses.
 */
module Trunc {

  /** Euclidean division of a non-negative number by a positive one, read as bounds. */
  lemma DivBounds(n: nat, b: int)
    requires b > 0
    ensures 0 <= n / b
    ensures b * (n / b) <= n < b * (n / b) + b
    ensures b * -(n / b) == -(b * (n / b))
  {
  }

  /**
   Rust's `a / b` for `b > 0`: the quotient rounded toward zero, so its
   magnitude is the floor of `|a| / b` and its sign is that of `a`.
   */
  function Quot(a: int, b: int): (q: int)
    requires b > 0
    ensures a >= 0 ==> 0 <= q && b * q <= a < b * q + b
    ensures a < 0 ==> q <= 0 && b * q - b < a <= b * q
  {
    var n := if a >= 0 then a else -a;
    DivBounds(n, b);
    if a >= 0 then n / b else -(n / b)
  }

  /** Rust's `a % b` for `b > 0`: the remainder takes the sign of `a`. */
  function Rem(a: int, b: int): (r: int)
    requires b > 0
    ensures a == b * Quot(a, b) + r
    ensures a >= 0 ==> 0 <= r < b
    ensures a < 0 ==> -b < r <= 0
  {
    a - b * Quot(a, b)
  }

  /** On a non-negative dividend the truncating operators agree with Dafny's Euclidean ones. */
  lemma QuotRemNonNegative(a: int, b: int)
    requires a >= 0 && b > 0
    ensures Quot(a, b) == a / b && Rem(a, b) == a % b
  {
  }

  /** Truncating division by 60 twice equals one truncating division by 3600. */
  lemma QuotSixtySixty(a: int)
    ensures Quot(Quot(a, 60), 60) == Quot(a, 3600)
  {
    var q1 := Quot(a, 60);
    var q2 := Quot(q1, 60);
    assert a >= 0 ==> 3600 * q2 <= a < 3600 * q2 + 3600;
    assert a < 0 ==> 3600 * q2 - 3600 < a <= 3600 * q2;
  }
}
