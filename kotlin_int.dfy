/**
 * Kotlin's `Int` division and remainder. Both truncate toward zero, whereas Dafny's `/` and `%`
 * are Euclidean; the two agree only when the dividend is non-negative.
 */
module KotlinInt {

  /** `a / b` on Kotlin `Int` (the quotient rounded toward zero). */
  function Div(a: int, b: int): (q: int)
    requires b != 0
    ensures a >= 0 && b > 0 ==> q == a / b
    ensures (a >= 0) == (b > 0) ==> q >= 0
  {
    if a >= 0 then
      (if b > 0 then a / b else -(a / -b))
    else
      (if b > 0 then -(-a / b) else -a / -b)
  }

  /** `a % b` on Kotlin `Int`: the remainder takes the sign of the dividend. */
  function Rem(a: int, b: int): (r: int)
    requires b != 0
    ensures a >= 0 && b > 0 ==> r == a % b
  {
    a - Div(a, b) * b
  }

  /** Kotlin's division laws: quotient and remainder rebuild the dividend, the remainder is smaller
      than the divisor in magnitude and never has the opposite sign of the dividend. */
  lemma DivRemLaws(a: int, b: int)
    requires b != 0
    ensures Div(a, b) * b + Rem(a, b) == a
    ensures a >= 0 ==> 0 <= Rem(a, b) < Abs(b)
    ensures a < 0 ==> Rem(a, b) <= 0 && Rem(a, b) + Abs(b) > 0
  {
    if a >= 0 {
      if b < 0 {
        assert Div(a, b) == -(a / -b);
        assert Rem(a, b) == a - (a / -b) * -b;
        assert Rem(a, b) == a % -b;
      }
    } else {
      if b > 0 {
        assert Div(a, b) == -(-a / b);
        assert Rem(a, b) == -((-a) % b);
      } else {
        assert Div(a, b) == -a / -b;
        assert Rem(a, b) == -((-a) % -b);
      }
    }
  }

  function Abs(a: int): (r: nat)
    ensures r == a || r == -a
  {
    if a < 0 then -a else a
  }
}
