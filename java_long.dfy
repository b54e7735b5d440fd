/** Java's 64-bit `long` and its division operator, which truncates toward
    zero (Dafny's `/` on `int` is Euclidean, and the two differ on negative
    dividends). */
module JavaLong {

  const MinLong: int := -0x8000_0000_0000_0000
  const MaxLong: int := 0x7fff_ffff_ffff_ffff

  type Long = x: int | MinLong <= x <= MaxLong

  /** `a / b` on Java longs, for the positive divisors this model uses: the
      quotient is rounded toward zero, so the remainder `a - q * b` has the
      sign of the dividend and is smaller than the divisor. */
  function Div(a: Long, b: Long): (q: Long)
    requires b > 0
    ensures var r := a - q * b; -b < r < b
    ensures a >= 0 ==> 0 <= a - q * b
    ensures a <= 0 ==> a - q * b <= 0
  {
    TruncatedQuotient(a, b);
    if a >= 0 then a / b else -((-(a as int)) / b)
  }

  lemma TruncatedQuotient(a: int, b: int)
    requires b > 0
    ensures var q := if a >= 0 then a / b else -((-a) / b);
      && -b < a - q * b < b
      && (a >= 0 ==> 0 <= a - q * b)
      && (a <= 0 ==> a - q * b <= 0)
      && (a >= 0 ==> 0 <= q <= a)
      && (a < 0 ==> a <= q <= 0)
  {
    if a >= 0 {
      QuotientBounds(a, b);
    } else {
      QuotientBounds(-a, b);
      NegatedQuotient(a, b);
    }
  }

  lemma MulNonNegative(x: int, y: int)
    requires x >= 0 && y >= 0
    ensures x * y >= 0
  {
  }

  /** Euclidean division of a natural number by a positive one. */
  lemma QuotientBounds(n: nat, d: int)
    requires d > 0
    ensures 0 <= n / d <= n
    ensures 0 <= n - (n / d) * d < d
  {
    var q, r := n / d, n % d;
    assert n == q * d + r && 0 <= r < d;
    if q < 0 {
      MulNonNegative(-q - 1, d);
      assert false;
    }
    MulNonNegative(q, d - 1);
  }

  lemma NegatedQuotient(a: int, b: int)
    requires a < 0 && b > 0
    ensures var q := -((-a) / b); -b < a - q * b <= 0
  {
    var m := (-a) / b;
    QuotientBounds(-a, b);
    assert 0 <= -a - m * b < b;
  }

  /** On a non-negative dividend, truncating and Euclidean division agree. */
  lemma DivNonNegative(a: Long, b: Long)
    requires a >= 0 && b > 0
    ensures Div(a, b) == a / b
  {
  }

  /** On a negative dividend that the divisor does not divide, truncating
      division is one more than Euclidean division. */
  lemma DivNegative(a: Long, b: Long)
    requires a < 0 && b > 0 && a % b != 0
    ensures Div(a, b) == a / b + 1
  {
    var q := Div(a, b);
    var e := a / b;
    var d := q - e;
    assert a == e * b + a % b;
    assert d * b == a % b - (a - q * b);
    assert 0 < d * b < 2 * b;
    if d <= 0 {
      MulNonNegative(-d, b);
      assert false;
    } else if d >= 2 {
      MulNonNegative(d - 2, b);
      assert false;
    }
  }
}
