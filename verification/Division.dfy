/**
 Facts about quotient and remainder by a variable divisor.
 */
module Division {

  /** Quotient and remainder are unique. */
  lemma DivUnique(a: int, q: int, r: int, n: nat)
    requires 0 <= r < n && a == q * n + r
    ensures a % n == r && a / n == q
  {
    var d := q - a / n;
    assert d * n == q * n - (a / n) * n;
    assert a == (a / n) * n + a % n;
    LapBound(d, n);
    assert 0 - n < d * n < n;
  }

  lemma LapBound(laps: int, boundary: nat)
    requires 0 < boundary
    ensures laps >= 1 ==> laps * boundary >= boundary
    ensures laps <= -1 ==> laps * boundary <= 0 - boundary
    ensures laps >= 2 ==> laps * boundary >= 2 * boundary
    ensures laps <= -2 ==> laps * boundary <= -2 * boundary
  {
    if laps >= 1 {
      assert laps * boundary == boundary + (laps - 1) * boundary;
      assert laps >= 2 ==> laps * boundary == 2 * boundary + (laps - 2) * boundary;
    } else if laps <= -1 {
      assert laps * boundary == 0 - boundary + (laps + 1) * boundary;
      assert laps <= -2 ==> laps * boundary == -2 * boundary + (laps + 2) * boundary;
    }
  }

  /** Reducing an index that is less than two laps ahead subtracts at most one lap. */
  lemma ModWrap(a: nat, n: nat)
    requires a < 2 * n
    ensures a % n == if a < n then a else a - n
  {
    if a < n {
      DivUnique(a, 0, a, n);
    } else {
      DivUnique(a, 1, a - n, n);
    }
  }
}
