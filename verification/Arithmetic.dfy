/** Facts about multiplication and division that the index arithmetic of the other modules needs. */
module Arithmetic {

  lemma MulMonotonic(a: int, x: int, y: int)
    requires a >= 0 && x <= y
    ensures a * x <= a * y
  {
    assert a * y - a * x == a * (y - x);
  }

  lemma DivModUnique(a: int, b: int, q: int, r: int)
    requires b > 0 && 0 <= r < b && a == b * q + r
    ensures a / b == q && a % b == r
  {
    var d := q - a / b;
    assert a == b * (a / b) + a % b;
    assert b * d == a % b - r;
    if d >= 1 {
      MulMonotonic(b, 1, d);
    } else if d <= -1 {
      MulMonotonic(b, d, -1);
    }
  }

  lemma MultipleMinus(n: nat, k: nat)
    requires n > 0 && k >= 1 && n % k == 0
    ensures n >= k && (n - k) % k == 0 && (n - k) / k == n / k - 1
  {
    var q := n / k;
    assert n == k * q;
    if q <= 0 { MulMonotonic(k, q, 0); }
    MulMonotonic(k, 1, q);
    assert n - k == k * (q - 1);
    DivModUnique(n - k, k, q - 1, 0);
  }

  lemma ExactDivision(n: int, k: int)
    requires k > 0 && n % k == 0
    ensures n / k * k == n
  {
    assert n == k * (n / k) + n % k;
  }

  lemma QuotientPositive(n: int, k: int)
    requires n >= k >= 1
    ensures n / k >= 1
  {
    if n / k <= 0 { MulMonotonic(k, n / k, 0); }
  }

  lemma QuotientNonNegative(n: int, k: int)
    requires n >= 0 && k > 0
    ensures n / k >= 0
  {
  }
}
