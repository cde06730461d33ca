/** Facts about division that the solver needs in small steps. */
module Arithmetic {
  lemma MultipleIsFarFromZero(a: int, k: int)
    requires a != 0 && k != 0
    ensures var size := if a < 0 then -a else a; a * k >= size || a * k <= -size
  {
    if k > 0 {
      assert if a > 0 then a * k >= a else a * k <= a;
    } else {
      assert if a > 0 then a * k <= -a else a * k >= -a;
    }
  }

  lemma Division(n: int, d: int)
    requires d != 0
    ensures n == d * (n / d) + n % d
  {
  }

  lemma Difference(d: int, p: int, q: int)
    ensures d * p - d * q == d * (p - q)
  {
  }

  /** Quotient and remainder are determined by their equation. */
  lemma QuotientIsUnique(n: int, d: int, q: int, r: int)
    requires d != 0 && 0 <= r < (if d < 0 then -d else d) && n == d * q + r
    ensures n / d == q && n % d == r
  {
    Division(n, d);
    Difference(d, n / d, q);
    if n / d != q {
      MultipleIsFarFromZero(d, n / d - q);
    }
  }
}
