// Facts about products and quotients that the solver does not find unaided.
module Arithmetic {

  lemma NoMultipleBetween(d: int, k: int)
    requires d > 0 && -d < d * k < d
    ensures k == 0
  {
  }

  lemma DivUnique(a: int, d: int, q: int)
    requires d > 0 && d * q <= a < d * q + d
    ensures a / d == q
  {
    assert a == d * (a / d) + a % d;
    assert d * (a / d - q) == d * (a / d) - d * q;
    NoMultipleBetween(d, a / d - q);
  }

  lemma ModUnique(a: int, d: int, q: int, m: int)
    requires d > 0 && a == d * q + m && 0 <= m < d
    ensures a % d == m && a / d == q
  {
    DivUnique(a, d, q);
  }

  lemma MulMonotone(a: int, b: int, d: int)
    requires a <= b && d >= 0
    ensures a * d <= b * d
  {
    assert b * d == a * d + (b - a) * d;
  }

  lemma DivMonotone(a: int, b: int, d: int)
    requires a <= b && d > 0
    ensures a / d <= b / d
  {
    assert a == d * (a / d) + a % d && b == d * (b / d) + b % d;
    var k := a / d - b / d;
    assert d * k == d * (a / d) - d * (b / d) < d;
    if k >= 1 { MulMonotone(1, k, d); }
  }

  function Pow2(n: nat): (p: nat)
    ensures p >= 1
  {
    if n == 0 then 1 else 2 * Pow2(n - 1)
  }
}
