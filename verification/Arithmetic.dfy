/** Products, quotients and whole units, kept apart so that each proof stays small. */
module Arithmetic {
  lemma MulNonNegative(a: nat, b: nat)
    ensures a * b >= 0
  {
  }

  lemma MulAtLeast(k: int, m: nat)
    requires k >= 1
    ensures k * m >= m
  {
    assert k * m == (k - 1) * m + m;
  }

  lemma MulMonotone(a: int, a': int, b: int)
    requires a <= a' && 0 <= b
    ensures a * b <= a' * b
  {
  }

  lemma MulAdd(a: int, b: int, unit: int)
    ensures (a + b) * unit == a * unit + b * unit && 0 * unit == 0
  {
  }

  lemma DivModUnique(x: int, m: nat, q: int, r: int)
    requires m > 0 && x == q * m + r && 0 <= r < m
    ensures x / m == q && x % m == r
  {
    var q', r' := x / m, x % m;
    assert x == q' * m + r';
    assert (q - q') * m == r' - r;
    if q > q' {
      assert (q - q') * m >= m by { MulAtLeast(q - q', m); }
    } else if q < q' {
      assert (q' - q) * m >= m by { MulAtLeast(q' - q, m); }
    }
  }

  lemma UnitsOf(n: nat, unit: nat)
    requires unit > 0
    ensures n == (n / unit) * unit + n % unit
  {
  }

  lemma MultipleOf(k: int, unit: nat)
    requires unit > 0
    ensures (k * unit) % unit == 0 && (k * unit) / unit == k
  {
    DivModUnique(k * unit, unit, k, 0);
  }

  lemma UnitsCompare(a: int, b: int, unit: nat)
    requires unit > 0
    ensures a * unit <= b * unit <==> a <= b
  {
    if a > b {
      MulAtLeast(a - b, unit);
      assert a * unit == (a - b) * unit + b * unit;
    } else if a < b {
      MulAtLeast(b - a, unit);
      assert b * unit == (b - a) * unit + a * unit;
    }
  }

  lemma DivAtLeast(x: nat, q: nat, m: nat)
    requires m > 0 && x >= q * m
    ensures x / m >= q
  {
    UnitsOf(x, m);
    if x / m < q { MulMonotone(x / m + 1, q, m); MulAdd(x / m, 1, m); }
  }

  lemma DivBelow(x: nat, q: nat, m: nat)
    requires m > 0 && x < q * m
    ensures x / m < q
  {
    UnitsOf(x, m);
    if x / m >= q { MulMonotone(q, x / m, m); }
  }
}
