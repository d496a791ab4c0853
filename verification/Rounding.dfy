/** decimal.js ROUND_HALF_UP: to the nearest, and a half goes away from zero. */
module Rounding {

  function Round(x: real): int {
    if x >= 0.0 then (x + 0.5).Floor else -((0.5 - x).Floor)
  }

  /** The whole cents of an amount, as `toDecimalPlaces(2)` and `toFixed(2)` leave it. */
  function Cents(x: real): int {
    Round(100.0 * x)
  }

  lemma {:induction false} RoundNearest(x: real)
    ensures -0.5 <= Round(x) as real - x <= 0.5
    ensures x >= 0.0 ==> Round(x) >= 0
    ensures x <= 0.0 ==> Round(x) <= 0
    ensures x == x.Floor as real ==> Round(x) == x.Floor
  {
  }

  /** A half goes away from zero. */
  lemma {:induction false} HalvesGoAway(x: real)
    ensures Round(x) as real - x == 0.5 ==> x > 0.0
    ensures Round(x) as real - x == -0.5 ==> x < 0.0
  {
  }

  lemma {:induction false} RoundMonotone(x: real, y: real)
    requires x <= y
    ensures Round(x) <= Round(y)
  {
    RoundNearest(x);
    RoundNearest(y);
  }

  /** Whole units pass through rounding, as long as the amount does not round below zero. */
  lemma {:induction false} RoundShift(x: real, n: int)
    requires x >= 0.0 && x + n as real > -0.5
    ensures Round(x + n as real) == Round(x) + n
  {
  }

  /** Round(n / d), in whole numbers: how the amounts of cents are rounded. */
  function RoundRatio(n: int, d: nat): int
    requires d > 0
  {
    if n >= 0 then (2 * n + d) / (2 * d) else -((d - 2 * n) / (2 * d))
  }

  /** The nearest whole number, pinned down by two bounds. */
  lemma {:induction false} RatioNearest(n: int, d: nat)
    requires d > 0
    ensures var r := RoundRatio(n, d); 2 * n - d <= 2 * d * r <= 2 * n + d
    ensures n >= 0 ==> RoundRatio(n, d) >= 0
    ensures n <= 0 ==> RoundRatio(n, d) <= 0
  {
    var m := if n >= 0 then 2 * n + d else d - 2 * n;
    assert m == 2 * d * (m / (2 * d)) + m % (2 * d);
  }

  lemma {:induction false} Grows(d: int, a: int, b: int)
    requires d > 0 && a <= b
    ensures d * a <= d * b
  {
    assert d * b - d * a == d * (b - a);
  }

  lemma {:induction false} Cancels(d: int, a: int, b: int)
    requires d > 0 && d * a < d * b
    ensures a < b
  {
    if b <= a {
      Grows(d, b, a);
    }
  }

  lemma {:induction false} Scaled(d: int, k: int)
    requires d > 0 && -d < d * k < d
    ensures k == 0
  {
    Cancels(d, -1, k);
    Cancels(d, k, 1);
  }

  /** And only one whole number is strictly nearer than a half. */
  lemma {:induction false} RatioIs(n: int, d: nat, r: int)
    requires d > 0 && 2 * n - d < 2 * d * r < 2 * n + d
    ensures RoundRatio(n, d) == r
  {
    var q, e := RoundRatio(n, d), 2 * d;
    RatioNearest(n, d);
    assert e * (q - r) == e * q - e * r;
    Scaled(e, q - r);
  }

  lemma {:induction false} QuotientIs(m: int, e: int, k: int)
    requires e > 0 && e * k <= m < e * k + e
    ensures m / e == k
  {
    assert m == e * (m / e) + m % e;
    assert e * (m / e - k) == e * (m / e) - e * k;
    Scaled(e, m / e - k);
  }

  /** Rounding up is decided by the remainder. */
  lemma {:induction false} RatioByRemainder(n: nat, d: nat)
    requires d > 0
    ensures RoundRatio(n, d) == n / d + (if 2 * (n % d) < d then 0 else 1)
  {
    var q, r := n / d, n % d;
    var k := q + (if 2 * r < d then 0 else 1);
    assert n == d * q + r;
    assert (2 * d) * k == 2 * (d * q) + (if 2 * r < d then 0 else 2 * d);
    QuotientIs(2 * n + d, 2 * d, k);
  }

  lemma {:induction false} RatioIsOdd(n: int, d: nat)
    requires d > 0
    ensures RoundRatio(-n, d) == -RoundRatio(n, d)
  {
    if n == 0 {
      QuotientIs(d, 2 * d, 0);
    }
  }
}
