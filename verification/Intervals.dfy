/** Stretches of whole intervals of real length. */
module Intervals {
  /** `n` intervals. */
  function Spread(n: nat, interval: real): real { if n == 0 then 0.0 else Spread(n - 1, interval) + interval }

  lemma {:induction false} SpreadIsProduct(n: nat, interval: real)
    ensures Spread(n, interval) == n as real * interval
  {
    if n > 0 {
      SpreadIsProduct(n - 1, interval);
      assert n as real == (n - 1) as real + 1.0;
      OneMore((n - 1) as real, interval);
    }
  }

  lemma OneMore(x: real, c: real)
    ensures (x + 1.0) * c == x * c + c
  {
  }

  lemma QuotientTimes(a: real, b: real)
    requires b > 0.0
    ensures (a / b) * b == a
  {
  }

  lemma CancelFactor(a: real, b: real, c: real)
    requires c > 0.0 && a * c <= b * c
    ensures a <= b
  {
    assert (b - a) * c >= 0.0;
  }

  lemma AtMostQuotient(x: real, c: real, total: real)
    requires c > 0.0 && x * c <= total
    ensures x <= total / c
  {
    QuotientTimes(total, c);
    CancelFactor(x, total / c, c);
  }

  lemma WholeIntervals(n: nat, interval: real, total: real)
    requires interval > 0.0 && Spread(n, interval) <= total
    ensures n <= (total / interval).Floor
  {
    SpreadIsProduct(n, interval);
    AtMostQuotient(n as real, interval, total);
  }
}
