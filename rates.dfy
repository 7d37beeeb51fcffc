/**
 * Completion rates. `Math.round(x)` on a non-negative exact rational is
 * rounding half up; `Math.round(r * 100) / 100` keeps two decimals, which the
 * model represents exactly as a whole number of hundredths of a percent.
 */
module Rates {

  /**
   * `total > 0 ? Math.round((completed / total) * 100 * 100) / 100 : 0`, in
   * hundredths of a percent: the nearest integer to 10000 * completed / total,
   * halves rounded up.
   */
  function PercentHundredths(completed: nat, total: nat): (h: nat)
    ensures total == 0 ==> h == 0
    ensures total > 0 ==> 2 * total * h <= 20000 * completed + total < 2 * total * (h + 1)
    ensures completed <= total ==> h <= 10000
  {
    if total > 0 then
      var h := (20000 * completed + total) / (2 * total);
      DivBounds(20000 * completed + total, 2 * total);
      if completed <= total then
        assert 2 * total * h <= 20000 * total + total;
        UpperBound(h, total);
        h
      else h
    else 0
  }

  /** `total > 0 ? Math.round((completed / total) * 100) : 0`: a whole percentage. */
  function PercentRounded(completed: nat, total: nat): (p: nat)
    ensures total == 0 ==> p == 0
    ensures total > 0 ==> 2 * total * p <= 200 * completed + total < 2 * total * (p + 1)
    ensures completed <= total ==> p <= 100
  {
    if total > 0 then
      var p := (200 * completed + total) / (2 * total);
      DivBounds(200 * completed + total, 2 * total);
      if completed <= total then
        assert 2 * total * p <= 200 * total + total;
        UpperBoundPercent(p, total);
        p
      else p
    else 0
  }

  lemma DivBounds(n: nat, d: nat)
    requires d > 0
    ensures d * (n / d) <= n < d * (n / d + 1)
  {
  }

  lemma UpperBound(h: nat, total: nat)
    requires total > 0 && 2 * total * h <= 20000 * total + total
    ensures h <= 10000
  {
    if h > 10000 {
      assert 2 * total * h >= 2 * total * 10001 by {
        MulMonotone(2 * total, 10001, h);
      }
    }
  }

  lemma UpperBoundPercent(p: nat, total: nat)
    requires total > 0 && 2 * total * p <= 200 * total + total
    ensures p <= 100
  {
    if p > 100 {
      assert 2 * total * p >= 2 * total * 101 by {
        MulMonotone(2 * total, 101, p);
      }
    }
  }

  lemma MulMonotone(k: nat, a: nat, b: nat)
    requires a <= b
    ensures k * a <= k * b
  {
  }

  /** All tasks completed gives exactly 100 %. */
  lemma AllDone(total: nat)
    requires total > 0
    ensures PercentHundredths(total, total) == 10000 && PercentRounded(total, total) == 100
  {
    var h := PercentHundredths(total, total);
    if h < 10000 {
      MulMonotone(2 * total, h + 1, 10000);
    }
    var p := PercentRounded(total, total);
    if p < 100 {
      MulMonotone(2 * total, p + 1, 100);
    }
  }

  /** No task completed gives exactly 0 %. */
  lemma NoneDone(total: nat)
    requires total > 0
    ensures PercentHundredths(0, total) == 0 && PercentRounded(0, total) == 0
  {
    var h := PercentHundredths(0, total);
    if h > 0 {
      MulMonotone(2 * total, 1, h);
    }
  }
}
