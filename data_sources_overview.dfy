/** The sync-success tile of the data-sources overview page
    (src/app/features/data-sources/overview/data-sources-overview-container.component.ts). */
module DataSourcesOverview {

  /** `dataSyncSuccess`: `Math.round(connected / total * 100)` for a
      positive total, else 0, computed exactly: rounding to the nearest
      integer with halves going up is `(200c + t) div (2t)`. */
  function DataSyncSuccess(total: nat, connected: nat): (percent: nat)
    ensures total == 0 ==> percent == 0
    ensures connected == 0 ==> percent == 0
    ensures connected <= total ==> percent <= 100
    ensures 0 < total == connected ==> percent == 100
  {
    if total > 0 then
      RoundedPercentBound(total, connected);
      (200 * connected + total) / (2 * total)
    else 0
  }

  lemma RoundedPercentBound(total: nat, connected: nat)
    requires total > 0
    ensures connected <= total ==> (200 * connected + total) / (2 * total) <= 100
    ensures connected == total ==> (200 * connected + total) / (2 * total) == 100
    ensures connected == 0 ==> (200 * connected + total) / (2 * total) == 0
  {
    var d := 2 * total;
    var n := 200 * connected + total;
    var q := n / d;
    assert n == d * q + n % d && 0 <= n % d < d;
    if connected <= total {
      assert n < d * 101;
      MulMonotone(d, 101, q);
    }
    if connected == total {
      assert n == d * 100 + total;
      DivUnique(n, d, 100, total);
    }
    if connected == 0 {
      DivUnique(n, d, 0, total);
    }
  }

  /** Multiplying by a non-negative factor keeps the order. */
  lemma MulMonotone(d: nat, a: int, b: int)
    ensures a <= b ==> d * a <= d * b
  {
    if a <= b {
      MulNonNegative(d, b - a);
      assert d * b - d * a == d * (b - a);
    }
  }

  lemma {:induction false} MulNonNegative(d: nat, k: nat)
    ensures d * k >= 0
    decreases k
  {
    if k > 0 {
      MulNonNegative(d, k - 1);
      assert d * k == d * (k - 1) + d;
    }
  }

  /** Division is determined by any quotient/remainder pair. */
  lemma DivUnique(n: int, d: int, q: int, r: int)
    requires d > 0 && 0 <= r < d && n == d * q + r
    ensures n / d == q
  {
    var q' := n / d;
    var r' := n % d;
    assert n == d * q' + r' && 0 <= r' < d;
    assert d * (q + 1) == d * q + d;
    assert d * (q' + 1) == d * q' + d;
    MulMonotone(d, q + 1, q');
    MulMonotone(d, q' + 1, q);
  }

  /** The result is the integer nearest to `100 * connected / total`, a
      tie going up: `percent - 1/2 <= 100c/t < percent + 1/2`. */
  lemma DataSyncSuccessIsNearest(total: nat, connected: nat)
    requires total > 0
    ensures var percent := DataSyncSuccess(total, connected);
      2 * total * percent <= 200 * connected + total < 2 * total * percent + 2 * total
  {
    var d := 2 * total;
    var n := 200 * connected + total;
    assert n == d * (n / d) + n % d;
  }

  /** For a fixed total, more connected sources never lower the percentage. */
  lemma DataSyncSuccessMonotone(total: nat, fewer: nat, more: nat)
    requires fewer <= more
    ensures DataSyncSuccess(total, fewer) <= DataSyncSuccess(total, more)
  {
    if total > 0 {
      var d := 2 * total;
      var p := DataSyncSuccess(total, fewer);
      var q := DataSyncSuccess(total, more);
      DataSyncSuccessIsNearest(total, fewer);
      DataSyncSuccessIsNearest(total, more);
      assert d * (q + 1) == d * q + d;
      MulMonotone(d, q + 1, p);
    }
  }
}
