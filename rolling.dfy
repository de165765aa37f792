/** The rolling-window volatility table (`rolling_analysis`). */
module Rolling {
  import opened Numerics
  import opened Stats
  import opened Config
  import opened Spectral

  /** The first position of the `r`-th window */
  function Start(r: int, step: int): (start: int) {
    r * step
  }

  /** `len(range(0, n - window, step))`: the number of window starts
      0, step, 2 * step, ... strictly below `n - window` */
  function WindowCount(n: int, window: int, step: int): (count: nat)
    requires step >= 1
    ensures forall r :: 0 <= r < count ==> Start(r, step) < n - window
    ensures Start(count, step) >= n - window
  {
    if n <= window then 0
    else
      var count := (n - window - 1) / step + 1;
      WindowCountBounds(n - window, step, count);
      count
  }

  /** `(m - 1) / step + 1` is the first multiple index of `step` at or past `m` */
  lemma WindowCountBounds(m: int, step: int, count: int)
    requires m >= 1 && step >= 1 && count == (m - 1) / step + 1
    ensures forall r :: 0 <= r < count ==> Start(r, step) < m
    ensures Start(count, step) >= m
  {
    var q := (m - 1) / step;
    assert q * step <= m - 1 < (q + 1) * step;
    forall r | 0 <= r < count ensures Start(r, step) < m {
      assert r <= q;
      assert r * step <= q * step;
    }
  }

  /** No window is reported for a series not longer than the window */
  lemma NoWindowsWhenShort(n: int, window: int, step: int)
    requires step >= 1 && n <= window
    ensures WindowCount(n, window, step) == 0
  {
  }

  /** The count of starts is pinned down by its two bounds */
  lemma {:induction false} WindowCountUnique(n: int, window: int, step: int, count: nat)
    requires step >= 1
    requires forall r :: 0 <= r < count ==> Start(r, step) < n - window
    requires Start(count, step) >= n - window
    ensures count == WindowCount(n, window, step)
  {
    var c := WindowCount(n, window, step);
    assert count < c ==> Start(count, step) < n - window;
    assert c < count ==> Start(c, step) < n - window;
  }

  /** Every reported window lies inside the series and ends before its last
      sample */
  lemma WindowsInside(n: int, window: int, step: int, r: int)
    requires step >= 1 && window >= 1 && 0 <= r < WindowCount(n, window, step)
    ensures 0 <= Start(r, step) && Start(r, step) + window < n
  {
    assert r * step >= 0;
  }

  /** One row of the table: the date of the window's last sample and the
      "total" volatility of each asset over the window */
  datatype RollingRow<D> = RollingRow(date: D, vols: seq<Float>)

  /** The "total" volatility of every asset over `[start, end)`:
      `calculate_volatility_spectral(window_data[asset])['total']` */
  method WindowVolatilities(sqrt: real -> real, periodogram: seq<real> -> Periodogram, a: Analyzer,
                            columns: seq<seq<real>>, start: int, end: int)
    returns (vols: seq<Float>)
    requires SqrtNonnegative(sqrt) && PeriodogramValid(periodogram) && Configured(a)
    requires 0 <= start <= end
    requires forall c :: 0 <= c < |columns| ==> end <= |columns[c]|
    ensures |vols| == |columns|
    ensures forall c :: 0 <= c < |columns| ==>
      vols[c] == TotalVolatility(sqrt, a.samplingFreq, true, columns[c][start..end])
  {
    vols := [];
    var c := 0;
    while c < |columns|
      invariant 0 <= c <= |columns| && |vols| == c
      invariant forall j :: 0 <= j < c ==> vols[j] == TotalVolatility(sqrt, a.samplingFreq, true, columns[j][start..end])
    {
      var vol := CalculateVolatilitySpectral(sqrt, periodogram, a, columns[c][start..end], true);
      vols := vols + [vol[Total]];
      c := c + 1;
    }
  }

  /** `rolling_analysis(returns, window, step)`: one row per window start
      0, step, 2 * step, ... strictly below `len - window`, dated at the
      window's last sample */
  method RollingAnalysis<D>(sqrt: real -> real, periodogram: seq<real> -> Periodogram, a: Analyzer,
                            dates: seq<D>, columns: seq<seq<real>>, window: int, step: int)
    returns (rows: seq<RollingRow<D>>)
    requires SqrtNonnegative(sqrt) && PeriodogramValid(periodogram) && Configured(a)
    requires window >= 1 && step >= 1
    requires forall c :: 0 <= c < |columns| ==> |columns[c]| == |dates|
    ensures |rows| == WindowCount(|dates|, window, step)
    ensures forall r :: 0 <= r < |rows| ==>
      && 0 <= Start(r, step) && Start(r, step) + window < |dates|
      && rows[r].date == dates[Start(r, step) + window - 1]
      && |rows[r].vols| == |columns|
      && forall c :: 0 <= c < |columns| ==>
           rows[r].vols[c] == TotalVolatility(sqrt, a.samplingFreq, true, columns[c][Start(r, step)..Start(r, step) + window])
  {
    rows := [];
    var start := 0;
    while start < |dates| - window
      invariant start == Start(|rows|, step)
      invariant forall r :: 0 <= r < |rows| ==> Start(r, step) < |dates| - window
      invariant forall r :: 0 <= r < |rows| ==>
        && 0 <= Start(r, step)
        && rows[r].date == dates[Start(r, step) + window - 1]
        && |rows[r].vols| == |columns|
        && forall c :: 0 <= c < |columns| ==>
             rows[r].vols[c] == TotalVolatility(sqrt, a.samplingFreq, true, columns[c][Start(r, step)..Start(r, step) + window])
      decreases |dates| - start
    {
      var end := start + window;
      var vols := WindowVolatilities(sqrt, periodogram, a, columns, start, end);
      rows := rows + [RollingRow(dates[end - 1], vols)];
      start := start + step;
    }
    WindowCountUnique(|dates|, window, step, |rows|);
  }
}
