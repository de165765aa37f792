/** The trend/seasonal/residual split of a return series
    (`stl_decomposition`, with its moving-average fallback) and the
    seasonal-strength summary (`generate_stl_summary`). */
module Stl {
  import opened Numerics
  import opened Stats
  import opened Config

  /** The seasonal smoother length handed to STL */
  const SeasonalSmoother: int := 13
  /** The share of seasonal volatility STL extracts from pure noise */
  const Baseline: real := 0.35

  /** The period `generate_stl_summary` uses when none is given: 21 trading
      days (a month) for daily data, 12 months (a year) for monthly data and
      for every other frequency */
  function DefaultPeriod(f: SamplingFreq): (p: int)
    ensures p >= 1
    ensures p == 21 <==> f == Daily
    ensures p != 21 ==> p == 12
  {
    if f == Daily then 21 else if f == Monthly then 12 else 12
  }

  /** The centred window pandas averages for position `i`
      (`rolling(window=w, center=True)`): it ends, exclusively, `(w - 1) / 2`
      positions after `i + 1` and holds `w` positions */
  function WindowEnd(w: int, i: int): (end: int) {
    i + 1 + (w - 1) / 2
  }

  function WindowStart(w: int, i: int): (start: int) {
    WindowEnd(w, i) - w
  }

  /** The window is non-empty and lies wholly inside a series of length
      `n`; anywhere else the rolling mean has fewer than `w` observations, or
      none at all for `w == 0`, and is NaN */
  predicate WindowFits(n: int, w: int, i: int) {
    w >= 1 && 0 <= WindowStart(w, i) && WindowEnd(w, i) <= n
  }

  /** The window holds `i`, extends `w / 2` positions before it and
      `(w - 1) / 2` after it */
  lemma WindowAround(w: int, i: int)
    requires w >= 1
    ensures WindowStart(w, i) == i - w / 2
    ensures WindowStart(w, i) <= i < WindowEnd(w, i)
    ensures WindowEnd(w, i) - WindowStart(w, i) == w
  {
    assert (w - 1) / 2 + w / 2 == w - 1;
  }

  /** With the default daily period 21 the window is `i - 10 .. i + 10` */
  lemma DailyWindow(i: int)
    ensures WindowStart(21, i) == i - 10 && WindowEnd(21, i) == i + 11
  {
  }

  /** The fallback trend at `i`: the window mean where the window fits, the
      0 that `fillna(0)` puts in place of NaN elsewhere */
  function CentredMean(x: seq<real>, w: int, i: int): (m: real)
    requires w >= 0
    ensures !WindowFits(|x|, w, i) ==> m == 0.0
  {
    if WindowFits(|x|, w, i) then Mean(x[WindowStart(w, i)..WindowEnd(w, i)]).value else 0.0
  }

  /** The four series `stl_decomposition` returns */
  datatype Decomposition = Decomposition(original: seq<real>, trend: seq<real>, seasonal: seq<real>, residual: seq<real>)

  predicate Aligned(d: Decomposition) {
    |d.trend| == |d.original| && |d.seasonal| == |d.original| && |d.residual| == |d.original|
  }

  /** The fallback when STL raises: the centred moving average as trend,
      original minus trend as residual (both 0 where the window does not
      fit), and an all-zero seasonal series */
  function StlFallback(x: seq<real>, period: int): (d: Decomposition)
    requires period >= 0
    ensures Aligned(d) && d.original == x
    ensures d.seasonal == Zeros(|x|)
    ensures forall i :: 0 <= i < |x| ==> d.trend[i] == CentredMean(x, period, i)
    ensures forall i :: 0 <= i < |x| ==>
      d.residual[i] == if WindowFits(|x|, period, i) then x[i] - d.trend[i] else 0.0
  {
    var trend := seq(|x|, i requires 0 <= i < |x| => CentredMean(x, period, i));
    var residual := seq(|x|, i requires 0 <= i < |x| => if WindowFits(|x|, period, i) then x[i] - trend[i] else 0.0);
    Decomposition(x, trend, Zeros(|x|), residual)
  }

  /** Where the window fits, the fallback's trend is the mean of the
      `period` values around `i` */
  lemma CentredMeanIsWindowMean(x: seq<real>, period: int, i: int)
    requires period >= 0 && 0 <= i < |x| && WindowFits(|x|, period, i)
    ensures CentredMean(x, period, i) * (period as real) == Sum(x[WindowStart(period, i)..WindowEnd(period, i)])
  {
    WindowAround(period, i);
    var window := x[WindowStart(period, i)..WindowEnd(period, i)];
    var m := Mean(window);
    assert m.value * (|window| as real) == Sum(window);
  }

  /** Where the window fits, the fallback's trend, seasonal and residual add
      back up to the original value */
  lemma FallbackReconstructs(x: seq<real>, period: int, i: int)
    requires period >= 0 && 0 <= i < |x| && WindowFits(|x|, period, i)
    ensures StlFallback(x, period).trend[i] + StlFallback(x, period).seasonal[i] + StlFallback(x, period).residual[i] == x[i]
  {
    var d := StlFallback(x, period);
    assert d.seasonal[i] == 0.0;
    assert d.residual[i] == x[i] - d.trend[i];
  }

  /** A series shorter than the period has no full window anywhere: the
      fallback's trend and residual are all zero */
  lemma ShortSeriesFallbackIsFlat(x: seq<real>, period: int)
    requires period >= 1 && |x| < period
    ensures StlFallback(x, period).trend == Zeros(|x|)
    ensures StlFallback(x, period).residual == Zeros(|x|)
  {
    forall i | 0 <= i < |x| ensures !WindowFits(|x|, period, i) {
      WindowAround(period, i);
    }
  }

  /** With period 0 every window is empty: the rolling mean is NaN
      everywhere, and `fillna(0)` leaves an all-zero trend and residual */
  lemma ZeroPeriodFallbackIsFlat(x: seq<real>)
    ensures StlFallback(x, 0).trend == Zeros(|x|)
    ensures StlFallback(x, 0).residual == Zeros(|x|)
  {
  }

  /** The fallback trend of a constant series is that constant wherever the
      window fits, so its residual vanishes there */
  lemma FallbackOfConstant(x: seq<real>, c: real, period: int, i: int)
    requires period >= 0 && Constant(x, c) && 0 <= i < |x| && WindowFits(|x|, period, i)
    ensures StlFallback(x, period).trend[i] == c
    ensures StlFallback(x, period).residual[i] == 0.0
  {
    WindowAround(period, i);
    var window := x[WindowStart(period, i)..WindowEnd(period, i)];
    assert Constant(window, c);
    SumOfConstant(window, c);
    assert Mean(window).value * (period as real) == (period as real) * c;
  }

  /** `stl_decomposition(returns, period)`: the components of the STL fit,
      or the moving-average fallback when the fit raises */
  function StlDecomposition(stl: (seq<real>, int, int) -> Option<StlFit>, x: seq<real>, period: int): (d: Decomposition)
    requires StlValid(stl) && period >= 0
    ensures Aligned(d) && d.original == x
    ensures stl(x, period, SeasonalSmoother).None? ==> d == StlFallback(x, period)
    ensures stl(x, period, SeasonalSmoother).Some? ==>
      var fit := stl(x, period, SeasonalSmoother).value;
      d.trend == fit.trend && d.seasonal == fit.seasonal && d.residual == fit.resid
  {
    match stl(x, period, SeasonalSmoother)
    case Some(fit) => Decomposition(x, fit.trend, fit.seasonal, fit.resid)
    case None => StlFallback(x, period)
  }

  /** `seasonal_vol / total_vol if total_vol > 0 else 0` */
  function RawStrength(seasonalVol: Float, totalVol: Float): (raw: Float)
    ensures !totalVol.Exceeds(0.0) ==> raw == Num(0.0)
    ensures totalVol.Exceeds(0.0) ==> (raw.Num? <==> seasonalVol.Num?)
    ensures totalVol.Exceeds(0.0) && seasonalVol.Num? ==> raw.value * totalVol.value == seasonalVol.value
  {
    GuardedRatio(seasonalVol, totalVol)
  }

  /** The baseline correction of a raw strength: 0 below the baseline,
      otherwise `min((raw - 0.35) / (1 - 0.35), 1)` */
  function StrengthOf(raw: real): (strength: real)
    ensures raw < Baseline ==> strength == 0.0
    ensures Baseline <= raw <= 1.0 ==> strength * (1.0 - Baseline) == raw - Baseline
    ensures 1.0 < raw ==> strength == 1.0
  {
    if raw < Baseline then 0.0
    else
      var s := (raw - Baseline) / (1.0 - Baseline);
      if 1.0 < s then 1.0 else s
  }

  /** The same on a value that may be NaN: `NaN < 0.35` is false and
      `min(NaN, 1.0)` is NaN */
  function SeasonalStrength(raw: Float): (strength: Float)
    ensures strength.Num? <==> raw.Num?
    ensures strength.Num? ==> 0.0 <= strength.value <= 1.0
  {
    if raw.Num? then Num(StrengthOf(raw.value)) else NaN
  }

  /** The strength is a share: it lies in [0, 1], is 0 exactly up to the
      baseline and 1 exactly from a raw ratio of 1 on */
  lemma StrengthRange(raw: real)
    ensures 0.0 <= StrengthOf(raw) <= 1.0
    ensures StrengthOf(raw) == 0.0 <==> raw <= Baseline
    ensures StrengthOf(raw) == 1.0 <==> raw >= 1.0
  {
    if raw >= Baseline {
      var s := (raw - Baseline) / (1.0 - Baseline);
      assert s * (1.0 - Baseline) == raw - Baseline;
      assert s >= 1.0 <==> raw >= 1.0;
    }
  }

  /** A larger raw ratio never gives a smaller strength */
  lemma StrengthMonotone(r1: real, r2: real)
    requires r1 <= r2
    ensures StrengthOf(r1) <= StrengthOf(r2)
  {
    if r1 >= Baseline {
      var s1, s2 := (r1 - Baseline) / (1.0 - Baseline), (r2 - Baseline) / (1.0 - Baseline);
      assert s1 * (1.0 - Baseline) == r1 - Baseline;
      assert s2 * (1.0 - Baseline) == r2 - Baseline;
      assert s1 <= s2;
    } else {
      StrengthRange(r2);
    }
  }

  /** Scaling both volatilities by the same positive factor leaves the raw
      ratio, and so the strength, unchanged */
  lemma RawStrengthScaleInvariant(seasonalVol: Float, totalVol: Float, k: real)
    requires k > 0.0
    ensures RawStrength(seasonalVol.Times(k), totalVol.Times(k)) == RawStrength(seasonalVol, totalVol)
  {
    if totalVol.Exceeds(0.0) {
      var t := totalVol.value;
      assert t * k > 0.0;
      if seasonalVol.Num? {
        var s := seasonalVol.value;
        assert (s * k) / (t * k) == s / t;
      }
    } else if totalVol.Num? {
      assert totalVol.value * k <= 0.0;
    }
  }

  /** One row of the STL summary */
  datatype StlRow = StlRow(asset: string, trendVol: Float, seasonalVol: Float, residualVol: Float, seasonalStrength: Float)

  /** The row `generate_stl_summary` reports for a series: the population
      standard deviations of the three components, annualized, and the
      strength of the unannualized seasonal share */
  function StlRowFor(sqrt: real -> real, stl: (seq<real>, int, int) -> Option<StlFit>, f: SamplingFreq,
                     asset: string, x: seq<real>, period: int): (row: StlRow)
    requires SqrtNonnegative(sqrt) && StlValid(stl) && period >= 0
    ensures row.asset == asset
    ensures |x| > 0 ==> row.trendVol.Num? && row.seasonalVol.Num? && row.residualVol.Num?
    ensures |x| == 0 ==> row.trendVol.NaN? && row.seasonalVol.NaN? && row.residualVol.NaN?
  {
    var d := StlDecomposition(stl, x, period);
    var k := VolScale(sqrt, f, true);
    StlRow(asset, Std(sqrt, d.trend).Times(k), Std(sqrt, d.seasonal).Times(k), Std(sqrt, d.residual).Times(k),
           SeasonalStrength(RawStrength(Std(sqrt, d.seasonal), Std(sqrt, x))))
  }

  /** A non-empty series always gets a strength, and it lies in [0, 1] */
  lemma StlRowStrengthInRange(sqrt: real -> real, stl: (seq<real>, int, int) -> Option<StlFit>, f: SamplingFreq,
                              asset: string, x: seq<real>, period: int)
    requires SqrtNonnegative(sqrt) && StlValid(stl) && period >= 0 && |x| > 0
    ensures StlRowFor(sqrt, stl, f, asset, x, period).seasonalStrength.Num?
    ensures 0.0 <= StlRowFor(sqrt, stl, f, asset, x, period).seasonalStrength.value <= 1.0
  {
    var d := StlDecomposition(stl, x, period);
    var raw := RawStrength(Std(sqrt, d.seasonal), Std(sqrt, x));
    assert raw.Num?;
    StrengthRange(raw.value);
  }

  /** When STL raises, the seasonal series is flat: its volatility is 0 and
      so is the strength */
  lemma FallbackHasNoSeasonality(sqrt: real -> real, stl: (seq<real>, int, int) -> Option<StlFit>, f: SamplingFreq,
                                 asset: string, x: seq<real>, period: int)
    requires SqrtNonnegative(sqrt) && StlValid(stl) && period >= 0 && |x| > 0
    requires stl(x, period, SeasonalSmoother).None?
    ensures StlRowFor(sqrt, stl, f, asset, x, period).seasonalVol == Num(0.0)
    ensures StlRowFor(sqrt, stl, f, asset, x, period).seasonalStrength == Num(0.0)
  {
    StdOfZeros(sqrt, |x|);
    var sd := Std(sqrt, x);
    if sd.Exceeds(0.0) {
      assert 0.0 / sd.value == 0.0;
    }
  }

  /** `x.Times(1.0)` is `x` */
  lemma TimesOne(x: Float)
    ensures x.Times(1.0) == x
  {
  }

  /** `generate_stl_summary(returns, period)`: one row per asset, in column
      order. The volatilities are multiplied in place by `np.sqrt(252)` or
      `np.sqrt(12)`, and the strength is read off the annualized ratio,
      which is the unannualized one. */
  method GenerateStlSummary(sqrt: real -> real, stl: (seq<real>, int, int) -> Option<StlFit>, a: Analyzer,
                            assets: seq<string>, columns: seq<seq<real>>, period: Option<int>)
    returns (rows: seq<StlRow>)
    requires SqrtValid(sqrt) && StlValid(stl)
    requires |assets| == |columns|
    requires period.Some? ==> period.value >= 0
    ensures |rows| == |columns|
    ensures forall c :: 0 <= c < |columns| ==>
      rows[c] == StlRowFor(sqrt, stl, a.samplingFreq, assets[c], columns[c],
                           if period.Some? then period.value else DefaultPeriod(a.samplingFreq))
  {
    var p := if period.Some? then period.value else DefaultPeriod(a.samplingFreq);
    var k := VolScale(sqrt, a.samplingFreq, true);
    VolScaleIsRootOfReturnScale(sqrt, a.samplingFreq, true);
    rows := [];
    var c := 0;
    while c < |columns|
      invariant 0 <= c <= |columns| && |rows| == c
      invariant forall j :: 0 <= j < c ==> rows[j] == StlRowFor(sqrt, stl, a.samplingFreq, assets[j], columns[j], p)
    {
      var x := columns[c];
      var d := StlDecomposition(stl, x, p);
      var trendVol := Std(sqrt, d.trend);
      var seasonalVol := Std(sqrt, d.seasonal);
      var residualVol := Std(sqrt, d.residual);
      var totalVol := Std(sqrt, x);
      ghost var seasonal0, total0 := seasonalVol, totalVol;
      if a.samplingFreq == Daily {
        trendVol := trendVol.Times(sqrt(252.0));
        seasonalVol := seasonalVol.Times(sqrt(252.0));
        residualVol := residualVol.Times(sqrt(252.0));
        totalVol := totalVol.Times(sqrt(252.0));
      } else if a.samplingFreq == Monthly {
        trendVol := trendVol.Times(sqrt(12.0));
        seasonalVol := seasonalVol.Times(sqrt(12.0));
        residualVol := residualVol.Times(sqrt(12.0));
        totalVol := totalVol.Times(sqrt(12.0));
      } else {
        TimesOne(trendVol);
        TimesOne(seasonalVol);
        TimesOne(residualVol);
        TimesOne(totalVol);
      }
      var rawStrength := RawStrength(seasonalVol, totalVol);
      var seasonalStrength := SeasonalStrength(rawStrength);
      RawStrengthScaleInvariant(seasonal0, total0, k);
      rows := rows + [StlRow(assets[c], trendVol, seasonalVol, residualVol, seasonalStrength)];
      c := c + 1;
    }
  }
}
