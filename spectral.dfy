/** The spectral estimator: `calculate_expected_return` and
    `calculate_volatility_spectral`, which integrates the periodogram over
    each band. */
module Spectral {
  import opened Numerics
  import opened Stats
  import opened Config

  /** `calculate_expected_return(returns, annualize)`: the mean, scaled by 252
      (daily) or 12 (monthly) when annualizing; works for every sampling
      frequency */
  function CalculateExpectedReturn(a: Analyzer, data: seq<real>, annualize: bool): (r: map<Key, Float>)
    ensures r.Keys == {Total}
    ensures r[Total].NaN? <==> |data| == 0
    ensures r[Total].Num? ==>
      r[Total].value * (|data| as real) == ReturnScale(a.samplingFreq, annualize) * Sum(data)
  {
    var m := Mean(data);
    assert m.Num? ==> m.value * ReturnScale(a.samplingFreq, annualize) * (|data| as real)
                      == ReturnScale(a.samplingFreq, annualize) * (m.value * (|data| as real));
    map[Total := m.Times(ReturnScale(a.samplingFreq, annualize))]
  }

  /** The mask of a band over the periodogram frequencies: `0 <= f <= high`
      for long_term, `low <= f <= high` for every other band */
  predicate InMask(b: Band, f: real)
    ensures InMask(b, f) ==> f <= b.high
    ensures 0.0 <= b.low <= f <= b.high ==> InMask(b, f)
  {
    if b.name == LongTerm then 0.0 <= f <= b.high else b.low <= f <= b.high
  }

  /** `psd[mask]` and `freqs[mask]`: the bins inside the band, in order */
  function Select(pg: Periodogram, b: Band): (sel: Periodogram)
    requires |pg.freqs| == |pg.psd|
    ensures |sel.freqs| == |sel.psd| <= |pg.freqs|
    decreases |pg.freqs|
  {
    if |pg.freqs| == 0 then
      Periodogram([], [])
    else
      var rest := Select(Periodogram(pg.freqs[1..], pg.psd[1..]), b);
      if InMask(b, pg.freqs[0]) then
        Periodogram([pg.freqs[0]] + rest.freqs, [pg.psd[0]] + rest.psd)
      else
        rest
  }

  /** Some periodogram bin lies in the band's mask (`np.any(mask)`) */
  ghost predicate AnyBinIn(b: Band, pg: Periodogram) {
    exists i :: 0 <= i < |pg.freqs| && InMask(b, pg.freqs[i])
  }

  /** Every selected pair is a bin of the periodogram inside the mask
      (the converse is `SelectComplete`) */
  lemma {:induction false} SelectIsMask(pg: Periodogram, b: Band)
    requires |pg.freqs| == |pg.psd|
    ensures forall j :: 0 <= j < |Select(pg, b).freqs| ==> InMask(b, Select(pg, b).freqs[j])
    ensures forall j :: 0 <= j < |Select(pg, b).freqs| ==>
      exists i :: 0 <= i < |pg.freqs| && pg.freqs[i] == Select(pg, b).freqs[j] && pg.psd[i] == Select(pg, b).psd[j]
    decreases |pg.freqs|
  {
    if |pg.freqs| > 0 {
      var tail := Periodogram(pg.freqs[1..], pg.psd[1..]);
      SelectIsMask(tail, b);
      var sel, rest := Select(pg, b), Select(tail, b);
      forall j | 0 <= j < |Select(pg, b).freqs|
        ensures InMask(b, Select(pg, b).freqs[j])
        ensures exists i :: 0 <= i < |pg.freqs| && pg.freqs[i] == Select(pg, b).freqs[j] && pg.psd[i] == Select(pg, b).psd[j]
      {
        if InMask(b, pg.freqs[0]) && j == 0 {
          assert pg.freqs[0] == sel.freqs[j] && pg.psd[0] == sel.psd[j];
          assert 0 < |pg.freqs| && pg.freqs[0] == Select(pg, b).freqs[j] && pg.psd[0] == Select(pg, b).psd[j];
        } else {
          var r := if InMask(b, pg.freqs[0]) then j - 1 else j;
          assert sel.freqs[j] == rest.freqs[r] && sel.psd[j] == rest.psd[r];
          var i :| 0 <= i < |tail.freqs| && tail.freqs[i] == rest.freqs[r] && tail.psd[i] == rest.psd[r];
          assert i + 1 < |pg.freqs| && pg.freqs[i + 1] == Select(pg, b).freqs[j] && pg.psd[i + 1] == Select(pg, b).psd[j];
        }
      }
    } else {
      assert |Select(pg, b).freqs| == 0;
    }
  }

  /** Every bin inside the mask is selected, frequency and density together */
  lemma {:induction false} SelectComplete(pg: Periodogram, b: Band)
    requires |pg.freqs| == |pg.psd|
    ensures forall i :: 0 <= i < |pg.freqs| && InMask(b, pg.freqs[i]) ==>
      exists j :: 0 <= j < |Select(pg, b).freqs| && Select(pg, b).freqs[j] == pg.freqs[i] && Select(pg, b).psd[j] == pg.psd[i]
    decreases |pg.freqs|
  {
    if |pg.freqs| > 0 {
      var tail := Periodogram(pg.freqs[1..], pg.psd[1..]);
      SelectComplete(tail, b);
      var sel, rest := Select(pg, b), Select(tail, b);
      forall i | 0 <= i < |pg.freqs| && InMask(b, pg.freqs[i])
        ensures exists j :: 0 <= j < |Select(pg, b).freqs| && Select(pg, b).freqs[j] == pg.freqs[i] && Select(pg, b).psd[j] == pg.psd[i]
      {
        if i == 0 {
          assert 0 < |sel.freqs| && sel.freqs[0] == pg.freqs[0] && sel.psd[0] == pg.psd[0];
          assert 0 < |Select(pg, b).freqs| && Select(pg, b).freqs[0] == pg.freqs[0] && Select(pg, b).psd[0] == pg.psd[0];
        } else {
          assert tail.freqs[i - 1] == pg.freqs[i] && tail.psd[i - 1] == pg.psd[i];
          var r :| 0 <= r < |rest.freqs| && rest.freqs[r] == tail.freqs[i - 1] && rest.psd[r] == tail.psd[i - 1];
          var j := if InMask(b, pg.freqs[0]) then r + 1 else r;
          assert sel.freqs[j] == rest.freqs[r] && sel.psd[j] == rest.psd[r];
          assert j < |Select(pg, b).freqs| && Select(pg, b).freqs[j] == pg.freqs[i] && Select(pg, b).psd[j] == pg.psd[i];
        }
      }
    }
  }

  /** The selection is empty exactly when no bin lies in the mask */
  lemma {:induction false} SelectNonempty(pg: Periodogram, b: Band)
    requires |pg.freqs| == |pg.psd|
    ensures |Select(pg, b).freqs| > 0 <==> AnyBinIn(b, pg)
    decreases |pg.freqs|
  {
    if |pg.freqs| > 0 {
      var tail := Periodogram(pg.freqs[1..], pg.psd[1..]);
      SelectNonempty(tail, b);
      if AnyBinIn(b, pg) && !InMask(b, pg.freqs[0]) {
        var i :| 0 <= i < |pg.freqs| && InMask(b, pg.freqs[i]);
        assert InMask(b, tail.freqs[i - 1]);
      }
      if AnyBinIn(b, tail) {
        var i :| 0 <= i < |tail.freqs| && InMask(b, tail.freqs[i]);
        assert InMask(b, pg.freqs[i + 1]);
      }
    } else {
      assert !AnyBinIn(b, pg);
    }
  }

  /** `np.trapz(y, x)`: the trapezoid rule, 0 for fewer than two points */
  function Trapezoid(y: seq<real>, x: seq<real>): (area: real)
    requires |x| == |y|
    ensures |x| < 2 ==> area == 0.0
    decreases |x|
  {
    if |x| < 2 then 0.0
    else (x[1] - x[0]) * (y[0] + y[1]) / 2.0 + Trapezoid(y[1..], x[1..])
  }

  ghost predicate Nondecreasing(s: seq<real>) {
    forall i, j :: 0 <= i < j < |s| ==> s[i] <= s[j]
  }

  ghost predicate Nonnegative(s: seq<real>) {
    forall i :: 0 <= i < |s| ==> 0.0 <= s[i]
  }

  /** The trapezoid rule over increasing abscissae and non-negative ordinates
      is non-negative */
  lemma {:induction false} TrapezoidNonnegative(y: seq<real>, x: seq<real>)
    requires |x| == |y| && Nondecreasing(x) && Nonnegative(y)
    ensures Trapezoid(y, x) >= 0.0
    decreases |x|
  {
    if |x| >= 2 {
      var xs, ys := x[1..], y[1..];
      assert Nondecreasing(xs) && Nonnegative(ys) by {
        assert forall i :: 0 <= i < |xs| ==> xs[i] == x[i + 1];
        assert forall i :: 0 <= i < |ys| ==> ys[i] == y[i + 1];
      }
      TrapezoidNonnegative(ys, xs);
      var dx, sy := x[1] - x[0], y[0] + y[1];
      assert dx >= 0.0 && sy >= 0.0;
      assert dx * sy >= 0.0;
      assert Trapezoid(y, x) == dx * sy / 2.0 + Trapezoid(ys, xs);
    }
  }

  /** Every selected frequency is at least a lower bound of all the bins */
  lemma {:induction false} SelectBounded(pg: Periodogram, b: Band, lo: real)
    requires |pg.freqs| == |pg.psd|
    requires forall i :: 0 <= i < |pg.freqs| ==> lo <= pg.freqs[i]
    ensures forall j :: 0 <= j < |Select(pg, b).freqs| ==> lo <= Select(pg, b).freqs[j]
    decreases |pg.freqs|
  {
    if |pg.freqs| > 0 {
      var tail := Periodogram(pg.freqs[1..], pg.psd[1..]);
      assert forall i :: 0 <= i < |tail.freqs| ==> tail.freqs[i] == pg.freqs[i + 1];
      SelectBounded(tail, b, lo);
    }
  }

  /** The selected bins keep the periodogram's order and signs */
  lemma {:induction false} SelectKeepsShape(pg: Periodogram, b: Band)
    requires |pg.freqs| == |pg.psd|
    requires Nondecreasing(pg.freqs) && Nonnegative(pg.psd)
    ensures Nondecreasing(Select(pg, b).freqs) && Nonnegative(Select(pg, b).psd)
    decreases |pg.freqs|
  {
    if |pg.freqs| > 0 {
      var tail := Periodogram(pg.freqs[1..], pg.psd[1..]);
      assert Nondecreasing(tail.freqs) && Nonnegative(tail.psd) by {
        assert forall i :: 0 <= i < |tail.freqs| ==> tail.freqs[i] == pg.freqs[i + 1];
        assert forall i :: 0 <= i < |tail.psd| ==> tail.psd[i] == pg.psd[i + 1];
      }
      SelectKeepsShape(tail, b);
      SelectBounded(tail, b, pg.freqs[0]);
    }
  }

  /** The power of a band: the absolute trapezoid integral of the PSD over
      the bins in its mask */
  function BandPower(b: Band, pg: Periodogram): (power: real)
    requires |pg.freqs| == |pg.psd|
    ensures power >= 0.0
    ensures |Select(pg, b).freqs| < 2 ==> power == 0.0
  {
    Abs(Trapezoid(Select(pg, b).psd, Select(pg, b).freqs))
  }

  /** The unannualized standard deviation of a band: the root of its power,
      0.0 for an empty mask */
  function BandStd(sqrt: real -> real, b: Band, pg: Periodogram): (s: real)
    requires SqrtNonnegative(sqrt) && |pg.freqs| == |pg.psd|
    ensures s >= 0.0
    ensures |Select(pg, b).freqs| == 0 ==> s == 0.0
  {
    if |Select(pg, b).freqs| > 0 then sqrt(BandPower(b, pg)) else 0.0
  }

  /** Over a non-empty selection, the band's standard deviation is the root of its power */
  lemma BandStdIsRootOfPower(sqrt: real -> real, b: Band, pg: Periodogram)
    requires SqrtNonnegative(sqrt) && |pg.freqs| == |pg.psd| && |Select(pg, b).freqs| > 0
    ensures BandStd(sqrt, b, pg) == sqrt(BandPower(b, pg))
  {
  }

  lemma ProductNonnegative(x: real, y: real)
    requires x >= 0.0 && y >= 0.0
    ensures x * y >= 0.0
  {
  }

  /** Scaling a root by a root scales the squares */
  lemma ScaledSquare(v: real, s: real, k: real, ss: real, kk: real)
    requires v == s * k && s * s == ss && k * k == kk
    ensures v * v == kk * ss
  {
    assert v * v == (k * k) * (s * s);
  }

  /** The step-wise annualization of a volatility, `x *= np.sqrt(252)` for
      daily and `x *= np.sqrt(12)` for monthly data: a multiplication by
      `VolScale` */
  function Annualized(sqrt: real -> real, f: SamplingFreq, annualize: bool, x: real): (y: real)
    requires SqrtNonnegative(sqrt)
    ensures y == x * VolScale(sqrt, f, annualize)
  {
    if annualize && f == Daily then x * sqrt(252.0)
    else if annualize && f == Monthly then x * sqrt(12.0)
    else x
  }

  /** Annualizing a root of `x` gives a root of the annualized `x` */
  lemma AnnualizedRoot(sqrt: real -> real, f: SamplingFreq, annualize: bool, v: real, s: real, x: real)
    requires SqrtValid(sqrt) && v == Annualized(sqrt, f, annualize, s) && x >= 0.0 && s == sqrt(x)
    ensures v * v == ReturnScale(f, annualize) * x
  {
    RootSquares(sqrt, x);
    VolScaleIsRootOfReturnScale(sqrt, f, annualize);
    ScaledSquare(v, s, VolScale(sqrt, f, annualize), x, ReturnScale(f, annualize));
  }

  /** The volatility `calculate_volatility_spectral` reports for a band: the
      annualized root of the band's power, never negative */
  function BandVolatility(sqrt: real -> real, f: SamplingFreq, annualize: bool, b: Band, pg: Periodogram): (v: real)
    requires SqrtNonnegative(sqrt) && |pg.freqs| == |pg.psd|
    ensures v >= 0.0
  {
    var s := BandStd(sqrt, b, pg);
    ProductNonnegative(s, VolScale(sqrt, f, annualize));
    Annualized(sqrt, f, annualize, s)
  }

  /** A band none of whose bins lies in the mask has volatility 0.0 */
  lemma EmptyBandHasNoVolatility(sqrt: real -> real, f: SamplingFreq, annualize: bool, b: Band, pg: Periodogram)
    requires SqrtNonnegative(sqrt) && |pg.freqs| == |pg.psd| && !AnyBinIn(b, pg)
    ensures BandVolatility(sqrt, f, annualize, b, pg) == 0.0
  {
    SelectNonempty(pg, b);
  }

  /** The square of a band's volatility is the annualization scalar times
      the band's power, when some bin lies in the mask */
  lemma BandVolatilityIsRootOfPower(sqrt: real -> real, f: SamplingFreq, annualize: bool, b: Band, pg: Periodogram)
    requires SqrtValid(sqrt) && |pg.freqs| == |pg.psd| && AnyBinIn(b, pg)
    ensures BandVolatility(sqrt, f, annualize, b, pg) * BandVolatility(sqrt, f, annualize, b, pg)
      == ReturnScale(f, annualize) * BandPower(b, pg)
  {
    SelectNonempty(pg, b);
    BandStdIsRootOfPower(sqrt, b, pg);
    AnnualizedRoot(sqrt, f, annualize, BandVolatility(sqrt, f, annualize, b, pg), BandStd(sqrt, b, pg), BandPower(b, pg));
  }

  /** Over a genuine periodogram (increasing frequencies, non-negative
      density) the absolute value in the band's power changes nothing: the
      power is the trapezoid integral itself. */
  lemma BandPowerIsIntegral(b: Band, pg: Periodogram)
    requires |pg.freqs| == |pg.psd|
    requires Nondecreasing(pg.freqs) && Nonnegative(pg.psd)
    ensures BandPower(b, pg) == Trapezoid(Select(pg, b).psd, Select(pg, b).freqs)
  {
    SelectKeepsShape(pg, b);
    TrapezoidNonnegative(Select(pg, b).psd, Select(pg, b).freqs);
  }

  /** The "total" entry: `np.std(data)`, annualized like the bands (NaN for
      an empty series stays NaN) */
  function TotalVolatility(sqrt: real -> real, f: SamplingFreq, annualize: bool, data: seq<real>): (t: Float)
    requires SqrtNonnegative(sqrt)
    ensures t == Std(sqrt, data).Times(VolScale(sqrt, f, annualize))
    ensures t.NaN? <==> |data| == 0
    ensures t.Num? ==> t.value >= 0.0
  {
    var sd := Std(sqrt, data);
    if sd.Num? then
      ProductNonnegative(sd.value, VolScale(sqrt, f, annualize));
      assert sd.Times(VolScale(sqrt, f, annualize)) == Num(sd.value * VolScale(sqrt, f, annualize));
      Num(Annualized(sqrt, f, annualize, sd.value))
    else
      NaN
  }

  /** The total volatility's square is the annualized population variance */
  lemma TotalVolatilityIsRootOfVariance(sqrt: real -> real, f: SamplingFreq, annualize: bool, data: seq<real>)
    requires SqrtValid(sqrt) && |data| > 0
    ensures TotalVolatility(sqrt, f, annualize, data).value * TotalVolatility(sqrt, f, annualize, data).value
      == ReturnScale(f, annualize) * PopulationVariance(data)
  {
    AnnualizedRoot(sqrt, f, annualize, TotalVolatility(sqrt, f, annualize, data).value,
                   Std(sqrt, data).value, PopulationVariance(data));
  }

  /** For a configured table the long_term special case changes nothing:
      every mask is the band's closed interval, so a bin on a boundary
      between two neighbouring bands is counted in both of them, and every
      bin in [0, 0.5] is counted in at least one band. */
  lemma MasksAreClosedBands(bands: seq<Band>, f: real)
    requires BandTable(bands)
    ensures forall k :: 0 <= k < |bands| ==> (InMask(bands[k], f) <==> InBand(bands[k], f))
    ensures forall k :: 0 <= k < |bands| - 1 && f == bands[k].low ==>
      InMask(bands[k], f) && InMask(bands[k + 1], f)
    ensures 0.0 <= f <= 0.5 ==> exists k :: 0 <= k < |bands| && InMask(bands[k], f)
  {
    assert bands[3].low == 0.0;
    if 0.0 <= f <= 0.5 {
      TilingCovers(bands, f);
    }
  }

  /** The per-band part of `calculate_volatility_spectral`: one entry per
      band of the table, its annualized volatility from the periodogram */
  method BandVolatilityMap(sqrt: real -> real, f: SamplingFreq, annualize: bool, bands: seq<Band>, pg: Periodogram)
    returns (vols: map<Key, Float>)
    requires SqrtNonnegative(sqrt) && |pg.freqs| == |pg.psd| && DistinctNames(bands)
    ensures vols.Keys == set k | 0 <= k < |bands| :: Of(bands[k].name)
    ensures forall k :: 0 <= k < |bands| ==> vols[Of(bands[k].name)] == Num(BandVolatility(sqrt, f, annualize, bands[k], pg))
  {
    vols := map[];
    var i := 0;
    while i < |bands|
      invariant 0 <= i <= |bands|
      invariant vols.Keys == set k | 0 <= k < i :: Of(bands[k].name)
      invariant forall k :: 0 <= k < i ==> vols[Of(bands[k].name)] == Num(BandVolatility(sqrt, f, annualize, bands[k], pg))
    {
      var b := bands[i];
      var stdDev := BandVolatility(sqrt, f, annualize, b, pg);
      KeyStep(vols, bands, i, Num(stdDev));
      vols := vols[Of(b.name) := Num(stdDev)];
      i := i + 1;
    }
  }

  /** `calculate_volatility_spectral(returns, annualize)`: one volatility per
      band, integrated from the periodogram, and "total", the population
      standard deviation of the series; all scaled by the same factor */
  method CalculateVolatilitySpectral(sqrt: real -> real, periodogram: seq<real> -> Periodogram, a: Analyzer, data: seq<real>, annualize: bool)
    returns (vols: map<Key, Float>)
    requires SqrtNonnegative(sqrt) && PeriodogramValid(periodogram) && Configured(a)
    ensures vols.Keys == ReportKeys(a.freqBands.value)
    ensures forall k :: 0 <= k < |a.freqBands.value| ==>
      vols[Of(a.freqBands.value[k].name)]
        == Num(BandVolatility(sqrt, a.samplingFreq, annualize, a.freqBands.value[k], periodogram(data)))
    ensures vols[Total] == TotalVolatility(sqrt, a.samplingFreq, annualize, data)
  {
    ConfiguredDistinct(a);
    vols := BandVolatilityMap(sqrt, a.samplingFreq, annualize, a.freqBands.value, periodogram(data));
    var totalVol := TotalVolatility(sqrt, a.samplingFreq, annualize, data);
    vols := vols[Total := totalVol];
  }
}
