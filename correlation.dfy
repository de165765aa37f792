/** The band-by-band correlation of two return series
    (`calculate_correlation_spectral`). */
module Correlation {
  import opened Numerics
  import opened Stats
  import opened Config
  import opened Filter

  /** Below this standard deviation a filtered series counts as flat */
  const Epsilon: real := 0.0000000001

  /** The value `calculate_correlation_spectral` enters for one band, given the
      two filtered series: the Pearson coefficient when both standard
      deviations exceed `Epsilon` (a NaN coefficient becomes 0.0), and 0.0
      otherwise, an empty series included. */
  function BandCorrelation(sqrt: real -> real, corrcoef: (seq<real>, seq<real>) -> Float, x: seq<real>, y: seq<real>): (c: real)
    requires SqrtNonnegative(sqrt) && CorrcoefValid(corrcoef)
    ensures -1.0 <= c <= 1.0
    ensures !(Std(sqrt, x).Exceeds(Epsilon) && Std(sqrt, y).Exceeds(Epsilon)) ==> c == 0.0
    ensures corrcoef(x, y).NaN? ==> c == 0.0
    ensures Std(sqrt, x).Exceeds(Epsilon) && Std(sqrt, y).Exceeds(Epsilon) && corrcoef(x, y).Num? ==>
      c == corrcoef(x, y).value
  {
    if Std(sqrt, x).Exceeds(Epsilon) && Std(sqrt, y).Exceeds(Epsilon) then
      match corrcoef(x, y)
      case Num(r) => r
      case NaN => 0.0
    else
      0.0
  }

  /** A flat series, constant or empty, correlates 0.0 with anything, on
      either side */
  lemma FlatSeriesUncorrelated(sqrt: real -> real, corrcoef: (seq<real>, seq<real>) -> Float, x: seq<real>, c: real, y: seq<real>)
    requires SqrtNonnegative(sqrt) && CorrcoefValid(corrcoef)
    requires Constant(x, c)
    ensures BandCorrelation(sqrt, corrcoef, x, y) == 0.0
    ensures BandCorrelation(sqrt, corrcoef, y, x) == 0.0
  {
    if |x| > 0 {
      ConstantStatistics(sqrt, x, c);
    }
    assert !Std(sqrt, x).Exceeds(Epsilon);
  }

  /** A band whose filter gave zeros for either series (a degenerate design
      or a library failure) reports no correlation */
  lemma ZeroedBandUncorrelated(sqrt: real -> real, filtfilt: (Design, seq<real>) -> Option<seq<real>>,
                               corrcoef: (seq<real>, seq<real>) -> Float, b: Band, x: seq<real>, y: seq<real>)
    requires SqrtNonnegative(sqrt) && FiltfiltValid(filtfilt) && CorrcoefValid(corrcoef)
    requires BandFiltered(filtfilt, b, x) == Zeros(|x|) || BandFiltered(filtfilt, b, y) == Zeros(|y|)
    ensures BandCorrelation(sqrt, corrcoef, BandFiltered(filtfilt, b, x), BandFiltered(filtfilt, b, y)) == 0.0
  {
    var fx, fy := BandFiltered(filtfilt, b, x), BandFiltered(filtfilt, b, y);
    if fx == Zeros(|x|) {
      FlatSeriesUncorrelated(sqrt, corrcoef, fx, 0.0, fy);
    } else {
      FlatSeriesUncorrelated(sqrt, corrcoef, fy, 0.0, fx);
    }
  }

  /** The band loop of `calculate_correlation_spectral` over the two
      decompositions, followed by the "total" entry */
  method CorrelateBands(sqrt: real -> real, filtfilt: (Design, seq<real>) -> Option<seq<real>>,
                        corrcoef: (seq<real>, seq<real>) -> Float, a: Analyzer, x: seq<real>, y: seq<real>,
                        decomposed1: map<BandName, seq<real>>, decomposed2: map<BandName, seq<real>>)
    returns (correlations: map<Key, Float>)
    requires SqrtNonnegative(sqrt) && FiltfiltValid(filtfilt) && CorrcoefValid(corrcoef) && Configured(a)
    requires decomposed1.Keys == set k | 0 <= k < |a.freqBands.value| :: a.freqBands.value[k].name
    requires forall k :: 0 <= k < |a.freqBands.value| ==>
      decomposed1[a.freqBands.value[k].name] == BandFiltered(filtfilt, a.freqBands.value[k], x)
    requires decomposed2.Keys == set k | 0 <= k < |a.freqBands.value| :: a.freqBands.value[k].name
    requires forall k :: 0 <= k < |a.freqBands.value| ==>
      decomposed2[a.freqBands.value[k].name] == BandFiltered(filtfilt, a.freqBands.value[k], y)
    ensures correlations.Keys == ReportKeys(a.freqBands.value)
    ensures forall k :: 0 <= k < |a.freqBands.value| ==>
      correlations[Of(a.freqBands.value[k].name)]
        == Num(BandCorrelation(sqrt, corrcoef, BandFiltered(filtfilt, a.freqBands.value[k], x),
                               BandFiltered(filtfilt, a.freqBands.value[k], y)))
    ensures correlations[Total] == corrcoef(x, y)
  {
    var bands := a.freqBands.value;
    ConfiguredDistinct(a);
    correlations := map[];
    var i := 0;
    while i < |bands|
      invariant 0 <= i <= |bands|
      invariant correlations.Keys == set k | 0 <= k < i :: Of(bands[k].name)
      invariant forall k :: 0 <= k < i ==>
        correlations[Of(bands[k].name)]
          == Num(BandCorrelation(sqrt, corrcoef, BandFiltered(filtfilt, bands[k], x), BandFiltered(filtfilt, bands[k], y)))
    {
      var b := bands[i];
      assert b.name in decomposed1 && b.name in decomposed2;
      var filtered1, filtered2 := decomposed1[b.name], decomposed2[b.name];
      var correlation := BandCorrelation(sqrt, corrcoef, filtered1, filtered2);
      KeyStep(correlations, bands, i, Num(correlation));
      correlations := correlations[Of(b.name) := Num(correlation)];
      i := i + 1;
    }
    correlations := correlations[Total := corrcoef(x, y)];
  }

  /** `calculate_correlation_spectral(returns1, returns2)`: both series are
      decomposed into the bands, each band gets the guarded coefficient of
      its two filtered series, and "total" the unguarded coefficient of the
      raw series (NaN for a constant series). `np.corrcoef` needs series of
      equal length. */
  method CalculateCorrelationSpectral(sqrt: real -> real, filtfilt: (Design, seq<real>) -> Option<seq<real>>,
                                      corrcoef: (seq<real>, seq<real>) -> Float, a: Analyzer, x: seq<real>, y: seq<real>)
    returns (correlations: map<Key, Float>)
    requires SqrtNonnegative(sqrt) && FiltfiltValid(filtfilt) && CorrcoefValid(corrcoef) && Configured(a)
    requires |x| == |y|
    ensures correlations.Keys == ReportKeys(a.freqBands.value)
    ensures forall k :: 0 <= k < |a.freqBands.value| ==>
      correlations[Of(a.freqBands.value[k].name)]
        == Num(BandCorrelation(sqrt, corrcoef, BandFiltered(filtfilt, a.freqBands.value[k], x),
                               BandFiltered(filtfilt, a.freqBands.value[k], y)))
    ensures correlations[Total] == corrcoef(x, y)
  {
    var decomposed1 := DecomposeFrequencyBands(filtfilt, a, x);
    var decomposed2 := DecomposeFrequencyBands(filtfilt, a, y);
    correlations := CorrelateBands(sqrt, filtfilt, corrcoef, a, x, y, decomposed1, decomposed2);
  }
}
