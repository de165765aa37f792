/** The per-asset summary table and the correlation matrix of
    `generate_summary_report`. */
module Summary {
  import opened Numerics
  import opened Stats
  import opened Config
  import opened Filter
  import opened Spectral
  import opened Correlation

  /** `exp_ret['total'] / vol['total'] if vol['total'] > 0 else 0`: the
      return per unit of volatility, 0 for a zero or NaN volatility */
  function Sharpe(expectedReturn: Float, volatility: Float): (s: Float)
    ensures !volatility.Exceeds(0.0) ==> s == Num(0.0)
    ensures volatility.Exceeds(0.0) ==> (s.Num? <==> expectedReturn.Num?)
    ensures volatility.Exceeds(0.0) && expectedReturn.Num? ==> s.value * volatility.value == expectedReturn.value
  {
    GuardedRatio(expectedReturn, volatility)
  }

  /** One row of the summary table */
  datatype SummaryRow = SummaryRow(
    asset: string,
    expectedReturn: Float,
    volatility: Float,
    sharpeRatio: Float,
    shortTermVol: Float,
    mediumTermVol: Float,
    businessCycleVol: Float,
    longTermVol: Float)

  /** The annualized volatility of every band of the table, in table order:
      `vol[band_name]` for each band */
  function BandVolatilities(sqrt: real -> real, f: SamplingFreq, bands: seq<Band>, pg: Periodogram): (vols: seq<Float>)
    requires SqrtNonnegative(sqrt) && |pg.freqs| == |pg.psd|
    ensures |vols| == |bands|
    ensures forall k :: 0 <= k < |vols| ==> vols[k].Num? && vols[k].value >= 0.0
    decreases |bands|
  {
    if bands == [] then []
    else [Num(BandVolatility(sqrt, f, true, bands[0], pg))] + BandVolatilities(sqrt, f, bands[1..], pg)
  }

  /** Entry `k` is the volatility `calculate_volatility_spectral` reports for
      band `k` */
  lemma {:induction false} BandVolatilitiesAre(sqrt: real -> real, f: SamplingFreq, bands: seq<Band>, pg: Periodogram)
    requires SqrtNonnegative(sqrt) && |pg.freqs| == |pg.psd|
    ensures forall k :: 0 <= k < |bands| ==>
      BandVolatilities(sqrt, f, bands, pg)[k] == Num(BandVolatility(sqrt, f, true, bands[k], pg))
    decreases |bands|
  {
    if bands != [] {
      BandVolatilitiesAre(sqrt, f, bands[1..], pg);
      assert forall k :: 1 <= k < |bands| ==> bands[1..][k - 1] == bands[k];
    }
  }

  /** The row reported for one asset: its annualized expected return and
      total volatility, their Sharpe ratio, and the annualized volatility of
      each band */
  function SummaryRowFor(sqrt: real -> real, periodogram: seq<real> -> Periodogram, a: Analyzer,
                         asset: string, x: seq<real>): (row: SummaryRow)
    requires SqrtNonnegative(sqrt) && PeriodogramValid(periodogram) && Configured(a)
    ensures row.asset == asset
    ensures |x| == 0 ==> row.expectedReturn.NaN? && row.volatility.NaN? && row.sharpeRatio == Num(0.0)
  {
    var f, bands, pg := a.samplingFreq, a.freqBands.value, periodogram(x);
    var expectedReturn := CalculateExpectedReturn(a, x, true)[Total];
    var volatility := TotalVolatility(sqrt, f, true, x);
    var vols := BandVolatilities(sqrt, f, bands, pg);
    SummaryRow(asset, expectedReturn, volatility, Sharpe(expectedReturn, volatility), vols[0], vols[1], vols[2], vols[3])
  }

  /** For a non-empty series every figure of the row is a number, every
      volatility is non-negative, and a positive volatility times the Sharpe
      ratio gives back the expected return */
  lemma SummaryRowDefined(sqrt: real -> real, periodogram: seq<real> -> Periodogram, a: Analyzer, asset: string, x: seq<real>)
    requires SqrtNonnegative(sqrt) && PeriodogramValid(periodogram) && Configured(a) && |x| > 0
    ensures var row := SummaryRowFor(sqrt, periodogram, a, asset, x);
      && row.expectedReturn.Num? && row.volatility.Num? && row.sharpeRatio.Num?
      && row.volatility.value >= 0.0
      && row.shortTermVol.value >= 0.0 && row.mediumTermVol.value >= 0.0
      && row.businessCycleVol.value >= 0.0 && row.longTermVol.value >= 0.0
      && (row.volatility.value > 0.0 ==> row.sharpeRatio.value * row.volatility.value == row.expectedReturn.value)
  {
  }

  /** The summary row of one asset, from `calculate_expected_return` and
      `calculate_volatility_spectral` */
  method SummaryRowOf(sqrt: real -> real, periodogram: seq<real> -> Periodogram, a: Analyzer, asset: string, x: seq<real>)
    returns (row: SummaryRow)
    requires SqrtNonnegative(sqrt) && PeriodogramValid(periodogram) && Configured(a)
    ensures row == SummaryRowFor(sqrt, periodogram, a, asset, x)
  {
    FreqBandsNames(a.samplingFreq);
    BandVolatilitiesAre(sqrt, a.samplingFreq, a.freqBands.value, periodogram(x));
    var expRet := CalculateExpectedReturn(a, x, true);
    var vol := CalculateVolatilitySpectral(sqrt, periodogram, a, x, true);
    row := SummaryRow(asset, expRet[Total], vol[Total], Sharpe(expRet[Total], vol[Total]),
                      vol[Of(ShortTerm)], vol[Of(MediumTerm)], vol[Of(BusinessCycle)], vol[Of(LongTerm)]);
  }

  /** The summary rows, one per asset in column order */
  method SummaryRows(sqrt: real -> real, periodogram: seq<real> -> Periodogram, a: Analyzer,
                     assets: seq<string>, columns: seq<seq<real>>)
    returns (rows: seq<SummaryRow>)
    requires SqrtNonnegative(sqrt) && PeriodogramValid(periodogram) && Configured(a)
    requires |assets| == |columns|
    ensures |rows| == |assets|
    ensures forall c :: 0 <= c < |assets| ==> rows[c] == SummaryRowFor(sqrt, periodogram, a, assets[c], columns[c])
  {
    rows := [];
    var c := 0;
    while c < |assets|
      invariant 0 <= c <= |assets| && |rows| == c
      invariant forall j :: 0 <= j < c ==> rows[j] == SummaryRowFor(sqrt, periodogram, a, assets[j], columns[j])
    {
      var row := SummaryRowOf(sqrt, periodogram, a, assets[c], columns[c]);
      rows := rows + [row];
      c := c + 1;
    }
  }

  function Min(i: int, j: int): (m: int) {
    if i <= j then i else j
  }

  function Max(i: int, j: int): (m: int) {
    if i <= j then j else i
  }

  /** Entry (i, j) of the correlation matrix: 1.0 on the diagonal, and the
      "total" correlation of the pair taken in column order elsewhere */
  function MatrixEntry(corrcoef: (seq<real>, seq<real>) -> Float, columns: seq<seq<real>>, i: int, j: int): (entry: Float)
    requires 0 <= i < |columns| && 0 <= j < |columns|
    ensures i == j ==> entry == Num(1.0)
    ensures i < j ==> entry == corrcoef(columns[i], columns[j])
    ensures j < i ==> entry == corrcoef(columns[j], columns[i])
  {
    if i == j then Num(1.0) else corrcoef(columns[Min(i, j)], columns[Max(i, j)])
  }

  /** The matrix is exactly symmetric, whatever the coefficient does with
      the order of its arguments */
  lemma MatrixSymmetric(corrcoef: (seq<real>, seq<real>) -> Float, columns: seq<seq<real>>, i: int, j: int)
    requires 0 <= i < |columns| && 0 <= j < |columns|
    ensures MatrixEntry(corrcoef, columns, i, j) == MatrixEntry(corrcoef, columns, j, i)
  {
  }

  /** Off the diagonal every entry is a coefficient, NaN or in [-1, 1] */
  lemma MatrixEntryRange(corrcoef: (seq<real>, seq<real>) -> Float, columns: seq<seq<real>>, i: int, j: int)
    requires CorrcoefValid(corrcoef) && 0 <= i < |columns| && 0 <= j < |columns|
    ensures MatrixEntry(corrcoef, columns, i, j).Num? ==> -1.0 <= MatrixEntry(corrcoef, columns, i, j).value <= 1.0
  {
  }

  /** The number of pairs `i < j` met before row `i` of an `n`-by-`n` sweep */
  function PairsBefore(i: nat, n: nat): (pairs: nat)
    requires i <= n
  {
    if i == 0 then 0 else PairsBefore(i - 1, n) + (n - i)
  }

  /** A full sweep meets every unordered pair once: n(n-1)/2 of them */
  lemma {:induction false} AllPairs(i: nat, n: nat)
    requires i <= n
    ensures 2 * PairsBefore(i, n) == i * (2 * n - i - 1)
  {
    if i > 0 {
      AllPairs(i - 1, n);
    }
  }

  /** The correlation matrix: a fresh n-by-n table, initially empty (NaN),
      filled by the sweep over (i, j): 1.0 where i == j; for i < j the
      spectral correlation of the pair is computed once and its "total"
      stored at (i, j) and at (j, i). `calls` counts those computations. */
  method CorrelationMatrix(sqrt: real -> real, filtfilt: (Design, seq<real>) -> Option<seq<real>>,
                           corrcoef: (seq<real>, seq<real>) -> Float, a: Analyzer, columns: seq<seq<real>>)
    returns (matrix: array2<Float>, ghost calls: nat)
    requires SqrtNonnegative(sqrt) && FiltfiltValid(filtfilt) && CorrcoefValid(corrcoef) && Configured(a)
    requires forall c :: 0 <= c < |columns| ==> |columns[c]| == |columns[0]|
    ensures fresh(matrix)
    ensures matrix.Length0 == |columns| && matrix.Length1 == |columns|
    ensures forall i, j :: 0 <= i < |columns| && 0 <= j < |columns| ==>
      matrix[i, j] == MatrixEntry(corrcoef, columns, i, j)
    ensures 2 * calls == |columns| * (|columns| - 1)
  {
    var n := |columns|;
    matrix := new Float[n, n]((_, _) => NaN);
    calls := 0;
    var i := 0;
    while i < n
      invariant 0 <= i <= n
      invariant calls == PairsBefore(i, n)
      invariant forall p, q :: 0 <= p < n && 0 <= q < n && Min(p, q) < i ==>
        matrix[p, q] == MatrixEntry(corrcoef, columns, p, q)
    {
      var j := 0;
      while j < n
        invariant 0 <= j <= n
        invariant calls == PairsBefore(i, n) + (if j <= i + 1 then 0 else j - i - 1)
        invariant forall p, q :: 0 <= p < n && 0 <= q < n && (Min(p, q) < i || (Min(p, q) == i && Max(p, q) < j)) ==>
          matrix[p, q] == MatrixEntry(corrcoef, columns, p, q)
      {
        if i == j {
          matrix[i, j] := Num(1.0);
        } else if i < j {
          var corr := CalculateCorrelationSpectral(sqrt, filtfilt, corrcoef, a, columns[i], columns[j]);
          calls := calls + 1;
          matrix[i, j] := corr[Total];
          matrix[j, i] := corr[Total];
        }
        j := j + 1;
      }
      i := i + 1;
    }
    AllPairs(n, n);
  }

  /** `generate_summary_report(returns)`: the summary rows and the
      correlation matrix */
  method GenerateSummaryReport(sqrt: real -> real, filtfilt: (Design, seq<real>) -> Option<seq<real>>,
                               periodogram: seq<real> -> Periodogram, corrcoef: (seq<real>, seq<real>) -> Float,
                               a: Analyzer, assets: seq<string>, columns: seq<seq<real>>)
    returns (rows: seq<SummaryRow>, matrix: array2<Float>)
    requires SqrtNonnegative(sqrt) && FiltfiltValid(filtfilt) && PeriodogramValid(periodogram)
    requires CorrcoefValid(corrcoef) && Configured(a)
    requires |assets| == |columns|
    requires forall c :: 0 <= c < |columns| ==> |columns[c]| == |columns[0]|
    ensures |rows| == |assets|
    ensures forall c :: 0 <= c < |assets| ==> rows[c] == SummaryRowFor(sqrt, periodogram, a, assets[c], columns[c])
    ensures fresh(matrix)
    ensures matrix.Length0 == |columns| && matrix.Length1 == |columns|
    ensures forall i, j :: 0 <= i < |columns| && 0 <= j < |columns| ==>
      matrix[i, j] == MatrixEntry(corrcoef, columns, i, j)
  {
    rows := SummaryRows(sqrt, periodogram, a, assets, columns);
    ghost var calls;
    matrix, calls := CorrelationMatrix(sqrt, filtfilt, corrcoef, a, columns);
  }
}
