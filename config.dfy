/** The analyzer's configuration keyed by the sampling frequency: its table of
    frequency bands (set up by `FrequencyDomainAnalyzer.__init__`) and the
    annualization scalars its statistics are multiplied by. */
module Config {
  import opened Numerics

  /** The band names, the keys "short_term", "medium_term", "business_cycle"
      and "long_term" of the analyzer's dictionaries */
  datatype BandName = ShortTerm | MediumTerm | BusinessCycle | LongTerm

  /** A key of a per-band report: a band's name, or "total" for the
      whole-series value */
  datatype Key = Of(band: BandName) | Total

  /** A named range of normalized frequency (cycles per sample, 0.5 = Nyquist) */
  datatype Band = Band(name: BandName, low: real, high: real)

  /** The analyzer's `sampling_freq`: 'D' (daily), 'M' (monthly), or any
      other code, which the analyzer accepts but has no band table or
      annualization scalar for */
  datatype SamplingFreq = Daily | Monthly | Other(code: string)

  /** How the analyzer reads its `sampling_frequency` argument: only the
      exact strings 'D' and 'M' are recognized */
  function ParseFreq(mode: string): (f: SamplingFreq)
    ensures f == Daily <==> mode == "D"
    ensures f == Monthly <==> mode == "M"
    ensures f.Other? ==> f.code == mode
  {
    if mode == "D" then Daily else if mode == "M" then Monthly else Other(mode)
  }

  /** Only daily and monthly data get a band table; for any other sampling
      frequency the analyzer has no `freq_bands` attribute, and every
      operation that reads it raises. */
  predicate HasBands(f: SamplingFreq) {
    f.Daily? || f.Monthly?
  }

  /** A frequency lies in a band's closed interval */
  predicate InBand(b: Band, f: real) {
    b.low <= f <= b.high
  }

  /** Entering band `i` into a dictionary keyed by the names of bands
      `0..i-1` adds its name and keeps every earlier entry */
  lemma NameStep<V>(m: map<BandName, V>, bands: seq<Band>, i: int, v: V)
    requires 0 <= i < |bands| && DistinctNames(bands)
    requires m.Keys == set k | 0 <= k < i :: bands[k].name
    ensures m[bands[i].name := v].Keys == set k | 0 <= k < i + 1 :: bands[k].name
    ensures forall k :: 0 <= k < i ==> m[bands[i].name := v][bands[k].name] == m[bands[k].name]
  {
  }

  /** The same for a report keyed by `Of(name)` */
  lemma KeyStep<V>(m: map<Key, V>, bands: seq<Band>, i: int, v: V)
    requires 0 <= i < |bands| && DistinctNames(bands)
    requires m.Keys == set k | 0 <= k < i :: Of(bands[k].name)
    ensures m[Of(bands[i].name) := v].Keys == set k | 0 <= k < i + 1 :: Of(bands[k].name)
    ensures forall k :: 0 <= k < i ==> m[Of(bands[i].name) := v][Of(bands[k].name)] == m[Of(bands[k].name)]
  {
  }

  /** The keys of a per-band report: one per band, and "total" */
  function ReportKeys(bands: seq<Band>): (keys: set<Key>) {
    (set k | 0 <= k < |bands| :: Of(bands[k].name)) + {Total}
  }

  /** Bands listed from high to low frequency tile [0, 0.5]: the first ends at
      Nyquist, the last starts at 0, every band is a proper interval and each
      band starts where the next one ends. */
  ghost predicate Tiles(bands: seq<Band>) {
    && |bands| > 0
    && bands[0].high == 0.5
    && bands[|bands| - 1].low == 0.0
    && (forall k :: 0 <= k < |bands| ==> bands[k].low < bands[k].high)
    && (forall i, j :: 0 <= i < |bands| && j == i + 1 < |bands| ==> bands[i].low == bands[j].high)
  }

  /** Band names are pairwise distinct */
  ghost predicate DistinctNames(bands: seq<Band>) {
    forall i, j :: 0 <= i < j < |bands| ==> bands[i].name != bands[j].name
  }

  /** What the analysis needs of a band table: a tiling of [0, 0.5] by the
      four named bands short_term, medium_term, business_cycle and long_term,
      in that order */
  ghost predicate BandTable(bands: seq<Band>) {
    && Tiles(bands)
    && |bands| == 4
    && bands[0].name == ShortTerm && bands[1].name == MediumTerm
    && bands[2].name == BusinessCycle && bands[3].name == LongTerm
  }

  /** The names of a band table are distinct */
  lemma BandTableDistinct(bands: seq<Band>)
    requires BandTable(bands)
    ensures DistinctNames(bands)
  {
  }

  /** The band table of `__init__`, in its insertion order (short to long) */
  function FreqBands(f: SamplingFreq): (bands: seq<Band>)
    requires HasBands(f)
    ensures |bands| == 4
  {
    if f == Daily then
      [ Band(ShortTerm, 0.04, 0.5),
        Band(MediumTerm, 0.008, 0.04),
        Band(BusinessCycle, 0.002, 0.008),
        Band(LongTerm, 0.0, 0.002) ]
    else
      [ Band(ShortTerm, 1.0 / 3.0, 0.5),
        Band(MediumTerm, 1.0 / 12.0, 1.0 / 3.0),
        Band(BusinessCycle, 1.0 / 60.0, 1.0 / 12.0),
        Band(LongTerm, 0.0, 1.0 / 60.0) ]
  }

  /** Both tables of `__init__` are band tables: they tile [0, 0.5] with the
      four named bands */
  lemma FreqBandsTile(f: SamplingFreq)
    requires HasBands(f)
    ensures BandTable(FreqBands(f))
  {
  }

  /** The analyzer's configuration: `sampling_freq`, and `freq_bands`, which
      only exists for 'D' and 'M' */
  datatype Analyzer = Analyzer(samplingFreq: SamplingFreq, freqBands: Option<seq<Band>>)

  /** An analyzer whose band-dependent operations can run: one set up for
      daily or monthly data, holding that frequency's table */
  predicate Configured(a: Analyzer) {
    HasBands(a.samplingFreq) && a.freqBands == Some(FreqBands(a.samplingFreq))
  }

  /** The tables list short_term, medium_term, business_cycle and long_term, in that order */
  lemma FreqBandsNames(f: SamplingFreq)
    requires HasBands(f)
    ensures FreqBands(f)[0].name == ShortTerm && FreqBands(f)[1].name == MediumTerm
    ensures FreqBands(f)[2].name == BusinessCycle && FreqBands(f)[3].name == LongTerm
  {
  }

  /** The band names of a configured analyzer are distinct */
  lemma ConfiguredDistinct(a: Analyzer)
    requires Configured(a)
    ensures DistinctNames(a.freqBands.value)
  {
    FreqBandsTile(a.samplingFreq);
    BandTableDistinct(a.freqBands.value);
  }

  /** `FrequencyDomainAnalyzer(sampling_frequency)` */
  function NewAnalyzer(mode: string): (a: Analyzer)
    ensures a.samplingFreq == ParseFreq(mode)
    ensures a.freqBands.Some? <==> mode == "D" || mode == "M"
    ensures a.freqBands.Some? ==> Configured(a) && BandTable(a.freqBands.value)
  {
    var f := ParseFreq(mode);
    if HasBands(f) then
      FreqBandsTile(f);
      Analyzer(f, Some(FreqBands(f)))
    else
      Analyzer(f, None)
  }

  /** Bands of a tiling descend: a later band lies entirely at or below an earlier one */
  lemma {:induction false} BandsDescend(bands: seq<Band>, i: int, j: int)
    requires Tiles(bands) && 0 <= i < j < |bands|
    ensures bands[j].high <= bands[i].low
    decreases j - i
  {
    if j > i + 1 {
      BandsDescend(bands, i + 1, j);
    }
  }

  lemma {:induction false} CoveredFrom(bands: seq<Band>, i: int, f: real)
    requires Tiles(bands) && 0 <= i < |bands|
    requires 0.0 <= f <= bands[i].high
    ensures exists k :: i <= k < |bands| && InBand(bands[k], f)
    decreases |bands| - i
  {
    if f < bands[i].low {
      CoveredFrom(bands, i + 1, f);
    } else {
      assert InBand(bands[i], f);
    }
  }

  /** A tiling leaves no gap: every frequency in [0, Nyquist] lies in some band */
  lemma TilingCovers(bands: seq<Band>, f: real)
    requires Tiles(bands) && 0.0 <= f <= 0.5
    ensures exists k :: 0 <= k < |bands| && InBand(bands[k], f)
  {
    CoveredFrom(bands, 0, f);
  }

  /** Closed bands of a tiling overlap only at shared boundaries: a frequency
      lies in two bands only when they are neighbours and it is the boundary
      between them, and then it lies in both. */
  lemma TilingOverlapsAtBoundaries(bands: seq<Band>, i: int, j: int, f: real)
    requires Tiles(bands) && 0 <= i < j < |bands|
    ensures InBand(bands[i], f) && InBand(bands[j], f) <==> j == i + 1 && f == bands[i].low
  {
    if j > i + 1 {
      BandsDescend(bands, i + 1, j);
      assert bands[j].high < bands[i].low;
    }
  }

  /** The scalar a mean is multiplied by: 252 trading days or 12 months a
      year, 1 when not annualizing or for any other sampling frequency */
  function ReturnScale(f: SamplingFreq, annualize: bool): (k: real)
    ensures k >= 1.0
  {
    if annualize && f == Daily then 252.0
    else if annualize && f == Monthly then 12.0
    else 1.0
  }

  /** The scalar a volatility is multiplied by: `np.sqrt(252)` or `np.sqrt(12)` */
  function VolScale(sqrt: real -> real, f: SamplingFreq, annualize: bool): (k: real)
    requires SqrtNonnegative(sqrt)
    ensures k >= 0.0
  {
    if annualize && f == Daily then sqrt(252.0)
    else if annualize && f == Monthly then sqrt(12.0)
    else 1.0
  }

  /** The volatility scalar is the root of the return scalar, so annualizing
      a variance and annualizing a volatility agree */
  lemma VolScaleIsRootOfReturnScale(sqrt: real -> real, f: SamplingFreq, annualize: bool)
    requires SqrtValid(sqrt)
    ensures VolScale(sqrt, f, annualize) > 0.0
    ensures VolScale(sqrt, f, annualize) * VolScale(sqrt, f, annualize) == ReturnScale(f, annualize)
  {
  }
}
