/** The filter bank (`zero_phase_filter`) and the band decomposer
    (`decompose_frequency_bands`). */
module Filter {
  import opened Numerics
  import opened Stats
  import opened Config

  /** The Nyquist frequency in normalized units */
  const Nyquist: real := 0.5
  /** Normalized cutoffs are kept inside [MinCutoff, MaxCutoff] */
  const MinCutoff: real := 0.001
  const MaxCutoff: real := 0.95
  /** The Butterworth order the decomposer uses */
  const DefaultOrder: int := 3

  /** `min(max(w, 0.001), 0.95)` */
  function Clamp(w: real): (c: real)
    ensures MinCutoff <= c <= MaxCutoff
    ensures MinCutoff <= w <= MaxCutoff ==> c == w
    ensures w <= MinCutoff ==> c == MinCutoff
    ensures MaxCutoff <= w ==> c == MaxCutoff
  {
    var lifted := if w > MinCutoff then w else MinCutoff;
    if lifted < MaxCutoff then lifted else MaxCutoff
  }

  /** A cutoff frequency divided by Nyquist and clamped */
  function Normalize(freq: real): (w: real)
    ensures MinCutoff <= w <= MaxCutoff
    ensures MinCutoff <= freq / Nyquist <= MaxCutoff ==> w == freq / Nyquist
  {
    Clamp(freq / Nyquist)
  }

  /** Normalizing preserves order */
  lemma NormalizeMonotone(a: real, b: real)
    requires a <= b
    ensures Normalize(a) <= Normalize(b)
  {
    assert a / Nyquist <= b / Nyquist;
  }

  /** A design `signal.butter` accepts: cutoffs strictly inside (0, 1), the
      band-pass ones strictly increasing */
  predicate StableDesign(d: Design) {
    match d.kind
    case LowPass(w) => 0.0 < w < 1.0
    case HighPass(w) => 0.0 < w < 1.0
    case BandPass(lo, hi) => 0.0 < lo < hi < 1.0
  }

  /** The design the filter asks for when at least one bound is given: a
      low-pass without a low bound, a high-pass without a high bound,
      otherwise a band-pass; `None` when the normalized band-pass is
      degenerate (low cutoff not below the high one). */
  function DesignFor(low: Option<real>, high: Option<real>, order: int): (d: Option<Design>)
    requires low.Some? || high.Some?
    ensures d.Some? ==> d.value.order == order
    ensures d.None? ==> low.Some? && high.Some?
  {
    if low.None? then
      Some(Butterworth(order, LowPass(Normalize(high.value))))
    else if high.None? then
      Some(Butterworth(order, HighPass(Normalize(low.value))))
    else
      var lo := Normalize(low.value);
      var hi := Normalize(high.value);
      if lo >= hi then None else Some(Butterworth(order, BandPass(lo, hi)))
  }

  /** Every design handed to the library is stable and of the requested
      order; the band-pass is refused exactly when its clamped cutoffs are
      out of order */
  lemma DesignForCases(low: Option<real>, high: Option<real>, order: int)
    requires low.Some? || high.Some?
    ensures var d := DesignFor(low, high, order);
      && (d.Some? ==> d.value.order == order && StableDesign(d.value))
      && (d.None? <==> low.Some? && high.Some? && Normalize(low.value) >= Normalize(high.value))
      && (d.Some? && low.None? ==> d.value.kind == LowPass(Normalize(high.value)))
      && (d.Some? && high.None? ==> d.value.kind == HighPass(Normalize(low.value)))
      && (d.Some? && low.Some? && high.Some? ==>
           d.value.kind == BandPass(Normalize(low.value), Normalize(high.value)))
  {
  }

  /** `signal.filtfilt` applied with design `d`; an exception from the
      design or the filtering is caught and yields `np.zeros_like(data)` */
  function FiltfiltOrZeros(filtfilt: (Design, seq<real>) -> Option<seq<real>>, d: Design, data: seq<real>): (r: seq<real>)
    requires FiltfiltValid(filtfilt)
    ensures |r| == |data|
    ensures filtfilt(d, data).Some? ==> r == filtfilt(d, data).value
    ensures filtfilt(d, data).None? ==> r == Zeros(|data|)
  {
    match filtfilt(d, data)
    case Some(y) => y
    case None => Zeros(|data|)
  }

  /** `zero_phase_filter(data, low_freq, high_freq, order)` */
  function ZeroPhaseFilter(filtfilt: (Design, seq<real>) -> Option<seq<real>>, data: seq<real>, low: Option<real>, high: Option<real>, order: int): (r: seq<real>)
    requires FiltfiltValid(filtfilt)
    ensures |r| == |data|
  {
    if low.None? && high.None? then
      data
    else
      match DesignFor(low, high, order)
      case None => Zeros(|data|)
      case Some(d) => FiltfiltOrZeros(filtfilt, d, data)
  }

  /** The filter's outcomes: the input itself without bounds, zeros for a
      degenerate band-pass, otherwise the library's output for the design
      (zeros when the library raises) */
  lemma ZeroPhaseFilterCases(filtfilt: (Design, seq<real>) -> Option<seq<real>>, data: seq<real>, low: Option<real>, high: Option<real>, order: int)
    requires FiltfiltValid(filtfilt)
    ensures low.None? && high.None? ==> ZeroPhaseFilter(filtfilt, data, low, high, order) == data
    ensures low.Some? && high.Some? && Normalize(low.value) >= Normalize(high.value) ==>
      ZeroPhaseFilter(filtfilt, data, low, high, order) == Zeros(|data|)
    ensures (low.Some? || high.Some?) && DesignFor(low, high, order).Some? ==>
      ZeroPhaseFilter(filtfilt, data, low, high, order) == FiltfiltOrZeros(filtfilt, DesignFor(low, high, order).value, data)
  {
  }

  /** A band-pass whose low bound is not below its high bound yields zeros */
  lemma InvertedBandIsZero(filtfilt: (Design, seq<real>) -> Option<seq<real>>, data: seq<real>, low: real, high: real, order: int)
    requires FiltfiltValid(filtfilt)
    requires low >= high
    ensures ZeroPhaseFilter(filtfilt, data, Some(low), Some(high), order) == Zeros(|data|)
  {
    NormalizeMonotone(high, low);
  }

  /** Clamping makes every band-pass starting at or above 0.475 degenerate:
      the low cutoff clamps to 0.95, so it is not below the clamped high one */
  lemma NearNyquistBandIsZero(filtfilt: (Design, seq<real>) -> Option<seq<real>>, data: seq<real>, low: real, high: real, order: int)
    requires FiltfiltValid(filtfilt)
    requires low >= 0.475
    ensures ZeroPhaseFilter(filtfilt, data, Some(low), Some(high), order) == Zeros(|data|)
  {
    assert Normalize(low) == MaxCutoff;
  }

  /** The series `decompose_frequency_bands` keeps for band `b`: long_term is
      low-passed at its upper bound, every other band band-passed */
  function BandFiltered(filtfilt: (Design, seq<real>) -> Option<seq<real>>, b: Band, data: seq<real>): (r: seq<real>)
    requires FiltfiltValid(filtfilt)
    ensures |r| == |data|
  {
    if b.name == LongTerm then ZeroPhaseFilter(filtfilt, data, None, Some(b.high), DefaultOrder)
    else ZeroPhaseFilter(filtfilt, data, Some(b.low), Some(b.high), DefaultOrder)
  }

  /** No band of either table is degenerate: the decomposition submits a
      low-pass at twice long_term's upper bound, and for every other band a
      band-pass at twice its bounds (short_term's upper cutoff clamped to 0.95),
      and returns that filter's output, or zeros when the library raises. */
  lemma TableBandsRoute(filtfilt: (Design, seq<real>) -> Option<seq<real>>, mode: SamplingFreq, k: int, data: seq<real>)
    requires FiltfiltValid(filtfilt) && HasBands(mode) && 0 <= k < |FreqBands(mode)|
    ensures var b := FreqBands(mode)[k];
      BandFiltered(filtfilt, b, data) ==
        if b.name == LongTerm then
          FiltfiltOrZeros(filtfilt, Butterworth(DefaultOrder, LowPass(2.0 * b.high)), data)
        else
          FiltfiltOrZeros(filtfilt, Butterworth(DefaultOrder,
            BandPass(2.0 * b.low, if b.high == 0.5 then MaxCutoff else 2.0 * b.high)), data)
  {
    var b := FreqBands(mode)[k];
    assert b.low / Nyquist == 2.0 * b.low;
    assert b.high / Nyquist == 2.0 * b.high;
  }

  /** `decompose_frequency_bands(returns)`: one filtered series per band of
      the table, each of the input's length */
  method DecomposeFrequencyBands(filtfilt: (Design, seq<real>) -> Option<seq<real>>, a: Analyzer, data: seq<real>)
    returns (decomposed: map<BandName, seq<real>>)
    requires FiltfiltValid(filtfilt) && Configured(a)
    ensures decomposed.Keys == set k | 0 <= k < |a.freqBands.value| :: a.freqBands.value[k].name
    ensures forall k :: 0 <= k < |a.freqBands.value| ==>
      decomposed[a.freqBands.value[k].name] == BandFiltered(filtfilt, a.freqBands.value[k], data)
    ensures forall name :: name in decomposed ==> |decomposed[name]| == |data|
  {
    var bands := a.freqBands.value;
    ConfiguredDistinct(a);
    decomposed := map[];
    var i := 0;
    while i < |bands|
      invariant 0 <= i <= |bands|
      invariant decomposed.Keys == set k | 0 <= k < i :: bands[k].name
      invariant forall k :: 0 <= k < i ==> decomposed[bands[k].name] == BandFiltered(filtfilt, bands[k], data)
      invariant forall name :: name in decomposed ==> |decomposed[name]| == |data|
    {
      var b := bands[i];
      var filtered := BandFiltered(filtfilt, b, data);
      NameStep(decomposed, bands, i, filtered);
      decomposed := decomposed[b.name := filtered];
      i := i + 1;
    }
  }
}
