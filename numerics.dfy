/** The numerical library calls the analyzer relies on (numpy, scipy.signal,
    statsmodels) are kept uninterpreted: every operation takes the ones it
    uses as function parameters, and the `...Valid` predicates state the
    little the analysis assumes about what each of them returns. */
module Numerics {

  datatype Option<+T> = None | Some(value: T)

  /** A double that may be NaN. numpy yields NaN for the mean or standard
      deviation of an empty series and `np.corrcoef` yields NaN for a constant
      one. Comparisons with NaN are false, arithmetic keeps it NaN. */
  datatype Float = Num(value: real) | NaN {

    /** `x * k` */
    function Times(k: real): (y: Float) {
      if Num? then Num(value * k) else NaN
    }

    /** `x / k` */
    function Over(k: real): (y: Float)
      requires k != 0.0
    {
      if Num? then Num(value / k) else NaN
    }

    /** `x > t`, false for NaN */
    predicate Exceeds(t: real) {
      Num? && value > t
    }
  }

  /** `num / den if den > 0 else 0`: the quotient behind a positive
      denominator, 0 for a zero, negative or NaN one */
  function GuardedRatio(num: Float, den: Float): (r: Float)
    ensures !den.Exceeds(0.0) ==> r == Num(0.0)
    ensures den.Exceeds(0.0) ==> (r.Num? <==> num.Num?)
    ensures den.Exceeds(0.0) && num.Num? ==> r.value * den.value == num.value
  {
    if den.Exceeds(0.0) then num.Over(den.value) else Num(0.0)
  }

  /** The three filter shapes handed to `signal.butter`, with normalized cutoffs */
  datatype FilterKind =
    | LowPass(cutoff: real)
    | HighPass(cutoff: real)
    | BandPass(lowCutoff: real, highCutoff: real)

  /** A Butterworth design `signal.butter(order, Wn, btype)` */
  datatype Design = Butterworth(order: int, kind: FilterKind)

  /** The two arrays `signal.periodogram(data, scaling='density')` returns */
  datatype Periodogram = Periodogram(freqs: seq<real>, psd: seq<real>)

  /** The components of a fitted `STL(...).fit()` */
  datatype StlFit = StlFit(trend: seq<real>, seasonal: seq<real>, resid: seq<real>)

  /* The library functions the analyzer calls, as parameters:
      - `sqrt` is `np.sqrt`;
      - `filtfilt(d, x)` designs `d` with `signal.butter` and applies it
        forward and backward with `signal.filtfilt`; `None` stands for an
        exception raised by either call;
      - `periodogram` is `signal.periodogram(x, scaling='density')`;
      - `corrcoef(x, y)` is `np.corrcoef(x, y)[0, 1]`;
      - `stl(x, period, seasonal)` is `STL(x, period=period, seasonal=seasonal).fit()`,
        `None` when it raises. */

  /** `sqrt` is non-negative on the non-negative reals and the root of 0 is
      0 (spelled out because the solver does not derive it from the squares) */
  ghost predicate SqrtNonnegative(sqrt: real -> real) {
    && (forall x: real :: 0.0 <= x ==> 0.0 <= sqrt(x))
    && sqrt(0.0) == 0.0
  }

  /** `sqrt` squares back to its argument on the non-negative reals */
  ghost predicate SqrtSquares(sqrt: real -> real) {
    forall x: real :: 0.0 <= x ==> sqrt(x) * sqrt(x) == x
  }

  /** The square of the root of a non-negative `x` is `x` */
  lemma RootSquares(sqrt: real -> real, x: real)
    requires SqrtSquares(sqrt) && x >= 0.0
    ensures sqrt(x) * sqrt(x) == x
  {
  }

  /** `sqrt` is the non-negative square root on the non-negative reals */
  ghost predicate SqrtValid(sqrt: real -> real) {
    SqrtNonnegative(sqrt) && SqrtSquares(sqrt)
  }

  /** A successful zero-phase filtering has the input's length */
  ghost predicate FiltfiltValid(filtfilt: (Design, seq<real>) -> Option<seq<real>>) {
    forall d: Design, x: seq<real> :: filtfilt(d, x).Some? ==> |filtfilt(d, x).value| == |x|
  }

  /** Frequencies and densities come in pairs */
  ghost predicate PeriodogramValid(periodogram: seq<real> -> Periodogram) {
    forall x: seq<real> :: |periodogram(x).freqs| == |periodogram(x).psd|
  }

  /** A correlation coefficient is NaN or lies in [-1, 1] (numpy clips it) */
  ghost predicate CorrcoefValid(corrcoef: (seq<real>, seq<real>) -> Float) {
    forall x: seq<real>, y: seq<real> :: corrcoef(x, y).Num? ==> -1.0 <= corrcoef(x, y).value <= 1.0
  }

  /** A fitted decomposition is aligned with its input */
  ghost predicate StlValid(stl: (seq<real>, int, int) -> Option<StlFit>) {
    forall x: seq<real>, p: int, w: int :: stl(x, p, w).Some? ==>
      && |stl(x, p, w).value.trend| == |x|
      && |stl(x, p, w).value.seasonal| == |x|
      && |stl(x, p, w).value.resid| == |x|
  }

  /** `abs(x)` */
  function Abs(x: real): (r: real)
    ensures r >= 0.0
    ensures r == x || r == -x
  {
    if x < 0.0 then -x else x
  }
}
