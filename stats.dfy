/** The summary statistics numpy computes on a series: `np.mean` and the
    population standard deviation `np.std` (ddof = 0). */
module Stats {
  import opened Numerics

  function Sum(s: seq<real>): (total: real)
    decreases |s|
  {
    if |s| == 0 then 0.0 else s[0] + Sum(s[1..])
  }

  /** `np.mean(s)`: NaN for an empty series */
  function Mean(s: seq<real>): (m: Float)
    ensures m.NaN? <==> |s| == 0
    ensures m.Num? ==> m.value * (|s| as real) == Sum(s)
  {
    if |s| == 0 then NaN else Num(Sum(s) / |s| as real)
  }

  /** Sum of the squared deviations of `s` from `c` */
  function SquaredDeviations(s: seq<real>, c: real): (ss: real)
    decreases |s|
  {
    if |s| == 0 then 0.0 else (s[0] - c) * (s[0] - c) + SquaredDeviations(s[1..], c)
  }

  lemma {:induction false} SquaredDeviationsNonnegative(s: seq<real>, c: real)
    ensures SquaredDeviations(s, c) >= 0.0
    decreases |s|
  {
    if |s| > 0 {
      SquaredDeviationsNonnegative(s[1..], c);
      SquareNonnegative(s[0] - c);
    }
  }

  lemma SquareNonnegative(x: real)
    ensures x * x >= 0.0
  {
    if x < 0.0 {
      assert x * x == (-x) * (-x);
    }
  }

  /** The population variance: mean squared deviation from the mean */
  function PopulationVariance(s: seq<real>): (v: real)
    requires |s| > 0
    ensures v >= 0.0
  {
    SquaredDeviationsNonnegative(s, Mean(s).value);
    SquaredDeviations(s, Mean(s).value) / |s| as real
  }

  /** `np.std(s)`: NaN for an empty series, otherwise a non-negative number */
  function Std(sqrt: real -> real, s: seq<real>): (sd: Float)
    requires SqrtNonnegative(sqrt)
    ensures sd.NaN? <==> |s| == 0
    ensures sd.Num? ==> 0.0 <= sd.value
  {
    if |s| == 0 then NaN else Num(sqrt(PopulationVariance(s)))
  }

  /** The standard deviation is the root of the population variance */
  lemma StdIsRootOfVariance(sqrt: real -> real, s: seq<real>)
    requires SqrtValid(sqrt) && |s| > 0
    ensures Std(sqrt, s).value * Std(sqrt, s).value == PopulationVariance(s)
  {
  }

  /** `np.zeros_like(data)` for a series `data` of length `n` */
  function Zeros(n: nat): (z: seq<real>)
    ensures |z| == n
    ensures forall i :: 0 <= i < n ==> z[i] == 0.0
  {
    seq(n, _ => 0.0)
  }

  ghost predicate Constant(s: seq<real>, c: real) {
    forall i :: 0 <= i < |s| ==> s[i] == c
  }

  lemma {:induction false} SumOfConstant(s: seq<real>, c: real)
    requires Constant(s, c)
    ensures Sum(s) == (|s| as real) * c
    decreases |s|
  {
    if |s| > 0 {
      assert Constant(s[1..], c) by {
        forall i | 0 <= i < |s[1..]| ensures s[1..][i] == c { assert s[1..][i] == s[i + 1]; }
      }
      SumOfConstant(s[1..], c);
    }
  }

  lemma {:induction false} SquaredDeviationsOfConstant(s: seq<real>, c: real)
    requires Constant(s, c)
    ensures SquaredDeviations(s, c) == 0.0
    decreases |s|
  {
    if |s| > 0 {
      assert Constant(s[1..], c) by {
        forall i | 0 <= i < |s[1..]| ensures s[1..][i] == c { assert s[1..][i] == s[i + 1]; }
      }
      SquaredDeviationsOfConstant(s[1..], c);
    }
  }

  /** A constant series has mean `c` and standard deviation exactly 0 */
  lemma ConstantStatistics(sqrt: real -> real, s: seq<real>, c: real)
    requires SqrtNonnegative(sqrt)
    requires |s| > 0 && Constant(s, c)
    ensures Mean(s) == Num(c)
    ensures Std(sqrt, s) == Num(0.0)
  {
    SumOfConstant(s, c);
    assert Mean(s).value * (|s| as real) == (|s| as real) * c;
    assert Mean(s).value == c;
    SquaredDeviationsOfConstant(s, c);
    assert PopulationVariance(s) == 0.0;
  }

  /** The all-zero series has standard deviation 0 (NaN when empty) */
  lemma StdOfZeros(sqrt: real -> real, n: nat)
    requires SqrtNonnegative(sqrt)
    ensures Std(sqrt, Zeros(n)) == if n == 0 then NaN else Num(0.0)
  {
    if n > 0 {
      ConstantStatistics(sqrt, Zeros(n), 0.0);
    }
  }
}
