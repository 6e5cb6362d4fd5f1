/**
  The statistics the spending analytics take from numpy, over exact decimal
  amounts: `np.mean` and the population variance behind `np.std` (which divides
  by the number of samples). The anomaly rule "more than two standard deviations
  from the mean" is stated on squares, so no square root is needed; where the
  standard deviation itself appears it is any `std >= 0` with `std * std == variance`.
*/
module Statistics {

  function Sum(xs: seq<real>): real
  {
    if xs == [] then 0.0 else xs[0] + Sum(xs[1..])
  }

  /** `np.mean(xs)`: the value whose `|xs|` copies add up to the total. */
  function Mean(xs: seq<real>): (m: real)
    requires |xs| > 0
    ensures m * (|xs| as real) == Sum(xs)
  {
    Sum(xs) / (|xs| as real)
  }

  /** The identity; `Square` multiplies through it so that the solver keeps
      the two factors apart and reasons about the product linearly. */
  function Id(x: real): real { x }

  function Square(x: real): (r: real)
    ensures r >= 0.0
  {
    x * Id(x)
  }

  /** Sum of squared distances of the samples from `m`. */
  function SquaredDeviation(xs: seq<real>, m: real): (r: real)
    ensures r >= 0.0
  {
    if xs == [] then 0.0 else Square(xs[0] - m) + SquaredDeviation(xs[1..], m)
  }

  /** Population variance, the square of `np.std(xs)`. */
  function Variance(xs: seq<real>): (v: real)
    requires |xs| > 0
    ensures v >= 0.0
  {
    SquaredDeviation(xs, Mean(xs)) / (|xs| as real)
  }

  predicate AllEqual(xs: seq<real>) {
    forall i :: 0 <= i < |xs| ==> xs[i] == xs[0]
  }

  lemma {:induction false} SumOfConstant(xs: seq<real>, c: real)
    requires forall i :: 0 <= i < |xs| ==> xs[i] == c
    ensures Sum(xs) == (|xs| as real) * c
  {
    if xs != [] {
      SumOfConstant(xs[1..], c);
    }
  }

  lemma {:induction false} SquaredDeviationZero(xs: seq<real>, m: real)
    ensures SquaredDeviation(xs, m) == 0.0 <==> forall i :: 0 <= i < |xs| ==> xs[i] == m
  {
    if xs != [] {
      SquaredDeviationZero(xs[1..], m);
      if SquaredDeviation(xs, m) == 0.0 {
        SquareZero(xs[0] - m);
        forall i | 0 <= i < |xs| ensures xs[i] == m {
          if i > 0 {
            assert xs[i] == xs[1..][i - 1];
          }
        }
      }
      if forall i :: 0 <= i < |xs| ==> xs[i] == m {
        assert forall i :: 0 <= i < |xs[1..]| ==> xs[1..][i] == m;
      }
    }
  }

  /** The population standard deviation is zero exactly when every sample is the same. */
  lemma ZeroVarianceIffAllEqual(xs: seq<real>)
    requires |xs| > 0
    ensures Variance(xs) == 0.0 <==> AllEqual(xs)
  {
    var m := Mean(xs);
    SquaredDeviationZero(xs, m);
    if AllEqual(xs) {
      SumOfConstant(xs, xs[0]);
      assert m == xs[0];
    }
    if Variance(xs) == 0.0 {
      assert SquaredDeviation(xs, m) == 0.0;
    }
  }

  /** The mean lies between any lower and upper bound of the samples. */
  lemma {:induction false} MeanBetweenBounds(xs: seq<real>, lo: real, hi: real)
    requires |xs| > 0
    requires forall i :: 0 <= i < |xs| ==> lo <= xs[i] <= hi
    ensures lo <= Mean(xs) <= hi
  {
    SumBetweenBounds(xs, lo, hi);
  }

  lemma {:induction false} SumBetweenBounds(xs: seq<real>, lo: real, hi: real)
    requires forall i :: 0 <= i < |xs| ==> lo <= xs[i] <= hi
    ensures (|xs| as real) * lo <= Sum(xs) <= (|xs| as real) * hi
  {
    if xs != [] {
      SumBetweenBounds(xs[1..], lo, hi);
    }
  }

  function Abs(x: real): (r: real)
    ensures r >= 0.0 && (r == x || r == -x)
  {
    if x < 0.0 then -x else x
  }

  /** The anomaly rule: a non-zero spread and a squared distance from the mean
      above four times the variance. */
  predicate BeyondTwoStd(x: real, mean: real, variance: real) {
    variance > 0.0 && Square(x - mean) > 4.0 * variance
  }

  /** The rule on squares is the z-score rule `std > 0 and |x - mean| / std > 2`. */
  lemma BeyondTwoStdIffZScore(x: real, mean: real, variance: real, std: real)
    requires std >= 0.0 && Square(std) == variance
    ensures BeyondTwoStd(x, mean, variance) <==> std > 0.0 && Abs(x - mean) / std > 2.0
  {
    var d := Abs(x - mean);
    assert Square(x - mean) == Square(d);
    if std > 0.0 {
      QuotientAbove(d, std, 2.0);
      SquareAboveTwice(d, std, variance);
    }
  }

  lemma SquareZero(x: real)
    requires Square(x) == 0.0
    ensures x == 0.0
  {
  }

  /** For non-negative `d` and positive `s`: `d * d > 4 * (s * s)` exactly when `d > 2 * s`. */
  lemma SquareAboveTwice(d: real, s: real, v: real)
    requires s > 0.0 && d >= 0.0 && Square(s) == v
    ensures Square(d) > 4.0 * v <==> d > 2.0 * s
  {
    SquareOrder(d, 2.0 * s);
    assert Square(2.0 * s) == 4.0 * v;
  }

  lemma QuotientAbove(d: real, s: real, k: real)
    requires s > 0.0
    ensures d / s > k <==> d > k * s
  {
    var q := d / s;
    assert d == q * s;
    if q > k {
      assert (q - k) * s > 0.0;
    } else {
      assert (k - q) * s >= 0.0;
    }
  }

  /** Squaring keeps the order of non-negative numbers. */
  lemma SquareOrder(a: real, b: real)
    requires a >= 0.0 && b >= 0.0
    ensures a <= b <==> Square(a) <= Square(b)
  {
    if a <= b {
      SquareMonotone(a, b);
    } else {
      SquareStrictlyMonotone(b, a);
    }
  }

  lemma SquareMonotone(a: real, b: real)
    requires 0.0 <= a <= b
    ensures Square(a) <= Square(b)
  {
    var gap, total := b - a, a + b;
    MulNonNegative(gap, total);
    assert Square(b) - Square(a) == gap * total;
  }

  lemma SquareStrictlyMonotone(a: real, b: real)
    requires 0.0 <= a < b
    ensures Square(a) < Square(b)
  {
    var gap, total := b - a, a + b;
    MulPositive(gap, total);
    assert Square(b) - Square(a) == gap * total;
  }

  lemma MulPositive(x: real, y: real)
    requires x > 0.0 && y > 0.0
    ensures x * y > 0.0
  {
  }

  lemma MulNonNegative(x: real, y: real)
    requires x >= 0.0 && y >= 0.0
    ensures x * y >= 0.0
  {
  }

  /** A value flagged by the rule lies strictly outside `[mean - 2 std, mean + 2 std]`,
      and that range is never empty. */
  lemma OutsideExpectedRange(x: real, mean: real, variance: real, std: real)
    requires std >= 0.0 && Square(std) == variance
    requires BeyondTwoStd(x, mean, variance)
    ensures mean - 2.0 * std <= mean + 2.0 * std
    ensures x < mean - 2.0 * std || x > mean + 2.0 * std
  {
    BeyondTwoStdIffZScore(x, mean, variance, std);
    QuotientAbove(Abs(x - mean), std, 2.0);
  }

  /** Exactly two standard deviations away is not flagged: the comparison is strict. */
  lemma AtTwoStdNotFlagged(x: real, mean: real, variance: real, std: real)
    requires std >= 0.0 && Square(std) == variance
    requires Abs(x - mean) == 2.0 * std
    ensures !BeyondTwoStd(x, mean, variance)
  {
    assert Square(x - mean) == Square(Abs(x - mean));
  }
}
