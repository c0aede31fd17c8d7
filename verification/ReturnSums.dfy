/** The statistics of the profitability report in terms of three sums, of the returns, of their squares and of
    the wins, without means, roots or deviations (learning/profitability.py:139-165, 222-257). */
module ReturnSums {
  import opened Reals
  import opened Profitability

  /** A sum is the one thing that gives a single value itself and two lists what they give apart. */
  lemma {:induction false} SumAppends(a: seq<real>, b: seq<real>)
    ensures Sum(a + b) == Sum(a) + Sum(b)
    ensures Sum([]) == 0.0 && forall x :: Sum([x]) == x
  {
    if b == [] {
      assert a + b == a;
    } else {
      SumAppends(a, b[..|b| - 1]);
      assert (a + b)[..|a + b| - 1] == a + b[..|b| - 1];
    }
  }

  function Squares(values: seq<real>): seq<real> {
    seq(|values|, i requires 0 <= i < |values| => Square(values[i]))
  }

  /** The squared deviations from any point, by the two sums. */
  lemma {:induction false} DeviationsOnSums(values: seq<real>, around: real)
    ensures SumOfSquares(values, around)
         == Sum(Squares(values)) - 2.0 * (around * Sum(values)) + |values| as real * (around * around)
  {
    hide Square, Squares;
    SquaresBefore(values);
    if values != [] {
      var rest, x := values[..|values| - 1], values[|values| - 1];
      DeviationsOnSums(rest, around);
      OneMoreDeviation(Sum(Squares(rest)), Sum(rest), |rest| as real, x, around);
    }
  }

  lemma SquaresBefore(values: seq<real>)
    ensures if values == [] then Squares(values) == []
            else Squares(values) == Squares(values[..|values| - 1]) + [Square(values[|values| - 1])]
  {
    hide Square;
  }

  lemma OneMoreDeviation(squares: real, sum: real, n: real, x: real, around: real)
    ensures squares - 2.0 * (around * sum) + n * (around * around) + Square(x - around)
         == (squares + Square(x)) - 2.0 * (around * (sum + x)) + (n + 1.0) * (around * around)
  {
    assert Square(x - around) == x * x - 2.0 * (around * x) + around * around;
    assert around * (sum + x) == around * sum + around * x;
    assert (n + 1.0) * (around * around) == n * (around * around) + around * around;
  }

  /** How far n returns are spread: n times the sum of their squares, less the square of their sum. */
  function Scatter(values: seq<real>): real {
    |values| as real * Sum(Squares(values)) - Square(Sum(values))
  }

  lemma MeanOnSums(values: seq<real>)
    requires values != []
    ensures |values| as real * Mean(values) == Sum(values)
  {
  }

  /** The sample variance, with its divisor one short of the number of returns. */
  lemma VarianceOnSums(values: seq<real>)
    requires |values| >= 2
    ensures |values| as real * (|values| - 1) as real * SampleVariance(values) == Scatter(values)
  {
    hide Mean, Sum, SumOfSquares, Squares, SampleVariance, Square;
    var n, m, s, q := |values| as real, Mean(values), Sum(values), Sum(Squares(values));
    MeanOnSums(values);
    DeviationsOnSums(values, m);
    var deviations := SumOfSquares(values, m);
    DivisorIsOneShort(values);
    ScatterOfMean(n, m, s, q, deviations);
    Reassociate(n, n - 1.0, SampleVariance(values), deviations);
  }

  lemma DivisorIsOneShort(values: seq<real>)
    requires |values| >= 2
    ensures (|values| - 1) as real * SampleVariance(values) == SumOfSquares(values, Mean(values))
  {
    hide Mean, SumOfSquares;
  }

  lemma Reassociate(x: real, y: real, z: real, product: real)
    requires y * z == product
    ensures x * y * z == x * product
  {
  }

  lemma ScatterOfMean(n: real, m: real, s: real, q: real, deviations: real)
    requires n * m == s && deviations == q - 2.0 * (m * s) + n * (m * m)
    ensures n * deviations == n * q - Square(s)
  {
    assert n * (m * m) == m * s;
    assert n * (m * s) == s * s;
    assert n * deviations == n * q - 2.0 * (n * (m * s)) + n * (m * s);
  }

  /** Significance by the sums: no mean, no variance, no root. */
  lemma SignificantIff(values: seq<real>, z: real)
    requires |values| >= 2
    ensures Significant(values, z) <==> (|values| - 1) as real * Square(Sum(values)) > Square(z) * Scatter(values)
  {
    hide Mean, Sum, SampleVariance, Square, Scatter;
    var n, v, zz := |values| as real, SampleVariance(values), Square(z);
    MeanOnSums(values);
    VarianceOnSums(values);
    ClearDenominators(n, Mean(values), Sum(values), v, zz, Scatter(values));
  }

  lemma ClearDenominators(n: real, m: real, s: real, v: real, zz: real, scatter: real)
    requires n >= 2.0 && n * m == s && n * (n - 1.0) * v == scatter
    ensures Square(m) * n > zz * v <==> (n - 1.0) * Square(s) > zz * scatter
  {
    var factor, gap := n * (n - 1.0), Square(m) * n - zz * v;
    Products(n, n - 1.0);
    assert factor > 0.0;
    assert Square(s) == (n * n) * Square(m);
    assert factor * (Square(m) * n) == (n - 1.0) * ((n * n) * Square(m));
    assert factor * (zz * v) == zz * (factor * v);
    assert factor * gap == (n - 1.0) * Square(s) - zz * scatter;
    SignOfProduct(gap, factor);
  }

  /** The verdict by the sums: none below thirty returns; otherwise the sign of the total when its square,
      n - 1 times, exceeds z squared times the scatter, and meaningless exactly when it does not. */
  lemma VerdictOnSums(sqrt: Sqrt, values: seq<real>, z: real)
    requires IsSqrt(sqrt) && z >= 0.0
    ensures var verdict := VerdictOf(|values|, MeanConfidenceInterval(sqrt, values, z));
            var n, total := |values|, Sum(values);
            && (verdict == InsufficientData <==> n < 30)
            && (verdict == PositivePerformance <==>
                  n >= 30 && total > 0.0 && (n - 1) as real * Square(total) > Square(z) * Scatter(values))
            && (verdict == NegativePerformance <==>
                  n >= 30 && total < 0.0 && (n - 1) as real * Square(total) > Square(z) * Scatter(values))
            && (verdict == StatisticallyMeaningless <==>
                  n >= 30 && (n - 1) as real * Square(total) <= Square(z) * Scatter(values))
  {
    hide Significant, Mean, Sum, Square, Scatter, MeanConfidenceInterval, VerdictOf, IsSqrt;
    VerdictIsSignificance(sqrt, values, z);
    if |values| >= 30 {
      SignificantIff(values, z);
      MeanOnSums(values);
      SignOfQuotient(|values| as real, Mean(values), Sum(values));
    }
  }

  lemma SignOfQuotient(n: real, m: real, s: real)
    requires n > 0.0 && n * m == s
    ensures (m > 0.0 <==> s > 0.0) && (m < 0.0 <==> s < 0.0)
  {
    if m > 0.0 {
      Products(n, m);
    } else if m < 0.0 {
      Products(n, -m);
    }
  }

  /** The confidence interval of the mean by the sums: where its middle is, and how wide it is. */
  lemma MeanIntervalOnSums(sqrt: Sqrt, values: seq<real>, z: real)
    requires IsSqrt(sqrt) && z >= 0.0
    ensures var interval := MeanConfidenceInterval(sqrt, values, z);
            && (interval.Some? <==> |values| >= 2)
            && (interval.Some? ==>
                  var (low, high), n := interval.value, |values| as real;
                  && low <= high && n * (low + high) == 2.0 * Sum(values)
                  && n * n * (n - 1.0) * Square(high - low) == 4.0 * (Square(z) * Scatter(values)))
  {
    hide Mean, Sum, Square, Scatter, Margin, SampleVariance, IsSqrt;
    if |values| >= 2 {
      var n, margin := |values| as real, Margin(sqrt, values, z);
      MarginFacts(sqrt, values, z);
      MeanOnSums(values);
      VarianceOnSums(values);
      WidthOnSums(n, margin, Square(z), SampleVariance(values), Scatter(values));
      var (low, high) := MeanConfidenceInterval(sqrt, values, z).value;
      assert high - low == 2.0 * margin && low + high == 2.0 * Mean(values);
      Twice(n, Mean(values), Sum(values));
    }
  }

  lemma Twice(n: real, m: real, s: real)
    requires n * m == s
    ensures n * (2.0 * m) == 2.0 * s
  {
  }

  lemma WidthOnSums(n: real, margin: real, zz: real, v: real, scatter: real)
    requires Square(margin) * n == zz * v && n * (n - 1.0) * v == scatter
    ensures n * n * (n - 1.0) * Square(2.0 * margin) == 4.0 * (zz * scatter)
  {
    assert Square(2.0 * margin) == 4.0 * Square(margin);
    assert n * n * (n - 1.0) * Square(margin) == n * (n - 1.0) * (Square(margin) * n);
    assert n * (n - 1.0) * (zz * v) == zz * (n * (n - 1.0) * v);
  }

  /** The squared gap between the wins and n times p is within z squared times the binomial variance. */
  ghost predicate WithinBinomial(wins: real, n: real, z: real, p: real) {
    Square(wins - n * p) <= Square(z) * (n * (p * (1.0 - p)))
  }

  /** The Wilson interval by the counts, on any sample. */
  lemma WilsonOnCounts(sqrt: Sqrt, wins: nat, n: nat, z: real, p: real)
    requires IsSqrt(sqrt) && wins <= n && n > 0 && z >= 0.0
    ensures Within(WilsonScoreInterval(sqrt, wins, n, z), p) <==> WithinBinomial(wins as real, n as real, z, p)
  {
    hide WithinBinomial, WilsonScoreInterval, Unclamped, Spread, Accepted, Weight, Square, IsSqrt;
    WilsonNeedsNoClamp(sqrt, wins, n, z);
    var phat, size := wins as real / n as real, n as real;
    WeightOnCounts(z, size);
    var (low, high) := WilsonScoreInterval(sqrt, wins, n, z);
    assert Within((low, high), p) <==> Accepted(phat, Weight(z, size), p);
    ScoreOnCounts(phat, wins as real, size, Weight(z, size), z, p);
  }

  /** Whatever the counts and z, the interval is within that of no information, which it is without a sample. */
  lemma WilsonIsClamped(sqrt: Sqrt, wins: nat, n: nat, z: real)
    ensures var (low, high) := WilsonScoreInterval(sqrt, wins, n, z); low >= 0.0 && high <= 1.0
    ensures WilsonScoreInterval(sqrt, wins, 0, z) == (0.0, 1.0)
  {
    hide Unclamped, Spread, Weight;
  }

  lemma WeightOnCounts(z: real, n: real)
    requires n > 0.0
    ensures Weight(z, n) * n == Square(z)
  {
  }

  lemma ScoreOnCounts(phat: real, wins: real, n: real, w: real, z: real, p: real)
    requires n > 0.0 && phat * n == wins && w * n == Square(z)
    ensures Accepted(phat, w, p) <==> WithinBinomial(wins, n, z, p)
  {
    hide Square;
    var q, gap, nn := p * (1.0 - p), Square(p - phat), n * n;
    ProductIsPositive(n, n, nn);
    GapOnCounts(phat, wins, n, p);
    VarianceOnCounts(w, n, Square(z), q);
    ScaledOrder(nn, gap, w * q, Square(wins - n * p), Square(z) * (n * q));
  }

  lemma ScaledOrder(factor: real, x: real, y: real, xx: real, yy: real)
    requires factor > 0.0 && factor * x == xx && factor * y == yy
    ensures x <= y <==> xx <= yy
  {
    if x < y {
      ScaleLess(x, y, factor);
    } else if y < x {
      ScaleLess(y, x, factor);
    }
  }

  lemma GapOnCounts(phat: real, wins: real, n: real, p: real)
    requires phat * n == wins
    ensures n * n * Square(p - phat) == Square(wins - n * p)
  {
    assert wins - n * p == -(n * (p - phat));
    var d := p - phat;
    assert Square(-(n * d)) == (n * d) * (n * d);
    assert (n * d) * (n * d) == n * n * (d * d);
  }

  lemma VarianceOnCounts(w: real, n: real, zz: real, q: real)
    requires w * n == zz
    ensures n * n * (w * q) == zz * (n * q)
  {
    assert n * n * (w * q) == (w * n) * (n * q);
  }

  /** The curve starts at one, each return is its relative change, and lists of returns compound: what two
      lists come to one after the other is the product of what they come to apart, in either order. */
  lemma ReturnsCompound(a: seq<real>, b: seq<real>)
    ensures |Compounded(a)| == |a| + 1 && Compounded(a)[0] == 1.0
    ensures forall k :: 0 <= k < |a| ==> Compounded(a)[k + 1] - Compounded(a)[k] == Compounded(a)[k] * a[k]
    ensures Compounded(a + b)[|a| + |b|] == Compounded(a)[|a|] * Compounded(b)[|b|] == Compounded(b + a)[|a| + |b|]
  {
    hide EquityAfter;
    CompoundsOver(a, b, |b|);
    CompoundsOver(b, a, |a|);
    StartsAtOne(a);
    forall k | 0 <= k < |a|
      ensures Compounded(a)[k + 1] - Compounded(a)[k] == Compounded(a)[k] * a[k]
    {
      OneReturn(a, k);
    }
  }

  lemma StartsAtOne(changes: seq<real>)
    ensures EquityAfter(changes, 0) == 1.0
  {
  }

  lemma OneReturn(changes: seq<real>, k: nat)
    requires k < |changes|
    ensures EquityAfter(changes, k + 1) - EquityAfter(changes, k) == EquityAfter(changes, k) * changes[k]
  {
    Distributes(EquityAfter(changes, k), changes[k]);
  }

  lemma Distributes(equity: real, change: real)
    ensures equity * (1.0 + change) - equity == equity * change
  {
  }

  lemma {:induction false} CompoundsOver(a: seq<real>, b: seq<real>, k: nat)
    requires k <= |b|
    ensures EquityAfter(a + b, |a| + k) == EquityAfter(a, |a|) * EquityAfter(b, k)
  {
    if k == 0 {
      PrefixDecides(a, b, |a|);
    } else {
      CompoundsOver(a, b, k - 1);
      Associates(EquityAfter(a, |a|), EquityAfter(b, k - 1), 1.0 + b[k - 1]);
    }
  }

  lemma {:induction false} PrefixDecides(a: seq<real>, b: seq<real>, k: nat)
    requires k <= |a|
    ensures EquityAfter(a + b, k) == EquityAfter(a, k)
  {
    if k > 0 {
      PrefixDecides(a, b, k - 1);
    }
  }

  lemma Associates(x: real, y: real, z: real)
    ensures x * y * z == x * (y * z)
  {
  }
}
