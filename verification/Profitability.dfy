/** The profitability verdict (learning/profitability.py): Wilson interval of the win rate,
    confidence interval of the mean return, and drawdown of the compounded returns. */
module Profitability {
  import opened Wrappers
  import opened Reals
  import opened Drawdown

  const MIN_SAMPLE_SIZE_FOR_A_VERDICT := 30
  const CONFIDENCE_Z: real := 1.96

  /** The square root of the host language, as an uninterpreted function. */
  type Sqrt = real -> real

  ghost predicate IsSqrt(sqrt: Sqrt) {
    forall x: real :: x >= 0.0 ==> sqrt(x) >= 0.0 && sqrt(x) * sqrt(x) == x
  }

  // ---- Wilson score interval ----

  /** Center and margin, from the observed rate and w = z^2 / n; `spread` is z times the root. */
  function Unclamped(phat: real, w: real, spread: real): (real, real)
    requires w >= 0.0
  {
    var denominator := 1.0 + w;
    var center, margin := (phat + w / 2.0) / denominator, spread / denominator;
    (center - margin, center + margin)
  }

  function Radicand(phat: real, z: real, n: real): real
    requires n > 0.0
  {
    (phat * (1.0 - phat) + z * z / (4.0 * n)) / n
  }

  /** z^2 / n, the one quantity through which z and the sample size enter. */
  function Weight(z: real, n: real): (w: real)
    requires n > 0.0
    ensures w >= 0.0
  {
    Products(z, z);
    QuotientAgainstOne(z * z, n);
    z * z / n
  }

  /** z times the root: the margin before it is divided by the denominator. */
  function Spread(sqrt: Sqrt, phat: real, z: real, n: real): real
    requires n > 0.0
  {
    z * sqrt(Radicand(phat, z, n))
  }

  function WilsonScoreInterval(sqrt: Sqrt, wins: nat, n: nat, z: real): (real, real) {
    if n == 0 then (0.0, 1.0)
    else
      var phat := wins as real / n as real;
      var (low, high) := Unclamped(phat, Weight(z, n as real), Spread(sqrt, phat, z, n as real));
      (Max(0.0, low), if high <= 1.0 then high else 1.0)
  }

  function Square(x: real): real {
    x * x
  }

  function SpreadSquare(phat: real, w: real): real {
    w * (phat * (1.0 - phat) + w / 4.0)
  }

  /** How far p is from the observed rate, against what the score test at w = z^2 / n allows. */
  function Score(phat: real, w: real, p: real): real {
    Square(p - phat) - w * (p * (1.0 - p))
  }

  /** The score test accepts p: the observed rate is within z standard errors of p, as p sets them. */
  ghost predicate Accepted(phat: real, w: real, p: real) {
    Score(phat, w, p) <= 0.0
  }

  /** Scaled by d = 1 + w, the distance of p from the center against the margin is the score. */
  lemma Discriminant(phat: real, w: real, p: real, c: real, d: real, x: real, spread: real)
    requires d == 1.0 + w && c * d == phat + w / 2.0 && x == (p - c) * d
    requires Square(spread) == SpreadSquare(phat, w)
    ensures Square(x) - Square(spread) == Score(phat, w, p) * d
  {
  }

  lemma SquareOrder(x: real, y: real)
    requires y >= 0.0
    ensures Square(x) <= Square(y) <==> -y <= x <= y
  {
    if x > y {
      LargerSquare(x, y);
    } else if x < -y {
      LargerSquare(-x, y);
      assert (-x) * (-x) == x * x;
    } else {
      Products(y - x, y + x);
      assert (y - x) * (y + x) == y * y - x * x;
    }
  }

  lemma LargerSquare(x: real, y: real)
    requires x > y >= 0.0
    ensures Square(x) > Square(y)
  {
    ProductIsPositive(x - y, x + y, Square(x) - Square(y));
  }

  lemma SignOfProduct(x: real, factor: real)
    requires factor > 0.0
    ensures x * factor <= 0.0 <==> x <= 0.0
  {
  }

  lemma WithinMargin(p: real, c: real, m: real, d: real, x: real, spread: real)
    requires d > 0.0 && spread >= 0.0 && m * d == spread && x == (p - c) * d
    ensures Square(x) <= Square(spread) <==> c - m <= p <= c + m
  {
    SquareOrder(x, spread);
    hide Square;
    SignOfProduct(p - c - m, d);
    SignOfProduct(c - m - p, d);
    assert (p - c - m) * d == x - spread;
    assert (c - m - p) * d == -x - spread;
  }

  ghost predicate Within(interval: (real, real), p: real) {
    interval.0 <= p <= interval.1
  }

  lemma InvertTheScoreTest(phat: real, w: real, p: real, c: real, m: real, d: real, spread: real)
    requires w >= 0.0 && spread >= 0.0
    requires d == 1.0 + w && c * d == phat + w / 2.0 && m * d == spread
    requires Square(spread) == SpreadSquare(phat, w)
    ensures c - m <= p <= c + m <==> Accepted(phat, w, p)
  {
    hide Square, Score, SpreadSquare;
    Discriminant(phat, w, p, c, d, (p - c) * d, spread);
    WithinMargin(p, c, m, d, (p - c) * d, spread);
    SignOfProduct(Score(phat, w, p), d);
  }

  /** What the Wilson interval is: exactly the rates that the score test at z accepts. */
  lemma WilsonInvertsTheScoreTest(phat: real, w: real, spread: real, p: real)
    requires w >= 0.0 && spread >= 0.0
    requires Square(spread) == SpreadSquare(phat, w)
    ensures Within(Unclamped(phat, w, spread), p) <==> Accepted(phat, w, p)
  {
    hide Accepted, Square, SpreadSquare;
    var d := 1.0 + w;
    Undo(phat + w / 2.0, d);
    Undo(spread, d);
    InvertTheScoreTest(phat, w, p, (phat + w / 2.0) / d, spread / d, d, spread);
  }

  lemma Undo(x: real, y: real)
    requires y != 0.0
    ensures (x / y) * y == x
  {
  }

  /** An accepted rate is a rate: the test admits nothing outside [0, 1]. */
  lemma AcceptedIsARate(phat: real, w: real, p: real)
    requires 0.0 <= phat <= 1.0 && w >= 0.0 && Accepted(phat, w, p)
    ensures 0.0 <= p <= 1.0
  {
    if p < 0.0 || p > 1.0 {
      OutsideIsNegative(p);
      ScaledNegative(w, p * (1.0 - p));
      PositiveSquare(p - phat);
      hide Square;
      assert false;
    }
  }

  lemma PositiveSquare(x: real)
    requires x != 0.0
    ensures Square(x) > 0.0
  {
    ProductIsPositive(if x > 0.0 then x else -x, if x > 0.0 then x else -x, Square(x));
  }

  lemma ScaledNegative(w: real, q: real)
    requires w >= 0.0 && q < 0.0
    ensures w * q <= 0.0
  {
  }

  lemma OutsideIsNegative(p: real)
    requires p < 0.0 || p > 1.0
    ensures p * (1.0 - p) < 0.0
  {
  }

  /** On any sample the interval contains the observed rate and lies in [0, 1] before it is clamped,
      so the clamps never bite. */
  lemma WilsonNeedsNoClamp(sqrt: Sqrt, wins: nat, n: nat, z: real)
    requires IsSqrt(sqrt) && wins <= n && n > 0 && z >= 0.0
    ensures var phat := wins as real / n as real;
            && var (low, high) := Unclamped(phat, Weight(z, n as real), Spread(sqrt, phat, z, n as real));
               && WilsonScoreInterval(sqrt, wins, n, z) == (low, high)
               && 0.0 <= low <= phat <= high <= 1.0
               && forall p: real :: Within((low, high), p) <==> Accepted(phat, Weight(z, n as real), p)
  {
    hide Unclamped, Accepted, IsSqrt, Square, Weight, Spread, SpreadSquare;
    var phat, w := wins as real / n as real, Weight(z, n as real);
    var spread := Spread(sqrt, phat, z, n as real);
    RateInRange(wins, n);
    SpreadSquared(sqrt, phat, z, n as real);
    var interval := Unclamped(phat, w, spread);
    forall p: real
      ensures Within(interval, p) <==> Accepted(phat, w, p)
    {
      WilsonInvertsTheScoreTest(phat, w, spread, p);
    }
    ObservedIsAccepted(phat, w);
    assert Within(interval, phat);
    assert Within(interval, interval.0) && Within(interval, interval.1);
    AcceptedIsARate(phat, w, interval.0);
    AcceptedIsARate(phat, w, interval.1);
  }

  lemma ObservedIsAccepted(phat: real, w: real)
    requires 0.0 <= phat <= 1.0 && w >= 0.0
    ensures Accepted(phat, w, phat)
  {
    Products(phat, 1.0 - phat);
    Products(w, phat * (1.0 - phat));
    assert Square(phat - phat) == 0.0;
  }

  lemma RateInRange(wins: nat, n: nat)
    requires wins <= n && n > 0
    ensures 0.0 <= wins as real / n as real <= 1.0
  {
  }

  lemma RadicandIsVariance(phat: real, z: real, n: real)
    requires 0.0 <= phat <= 1.0 && n > 0.0
    ensures Radicand(phat, z, n) >= 0.0
    ensures Radicand(phat, z, n) * n == phat * (1.0 - phat) + Weight(z, n) / 4.0
    ensures Weight(z, n) * n == z * z
  {
    var w, q := Weight(z, n), phat * (1.0 - phat);
    Products(phat, 1.0 - phat);
    Undo(z * z, n);
    Undo(z * z, 4.0 * n);
    assert (w / 4.0) * (4.0 * n) == w * n;
    SameProduct(z * z / (4.0 * n), w / 4.0, 4.0 * n);
    QuotientAgainstOne(q + w / 4.0, n);
    Undo(q + w / 4.0, n);
  }

  lemma SpreadSquared(sqrt: Sqrt, phat: real, z: real, n: real)
    requires IsSqrt(sqrt) && 0.0 <= phat <= 1.0 && n > 0.0 && z >= 0.0
    ensures Spread(sqrt, phat, z, n) >= 0.0
    ensures Square(Spread(sqrt, phat, z, n)) == SpreadSquare(phat, Weight(z, n))
  {
    hide Radicand, Weight;
    RadicandIsVariance(phat, z, n);
    RootedProduct(z, sqrt(Radicand(phat, z, n)), Radicand(phat, z, n), Weight(z, n), n,
                  phat * (1.0 - phat) + Weight(z, n) / 4.0);
  }

  lemma RootedProduct(z: real, root: real, radicand: real, w: real, n: real, variance: real)
    requires z >= 0.0 && root >= 0.0
    requires root * root == radicand && w * n == z * z && radicand * n == variance
    ensures z * root >= 0.0 && Square(z * root) == w * variance
  {
  }

  // ---- confidence interval of the mean return, and the verdict ----

  function Sum(values: seq<real>): real {
    if values == [] then 0.0 else Sum(values[..|values| - 1]) + values[|values| - 1]
  }

  function SumOfSquares(values: seq<real>, around: real): (s: real)
    ensures s >= 0.0
  {
    if values == [] then 0.0
    else
      Products(values[|values| - 1] - around, 0.0);
      SumOfSquares(values[..|values| - 1], around) + Square(values[|values| - 1] - around)
  }

  function Mean(values: seq<real>): real
    requires values != []
  {
    Sum(values) / |values| as real
  }

  function SampleVariance(values: seq<real>): real
    requires |values| >= 2
  {
    SumOfSquares(values, Mean(values)) / (|values| - 1) as real
  }

  /** z standard errors of the mean. */
  function Margin(sqrt: Sqrt, values: seq<real>, z: real): real
    requires IsSqrt(sqrt) && |values| >= 2
  {
    RootIsPositive(sqrt, |values| as real);
    z * sqrt(SampleVariance(values)) / sqrt(|values| as real)
  }

  /** _sample_stdev and _mean_confidence_interval: None below two values. */
  function MeanConfidenceInterval(sqrt: Sqrt, values: seq<real>, z: real): Option<(real, real)>
    requires IsSqrt(sqrt)
  {
    if |values| < 2 then None
    else Some((Mean(values) - Margin(sqrt, values, z), Mean(values) + Margin(sqrt, values, z)))
  }

  lemma RootIsPositive(sqrt: Sqrt, n: real)
    requires IsSqrt(sqrt) && n > 0.0
    ensures sqrt(n) > 0.0 && Square(sqrt(n)) == n
  {
  }

  datatype Verdict = InsufficientData | StatisticallyMeaningless | PositivePerformance | NegativePerformance

  function VerdictOf(n: nat, interval: Option<(real, real)>): Verdict {
    if n < MIN_SAMPLE_SIZE_FOR_A_VERDICT then InsufficientData
    else match interval
      case None => InsufficientData
      case Some((low, high)) =>
        if low <= 0.0 <= high then StatisticallyMeaningless
        else if low > 0.0 then PositivePerformance
        else NegativePerformance
  }

  /** The squared mean against z^2 times the variance of the mean: significance without any root. */
  ghost predicate Significant(values: seq<real>, z: real)
    requires |values| >= 2
  {
    Square(Mean(values)) * |values| as real > Square(z) * SampleVariance(values)
  }

  lemma CompareScaledSquares(mean: real, margin: real, n: real)
    requires n > 0.0 && margin >= 0.0
    ensures Square(mean) * n > Square(margin) * n <==> mean > margin || mean < -margin
  {
    SquareOrder(mean, margin);
    hide Square;
    SignOfProduct(Square(mean) - Square(margin), n);
    assert (Square(mean) - Square(margin)) * n == Square(mean) * n - Square(margin) * n;
  }

  /** The verdict, in terms of the returns alone: below thirty returns there is none; otherwise the
      sign of a significant mean, and "meaningless" exactly when it is not significant. */
  lemma VerdictIsSignificance(sqrt: Sqrt, values: seq<real>, z: real)
    requires IsSqrt(sqrt) && z >= 0.0
    ensures var verdict := VerdictOf(|values|, MeanConfidenceInterval(sqrt, values, z));
            && (verdict == InsufficientData <==> |values| < MIN_SAMPLE_SIZE_FOR_A_VERDICT)
            && (|values| >= MIN_SAMPLE_SIZE_FOR_A_VERDICT ==>
                  && (verdict == PositivePerformance <==> Significant(values, z) && Mean(values) > 0.0)
                  && (verdict == NegativePerformance <==> Significant(values, z) && Mean(values) < 0.0)
                  && (verdict == StatisticallyMeaningless <==> !Significant(values, z)))
  {
    hide Square, Mean, SampleVariance, IsSqrt, Margin;
    if |values| >= MIN_SAMPLE_SIZE_FOR_A_VERDICT {
      MarginFacts(sqrt, values, z);
      CompareScaledSquares(Mean(values), Margin(sqrt, values, z), |values| as real);
    }
  }

  lemma MarginFacts(sqrt: Sqrt, values: seq<real>, z: real)
    requires IsSqrt(sqrt) && z >= 0.0 && |values| >= 2
    ensures Margin(sqrt, values, z) >= 0.0
    ensures Square(Margin(sqrt, values, z)) * |values| as real == Square(z) * SampleVariance(values)
  {
  }

  // ---- drawdown of the compounded returns ----

  /** The equity after the first k returns, starting from one. */
  function EquityAfter(changes: seq<real>, k: nat): real
    requires k <= |changes|
  {
    if k == 0 then 1.0 else EquityAfter(changes, k - 1) * (1.0 + changes[k - 1])
  }

  function Compounded(changes: seq<real>): seq<real> {
    seq(|changes| + 1, k requires 0 <= k <= |changes| => EquityAfter(changes, k))
  }

  method ComputeMaxDrawdown(changes: seq<real>) returns (r: Option<real>)
    ensures r.None? <==> changes == []
    ensures r.Some? ==> r.value == MaxDepth(Compounded(changes), |changes| + 1)
  {
    if changes == [] {
      return None;
    }
    hide Compounded, EquityAfter, Peak, Depth, MaxDepth;
    var equity, peak, maxDd := 1.0, 1.0, 0.0;
    CurveStarts(changes);
    for i := 0 to |changes|
      invariant equity == EquityAfter(changes, i)
      invariant peak == Peak(Compounded(changes), i) && peak >= 1.0
      invariant maxDd == MaxDepth(Compounded(changes), i + 1)
    {
      CurveContinues(changes, i);
      equity := equity * (1.0 + changes[i]);
      peak := Max(peak, equity);
      if peak > 0.0 {
        maxDd := Max(maxDd, (peak - equity) / peak);
      }
    }
    return Some(maxDd);
  }

  lemma CurveStarts(changes: seq<real>)
    ensures EquityAfter(changes, 0) == 1.0 && |Compounded(changes)| == |changes| + 1
    ensures Peak(Compounded(changes), 0) == 1.0 && MaxDepth(Compounded(changes), 1) == 0.0
  {
    var curve := Compounded(changes);
    assert Depth(curve, 0) == 0.0;
    assert MaxDepth(curve, 0) == 0.0;
  }

  lemma CurveContinues(changes: seq<real>, i: nat)
    requires i < |changes|
    ensures var curve, equity := Compounded(changes), EquityAfter(changes, i + 1);
            && |curve| == |changes| + 1
            && equity == EquityAfter(changes, i) * (1.0 + changes[i])
            && var peak := Peak(curve, i + 1);
               && peak == Max(Peak(curve, i), equity)
               && (peak > 0.0 ==> MaxDepth(curve, i + 2) == Max(MaxDepth(curve, i + 1), (peak - equity) / peak))
  {
    var curve := Compounded(changes);
    assert curve[i + 1] == EquityAfter(changes, i + 1);
  }

  lemma {:induction false} EquityStaysUp(changes: seq<real>, k: nat)
    requires k <= |changes|
    ensures (forall j :: 0 <= j < k ==> changes[j] >= -1.0) ==> EquityAfter(changes, k) >= 0.0
    ensures (forall j :: 0 <= j < k ==> changes[j] > -1.0) ==> EquityAfter(changes, k) > 0.0
  {
    if k > 0 {
      EquityStaysUp(changes, k - 1);
      var before, factor := EquityAfter(changes, k - 1), 1.0 + changes[k - 1];
      Products(before, factor);
      if before > 0.0 && factor > 0.0 {
        ProductIsPositive(before, factor, EquityAfter(changes, k));
      }
    }
  }

  /** Nothing is left to fall once a trade lost all of its stake. */
  lemma {:induction false} TotalLossStays(changes: seq<real>, j: nat, k: nat)
    requires j < k <= |changes| && changes[j] == -1.0
    ensures EquityAfter(changes, k) == 0.0
  {
    if k > j + 1 {
      TotalLossStays(changes, j, k - 1);
    }
  }

  /** Some trade loses more than its stake, and no trade before it lost exactly that. */
  ghost predicate Overdraws(changes: seq<real>) {
    exists k :: 0 <= k < |changes| && changes[k] < -1.0 && forall j :: 0 <= j < k ==> changes[j] != -1.0
  }

  lemma {:induction false} FirstOverdraft(changes: seq<real>, n: nat) returns (k: nat)
    requires n < |changes| && changes[n] < -1.0 && forall j :: 0 <= j < n ==> changes[j] != -1.0
    ensures k <= n && changes[k] < -1.0 && forall j :: 0 <= j < k ==> changes[j] > -1.0
  {
    if exists m :: 0 <= m < n && changes[m] < -1.0 {
      var m :| 0 <= m < n && changes[m] < -1.0;
      k := FirstOverdraft(changes, m);
    } else {
      k := n;
    }
  }

  /** The compounded curve falls below zero exactly when the returns overdraw it. */
  lemma CompoundedStaysUpIff(changes: seq<real>)
    ensures StaysUp(Compounded(changes)) <==> !Overdraws(changes)
  {
    var curve := Compounded(changes);
    if Overdraws(changes) {
      var n :| 0 <= n < |changes| && changes[n] < -1.0 && forall j :: 0 <= j < n ==> changes[j] != -1.0;
      var k := FirstOverdraft(changes, n);
      EquityStaysUp(changes, k);
      ProductIsPositive(EquityAfter(changes, k), -1.0 - changes[k], -EquityAfter(changes, k + 1));
      assert curve[k + 1] < 0.0;
    } else {
      forall k | 0 <= k < |curve|
        ensures curve[k] >= 0.0
      {
        if exists j :: 0 <= j < k && changes[j] == -1.0 {
          var j :| 0 <= j < k && changes[j] == -1.0;
          TotalLossStays(changes, j, k);
        } else {
          EquityStaysUp(changes, k);
        }
      }
    }
  }

  /** It stays positive exactly when no trade loses its whole stake or more. */
  lemma CompoundedIsPositiveIff(changes: seq<real>)
    ensures (forall k :: 0 <= k <= |changes| ==> Compounded(changes)[k] > 0.0) <==>
            forall j :: 0 <= j < |changes| ==> changes[j] > -1.0
  {
    var curve := Compounded(changes);
    forall k | 0 <= k <= |changes| && forall j :: 0 <= j < |changes| ==> changes[j] > -1.0
      ensures curve[k] > 0.0
    {
      EquityStaysUp(changes, k);
    }
    forall j | 0 <= j < |changes| && forall k :: 0 <= k <= |changes| ==> curve[k] > 0.0
      ensures changes[j] > -1.0
    {
      assert curve[j] > 0.0 && curve[j + 1] > 0.0;
      Products(curve[j], -1.0 - changes[j]);
    }
  }

  /** Exactly when the reported drawdown is the worst decline between any two points of the compounded
      curve: when the returns do not overdraw it, or its deepest fall is from its start. It is never
      negative, and short of total exactly when no trade loses its whole stake. */
  lemma DrawdownIsWorstDeclineIff(changes: seq<real>)
    ensures var curve := Compounded(changes);
            && (IsWorstDecline(curve, MaxDepth(curve, |changes| + 1)) <==>
                !Overdraws(changes) || DeepestFallIsFromTheStart(curve))
            && MaxDepth(curve, |changes| + 1) >= 0.0
            && (MaxDepth(curve, |changes| + 1) < 1.0 <==> forall j :: 0 <= j < |changes| ==> changes[j] > -1.0)
  {
    var curve := Compounded(changes);
    RunningIsWorstDeclineIff(curve);
    CompoundedStaysUpIff(changes);
    CompoundedIsPositiveIff(changes);
    var i, j := RunningIsSomeDecline(curve);
  }

  /** In particular whenever no trade loses more than its stake. */
  lemma DrawdownIsWorstDecline(changes: seq<real>)
    requires forall j :: 0 <= j < |changes| ==> changes[j] >= -1.0
    ensures IsWorstDecline(Compounded(changes), MaxDepth(Compounded(changes), |changes| + 1))
    ensures (forall j :: 0 <= j < |changes| ==> changes[j] > -1.0) ==>
              0.0 <= MaxDepth(Compounded(changes), |changes| + 1) < 1.0
  {
    DrawdownIsWorstDeclineIff(changes);
  }

  /** An overdraft that does not fall from the start: from 1 by way of 0.5 to -1 the running form says 2,
      while the fall from 0.5 to -1 is threefold. */
  lemma DrawdownBelowZero()
    ensures var changes := [-0.5, -3.0];
            && MaxDepth(Compounded(changes), 3) == 2.0
            && !IsWorstDecline(Compounded(changes), 2.0)
  {
    var changes := [-0.5, -3.0];
    var curve := Compounded(changes);
    assert EquityAfter(changes, 1) == 0.5 && EquityAfter(changes, 2) == -1.0;
    assert curve[0] == 1.0 && curve[1] == 0.5 && curve[2] == -1.0;
    assert Peak(curve, 0) == 1.0 && Peak(curve, 1) == 1.0 && Peak(curve, 2) == 1.0;
    assert Depth(curve, 0) == 0.0 && Depth(curve, 1) == 0.5 && Depth(curve, 2) == 2.0;
    assert MaxDepth(curve, 1) == 0.0 && MaxDepth(curve, 2) == 0.5;
    DrawdownIsWorstDeclineIff(changes);
    assert changes[1] < -1.0 && changes[0] != -1.0;
    hide MaxDepth, Compounded;
  }

  // ---- the report ----

  datatype Report = Report(sampleSize: nat, winRate: Option<real>, winInterval: Option<(real, real)>,
                           expectancy: Option<real>, maxDrawdown: Option<real>,
                           meanInterval: Option<(real, real)>, verdict: Verdict)

  function CountWins(changes: seq<real>): (n: nat)
    ensures n <= |changes|
  {
    if changes == [] then 0
    else CountWins(changes[..|changes| - 1]) + if changes[|changes| - 1] > 0.0 then 1 else 0
  }

  /** The wins are the indices of the positive returns. */
  lemma {:induction false} CountWinsIsCardinality(changes: seq<real>)
    ensures CountWins(changes) == |set k | 0 <= k < |changes| && changes[k] > 0.0|
  {
    if changes != [] {
      var rest, last := changes[..|changes| - 1], |changes| - 1;
      CountWinsIsCardinality(rest);
      var before := set k | 0 <= k < |rest| && rest[k] > 0.0;
      var after := set k | 0 <= k < |changes| && changes[k] > 0.0;
      assert after == before + if changes[last] > 0.0 then {last} else {};
    }
  }

  /** compute_profitability_report_from_returns. The win-rate interval always uses the default z. */
  method ComputeReport(sqrt: Sqrt, changes: seq<real>, z: real) returns (report: Report)
    requires IsSqrt(sqrt) && z >= 0.0
    ensures report.sampleSize == |changes|
    ensures changes == [] ==> report == Report(0, None, None, None, None, None, InsufficientData)
    ensures changes != [] ==>
              && report.winRate == Some(CountWins(changes) as real / |changes| as real)
              && report.winInterval == Some(WilsonScoreInterval(sqrt, CountWins(changes), |changes|, 1.96))
              && report.meanInterval == MeanConfidenceInterval(sqrt, changes, z)
              && 0.0 <= report.winInterval.value.0 <= report.winRate.value <= report.winInterval.value.1 <= 1.0
              && report.expectancy == Some(Mean(changes))
              && report.maxDrawdown == Some(MaxDepth(Compounded(changes), |changes| + 1))
    ensures report.verdict == InsufficientData <==> |changes| < 30
    ensures |changes| >= 30 ==>
              && (report.verdict == PositivePerformance <==> Significant(changes, z) && Mean(changes) > 0.0)
              && (report.verdict == NegativePerformance <==> Significant(changes, z) && Mean(changes) < 0.0)
  {
    if changes == [] {
      return Report(0, None, None, None, None, None, InsufficientData);
    }
    hide WilsonScoreInterval, MeanConfidenceInterval, Significant, IsSqrt, Mean, Compounded;
    var n, wins := |changes|, CountWins(changes);
    var winInterval := WilsonScoreInterval(sqrt, wins, n, CONFIDENCE_Z);
    WilsonNeedsNoClamp(sqrt, wins, n, CONFIDENCE_Z);
    var meanInterval := MeanConfidenceInterval(sqrt, changes, z);
    VerdictIsSignificance(sqrt, changes, z);
    var maxDrawdown := ComputeMaxDrawdown(changes);
    return Report(n, Some(wins as real / n as real), Some(winInterval), Some(Mean(changes)), maxDrawdown, meanInterval,
                  VerdictOf(n, meanInterval));
  }
}
