/** Peak-to-trough declines of an equity curve: the running form that the loops of
    backtesting/equity.py and learning/profitability.py compute, and what it means. */
module Drawdown {
  import opened Wrappers
  import opened Reals

  /** The running peak after point j. */
  function Peak(curve: seq<real>, j: nat): real
    requires j < |curve|
  {
    if j == 0 then curve[0] else Max(Peak(curve, j - 1), curve[j])
  }

  /** The decline at point j, as a fraction of the peak so far. */
  function Depth(curve: seq<real>, j: nat): real
    requires j < |curve|
  {
    var peak := Peak(curve, j);
    if peak > 0.0 then (peak - curve[j]) / peak else 0.0
  }

  /** The running maximum of the declines at the first n points. */
  function MaxDepth(curve: seq<real>, n: nat): real
    requires n <= |curve|
  {
    if n == 0 then 0.0 else Max(MaxDepth(curve, n - 1), Depth(curve, n - 1))
  }

  lemma {:induction false} PeakIsGreatest(curve: seq<real>, j: nat)
    requires j < |curve|
    ensures forall i :: 0 <= i <= j ==> curve[i] <= Peak(curve, j)
    ensures exists i :: 0 <= i <= j && curve[i] == Peak(curve, j)
  {
    if j == 0 {
      assert curve[0] == Peak(curve, 0);
    } else {
      PeakIsGreatest(curve, j - 1);
      if Peak(curve, j) == curve[j] {
      } else {
        var i :| 0 <= i <= j - 1 && curve[i] == Peak(curve, j - 1);
        assert curve[i] == Peak(curve, j);
      }
    }
  }

  lemma {:induction false} MaxDepthIsGreatest(curve: seq<real>, n: nat)
    requires 0 < n <= |curve| && curve[0] > 0.0
    ensures forall j :: 0 <= j < n ==> Depth(curve, j) <= MaxDepth(curve, n)
    ensures exists j :: 0 <= j < n && Depth(curve, j) == MaxDepth(curve, n)
    ensures MaxDepth(curve, n) >= 0.0
  {
    if n == 1 {
      assert Depth(curve, 0) == 0.0;
    } else {
      MaxDepthIsGreatest(curve, n - 1);
      if MaxDepth(curve, n) == Depth(curve, n - 1) {
      } else {
        var j :| 0 <= j < n - 1 && Depth(curve, j) == MaxDepth(curve, n - 1);
        assert Depth(curve, j) == MaxDepth(curve, n);
      }
    }
  }

  /** The decline from one point to another, as a fraction of the first. */
  function Decline(from: real, to: real): real
    requires from > 0.0
  {
    (from - to) / from
  }

  /** From a higher start, a fall to the same non-negative value is the deeper one. */
  lemma DeeperFromHigher(low: real, high: real, to: real)
    requires 0.0 < low <= high && to >= 0.0
    ensures Decline(low, to) <= Decline(high, to)
  {
  }

  lemma DeclineIsOneMinus(from: real, to: real)
    requires from > 0.0
    ensures Decline(from, to) == 1.0 - to / from
  {
    var d, q := Decline(from, to), to / from;
    assert d * from == from - to && q * from == to;
    SameProduct(d, 1.0 - q, from);
  }

  /** `d` is the worst peak-to-trough decline: no pair of points in time order falls further, and
      some pair falls just as far. */
  ghost predicate IsWorstDecline(curve: seq<real>, d: real) {
    && (forall i, j :: 0 <= i <= j < |curve| && curve[i] > 0.0 ==> Decline(curve[i], curve[j]) <= d)
    && (exists i, j :: 0 <= i <= j < |curve| && curve[i] > 0.0 && Decline(curve[i], curve[j]) == d)
  }

  lemma PeakIsPositive(curve: seq<real>, j: nat)
    requires j < |curve| && curve[0] > 0.0
    ensures Peak(curve, j) > 0.0
  {
  }

  /** From a higher start, a fall to the same point below zero is the shallower one. */
  lemma ShallowerFromHigher(low: real, high: real, to: real)
    requires 0.0 < low < high && to < 0.0
    ensures Decline(low, to) > Decline(high, to)
  {
    DeclineIsOneMinus(low, to);
    DeclineIsOneMinus(high, to);
    NegativeShare(to / low, to / high, low, high, to);
  }

  lemma NegativeShare(a: real, b: real, low: real, high: real, to: real)
    requires 0.0 < low < high && to < 0.0
    requires a * low == to && b * high == to
    ensures a < b
  {
    ScaleLess(low, high, -b);
    if b < a {
      ScaleLess(b, a, low);
    }
  }

  ghost predicate StaysUp(curve: seq<real>) {
    forall j :: 0 <= j < |curve| ==> curve[j] >= 0.0
  }

  /** Some point below zero is reached while every positive value so far was the first one, and no
      positive point falls further, relative to itself, to a later point below zero. */
  ghost predicate DeepestFallIsFromTheStart(curve: seq<real>)
    requires curve != [] && curve[0] > 0.0
  {
    exists j :: 0 <= j < |curve| && IsDeepestFromTheStart(curve, j)
  }

  ghost predicate IsDeepestFromTheStart(curve: seq<real>, j: nat)
    requires j < |curve| && curve[0] > 0.0
  {
    && curve[j] < 0.0
    && (forall i :: 0 <= i <= j && curve[i] > 0.0 ==> curve[i] == curve[0])
    && (forall i, k :: 0 <= i < k < |curve| && curve[i] > 0.0 && curve[k] < 0.0 ==>
          Decline(curve[i], curve[k]) <= Decline(curve[0], curve[j]))
  }

  /** The running form always is some decline; it is below one exactly on an all-positive curve. */
  lemma RunningIsSomeDecline(curve: seq<real>) returns (i: nat, j: nat)
    requires curve != [] && curve[0] > 0.0
    ensures i <= j < |curve| && curve[i] == Peak(curve, j) > 0.0
    ensures Decline(curve[i], curve[j]) == MaxDepth(curve, |curve|) >= 0.0
    ensures MaxDepth(curve, |curve|) < 1.0 <==> forall k :: 0 <= k < |curve| ==> curve[k] > 0.0
  {
    MaxDepthIsGreatest(curve, |curve|);
    j :| 0 <= j < |curve| && Depth(curve, j) == MaxDepth(curve, |curve|);
    PeakIsPositive(curve, j);
    PeakIsGreatest(curve, j);
    i :| 0 <= i <= j && curve[i] == Peak(curve, j);
    forall k | 0 <= k < |curve|
      ensures Depth(curve, k) < 1.0 <==> curve[k] > 0.0
    {
      PeakIsPositive(curve, k);
      DeclineAgainstOne(Peak(curve, k), curve[k]);
    }
  }

  lemma DeclineAgainstOne(from: real, to: real)
    requires from > 0.0
    ensures Decline(from, to) < 1.0 <==> to > 0.0
    ensures Decline(from, to) > 1.0 <==> to < 0.0
  {
    DeclineIsOneMinus(from, to);
    var q := to / from;
    assert q * from == to;
  }

  /** No fall to a point at or above zero is deeper than the running form says. */
  lemma FallsAboveZero(curve: seq<real>, i: nat, j: nat)
    requires i <= j < |curve| && curve[0] > 0.0 && curve[i] > 0.0 && curve[j] >= 0.0
    ensures Decline(curve[i], curve[j]) <= MaxDepth(curve, |curve|)
  {
    MaxDepthIsGreatest(curve, |curve|);
    PeakIsGreatest(curve, j);
    DeeperFromHigher(curve[i], Peak(curve, j), curve[j]);
    assert Depth(curve, j) <= MaxDepth(curve, |curve|);
  }

  /** Exactly when the running form is the worst decline: when the curve never falls below zero, or
      falls deepest straight from its starting value. */
  lemma RunningIsWorstDeclineIff(curve: seq<real>)
    requires curve != [] && curve[0] > 0.0
    ensures IsWorstDecline(curve, MaxDepth(curve, |curve|)) <==> StaysUp(curve) || DeepestFallIsFromTheStart(curve)
  {
    var i, j := RunningIsSomeDecline(curve);
    if IsWorstDecline(curve, MaxDepth(curve, |curve|)) && !StaysUp(curve) {
      WorstFallsFromTheStart(curve, i, j);
    }
    if StaysUp(curve) || DeepestFallIsFromTheStart(curve) {
      forall a, b | 0 <= a <= b < |curve| && curve[a] > 0.0
        ensures Decline(curve[a], curve[b]) <= MaxDepth(curve, |curve|)
      {
        if curve[b] >= 0.0 {
          FallsAboveZero(curve, a, b);
        } else {
          var k :| 0 <= k < |curve| && IsDeepestFromTheStart(curve, k);
          FallFromTheStartIsSeen(curve, k);
        }
      }
    }
  }

  lemma WorstFallsFromTheStart(curve: seq<real>, i: nat, j: nat)
    requires i <= j < |curve| && curve[0] > 0.0 && curve[i] == Peak(curve, j) > 0.0 && !StaysUp(curve)
    requires Decline(curve[i], curve[j]) == MaxDepth(curve, |curve|)
    requires IsWorstDecline(curve, MaxDepth(curve, |curve|))
    ensures IsDeepestFromTheStart(curve, j)
  {
    var k :| 0 <= k < |curve| && curve[k] < 0.0;
    DeclineAgainstOne(curve[0], curve[k]);
    DeclineAgainstOne(curve[i], curve[j]);
    PeakIsGreatest(curve, j);
    forall a | 0 <= a <= j && curve[a] > 0.0
      ensures curve[a] == curve[i]
    {
      if curve[a] < curve[i] {
        ShallowerFromHigher(curve[a], curve[i], curve[j]);
      }
    }
  }

  lemma FallFromTheStartIsSeen(curve: seq<real>, j: nat)
    requires j < |curve| && curve[0] > 0.0 && IsDeepestFromTheStart(curve, j)
    ensures Decline(curve[0], curve[j]) <= MaxDepth(curve, |curve|)
  {
    MaxDepthIsGreatest(curve, |curve|);
    PeakIsGreatest(curve, j);
    PeakIsPositive(curve, j);
    assert Depth(curve, j) == Decline(curve[0], curve[j]);
  }

  /** In particular on every curve that starts above and never falls below zero. */
  lemma RunningIsWorstDecline(curve: seq<real>)
    requires curve != [] && curve[0] > 0.0 && forall j :: 0 <= j < |curve| ==> curve[j] >= 0.0
    ensures IsWorstDecline(curve, MaxDepth(curve, |curve|))
    ensures (forall j :: 0 <= j < |curve| ==> curve[j] > 0.0) ==> 0.0 <= MaxDepth(curve, |curve|) < 1.0
  {
    RunningIsWorstDeclineIff(curve);
    var i, j := RunningIsSomeDecline(curve);
  }
}
