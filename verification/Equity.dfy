/** The equity curve of a finished run (backtesting/equity.py). */
module Equity {
  import opened Wrappers
  import opened Drawdown

  datatype EquityPoint = EquityPoint(time: int, equity: real, drawdownPct: real)

  /** The curve's values: the starting capital, then the equity after each trade. */
  function Values(capital: real, equities: seq<(int, real)>): seq<real> {
    [capital] + seq(|equities|, k requires 0 <= k < |equities| => equities[k].1)
  }

  function PointAt(start: int, capital: real, equities: seq<(int, real)>, k: nat): EquityPoint
    requires k <= |equities|
  {
    var values := Values(capital, equities);
    EquityPoint(if k == 0 then start else equities[k - 1].0, values[k], Max(0.0, Depth(values, k) * 100.0))
  }

  method BuildEquityCurve(start: int, capital: real, equities: seq<(int, real)>) returns (points: seq<EquityPoint>)
    ensures |points| == |equities| + 1
    ensures forall k :: 0 <= k < |points| ==> points[k] == PointAt(start, capital, equities, k)
  {
    points := [EquityPoint(start, capital, 0.0)];
    var peak := capital;
    ghost var values := Values(capital, equities);
    if capital > 0.0 {
      assert (capital - capital) / capital == 0.0;
    }
    for i := 0 to |equities|
      invariant peak == Peak(values, i)
      invariant |points| == i + 1
      invariant forall k :: 0 <= k <= i ==> points[k] == PointAt(start, capital, equities, k)
    {
      var (time, equity) := equities[i];
      peak := Max(peak, equity);
      var drawdownPct := if peak <= 0.0 then 0.0 else Max(0.0, (peak - equity) / peak * 100.0);
      points := points + [EquityPoint(time, equity, drawdownPct)];
    }
  }

  /** A point, read off the recorded equities: its decline from the highest value so far, in percent of it,
      and none while nothing was ever above zero. */
  lemma PointTells(start: int, capital: real, equities: seq<(int, real)>, k: nat, peak: real)
    requires k <= |equities|
    requires peak >= capital && forall j :: 0 <= j < k ==> peak >= equities[j].1
    requires peak == capital || exists j :: 0 <= j < k && peak == equities[j].1
    ensures var p := PointAt(start, capital, equities, k);
            && (p.time, p.equity) == (if k == 0 then (start, capital) else equities[k - 1])
            && p.drawdownPct >= 0.0
            && (if peak > 0.0 then p.drawdownPct * peak == 100.0 * (peak - p.equity) else p.drawdownPct == 0.0)
  {
    var values := Values(capital, equities);
    PeakIsGreatest(values, k);
    assert values[0] == capital && forall j :: 0 <= j < k ==> values[j + 1] == equities[j].1;
    assert Peak(values, k) == peak;
    DepthIsNonNegative(values, k);
    if peak > 0.0 {
      ShareOf(peak - values[k], peak);
    }
  }

  lemma ShareOf(fall: real, peak: real)
    requires peak > 0.0
    ensures fall / peak * 100.0 * peak == 100.0 * fall
  {
    assert fall / peak * peak == fall;
  }

  /** The largest drawdown among the points is 100 times the running maximum. */
  lemma {:induction false} LargestDrawdown(start: int, capital: real, equities: seq<(int, real)>, n: nat)
    requires 0 < n <= |equities| + 1 && capital > 0.0
    ensures forall k :: 0 <= k < n ==>
              PointAt(start, capital, equities, k).drawdownPct <= MaxDepth(Values(capital, equities), n) * 100.0
    ensures exists k :: 0 <= k < n &&
              PointAt(start, capital, equities, k).drawdownPct == MaxDepth(Values(capital, equities), n) * 100.0
  {
    var values := Values(capital, equities);
    MaxDepthIsGreatest(values, n);
    forall k | 0 <= k < n
      ensures PointAt(start, capital, equities, k).drawdownPct == Depth(values, k) * 100.0
    {
      DepthIsNonNegative(values, k);
    }
    var k :| 0 <= k < n && Depth(values, k) == MaxDepth(values, n);
    assert PointAt(start, capital, equities, k).drawdownPct == MaxDepth(values, n) * 100.0;
  }

  lemma DepthIsNonNegative(curve: seq<real>, j: nat)
    requires j < |curve|
    ensures Depth(curve, j) >= 0.0
  {
  }
}
