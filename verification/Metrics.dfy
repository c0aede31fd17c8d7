/** Performance metrics of a finished run (backtesting/metrics.py), and how they agree with it. */
module Metrics {
  import opened Wrappers
  import opened Reals
  import opened Market
  import opened Positions
  import opened Simulator
  import opened Ledger
  import opened Equity

  function Winners(trades: seq<Trade>): seq<Trade> {
    if trades == [] then []
    else var t := trades[|trades| - 1]; Winners(trades[..|trades| - 1]) + if t.net > 0.0 then [t] else []
  }

  function Losers(trades: seq<Trade>): seq<Trade> {
    if trades == [] then []
    else var t := trades[|trades| - 1]; Losers(trades[..|trades| - 1]) + if t.net < 0.0 then [t] else []
  }

  function Abs(x: real): real {
    if x < 0.0 then -x else x
  }

  /** The ratios of the report: None where the denominator would be zero. */
  datatype Ratios = Ratios(winRatePct: real, averageTrade: real, averageWinner: Option<real>,
                           averageLoser: Option<real>, profitFactor: Option<real>)

  function ComputeRatios(trades: seq<Trade>): Ratios {
    var n, winners, losers := |trades|, Winners(trades), Losers(trades);
    var grossProfit, grossLoss := SumNet(winners), Abs(SumNet(losers));
    Ratios(if n > 0 then |winners| as real / n as real * 100.0 else 0.0,
           if n > 0 then SumNet(trades) / n as real else 0.0,
           if winners != [] then Some(grossProfit / |winners| as real) else None,
           if losers != [] then Some(-grossLoss / |losers| as real) else None,
           if grossLoss > 0.0 then Some(grossProfit / grossLoss) else None)
  }

  lemma {:induction false} WinnersAndLosers(trades: seq<Trade>)
    ensures SumNet(trades) == SumNet(Winners(trades)) + SumNet(Losers(trades))
    ensures SumNet(Winners(trades)) >= 0.0 >= SumNet(Losers(trades))
    ensures |Winners(trades)| + |Losers(trades)| <= |trades|
    ensures (Losers(trades) != [] <==> SumNet(Losers(trades)) < 0.0)
    ensures (Winners(trades) != [] <==> SumNet(Winners(trades)) > 0.0)
  {
    if trades != [] {
      var rest, t := trades[..|trades| - 1], trades[|trades| - 1];
      WinnersAndLosers(rest);
      SumsAppend(Winners(rest), t);
      SumsAppend(Losers(rest), t);
      assert Winners(rest) + [] == Winners(rest) && Losers(rest) + [] == Losers(rest);
    }
  }

  /** The profit factor exists exactly when something was lost, and then exceeds one exactly when
      the trades made money. */
  lemma ProfitFactorAboveOne(trades: seq<Trade>)
    ensures var r := ComputeRatios(trades);
            && (r.profitFactor.Some? <==> Losers(trades) != [])
            && (r.profitFactor.Some? ==> (r.profitFactor.value > 1.0 <==> SumNet(trades) > 0.0))
  {
    hide SumNet, Winners, Losers;
    WinnersAndLosers(trades);
    var profit, loss := SumNet(Winners(trades)), SumNet(Losers(trades));
    if loss < 0.0 {
      QuotientAgainstOne(profit, -loss);
    }
  }

  ghost predicate SumsAddUp(a: seq<Trade>, b: seq<Trade>) {
    && SumNet(a + b) == SumNet(a) + SumNet(b)
    && SumGross(a + b) == SumGross(a) + SumGross(b)
    && SumCosts(a + b) == SumCosts(a) + SumCosts(b)
  }

  lemma EachSumAppends(trades: seq<Trade>, t: Trade)
    ensures SumNet(trades + [t]) == SumNet(trades) + t.net
    ensures SumGross(trades + [t]) == SumGross(trades) + t.gross
    ensures SumCosts(trades + [t]) == SumCosts(trades) + t.costs
  {
    assert (trades + [t])[..|trades|] == trades;
  }

  /** The sums add up over any cut of the list, and are the trade's own figures on one trade. */
  lemma {:induction false} SumsOverParts(a: seq<Trade>, b: seq<Trade>)
    ensures SumsAddUp(a, b)
    ensures forall t: Trade :: SumNet([t]) == t.net && SumGross([t]) == t.gross && SumCosts([t]) == t.costs
  {
    forall t: Trade
      ensures SumNet([t]) == t.net && SumGross([t]) == t.gross && SumCosts([t]) == t.costs
    {
      EachSumAppends([], t);
      assert [] + [t] == [t];
    }
    if b == [] {
      assert a + b == a;
    } else {
      hide SumNet, SumGross, SumCosts;
      var rest, t := b[..|b| - 1], b[|b| - 1];
      SumsOverParts(a, rest);
      EachSumAppends(a + rest, t);
      EachSumAppends(rest, t);
      assert a + b == (a + rest) + [t] && b == rest + [t];
    }
  }

  ghost predicate CountedBySign(trades: seq<Trade>, t: Trade) {
    && multiset(Winners(trades))[t] == (if t.net > 0.0 then multiset(trades)[t] else 0)
    && multiset(Losers(trades))[t] == if t.net < 0.0 then multiset(trades)[t] else 0
  }

  /** Winners and losers are the trades with a positive and a negative result, each as often as it occurs. */
  lemma {:induction false} SortedBySign(trades: seq<Trade>, t: Trade)
    ensures CountedBySign(trades, t)
  {
    if trades != [] {
      hide CountedBySign;
      var rest, last := trades[..|trades| - 1], trades[|trades| - 1];
      SortedBySign(rest, t);
      SortedOneMore(rest, last, t);
      assert trades == rest + [last];
    }
  }

  lemma SortedOneMore(rest: seq<Trade>, last: Trade, t: Trade)
    requires CountedBySign(rest, t)
    ensures CountedBySign(rest + [last], t)
  {
    SortAppends(rest, last);
    hide Winners, Losers;
    CountAppends(rest, last, t);
    CountAppends(Winners(rest), last, t);
    CountAppends(Losers(rest), last, t);
  }

  lemma SortAppends(rest: seq<Trade>, last: Trade)
    ensures Winners(rest + [last]) == if last.net > 0.0 then Winners(rest) + [last] else Winners(rest)
    ensures Losers(rest + [last]) == if last.net < 0.0 then Losers(rest) + [last] else Losers(rest)
  {
    assert (rest + [last])[..|rest|] == rest;
  }

  lemma CountAppends(trades: seq<Trade>, last: Trade, t: Trade)
    ensures multiset(trades + [last])[t] == multiset(trades)[t] + if last == t then 1 else 0
  {
  }

  /** The averages are means, the win rate the percentage of winners, and the profit factor what was won
      for each unit lost; a figure without trades to divide by is zero or absent. */
  lemma FiguresAreMeans(trades: seq<Trade>)
    ensures var r, winners, losers := ComputeRatios(trades), Winners(trades), Losers(trades);
            && r.winRatePct * |trades| as real == 100.0 * |winners| as real
            && r.averageTrade * |trades| as real == SumNet(trades)
            && (trades == [] ==> r.winRatePct == 0.0 && r.averageTrade == 0.0)
            && (r.averageWinner.Some? <==> winners != []) && (r.averageLoser.Some? <==> losers != [])
            && (r.averageWinner.Some? ==> r.averageWinner.value * |winners| as real == SumNet(winners))
            && (r.averageLoser.Some? ==> r.averageLoser.value * |losers| as real == SumNet(losers))
            && (r.profitFactor.Some? <==> losers != [])
            && (r.profitFactor.Some? ==> r.profitFactor.value * -SumNet(losers) == SumNet(winners))
  {
    hide SumNet, Winners, Losers;
    WinnersAndLosers(trades);
    var winners, losers := Winners(trades), Losers(trades);
    if trades != [] {
      PercentOf(|winners| as real, |trades| as real);
      PartsOf(SumNet(trades), |trades| as real);
    } else {
      assert winners == [] by { WinnersOfNone(); }
      assert SumNet(trades) == 0.0 by { WinnersOfNone(); }
    }
    if winners != [] {
      PartsOf(SumNet(winners), |winners| as real);
    }
    if losers != [] {
      PartsOf(SumNet(losers), |losers| as real);
      PartsOf(SumNet(winners), -SumNet(losers));
    }
  }

  lemma WinnersOfNone()
    ensures Winners([]) == [] && SumNet([]) == 0.0
  {
  }

  lemma PartsOf(x: real, n: real)
    requires n > 0.0
    ensures x / n * n == x
    ensures -(-x) / n == x / n
  {
  }

  lemma PercentOf(x: real, n: real)
    requires n > 0.0
    ensures x / n * 100.0 * n == 100.0 * x
  {
    assert x / n * n == x;
  }

  /** The average winner is a gain, the average loser a loss, and the win rate a percentage. */
  lemma AveragesKeepTheirSign(trades: seq<Trade>)
    ensures var r := ComputeRatios(trades);
            && (r.averageLoser.Some? ==> r.averageLoser.value < 0.0)
            && (r.averageWinner.Some? ==> r.averageWinner.value > 0.0)
            && 0.0 <= r.winRatePct <= 100.0
  {
    hide SumNet, Winners, Losers;
    WinnersAndLosers(trades);
    var winners, losers := Winners(trades), Losers(trades);
    if losers != [] {
      PositiveQuotient(-SumNet(losers), |losers| as real);
    }
    if winners != [] {
      PositiveQuotient(SumNet(winners), |winners| as real);
    }
    if trades != [] {
      QuotientAgainstOne(|winners| as real, |trades| as real);
    }
  }

  lemma PositiveQuotient(x: real, y: real)
    requires x > 0.0 && y > 0.0
    ensures x / y > 0.0
    ensures -x / y < 0.0
  {
  }

  ghost predicate AllLosing(trades: seq<Trade>, a: nat, b: nat)
    requires a <= b <= |trades|
  {
    forall k :: a <= k < b ==> trades[k].net < 0.0
  }

  ghost predicate BoundsLosingBlocks(trades: seq<Trade>, longest: nat) {
    forall a: nat, b: nat :: a <= b <= |trades| && AllLosing(trades, a, b) ==> b - a <= longest
  }

  /** The longest losing streak: some block of that many consecutive trades all lost, no longer one did. */
  method MaxConsecutiveLosses(trades: seq<Trade>) returns (longest: nat)
    ensures BoundsLosingBlocks(trades, longest)
    ensures exists a: nat, b: nat :: a <= b <= |trades| && AllLosing(trades, a, b) && b - a == longest
  {
    longest := 0;
    var current: nat := 0;
    ghost var at: nat := 0;
    for i := 0 to |trades|
      invariant current <= i && current <= longest
      invariant AllLosing(trades, i - current, i)
      invariant current < i ==> trades[i - current - 1].net >= 0.0
      invariant at + longest <= i && AllLosing(trades, at, at + longest)
      invariant forall a: nat, b: nat :: a <= b <= i && AllLosing(trades, a, b) ==> b - a <= longest
    {
      if trades[i].net < 0.0 {
        current := current + 1;
        if current > longest {
          longest, at := current, i + 1 - current;
        }
      } else {
        current := 0;
      }
      forall a: nat, b: nat | a <= b <= i + 1 && AllLosing(trades, a, b)
        ensures b - a <= longest
      {
        if b == i + 1 {
          BlockFitsStreak(trades, a, b, current);
        }
      }
    }
    assert AllLosing(trades, at, at + longest);
  }

  /** A losing block is no longer than the streak it ends with. */
  lemma BlockFitsStreak(trades: seq<Trade>, a: nat, b: nat, streak: nat)
    requires a <= b <= |trades| && AllLosing(trades, a, b)
    requires streak <= b && (streak < b ==> trades[b - streak - 1].net >= 0.0)
    ensures b - a <= streak
  {
  }

  lemma {:induction false} StreakIsLosing(trades: seq<Trade>)
    ensures LosingStreak(trades) <= |trades| && AllLosing(trades, |trades| - LosingStreak(trades), |trades|)
    ensures LosingStreak(trades) < |trades| ==> trades[|trades| - LosingStreak(trades) - 1].net >= 0.0
  {
    if trades != [] && trades[|trades| - 1].net < 0.0 {
      var rest := trades[..|trades| - 1];
      StreakIsLosing(rest);
      assert forall k :: 0 <= k < |rest| ==> trades[k] == rest[k];
    }
  }

  /** Metrics, equity curve and account tell one story about a run: the reported profit is what the
      account gained, the curve ends at the account's equity, and the streak the risk engine acts on
      never exceeds the reported longest one. */
  lemma MetricsAgreeWithTheRun(setup: Setup, rule: Rule, bars: Series, longest: nat)
    requires bars != [] && BoundsLosingBlocks(Run(setup, rule, bars).trades, longest)
    ensures var end := Run(setup, rule, bars);
            var values := Values(setup.capital, end.equities);
            && SumGross(end.trades) - SumCosts(end.trades) == SumNet(end.trades) == end.account.Equity() - setup.capital
            && |values| == |end.trades| + 1
            && values[|end.trades|] == end.account.Equity()
            && end.account.consecutiveLosses <= longest
            && (ComputeRatios(end.trades).profitFactor.Some? ==>
                  (ComputeRatios(end.trades).profitFactor.value > 1.0 <==> end.account.Equity() > setup.capital))
  {
    Conservation(setup, rule, bars);
    var end := Run(setup, rule, bars);
    hide Run, ComputeRatios, SumGross, SumCosts, LosingStreak;
    ProfitFactorAboveOne(end.trades);
    StreakIsLosing(end.trades);
    var n := |end.trades|;
    assert AllLosing(end.trades, n - LosingStreak(end.trades), n);
    if n > 0 {
      assert EquityAgrees(setup.capital, end.trades, end.equities, n - 1);
      assert end.trades[..n] == end.trades;
      LastTradeIsWhole(setup, rule, bars);
    }
  }

  /** A run never ends on a partial take: what is left is closed after it. */
  lemma LastTradeIsWhole(setup: Setup, rule: Rule, bars: Series)
    requires bars != [] && Run(setup, rule, bars).trades != []
    ensures var trades := Run(setup, rule, bars).trades; trades[|trades| - 1].exitReason != PartialTarget
  {
    var st := Loop(setup, rule, bars, |bars|);
    WholeWhenFlat(setup, rule, bars, |bars|);
    FinishShape(setup.costs, bars, st);
    hide Finish, Loop;
  }

  lemma {:induction false} WholeWhenFlat(setup: Setup, rule: Rule, bars: Series, k: nat)
    requires k <= |bars|
    ensures var st := Loop(setup, rule, bars, k);
            st.position.None? && st.trades != [] ==> st.trades[|st.trades| - 1].exitReason != PartialTarget
  {
    hide ExitPhase, EntryPhase;
    if k > 0 {
      var before := Loop(setup, rule, bars, k - 1);
      WholeWhenFlat(setup, rule, bars, k - 1);
      ExitPhaseShape(setup.costs, bars[k - 1], before);
      EntryPhaseShape(setup, rule, bars, k - 1, AtDecision(setup, rule, bars, k - 1));
    }
  }
}
