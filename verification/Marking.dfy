/** What the account says it is worth, bar by bar: the equity, the peak and the day's starting equity that
    the risk rules read, in terms of cash, units held and prices (risk/account.py:41-106, driven by
    backtesting/engine.py:79-127). */
module Marking {
  import opened Wrappers
  import opened Market
  import opened Costs
  import opened Accounts
  import opened Positions
  import opened Simulator
  import opened Ledger

  /** The price the units held after bar k's exit check were last valued at. */
  function CheckedAt(setup: Setup, rule: Rule, bars: Series, k: nat): real
    requires k < |bars|
  {
    var position := Loop(setup, rule, bars, k).position;
    if position.Some? && OnBar(position.value, bars[k]).ScaleOut? then OnBar(position.value, bars[k]).price
    else bars[k].close
  }

  /** Cash, and the units that are left at that price. */
  function CheckedValue(setup: Setup, rule: Rule, bars: Series, k: nat): real
    requires k < |bars|
  {
    var st := AtDecision(setup, rule, bars, k);
    st.account.cash + if st.position.Some? then Notional(CheckedAt(setup, rule, bars, k), st.position.value.remaining) else 0.0
  }

  /** The worth before bar k: units entered on bar k's open count at their fill price, older ones at what
      they were last valued at. */
  function Worth(setup: Setup, rule: Rule, bars: Series, k: nat): real
    requires k <= |bars|
  {
    var st := Loop(setup, rule, bars, k);
    if st.position.None? then st.account.cash
    else if k > 0 && AtDecision(setup, rule, bars, k - 1).position.Some? then CheckedValue(setup, rule, bars, k - 1)
    else st.account.cash + Notional(st.position.value.entryPrice, st.position.value.quantity)
  }

  /** The worth of what is held into bar k at bar k's close, whatever the bar then does to it. */
  function CloseValue(setup: Setup, rule: Rule, bars: Series, k: nat): real
    requires k < |bars|
  {
    var st := Loop(setup, rule, bars, k);
    st.account.cash + if st.position.Some? then Notional(bars[k].close, st.position.value.remaining) else 0.0
  }

  lemma MarkedEquity(setup: Setup, a: AccountState, p: Position, net: real, close: real)
    requires Books(setup, a, Some(p), net)
    ensures var b := a.MarkToMarket(close);
            && b.Equity() == a.cash + Notional(close, p.remaining) && b.cash == a.cash
            && b.peakEquity == Max(a.peakEquity, b.Equity()) && b.dailyStartEquity == a.dailyStartEquity
            && b.openEntryPrice == a.openEntryPrice && b.openQuantity == a.openQuantity && b.costBasis == a.costBasis
  {
    NotionalSplits(p.entryPrice, close, p.remaining, 0);
    assert p.remaining >= 1;
    hide Notional, Sound, EntryFee, UnchargedFee, CashFloor;
  }

  lemma PartialEquity(setup: Setup, a: AccountState, p: Position, net: real, bar: Bar, fee: real, gain: real)
    requires Books(setup, a, Some(p), net) && OnBar(p, bar).ScaleOut?
    ensures var o := OnBar(p, bar);
            var b := a.PartialClose(o.quantity, o.price, fee, gain);
            && b.Equity() == b.cash + Notional(o.price, o.next.remaining)
            && b.peakEquity == Max(a.peakEquity, b.Equity()) && b.dailyStartEquity == a.dailyStartEquity
  {
    var o := OnBar(p, bar);
    ScaleOutSplits(setup.costs, p, bar);
    hide Notional, Sound, OnBar, EntryFee, UnchargedFee, CashFloor;
    NotionalSplits(p.entryPrice, o.price, o.quantity, o.next.remaining);
    NotionalSplits(p.entryPrice, o.price, o.next.remaining, 0);
  }

  /** What an exit check leaves the account worth, and the peak it has seen on the way. */
  lemma CheckValues(setup: Setup, bar: Bar, st: SimState)
    requires Balanced(setup, st)
    ensures var after := ExitCheck(setup.costs, bar, st);
            && after.account.dailyStartEquity == st.account.dailyStartEquity
            && match st.position
               case None => after == st && after.account.Equity() == after.account.cash
               case Some(p) =>
                 var close := st.account.cash + Notional(bar.close, p.remaining);
                 && after.account.peakEquity == Max(Max(st.account.peakEquity, close), after.account.Equity())
                 && match OnBar(p, bar)
                    case Hold(_) => after.account.Equity() == close && after.account.cash == st.account.cash
                    case ScaleOut(price, _, next) =>
                      after.account.Equity() == after.account.cash + Notional(price, next.remaining)
                    case Exit(_, _) => after.account.Equity() == after.account.cash
  {
    hide EquitiesAgree, OnBar, CloseAll, ClosePartialLeg;
    if st.position.Some? {
      var p, net := st.position.value, SumNet(st.trades);
      MarkedEquity(setup, st.account, p, net, bar.close);
      MarkKeepsBooks(setup, st.account, p, net, bar.close);
      if OnBar(p, bar).ScaleOut? {
        var o := OnBar(p, bar);
        var t := ClosePartialLeg(setup.costs, p, o.quantity, o.price, bar.time, PartialTarget);
        var fee := setup.costs.CostForFill(Notional(o.price, o.quantity));
        PartialEquity(setup, st.account.MarkToMarket(bar.close), p, net, bar, fee, t.net);
      }
    }
    hide Books, Notional, CostModel.CostForFill;
  }

  /** The equity at every decision, and the peak so far. */
  lemma EquityAtDecision(setup: Setup, rule: Rule, bars: Series, k: nat)
    requires k < |bars|
    ensures var before, after := Loop(setup, rule, bars, k).account, AtDecision(setup, rule, bars, k).account;
            && after.Equity() == CheckedValue(setup, rule, bars, k) <= after.peakEquity
            && after.peakEquity
               == Max(Max(before.peakEquity, CloseValue(setup, rule, bars, k)), CheckedValue(setup, rule, bars, k))
  {
    hide Loop, OnBar, Books, EquitiesAgree, Notional, ExitCheck, AccountState.Equity;
    LoopBalances(setup, rule, bars, k);
    var st := Loop(setup, rule, bars, k);
    var rolled := st.(account := st.account.RollToDay(bars[k].day));
    RollKeepsBalance(setup, st, bars[k].day);
    CheckValues(setup, bars[k], rolled);
    ExitPhaseShape(setup.costs, bars[k], st);
    HoldKeepsUnits(setup, st, bars[k]);
  }

  lemma RollKeepsBalance(setup: Setup, st: SimState, day: int)
    requires Balanced(setup, st)
    ensures Balanced(setup, st.(account := st.account.RollToDay(day)))
    ensures st.account.peakEquity >= st.account.Equity()
    ensures st.position.None? ==> st.account.Equity() == st.account.cash
  {
    hide EquitiesAgree;
  }

  lemma HoldKeepsUnits(setup: Setup, st: SimState, bar: Bar)
    requires Balanced(setup, st)
    ensures st.position.Some? && OnBar(st.position.value, bar).Hold? ==>
              OnBar(st.position.value, bar).next.remaining == st.position.value.remaining
  {
    hide EquitiesAgree;
  }

  /** The equity before every bar is the cash and the units held, valued as they last were. */
  lemma EquityIsWorth(setup: Setup, rule: Rule, bars: Series, k: nat)
    requires k <= |bars|
    ensures Loop(setup, rule, bars, k).account.Equity() == Worth(setup, rule, bars, k)
    ensures k > 0 ==>
              Loop(setup, rule, bars, k).account.peakEquity
              == Max(AtDecision(setup, rule, bars, k - 1).account.peakEquity, Worth(setup, rule, bars, k))
  {
    hide Loop, AtDecision, EntryPhase, CheckedValue, Balanced, AccountState.Equity, Notional;
    if k == 0 {
      WorthAtFirst(setup, rule, bars);
    } else {
      var st := AtDecision(setup, rule, bars, k - 1);
      DecidesNext(setup, rule, bars, k - 1);
      EntryPhaseValues(setup, rule, bars, k - 1, st);
      EquityAtDecision(setup, rule, bars, k - 1);
      CheckedWhenFlat(setup, rule, bars, k - 1);
    }
  }

  lemma WorthAtFirst(setup: Setup, rule: Rule, bars: Series)
    ensures Loop(setup, rule, bars, 0).account.Equity() == Worth(setup, rule, bars, 0) == setup.capital
  {
  }

  lemma DecidesNext(setup: Setup, rule: Rule, bars: Series, k: nat)
    requires k < |bars|
    ensures Loop(setup, rule, bars, k + 1) == EntryPhase(setup, rule, bars, k, AtDecision(setup, rule, bars, k))
  {
  }

  lemma CheckedWhenFlat(setup: Setup, rule: Rule, bars: Series, k: nat)
    requires k < |bars|
    ensures var st := AtDecision(setup, rule, bars, k);
            st.position.None? ==> CheckedValue(setup, rule, bars, k) == st.account.cash
  {
    hide Loop;
  }

  /** An entry values the account at the fill; without one nothing changes. */
  lemma EntryPhaseValues(setup: Setup, rule: Rule, bars: Series, i: nat, st: SimState)
    requires i < |bars|
    ensures var after := EntryPhase(setup, rule, bars, i, st);
            && after.account.dailyStartEquity == st.account.dailyStartEquity
            && after.account.currentDay == st.account.currentDay
            && if st.position.None? && after.position.Some? then
                 var p := after.position.value;
                 && after.account.Equity() == after.account.cash + Notional(p.entryPrice, p.quantity)
                 && after.account.peakEquity == Max(st.account.peakEquity, after.account.Equity())
               else after == st
  {
    hide Enter, Notional;
    if st.position.None? && i + 1 < |bars| && Enter(setup, rule, bars, i, st.account).Some? {
      EntryValue(setup, st.account, Enter(setup, rule, bars, i, st.account).value);
    }
    hide OpenIn;
  }

  lemma EntryValue(setup: Setup, a: AccountState, p: Position)
    ensures var b := OpenIn(setup.costs, a, p);
            && b.Equity() == b.cash + Notional(p.entryPrice, p.quantity)
            && b.peakEquity == Max(a.peakEquity, b.Equity()) && b.dailyStartEquity == a.dailyStartEquity
  {
  }

  // ---- the peak ----

  /** A value the account had during bar j: at its close, after its exit check, or after its entry. */
  ghost predicate ValuedDuring(setup: Setup, rule: Rule, bars: Series, j: nat, v: real)
    requires j < |bars|
  {
    v == CloseValue(setup, rule, bars, j) || v == CheckedValue(setup, rule, bars, j) || v == Worth(setup, rule, bars, j + 1)
  }

  ghost predicate ValuedBefore(setup: Setup, rule: Rule, bars: Series, k: nat, v: real)
    requires k <= |bars|
  {
    v == setup.capital || exists j :: 0 <= j < k && ValuedDuring(setup, rule, bars, j, v)
  }

  /** The peak is the greatest value the account ever had, from the capital on, the value at the close of a
      bar that then stops it out included. */
  lemma {:induction false} PeakIsGreatestValue(setup: Setup, rule: Rule, bars: Series, k: nat)
    requires k <= |bars|
    ensures var peak := Loop(setup, rule, bars, k).account.peakEquity;
            && ValuedBefore(setup, rule, bars, k, peak)
            && forall v :: ValuedBefore(setup, rule, bars, k, v) ==> v <= peak
  {
    hide Loop, AtDecision, CloseValue, CheckedValue, Worth, AccountState.Equity;
    if k == 0 {
      PeakAtFirst(setup, rule, bars);
    } else {
      PeakIsGreatestValue(setup, rule, bars, k - 1);
      EquityAtDecision(setup, rule, bars, k - 1);
      EquityIsWorth(setup, rule, bars, k);
      var before, peak := Loop(setup, rule, bars, k - 1).account.peakEquity, Loop(setup, rule, bars, k).account.peakEquity;
      forall v | ValuedBefore(setup, rule, bars, k, v)
        ensures v <= peak
      {
        if v != setup.capital {
          var j :| 0 <= j < k && ValuedDuring(setup, rule, bars, j, v);
          if j < k - 1 {
            assert ValuedBefore(setup, rule, bars, k - 1, v);
          }
        }
        assert ValuedBefore(setup, rule, bars, k - 1, setup.capital);
      }
      if peak == before {
        if peak != setup.capital {
          var j :| 0 <= j < k - 1 && ValuedDuring(setup, rule, bars, j, peak);
        }
      } else {
        assert ValuedDuring(setup, rule, bars, k - 1, peak);
      }
    }
  }

  lemma PeakAtFirst(setup: Setup, rule: Rule, bars: Series)
    ensures Loop(setup, rule, bars, 0).account.peakEquity == setup.capital
  {
  }

  // ---- the day ----

  lemma {:induction false} DayIsCurrent(setup: Setup, rule: Rule, bars: Series, k: nat)
    requires k <= |bars|
    ensures Loop(setup, rule, bars, k).account.currentDay == if k == 0 then None else Some(bars[k - 1].day)
  {
    if k > 0 {
      hide OnBar, CloseAll, ClosePartialLeg, Enter, Notional, CostModel.CostForFill;
      var before := Loop(setup, rule, bars, k - 1);
    }
  }

  lemma RollSetsDayStart(setup: Setup, rule: Rule, bars: Series, k: nat)
    requires k < |bars|
    ensures var before := Loop(setup, rule, bars, k).account;
            AtDecision(setup, rule, bars, k).account.dailyStartEquity
            == if k > 0 && bars[k - 1].day == bars[k].day then before.dailyStartEquity else before.Equity()
    ensures k > 0 ==> Loop(setup, rule, bars, k).account.dailyStartEquity
                      == AtDecision(setup, rule, bars, k - 1).account.dailyStartEquity
  {
    DayIsCurrent(setup, rule, bars, k);
    hide OnBar, CloseAll, ClosePartialLeg, Enter, Notional, CostModel.CostForFill, AccountState.Equity;
  }

  /** The first bar of the day that bar k belongs to. */
  function DayOpen(bars: Series, k: nat): (first: nat)
    requires k < |bars|
    ensures first <= k && forall j :: first <= j <= k ==> bars[j].day == bars[k].day
    ensures first > 0 ==> bars[first - 1].day != bars[first].day
  {
    if k > 0 && bars[k - 1].day == bars[k].day then DayOpen(bars, k - 1) else k
  }

  /** A day starts from the worth before its first bar: an entry on that bar counts at its fill, its fee
      already paid, and what was held overnight at the last value it was given. */
  lemma {:induction false} DayStartsFromWorth(setup: Setup, rule: Rule, bars: Series, k: nat)
    requires k < |bars|
    ensures AtDecision(setup, rule, bars, k).account.dailyStartEquity == Worth(setup, rule, bars, DayOpen(bars, k))
  {
    hide Loop, AtDecision, Worth, AccountState.Equity;
    RollSetsDayStart(setup, rule, bars, k);
    EquityIsWorth(setup, rule, bars, k);
    if k > 0 && bars[k - 1].day == bars[k].day {
      DayStartsFromWorth(setup, rule, bars, k - 1);
    }
  }

  /** The equity recorded with a trade is the value after its bar's exit check. */
  lemma RecordedIsChecked(setup: Setup, rule: Rule, bars: Series, k: nat)
    requires k < |bars|
    ensures var before, after := Loop(setup, rule, bars, k).equities, AtDecision(setup, rule, bars, k).equities;
            after == before || after == before + [(bars[k].time, CheckedValue(setup, rule, bars, k))]
    ensures Loop(setup, rule, bars, k + 1).equities == AtDecision(setup, rule, bars, k).equities
  {
    EquityAtDecision(setup, rule, bars, k);
    hide Loop, OnBar, CloseAll, ClosePartialLeg, Enter, AccountState.Equity, CheckedValue;
    DecidesNext(setup, rule, bars, k);
  }
}
