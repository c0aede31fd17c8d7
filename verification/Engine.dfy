/** The reference loop (backtesting/engine.py, run_backtest): account, open position and lists
    are updated bar by bar, and the result is exactly `Run` under the standard exit rule. */
module Engine {
  import opened Wrappers
  import opened Market
  import opened Costs
  import opened Accounts
  import opened Positions
  import opened Simulator
  import opened Ledger

  /** What a simulator reports; the equity curve and the metrics are folds of these. */
  datatype Report = Report(trades: seq<Trade>, equities: seq<(int, real)>, finalEquity: real)

  ghost function ReportOf(end: SimState): Report {
    Report(end.trades, end.equities, end.account.Equity())
  }

  /** An empty series and a non-positive capital are the only inputs that raise. */
  predicate Accepts(setup: Setup, bars: Series) {
    bars != [] && setup.capital > 0.0
  }

  method OpenAccount(capital: real) returns (r: Result<Account, string>)
    ensures r.Success? <==> capital > 0.0
    ensures r.Success? ==> fresh(r.value) && r.value.View() == NewAccount(capital)
  {
    if capital <= 0.0 {
      return Failure("initial_capital must be greater than 0");
    }
    var account := new Account(capital);
    return Success(account);
  }

  /** Without an open position a bar only rolls the day. */
  lemma FlatExitPhase(costs: CostModel, bar: Bar, st: SimState)
    requires st.position.None?
    ensures ExitPhase(costs, bar, st) == st.(account := st.account.RollToDay(bar.day))
  {
  }

  /** A flat simulation has a flat account at its entry decision. */
  lemma FlatAtDecision(setup: Setup, rule: Rule, bars: Series, i: nat)
    requires i < |bars|
    ensures var st := AtDecision(setup, rule, bars, i);
            st.position.None? ==> st.account.openQuantity == 0
  {
    LoopBalances(setup, rule, bars, i);
    ExitPhaseBalances(setup, bars[i], Loop(setup, rule, bars, i));
    hide ExitPhase;
  }

  /** The entry block, the same text in every loop: signal, risk decision, next-open fill. */
  method TryEnter(setup: Setup, rule: Rule, bars: Series, i: nat, account: Account) returns (entered: Option<Position>)
    requires i + 1 < |bars| && account.openQuantity == 0
    modifies account
    ensures entered == Enter(setup, rule, bars, i, old(account.View()))
    ensures account.View() == if entered.None? then old(account.View())
                              else OpenIn(setup.costs, old(account.View()), entered.value)
  {
    var signal := setup.strategy(bars, i);
    if signal.None? || signal.value.side != Long {
      return None;
    }
    var decision := setup.risk(signal.value, account.View());
    if decision.None? {
      return None;
    }
    var entryPrice := setup.costs.SlippageAdjustedPrice(bars[i + 1].open, signal.value.side, true).value;
    var quantity := decision.value;
    if Notional(entryPrice, quantity) > account.cash {
      quantity := if entryPrice > 0.0 then (account.cash / entryPrice).Floor else 0;
    }
    if quantity < 1 {
      return None;
    }
    var entryCost := setup.costs.CostForFill(Notional(entryPrice, quantity));
    var outcome := account.OpenPosition(quantity, entryPrice, entryCost);
    assert outcome.Pass?;
    return Some(NewPosition(rule, signal.value, bars[i + 1].time, entryPrice, quantity, entryCost));
  }

  /** The closing block, the same text in every loop. */
  method CloseTo(costs: CostModel, account: Account, p: Position, price: real, time: int, reason: ExitReason,
                 trades: seq<Trade>, equities: seq<(int, real)>)
    returns (trades': seq<Trade>, equities': seq<(int, real)>)
    requires account.openQuantity == p.remaining >= 1
    requires !p.tracker.Scaling? ==> p.remaining == p.quantity
    modifies account
    ensures SimState(account.View(), None, trades', equities')
         == CloseOut(costs, SimState(old(account.View()), None, trades, equities), p, price, time, reason)
  {
    var trade := CloseAll(costs, p, price, time, reason);
    var exitCost := costs.CostForFill(Notional(price, trade.quantity));
    var outcome := account.ClosePosition(price, exitCost, trade.net);
    assert outcome.Pass?;
    trades', equities' := trades + [trade], equities + [(time, account.Equity())];
  }

  /** After the last bar: what is still open is sold at the last close, less slippage. */
  method ForceClose(costs: CostModel, bars: Series, account: Account, p: Position,
                    trades: seq<Trade>, equities: seq<(int, real)>)
    returns (trades': seq<Trade>, equities': seq<(int, real)>)
    requires bars != [] && p.signal.side == Long
    requires account.openQuantity == p.remaining >= 1
    requires !p.tracker.Scaling? ==> p.remaining == p.quantity
    modifies account
    ensures SimState(account.View(), None, trades', equities')
         == Finish(costs, bars, SimState(old(account.View()), Some(p), trades, equities))
  {
    var last := bars[|bars| - 1];
    var exitPrice := costs.SlippageAdjustedPrice(last.close, p.signal.side, false).value;
    trades', equities' := CloseTo(costs, account, p, exitPrice, last.time, EndOfData, trades, equities);
  }

  /** The exit half of a bar under the standard rule. */
  method ExitHalf(costs: CostModel, bar: Bar, account: Account, p: Position, trades: seq<Trade>, equities: seq<(int, real)>)
    returns (left: Option<Position>, trades': seq<Trade>, equities': seq<(int, real)>)
    requires account.openQuantity == p.remaining == p.quantity && p.tracker.Plain?
    modifies account
    ensures left.Some? ==> left == Some(p)
    ensures SimState(account.View(), left, trades', equities')
         == ExitPhase(costs, bar, SimState(old(account.View()), Some(p), trades, equities))
  {
    hide CloseAll;
    left, trades', equities' := Some(p), trades, equities;
    account.RollToDay(bar.day);
    account.MarkToMarket(bar.close);
    var exit := CheckExit(p.stop, p.target, bar);
    if exit.Some? {
      trades', equities' := CloseTo(costs, account, p, exit.value.0, bar.time, exit.value.1, trades, equities);
      left := None;
    }
  }

  method RunBacktest(setup: Setup, bars: Series) returns (r: Result<Report, string>)
    ensures r.Success? <==> Accepts(setup, bars)
    ensures r.Success? ==> r.value == ReportOf(Run(setup, Standard, bars))
  {
    if bars == [] {
      return Failure("No indicator data; cannot backtest an empty series.");
    }
    var account :- OpenAccount(setup.capital);
    var trades: seq<Trade>, equities: seq<(int, real)>, position: Option<Position> := [], [], None;
    hide ExitPhase, Enter, OpenIn, CloseOut;
    for i := 0 to |bars|
      invariant fresh(account)
      invariant SimState(account.View(), position, trades, equities) == Loop(setup, Standard, bars, i)
      invariant position.Some? ==> position.value.tracker.Plain?
    {
      HoldingsMatch(setup, Standard, bars, i);
      if position.None? {
        FlatExitPhase(setup.costs, bars[i], Loop(setup, Standard, bars, i));
        account.RollToDay(bars[i].day);
      } else {
        position, trades, equities := ExitHalf(setup.costs, bars[i], account, position.value, trades, equities);
      }
      if position.None? && i + 1 < |bars| {
        FlatAtDecision(setup, Standard, bars, i);
        position := TryEnter(setup, Standard, bars, i, account);
        EnteredIsNew(setup, Standard, bars, i, AtDecision(setup, Standard, bars, i).account);
      }
    }
    if position.Some? {
      HoldingsMatch(setup, Standard, bars, |bars|);
      trades, equities := ForceClose(setup.costs, bars, account, position.value, trades, equities);
    }
    return Success(Report(trades, equities, account.Equity()));
  }
}
