/** Randomised fills (backtesting/execution_robustness.py): a signal may be missed, filled one bar
    late, or filled at a perturbed price. */
module ExecutionRobustness {
  import opened Wrappers
  import opened Market
  import opened Costs
  import opened Accounts
  import opened Positions
  import opened Simulator
  import opened Ledger
  import opened Engine

  datatype FillConfig = FillConfig(missedProbability: real, delayProbability: real, slippageLow: real, slippageHigh: real)

  /** The random source: the value of its n-th draw from [0, 1). */
  type Draws = nat -> real

  ghost predicate UnitDraws(draws: Draws) {
    forall n: nat :: 0.0 <= draws(n) < 1.0
  }

  /** random.uniform(low, high), as Python defines it on one draw. */
  function Uniform(low: real, high: real, draw: real): real {
    low + (high - low) * draw
  }

  datatype Pending = Pending(fillIndex: nat, signal: Signal, quantity: int)

  datatype RobustState = RobustState(sim: SimState, pending: Option<Pending>, drawn: nat)

  function PerturbedPrice(costs: CostModel, config: FillConfig, open: real, draw: real): real {
    var bps := costs.entrySlippageBps * Uniform(config.slippageLow, config.slippageHigh, draw);
    open + open * bps / 10000.0
  }

  /** A pending fill that is due on bar i is filled there, if the cash still allows it. */
  function FillPhase(costs: CostModel, config: FillConfig, draws: Draws, bars: Series, i: nat, st: RobustState): RobustState
    requires i < |bars|
  {
    if st.pending.Some? && st.pending.value.fillIndex == i then
      var due := st.pending.value;
      var price := PerturbedPrice(costs, config, bars[i].open, draws(st.drawn));
      match FillAt(costs, Standard, due.signal, due.quantity, bars[i], price, st.sim.account.cash)
      case None => st.(pending := None, drawn := st.drawn + 1)
      case Some(p) =>
        RobustState(st.sim.(position := Some(p), account := OpenIn(costs, st.sim.account, p)), None, st.drawn + 1)
    else st
  }

  /** A flat account without a pending fill may take a signal: missed, or due one or two bars on. */
  function DecidePhase(setup: Setup, config: FillConfig, draws: Draws, bars: Series, i: nat, st: RobustState): RobustState
    requires i < |bars|
  {
    if st.sim.position.None? && st.pending.None? && i + 1 < |bars| then
      match Approved(setup, bars, i, st.sim.account)
      case None => st
      case Some((signal, quantity)) =>
        if draws(st.drawn) >= config.missedProbability then
          var fillIndex := if draws(st.drawn + 1) < config.delayProbability && i + 2 < |bars| then i + 2 else i + 1;
          st.(pending := Some(Pending(fillIndex, signal, quantity)), drawn := st.drawn + 2)
        else st.(drawn := st.drawn + 1)
    else st
  }

  function Rolled(bar: Bar, st: RobustState): RobustState {
    st.(sim := st.sim.(account := st.sim.account.RollToDay(bar.day)))
  }

  function CheckPhase(costs: CostModel, bar: Bar, st: RobustState): RobustState {
    st.(sim := ExitCheck(costs, bar, st.sim))
  }

  function RobustLoop(setup: Setup, config: FillConfig, draws: Draws, bars: Series, k: nat): RobustState
    requires k <= |bars|
    decreases k, 0
  {
    if k == 0 then RobustState(Init(setup), None, 0)
    else DecidePhase(setup, config, draws, bars, k - 1, RobustAtDecision(setup, config, draws, bars, k - 1))
  }

  /** The state on bar k after its fill and exit check, before its entry decision. */
  function RobustAtDecision(setup: Setup, config: FillConfig, draws: Draws, bars: Series, k: nat): RobustState
    requires k < |bars|
    decreases k, 1
  {
    var before := Rolled(bars[k], RobustLoop(setup, config, draws, bars, k));
    CheckPhase(setup.costs, bars[k], FillPhase(setup.costs, config, draws, bars, k, before))
  }

  function RobustRun(setup: Setup, config: FillConfig, draws: Draws, bars: Series): seq<Trade> {
    if bars == [] then []
    else Finish(setup.costs, bars, RobustLoop(setup, config, draws, bars, |bars|).sim).trades
  }

  // ---- what holds for all random draws ----

  /** A pending fill always lies ahead, on a bar that exists, and never beside an open position. */
  ghost predicate InFlight(setup: Setup, bars: Series, k: nat, st: RobustState)
    requires k <= |bars|
  {
    && Balanced(setup, st.sim)
    && (st.sim.position.Some? ==> st.sim.position.value.tracker.Plain?)
    && (st.pending.Some? ==>
          && st.sim.position.None?
          && k <= st.pending.value.fillIndex <= k + 1 && st.pending.value.fillIndex < |bars|
          && st.pending.value.signal.side == Long)
  }

  lemma FillBalances(setup: Setup, config: FillConfig, draws: Draws, bars: Series, i: nat, st: RobustState)
    requires i < |bars| && InFlight(setup, bars, i, st)
    ensures var st' := FillPhase(setup.costs, config, draws, bars, i, st);
            && InFlight(setup, bars, i, st')
            && (st'.pending.Some? ==> st'.pending.value.fillIndex == i + 1)
  {
    hide Books, EquitiesAgree, PerturbedPrice, FillAt;
    if st.pending.Some? && st.pending.value.fillIndex == i {
      var due := st.pending.value;
      var price := PerturbedPrice(setup.costs, config, bars[i].open, draws(st.drawn));
      if FillAt(setup.costs, Standard, due.signal, due.quantity, bars[i], price, st.sim.account.cash).Some? {
        FillBooks(setup, Standard, due.signal, due.quantity, bars[i], price, st.sim.account, SumNet(st.sim.trades));
        FillIsPlain(setup.costs, due.signal, due.quantity, bars[i], price, st.sim.account.cash);
      }
    }
  }

  lemma FillIsPlain(costs: CostModel, signal: Signal, approved: int, bar: Bar, price: real, cash: real)
    ensures var p := FillAt(costs, Standard, signal, approved, bar, price, cash);
            p.Some? ==> p.value.tracker.Plain? && p.value.entryTime == bar.time && p.value.signal == signal
  {
  }

  lemma PlainStaysPlain(costs: CostModel, bar: Bar, st: SimState)
    requires st.position.Some? ==> st.position.value.tracker.Plain?
    ensures var st' := ExitCheck(costs, bar, st);
            st'.position == st.position || st'.position == None
  {
  }

  lemma DecideKeepsFlight(setup: Setup, config: FillConfig, draws: Draws, bars: Series, i: nat, st: RobustState)
    requires i < |bars| && InFlight(setup, bars, i, st)
    requires st.pending.Some? ==> st.pending.value.fillIndex == i + 1
    ensures InFlight(setup, bars, i + 1, DecidePhase(setup, config, draws, bars, i, st))
  {
  }

  lemma CheckKeepsFlight(setup: Setup, bars: Series, i: nat, st: RobustState)
    requires i < |bars| && InFlight(setup, bars, i, st)
    ensures InFlight(setup, bars, i, CheckPhase(setup.costs, bars[i], st))
  {
    hide Balanced, ExitCheck;
    ExitCheckBalances(setup, bars[i], st.sim);
    PlainStaysPlain(setup.costs, bars[i], st.sim);
  }

  lemma {:induction false} RobustLoopBalances(setup: Setup, config: FillConfig, draws: Draws, bars: Series, k: nat)
    requires k <= |bars|
    ensures InFlight(setup, bars, k, RobustLoop(setup, config, draws, bars, k))
  {
    hide InFlight, FillPhase, Rolled, DecidePhase;
    if k > 0 {
      RobustLoopBalances(setup, config, draws, bars, k - 1);
      RollKeepsFlight(setup, bars, k - 1, bars[k - 1], RobustLoop(setup, config, draws, bars, k - 1));
      var rolled := Rolled(bars[k - 1], RobustLoop(setup, config, draws, bars, k - 1));
      FillBalances(setup, config, draws, bars, k - 1, rolled);
      CheckKeepsFlight(setup, bars, k - 1, FillPhase(setup.costs, config, draws, bars, k - 1, rolled));
      DecideKeepsFlight(setup, config, draws, bars, k - 1, RobustAtDecision(setup, config, draws, bars, k - 1));
    } else {
      NothingInFlight(setup, bars);
    }
  }

  lemma NothingInFlight(setup: Setup, bars: Series)
    ensures InFlight(setup, bars, 0, RobustState(Init(setup), None, 0))
  {
  }

  lemma RollKeepsFlight(setup: Setup, bars: Series, k: nat, bar: Bar, st: RobustState)
    requires k <= |bars| && InFlight(setup, bars, k, st)
    ensures InFlight(setup, bars, k, Rolled(bar, st))
  {
  }

  /** Whatever is drawn, no fill is left pending when the data ends, and the books balance. */
  lemma NoFillOutlivesTheData(setup: Setup, config: FillConfig, draws: Draws, bars: Series)
    requires bars != []
    ensures var st := RobustLoop(setup, config, draws, bars, |bars|);
            && st.pending.None?
            && var end := Finish(setup.costs, bars, st.sim);
               && end.position.None?
               && end.account.cash == setup.capital + SumNet(RobustRun(setup, config, draws, bars))
               && end.account.cash == setup.capital + SumGross(RobustRun(setup, config, draws, bars))
                                      - SumCosts(RobustRun(setup, config, draws, bars))
               && end.account.totalTrades == |RobustRun(setup, config, draws, bars)|
  {
    RobustLoopBalances(setup, config, draws, bars, |bars|);
    var st := RobustLoop(setup, config, draws, bars, |bars|).sim;
    var end := Finish(setup.costs, bars, st);
    assert Balanced(setup, end) by {
      hide EquitiesAgree, RobustLoop;
      if st.position.Some? {
        var last := bars[|bars| - 1];
        CloseOutBalances(setup, st, st.position.value, setup.costs.ExitFill(last.close), last.time, EndOfData);
      }
    }
    NetsAdd(setup.capital, end.trades, end.equities);
    hide EquitiesAgree, RobustLoop;
  }

  // ---- the loop ----

  /** The fill block: a perturbed price, the cash check, and the position if it can be opened. */
  method TryFill(setup: Setup, config: FillConfig, draw: real, bar: Bar, due: Pending, account: Account)
    returns (filled: Option<Position>)
    requires account.openQuantity == 0
    modifies account
    ensures filled == FillAt(setup.costs, Standard, due.signal, due.quantity, bar,
                             PerturbedPrice(setup.costs, config, bar.open, draw), old(account.cash))
    ensures account.View() == if filled.None? then old(account.View())
                              else OpenIn(setup.costs, old(account.View()), filled.value)
  {
    hide PerturbedPrice, Notional, CostModel.CostForFill;
    var entryPrice := PerturbedPrice(setup.costs, config, bar.open, draw);
    var quantity := due.quantity;
    if Notional(entryPrice, quantity) > account.cash {
      quantity := if entryPrice > 0.0 then (account.cash / entryPrice).Floor else 0;
    }
    if quantity < 1 {
      return None;
    }
    var entryCost := setup.costs.CostForFill(Notional(entryPrice, quantity));
    var outcome := account.OpenPosition(quantity, entryPrice, entryCost);
    assert outcome.Pass?;
    return Some(NewPosition(Standard, due.signal, bar.time, entryPrice, quantity, entryCost));
  }

  /** The check half of a bar, its day already rolled. */
  method CheckHalf(costs: CostModel, bar: Bar, account: Account, p: Position, trades: seq<Trade>,
                   ghost equities: seq<(int, real)>)
    returns (left: Option<Position>, trades': seq<Trade>, ghost equities': seq<(int, real)>)
    requires account.openQuantity == p.remaining == p.quantity && p.tracker.Plain?
    modifies account
    ensures SimState(account.View(), left, trades', equities')
         == ExitCheck(costs, bar, SimState(old(account.View()), Some(p), trades, equities))
  {
    hide CloseAll;
    left, trades', equities' := Some(p), trades, equities;
    account.MarkToMarket(bar.close);
    var exit := CheckExit(p.stop, p.target, bar);
    if exit.Some? {
      var trade := CloseAll(costs, p, exit.value.0, bar.time, exit.value.1);
      var outcome := account.ClosePosition(exit.value.0, costs.CostForFill(Notional(exit.value.0, trade.quantity)), trade.net);
      assert outcome.Pass?;
      left, trades', equities' := None, trades + [trade], equities + [(bar.time, account.Equity())];
    }
  }

  lemma UnfoldRobust(setup: Setup, config: FillConfig, draws: Draws, bars: Series, k: nat)
    requires k < |bars|
    ensures var st := RobustLoop(setup, config, draws, bars, k);
            var filled := FillPhase(setup.costs, config, draws, bars, k, Rolled(bars[k], st));
            && InFlight(setup, bars, k, Rolled(bars[k], st))
            && InFlight(setup, bars, k, filled)
            && InFlight(setup, bars, k, CheckPhase(setup.costs, bars[k], filled))
            && RobustAtDecision(setup, config, draws, bars, k) == CheckPhase(setup.costs, bars[k], filled)
            && RobustLoop(setup, config, draws, bars, k + 1)
               == DecidePhase(setup, config, draws, bars, k, CheckPhase(setup.costs, bars[k], filled))
  {
    hide InFlight, FillPhase, CheckPhase, DecidePhase;
    var st := RobustLoop(setup, config, draws, bars, k);
    RobustLoopBalances(setup, config, draws, bars, k);
    RollKeepsFlight(setup, bars, k, bars[k], st);
    FillBalances(setup, config, draws, bars, k, Rolled(bars[k], st));
    CheckKeepsFlight(setup, bars, k, FillPhase(setup.costs, config, draws, bars, k, Rolled(bars[k], st)));
  }

  lemma FlightHoldings(setup: Setup, bars: Series, k: nat, st: RobustState)
    requires k <= |bars| && InFlight(setup, bars, k, st)
    ensures match st.sim.position
            case None => st.sim.account.openQuantity == 0
            case Some(p) => st.sim.account.openQuantity == p.remaining == p.quantity && p.tracker.Plain? && p.signal.side == Long
  {
  }

  lemma PendingIsFlat(setup: Setup, bars: Series, k: nat, st: RobustState)
    requires k <= |bars| && InFlight(setup, bars, k, st)
    ensures st.pending.Some? ==> st.sim.position.None?
  {
  }

  lemma FlatCheck(costs: CostModel, bar: Bar, st: SimState)
    requires st.position.None?
    ensures ExitCheck(costs, bar, st) == st
  {
  }

  /** What is still open after the last bar is sold at its close, less slippage. */
  method LastClose(costs: CostModel, bars: Series, account: Account, p: Position, trades: seq<Trade>,
                   ghost equities: seq<(int, real)>)
    returns (trades': seq<Trade>, ghost equities': seq<(int, real)>)
    requires bars != [] && p.signal.side == Long
    requires account.openQuantity == p.remaining == p.quantity && p.tracker.Plain?
    modifies account
    ensures SimState(account.View(), None, trades', equities')
         == Finish(costs, bars, SimState(old(account.View()), Some(p), trades, equities))
  {
    hide CloseAll;
    var last := bars[|bars| - 1];
    var exitPrice := costs.SlippageAdjustedPrice(last.close, p.signal.side, false).value;
    var trade := CloseAll(costs, p, exitPrice, last.time, EndOfData);
    var outcome := account.ClosePosition(exitPrice, costs.CostForFill(Notional(exitPrice, trade.quantity)), trade.net);
    assert outcome.Pass?;
    trades', equities' := trades + [trade], equities + [(last.time, account.Equity())];
  }

  /** The first half of a bar: roll the day, make a fill that is due, check the exit. */
  method FillAndCheck(setup: Setup, config: FillConfig, draws: Draws, bars: Series, i: nat, account: Account,
                      position: Option<Position>, pending: Option<Pending>, drawn: nat,
                      trades: seq<Trade>, ghost equities: seq<(int, real)>)
    returns (position': Option<Position>, pending': Option<Pending>, drawn': nat,
             trades': seq<Trade>, ghost equities': seq<(int, real)>)
    requires i < |bars|
    requires RobustState(SimState(account.View(), position, trades, equities), pending, drawn)
          == RobustLoop(setup, config, draws, bars, i)
    modifies account
    ensures RobustState(SimState(account.View(), position', trades', equities'), pending', drawn')
         == RobustAtDecision(setup, config, draws, bars, i)
  {
    hide InFlight, ExitCheck, FillAt, OpenIn, RobustLoop, RobustAtDecision, DecidePhase;
    UnfoldRobust(setup, config, draws, bars, i);
    ghost var rolled := Rolled(bars[i], RobustLoop(setup, config, draws, bars, i));
    ghost var filled := FillPhase(setup.costs, config, draws, bars, i, rolled);
    FlightHoldings(setup, bars, i, rolled);
    FlightHoldings(setup, bars, i, filled);
    PendingIsFlat(setup, bars, i, rolled);
    position', pending', drawn', trades', equities' := position, pending, drawn, trades, equities;
    account.RollToDay(bars[i].day);
    if pending.Some? && pending.value.fillIndex == i {
      position' := TryFill(setup, config, draws(drawn), bars[i], pending.value, account);
      pending', drawn' := None, drawn + 1;
    }
    if position'.Some? {
      position', trades', equities' := CheckHalf(setup.costs, bars[i], account, position'.value, trades, equities);
    } else {
      FlatCheck(setup.costs, bars[i], filled.sim);
    }
  }

  /** The second half: whether a signal is taken, missed, or filled a bar late. */
  method Decide(setup: Setup, config: FillConfig, draws: Draws, bars: Series, i: nat, ghost sim: SimState, account: Account,
                flat: bool, pending: Option<Pending>, drawn: nat)
    returns (pending': Option<Pending>, drawn': nat)
    requires i < |bars|
    requires sim.account == account.View() && flat == sim.position.None?
    ensures RobustState(sim, pending', drawn')
         == DecidePhase(setup, config, draws, bars, i, RobustState(sim, pending, drawn))
  {
    hide Approved;
    pending', drawn' := pending, drawn;
    if flat && pending.None? && i + 1 < |bars| {
      var approved := Approved(setup, bars, i, account.View());
      if approved.Some? {
        drawn' := drawn + 1;
        if draws(drawn) >= config.missedProbability {
          var fillIndex := i + 1;
          drawn' := drawn + 2;
          if draws(drawn + 1) < config.delayProbability && i + 2 < |bars| {
            fillIndex := i + 2;
          }
          pending' := Some(Pending(fillIndex, approved.value.0, approved.value.1));
        }
      }
    }
  }

  method RunExecutionRobustBacktest(setup: Setup, config: FillConfig, draws: Draws, bars: Series)
    returns (r: Result<seq<Trade>, string>)
    ensures r.Success? <==> bars == [] || setup.capital > 0.0
    ensures r.Success? ==> r.value == RobustRun(setup, config, draws, bars)
  {
    if bars == [] {
      return Success([]);
    }
    var account :- OpenAccount(setup.capital);
    var trades: seq<Trade>, position: Option<Position>, pending: Option<Pending>, drawn: nat := [], None, None, 0;
    ghost var equities: seq<(int, real)> := [];
    hide RobustAtDecision, DecidePhase, InFlight;
    for i := 0 to |bars|
      invariant fresh(account)
      invariant RobustState(SimState(account.View(), position, trades, equities), pending, drawn)
             == RobustLoop(setup, config, draws, bars, i)
    {
      position, pending, drawn, trades, equities :=
        FillAndCheck(setup, config, draws, bars, i, account, position, pending, drawn, trades, equities);
      pending, drawn := Decide(setup, config, draws, bars, i, SimState(account.View(), position, trades, equities),
                               account, position.None?, pending, drawn);
    }
    RobustLoopBalances(setup, config, draws, bars, |bars|);
    FlightHoldings(setup, bars, |bars|, RobustLoop(setup, config, draws, bars, |bars|));
    if position.Some? {
      trades, equities := LastClose(setup.costs, bars, account, position.value, trades, equities);
    }
    return Success(trades);
  }
}
