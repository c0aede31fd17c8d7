/** Which cost models tell the frictionless robustness loop from the reference loop: those that charge
    anything at all per fill, and no others. */
module FeeTiming {
  import opened Wrappers
  import opened Market
  import opened Costs
  import opened Accounts
  import opened Positions
  import opened Simulator
  import opened Marking
  import opened ExecutionRobustness
  import opened ZeroFriction
  import opened ZeroFrictionIff

  const SIGNAL := Signal("TEST", 0, Long, 100.0, 50.0, 200.0, 2.0, "always")

  /** An evening, and two bars of the next day; the first of them takes the entry down to its stop. */
  const BARS: Series := [Bar(0, 0, 100.0, 100.0, 100.0, 100.0, map[]), Bar(1, 1, 100.0, 100.0, 40.0, 100.0, map[]),
                         Bar(2, 1, 100.0, 100.0, 100.0, 100.0, map[])]

  /** Enough for the stopped-out unit, its fees, and a second unit. */
  function Capital(costs: CostModel): real {
    2.0 * costs.EntryFill(100.0) + costs.CostForFill(costs.EntryFill(100.0)) + costs.CostForFill(50.0)
  }

  /** A risk policy that buys one unit while the day has started from the whole capital. */
  function Example(costs: CostModel): Setup {
    Setup((bars: Series, i: nat) => Some(SIGNAL),
          (signal: Signal, account: AccountState) => if account.dailyStartEquity == Capital(costs) then Some(1) else None,
          costs, Capital(costs))
  }

  function Held(costs: CostModel): Position {
    Position(SIGNAL, 1, costs.EntryFill(100.0), 1, 1, 50.0, 200.0, Plain)
  }

  lemma FirstDecision(costs: CostModel)
    ensures AtDecision(Example(costs), Standard, BARS, 0)
         == SimState(NewAccount(Capital(costs)).(currentDay := Some(0)), None, [], [])
  {
    hide Capital;
  }

  lemma OneUnit(price: real)
    ensures Notional(price, 1) == price
  {
  }

  /** One unit is bought at the next open by every account the policy and the cash allow it to. */
  lemma EntersOneUnit(costs: CostModel, k: nat, a: AccountState)
    requires k < 2 && a.cash >= costs.EntryFill(100.0)
    ensures Enter(Example(costs), Standard, BARS, k, a)
         == if a.dailyStartEquity == Capital(costs) then Some(Held(costs).(entryTime := k + 1)) else None
  {
    OneUnit(costs.EntryFill(100.0));
    hide Capital, CostModel.EntryFill, CostModel.CostForFill, Notional;
  }

  lemma Charges(costs: CostModel)
    requires Declared(costs)
    ensures costs.EntryFill(100.0) >= 100.0 && costs.CostForFill(50.0) >= 0.0
    ensures costs.CostForFill(costs.EntryFill(100.0)) >= 0.0
    ensures !FeeFree(costs) ==> costs.CostForFill(costs.EntryFill(100.0)) > 0.0
  {
    var price, rate := costs.EntryFill(100.0), costs.feesPct + costs.taxesPct;
    assert price * rate >= 0.0 && (rate > 0.0 ==> price * rate > 0.0);
  }

  lemma AfterTheEvening(costs: CostModel)
    requires Declared(costs)
    ensures var st := Loop(Example(costs), Standard, BARS, 1);
            && st.position == Some(Held(costs)) && st.trades == []
            && st.account.Equity() == Capital(costs) - costs.CostForFill(costs.EntryFill(100.0))
            && st.account.cash == costs.EntryFill(100.0) + costs.CostForFill(50.0)
            && st.account.openQuantity == 1
  {
    Charges(costs);
    FirstDecision(costs);
    EntersOneUnit(costs, 0, AtDecision(Example(costs), Standard, BARS, 0).account);
    OneUnit(costs.EntryFill(100.0));
    DecidesNext(Example(costs), Standard, BARS, 0);
    hide AtDecision, Enter, Notional, CostModel.EntryFill, CostModel.CostForFill;
  }

  lemma StoppedOut(costs: CostModel)
    requires Declared(costs)
    ensures var st := AtDecision(Example(costs), Standard, BARS, 1);
            && st.position.None? && st.account.cash == costs.EntryFill(100.0) + 50.0
  {
    AfterTheEvening(costs);
    OneUnit(50.0);
    hide Loop, CloseAll, Notional, CostModel.EntryFill, CostModel.CostForFill;
  }

  lemma FeesTurnADecision(costs: CostModel)
    requires Declared(costs) && !FeeFree(costs)
    ensures !Indifferent(Example(costs), BARS, 1)
  {
    Charges(costs);
    AfterTheEvening(costs);
    StoppedOut(costs);
    RollSetsDayStart(Example(costs), Standard, BARS, 1);
    FirstDecision(costs);
    OneUnit(costs.EntryFill(100.0));
    var a, d := AtDecision(Example(costs), Standard, BARS, 1).account, RobustDayStart(Example(costs), BARS, 1);
    hide AtDecision, Loop, Capital, Notional, CostModel.EntryFill, CostModel.CostForFill;
    assert d == Capital(costs);
    EntersOneUnit(costs, 1, a);
    EntersOneUnit(costs, 1, DayStart(a, d));
    hide Enter;
  }

  ghost predicate NeverTellsThemApart(costs: CostModel) {
    forall setup: Setup, config: FillConfig, draws: Draws, bars: Series ::
      setup.costs == costs && Frictionless(config, draws) && Chronological(bars) && bars != [] ==>
        RobustRun(setup, config, draws, bars) == Run(setup, Standard, bars).trades
  }

  /** The frictionless run is the reference run on all inputs exactly when nothing is charged per fill. */
  lemma ZeroFrictionMatchesAlwaysIff(costs: CostModel)
    requires Declared(costs)
    ensures NeverTellsThemApart(costs) <==> FeeFree(costs)
  {
    hide RobustRun, Run;
    if FeeFree(costs) {
      forall setup: Setup, config: FillConfig, draws: Draws, bars: Series |
        setup.costs == costs && Frictionless(config, draws) && Chronological(bars) && bars != []
        ensures RobustRun(setup, config, draws, bars) == Run(setup, Standard, bars).trades
      {
        ZeroFrictionMatchesWithoutFees(setup, config, draws, bars);
      }
    } else {
      var config, draws: Draws := FillConfig(0.0, 0.0, 1.0, 1.0), n => 0.0;
      FeesTurnADecision(costs);
      ZeroFrictionMatchesIff(Example(costs), config, draws, BARS);
      hide Indifferent;
      assert RobustRun(Example(costs), config, draws, BARS) != Run(Example(costs), Standard, BARS).trades;
    }
  }
}
