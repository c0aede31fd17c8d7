/** A three-bar input on which the frictionless robustness loop and the reference loop disagree
    under the default risk configuration: the entry fee decides the daily-loss rule. */
module DailyLossExample {
  import opened Wrappers
  import opened Market
  import opened Costs
  import opened Accounts
  import opened Positions
  import opened Simulator
  import opened RiskEngine
  import opened ExecutionRobustness
  import opened ZeroFriction
  import opened ZeroFrictionIff

  const SIGNAL := Signal("ANY", 0, Long, 100.0, 98.0, 104.0, 2.0, "example")

  const BARS: Series := [
    Bar(0, 0, 100.0, 101.0, 99.0, 100.0, map[]),
    Bar(1, 1, 109.84, 109.9, 97.0, 97.5, map[]),
    Bar(2, 2, 100.0, 101.0, 99.0, 100.0, map[])]

  const COSTS := CostModel(20.0, 0.0, 0.0, 0.0, 0.0)

  function Example(): Setup {
    Setup((bars: Series, i: nat) => Some(SIGNAL),
          (signal: Signal, account: AccountState) => ApprovedQuantity(DEFAULT_CONFIG, signal, account),
          COSTS, 100000.0)
  }

  /** Bought 250 at 109.84 for a fee of 20. */
  const BOUGHT := AccountState(100000.0, 72520.0, 0.0, 250, 109.84, 27460.0, 0.0, 100000.0, 100000.0, Some(0), 0, 0)

  /** Stopped out at 98 on the next day, which the reference loop started at 99980. */
  const STOPPED := AccountState(100000.0, 97000.0, -3000.0, 0, 0.0, 0.0, 0.0, 100000.0, 99980.0, Some(1), 1, 1)

  function Held(): Position {
    Position(SIGNAL, 1, 109.84, 250, 250, 98.0, 104.0, Plain)
  }

  const START := AccountState(100000.0, 100000.0, 0.0, 0, 0.0, 0.0, 0.0, 100000.0, 100000.0, Some(0), 0, 0)

  lemma FirstExposure()
    ensures !OverExposed(DEFAULT_CONFIG, START, 25000.0)
  {
    assert START.Equity() == 100000.0;
    hide AccountState.Equity;
    var share := 25000.0 / START.Equity();
    assert share * 100000.0 == 25000.0;
    assert share == 0.25;
  }

  lemma FirstSize()
    ensures Sized(DEFAULT_CONFIG, SIGNAL, START) == 250
  {
  }

  lemma FirstHalts()
    ensures !DailyLossBreached(DEFAULT_CONFIG, START) && START.DrawdownPct() == 0.0
    ensures Notional(SIGNAL.reference, 250) == 25000.0
  {
  }

  lemma FirstDecision()
    ensures ApprovedQuantity(DEFAULT_CONFIG, SIGNAL, START) == Some(250)
  {
    hide Sized, OverExposed, DailyLossBreached, AccountState.DrawdownPct, Evaluate, Notional;
    FirstSize();
    FirstExposure();
    FirstHalts();
    ApprovedIff(DEFAULT_CONFIG, SIGNAL, START);
  }

  lemma AtFirstDecision()
    ensures AtDecision(Example(), Standard, BARS, 0) == SimState(START, None, [], [])
  {
  }

  lemma FirstEntry()
    ensures Enter(Example(), Standard, BARS, 0, START) == Some(Held())
  {
    FirstDecision();
    hide ApprovedQuantity;
    assert Approved(Example(), BARS, 0, START) == Some((SIGNAL, 250));
    assert COSTS.EntryFill(109.84) == 109.84;
    assert Affordable(250, 109.84, 100000.0) == 250;
  }

  lemma AfterFirstBar()
    ensures var st := Loop(Example(), Standard, BARS, 1);
            st.account == BOUGHT && st.position == Some(Held()) && st.trades == []
  {
    AtFirstDecision();
    FirstEntry();
    hide Enter, ExitPhase;
    assert COSTS.CostForFill(Notional(109.84, 250)) == 20.0;
    assert OpenIn(COSTS, START, Held()) == BOUGHT;
    assert Loop(Example(), Standard, BARS, 1)
        == EntryPhase(Example(), Standard, BARS, 0, AtDecision(Example(), Standard, BARS, 0));
  }

  lemma AfterStop()
    ensures var st := AtDecision(Example(), Standard, BARS, 1);
            st.account == STOPPED && st.position.None?
  {
    AfterFirstBar();
    hide Loop;
    var st := Loop(Example(), Standard, BARS, 1);
    var bar := BARS[1];
    assert OnBar(Held(), bar) == Exit(98.0, Stop);
    var t := CloseAll(COSTS, Held(), 98.0, 1, Stop);
    assert t.net == -3000.0;
    assert st.account.RollToDay(1).MarkToMarket(97.5).Close(98.0, 20.0, t.net) == STOPPED;
  }

  /** The same evening, the same equity: 2980 down from 99980 passes, 3000 down from 100000 does not. */
  lemma SecondDecision()
    ensures ApprovedQuantity(DEFAULT_CONFIG, SIGNAL, STOPPED) == Some(242)
    ensures ApprovedQuantity(DEFAULT_CONFIG, SIGNAL, DayStart(STOPPED, 100000.0)) == None
  {
    assert Requested(DEFAULT_CONFIG, SIGNAL, STOPPED) == 242;
    ApprovedIff(DEFAULT_CONFIG, SIGNAL, STOPPED);
    ApprovedIff(DEFAULT_CONFIG, SIGNAL, DayStart(STOPPED, 100000.0));
  }

  lemma DayStarts()
    ensures RobustDayStart(Example(), BARS, 1) == 100000.0
  {
    AtFirstDecision();
    AfterFirstBar();
    hide AtDecision, Loop;
    assert EntersOn(Example(), BARS, 1);
    assert EntryFee(COSTS, Held()) == 20.0;
  }

  lemma SecondEntryTurns()
    ensures !Indifferent(Example(), BARS, 1)
  {
    AfterStop();
    SecondDecision();
    DayStarts();
    hide AtDecision, RobustDayStart, ApprovedQuantity, CostModel.CostForFill;
    assert Approved(Example(), BARS, 1, STOPPED) == Some((SIGNAL, 242));
    assert Approved(Example(), BARS, 1, DayStart(STOPPED, 100000.0)) == None;
    assert COSTS.EntryFill(100.0) == 100.0;
    assert Affordable(242, 100.0, 97000.0) == 242;
  }

  /** "Zero friction" is not the reference engine: on these bars the trade lists differ. */
  lemma ZeroFrictionCanDiffer(config: FillConfig, draws: Draws)
    requires Frictionless(config, draws)
    ensures RobustRun(Example(), config, draws, BARS) != Run(Example(), Standard, BARS).trades
  {
    SecondEntryTurns();
    hide Indifferent, RobustRun, Run;
    ZeroFrictionMatchesIff(Example(), config, draws, BARS);
  }
}
