/** The robustness loop without friction against the reference loop. Both fill at the next open,
    but the reference loop charges the entry fee on the signal's bar, before the day rolls, and the
    robustness loop on the fill's bar, after it. So the two agree except in the equity the day
    started from, and part ways exactly where a risk decision turns on it. */
module ZeroFriction {
  import opened Wrappers
  import opened Market
  import opened Costs
  import opened Accounts
  import opened Positions
  import opened Simulator
  import opened Ledger
  import opened Marking
  import opened ExecutionRobustness

  ghost predicate Frictionless(config: FillConfig, draws: Draws) {
    && UnitDraws(draws)
    && config.missedProbability == 0.0 && config.delayProbability == 0.0
    && config.slippageLow == 1.0 && config.slippageHigh == 1.0
  }

  function DayStart(a: AccountState, d: real): AccountState {
    a.(dailyStartEquity := d)
  }

  function Anchored(st: SimState, d: real): SimState {
    st.(account := DayStart(st.account, d))
  }

  /** The state with its pending fill, if any, already made. */
  function Settle(costs: CostModel, bars: Series, st: RobustState): SimState {
    if st.pending.Some? && st.pending.value.fillIndex < |bars| then
      var due := st.pending.value;
      var bar := bars[due.fillIndex];
      match FillAt(costs, Standard, due.signal, due.quantity, bar, costs.EntryFill(bar.open), st.sim.account.cash)
      case None => st.sim
      case Some(p) => st.sim.(position := Some(p), account := OpenIn(costs, st.sim.account, p))
    else st.sim
  }

  function Settled(setup: Setup, config: FillConfig, draws: Draws, bars: Series, k: nat): SimState
    requires k <= |bars|
  {
    Settle(setup.costs, bars, RobustLoop(setup, config, draws, bars, k))
  }

  lemma FrictionlessPrice(costs: CostModel, config: FillConfig, draws: Draws, open: real, n: nat)
    requires Frictionless(config, draws)
    ensures PerturbedPrice(costs, config, open, draws(n)) == costs.EntryFill(open)
  {
  }

  /** Without friction a fill is due on the very next bar. */
  lemma {:induction false} DueNext(setup: Setup, config: FillConfig, draws: Draws, bars: Series, k: nat)
    requires Frictionless(config, draws) && k <= |bars|
    ensures var st := RobustLoop(setup, config, draws, bars, k);
            && InFlight(setup, bars, k, st)
            && (st.pending.Some? ==> k < |bars| && st.pending.value.fillIndex == k)
  {
    RobustLoopBalances(setup, config, draws, bars, k);
    if k > 0 {
      DueNext(setup, config, draws, bars, k - 1);
      var st := RobustAtDecision(setup, config, draws, bars, k - 1);
      PendingIsUsed(setup, config, draws, bars, k - 1);
      assert 0.0 <= draws(st.drawn) && 0.0 <= draws(st.drawn + 1);
    }
    hide InFlight, RobustAtDecision, Approved;
  }

  lemma PendingIsUsed(setup: Setup, config: FillConfig, draws: Draws, bars: Series, k: nat)
    requires k < |bars|
    requires var pending := RobustLoop(setup, config, draws, bars, k).pending;
             pending.Some? ==> pending.value.fillIndex == k
    ensures RobustAtDecision(setup, config, draws, bars, k).pending.None?
  {
    hide FillAt, ExitCheck, RobustLoop, PerturbedPrice;
  }

  /** Rolling the day and filling, in either order, differ in the day-start equity only. */
  lemma FillThenRoll(setup: Setup, config: FillConfig, draws: Draws, bars: Series, k: nat, st: RobustState)
    requires k < |bars| && Frictionless(config, draws)
    requires st.pending.Some? ==> st.pending.value.fillIndex == k
    ensures var filled := FillPhase(setup.costs, config, draws, bars, k, Rolled(bars[k], st)).sim;
            var settled := Settle(setup.costs, bars, st);
            && filled == Anchored(settled.(account := settled.account.RollToDay(bars[k].day)), filled.account.dailyStartEquity)
            && filled.account.dailyStartEquity
               == if settled.account.currentDay == Some(bars[k].day) then settled.account.dailyStartEquity
                  else st.sim.account.Equity()
  {
    FrictionlessPrice(setup.costs, config, draws, bars[k].open, st.drawn);
    hide FillAt, PerturbedPrice, CostModel.EntryFill, CostModel.CostForFill, Notional;
  }

  /** Nothing in an exit check reads the equity the day started from. */
  lemma ExitIgnoresDayStart(costs: CostModel, bar: Bar, st: SimState, d: real)
    ensures ExitCheck(costs, bar, Anchored(st, d)) == Anchored(ExitCheck(costs, bar, st), d)
  {
    hide OnBar, CloseAll, ClosePartialLeg, CostModel.CostForFill, Notional;
  }

  lemma RollIgnoresDayStart(st: SimState, day: int, d: real, e: real)
    ensures Anchored(st.(account := Anchored(st, d).account.RollToDay(day)), e)
         == Anchored(st.(account := st.account.RollToDay(day)), e)
  {
  }

  /** What the robustness loop decides on bar k, once settled, is what `Enter` decides from its account. */
  lemma DecideSettles(setup: Setup, config: FillConfig, draws: Draws, bars: Series, k: nat)
    requires k < |bars| && Frictionless(config, draws)
    ensures var st := RobustAtDecision(setup, config, draws, bars, k).sim;
            Settled(setup, config, draws, bars, k + 1) == EntryPhase(setup, Standard, bars, k, st)
  {
    hide InFlight, RobustAtDecision, FillAt, OpenIn, CostModel.EntryFill, Approved;
    DueNext(setup, config, draws, bars, k);
    PendingIsUsed(setup, config, draws, bars, k);
    var st := RobustAtDecision(setup, config, draws, bars, k);
    assert 0.0 <= draws(st.drawn) && 0.0 <= draws(st.drawn + 1);
  }

  /** The equity the robustness loop's day started from on bar k, read off the reference run: on the
      first bar of a day it does not yet miss the fee of a position that enters on that bar. */
  function RobustDayStart(setup: Setup, bars: Series, k: nat): real
    requires k < |bars|
  {
    var st := Loop(setup, Standard, bars, k);
    if k > 0 && bars[k - 1].day == bars[k].day then RobustDayStart(setup, bars, k - 1)
    else st.account.Equity() + (if EntersOn(setup, bars, k) then EntryFee(setup.costs, st.position.value) else 0.0)
  }

  predicate EntersOn(setup: Setup, bars: Series, k: nat)
    requires k < |bars|
  {
    k > 0 && AtDecision(setup, Standard, bars, k - 1).position.None? && Loop(setup, Standard, bars, k).position.Some?
  }

  /** The entry decided on bar k of the reference run does not turn on the entry-fee timing. */
  ghost predicate Indifferent(setup: Setup, bars: Series, k: nat)
    requires k + 1 < |bars|
  {
    var st := AtDecision(setup, Standard, bars, k);
    st.position.None? ==>
      Enter(setup, Standard, bars, k, st.account)
      == Enter(setup, Standard, bars, k, DayStart(st.account, RobustDayStart(setup, bars, k)))
  }

  /** After bar k's exit check the two loops differ in the day-start equity only. */
  ghost predicate Checked(setup: Setup, config: FillConfig, draws: Draws, bars: Series, k: nat)
    requires k < |bars|
  {
    RobustAtDecision(setup, config, draws, bars, k).sim
    == Anchored(AtDecision(setup, Standard, bars, k), RobustDayStart(setup, bars, k))
  }

  /** Before bar k the settled robustness state is the reference state, day-start equity aside. */
  ghost predicate InStep(setup: Setup, config: FillConfig, draws: Draws, bars: Series, k: nat)
    requires k <= |bars|
  {
    var s, z := Loop(setup, Standard, bars, k), Settled(setup, config, draws, bars, k);
    && z == Anchored(s, z.account.dailyStartEquity)
    && (0 < k ==>
          && Checked(setup, config, draws, bars, k - 1)
          && z.account.dailyStartEquity == RobustDayStart(setup, bars, k - 1))
  }

  /** Opening a position costs a flat account its entry fee and nothing else. */
  lemma OpeningCostsTheFee(setup: Setup, st: SimState, p: Position)
    requires Balanced(setup, st) && st.position.None?
    ensures OpenIn(setup.costs, st.account, p).Equity() == st.account.Equity() - EntryFee(setup.costs, p)
  {
  }

  /** Before its fill, the robustness loop's equity still holds the fee the reference loop has paid. */
  lemma UnfilledEquity(setup: Setup, config: FillConfig, draws: Draws, bars: Series, k: nat)
    requires k < |bars| && Frictionless(config, draws)
    requires InStep(setup, config, draws, bars, k)
    ensures var s := Loop(setup, Standard, bars, k);
            RobustLoop(setup, config, draws, bars, k).sim.account.Equity()
            == s.account.Equity() + if EntersOn(setup, bars, k) then EntryFee(setup.costs, s.position.value) else 0.0
  {
    DueNext(setup, config, draws, bars, k);
    var st, z := RobustLoop(setup, config, draws, bars, k), Settled(setup, config, draws, bars, k);
    if k > 0 {
      DecideKeepsSim(setup, config, draws, bars, k - 1);
    } else {
      assert z == st.sim;
    }
    if z != st.sim {
      OpeningCostsTheFee(setup, st.sim, z.position.value);
    }
    hide RobustAtDecision, AtDecision, Balanced, Loop, RobustLoop, FillAt, OpenIn, EntryFee, CostModel.EntryFill, RobustDayStart;
  }

  lemma DecideKeepsSim(setup: Setup, config: FillConfig, draws: Draws, bars: Series, k: nat)
    requires k < |bars|
    ensures var st, st' := RobustAtDecision(setup, config, draws, bars, k), RobustLoop(setup, config, draws, bars, k + 1);
            && st'.sim == st.sim
            && (st'.pending != st.pending ==> st.sim.position.None?)
  {
    hide RobustAtDecision, Approved;
  }

  lemma StepChecked(setup: Setup, config: FillConfig, draws: Draws, bars: Series, k: nat)
    requires k < |bars| && Frictionless(config, draws)
    requires InStep(setup, config, draws, bars, k)
    ensures Checked(setup, config, draws, bars, k)
  {
    hide FillPhase, ExitCheck, Settle, RobustLoop, Loop, InFlight, EntersOn, EntryFee;
    var s, st := Loop(setup, Standard, bars, k), RobustLoop(setup, config, draws, bars, k);
    var z := Settled(setup, config, draws, bars, k);
    DueNext(setup, config, draws, bars, k);
    DayIsCurrent(setup, Standard, bars, k);
    FillThenRoll(setup, config, draws, bars, k, st);
    UnfilledEquity(setup, config, draws, bars, k);
    var d := RobustDayStart(setup, bars, k);
    var filled := FillPhase(setup.costs, config, draws, bars, k, Rolled(bars[k], st)).sim;
    RollIgnoresDayStart(s, bars[k].day, z.account.dailyStartEquity, d);
    assert filled.account.dailyStartEquity == d;
    assert filled == Anchored(s.(account := s.account.RollToDay(bars[k].day)), d);
    ExitIgnoresDayStart(setup.costs, bars[k], s.(account := s.account.RollToDay(bars[k].day)), d);
  }

  /** An entry phase commutes with the day-start equity where the decision does not turn on it. */
  lemma EntryIgnoresDayStart(setup: Setup, bars: Series, k: nat, st: SimState, d: real)
    requires k < |bars|
    requires st.position.None? && k + 1 < |bars| ==>
               Enter(setup, Standard, bars, k, st.account) == Enter(setup, Standard, bars, k, DayStart(st.account, d))
    ensures EntryPhase(setup, Standard, bars, k, Anchored(st, d)) == Anchored(EntryPhase(setup, Standard, bars, k, st), d)
  {
  }

  lemma StepInStep(setup: Setup, config: FillConfig, draws: Draws, bars: Series, k: nat)
    requires k < |bars| && Frictionless(config, draws)
    requires InStep(setup, config, draws, bars, k)
    requires k + 1 < |bars| ==> Indifferent(setup, bars, k)
    ensures InStep(setup, config, draws, bars, k + 1)
  {
    hide RobustAtDecision, AtDecision, EntryPhase, Settled, RobustDayStart, Enter;
    StepChecked(setup, config, draws, bars, k);
    DecideSettles(setup, config, draws, bars, k);
    EntryIgnoresDayStart(setup, bars, k, AtDecision(setup, Standard, bars, k), RobustDayStart(setup, bars, k));
    DecidesNext(setup, Standard, bars, k);
  }

  lemma StartInStep(setup: Setup, config: FillConfig, draws: Draws, bars: Series)
    ensures InStep(setup, config, draws, bars, 0)
  {
  }

  lemma {:induction false} StayInStep(setup: Setup, config: FillConfig, draws: Draws, bars: Series, k: nat)
    requires k <= |bars| && Frictionless(config, draws)
    requires forall j :: 0 <= j < k && j + 1 < |bars| ==> Indifferent(setup, bars, j)
    ensures InStep(setup, config, draws, bars, k)
  {
    hide InStep, Indifferent;
    if k == 0 {
      StartInStep(setup, config, draws, bars);
    } else {
      StayInStep(setup, config, draws, bars, k - 1);
      StepInStep(setup, config, draws, bars, k - 1);
    }
  }
}
