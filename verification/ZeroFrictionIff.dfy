/** Exactly when the frictionless robustness loop reproduces the reference trade list, and an input
    under the default risk configuration on which it does not. */
module ZeroFrictionIff {
  import opened Wrappers
  import opened Market
  import opened Costs
  import opened Accounts
  import opened Positions
  import opened Simulator
  import opened Ledger
  import opened Equivalence
  import opened Marking
  import opened ExecutionRobustness
  import opened ZeroFriction
  import opened Trajectories

  ghost function ReferenceStates(setup: Setup, bars: Series): seq<SimState> {
    seq(|bars| + 1, k requires 0 <= k <= |bars| => Loop(setup, Standard, bars, k))
  }

  ghost function SettledStates(setup: Setup, config: FillConfig, draws: Draws, bars: Series): seq<SimState> {
    seq(|bars| + 1, k requires 0 <= k <= |bars| => Settled(setup, config, draws, bars, k))
  }

  /** An exit check and an entry phase, from any account, make one plain step. */
  lemma PlainBar(setup: Setup, bars: Series, k: nat, before: SimState, checked: SimState, decided: SimState)
    requires k < |bars|
    requires before.position.Some? ==> before.position.value.tracker == Plain
    requires checked.position == before.position && checked.trades == before.trades
    requires decided.position == ExitCheck(setup.costs, bars[k], checked).position
    requires decided.trades == ExitCheck(setup.costs, bars[k], checked).trades
    ensures PlainStep(setup.costs, bars, k, before, EntryPhase(setup, Standard, bars, k, decided))
  {
  }

  lemma ReferenceTrajectory(setup: Setup, bars: Series)
    ensures Trajectory(setup.costs, bars, ReferenceStates(setup, bars))
  {
    forall k | 0 <= k < |bars|
      ensures PlainStep(setup.costs, bars, k, Loop(setup, Standard, bars, k), Loop(setup, Standard, bars, k + 1))
    {
      StandardNeverScales(setup, bars, k);
      var before := Loop(setup, Standard, bars, k);
      PlainBar(setup, bars, k, before, before.(account := before.account.RollToDay(bars[k].day)),
               AtDecision(setup, Standard, bars, k));
      DecidesNext(setup, Standard, bars, k);
    }
    StandardNeverScales(setup, bars, |bars|);
    hide PlainStep, Loop;
  }

  lemma SettledIsPlain(setup: Setup, config: FillConfig, draws: Draws, bars: Series, k: nat)
    requires k <= |bars| && Frictionless(config, draws)
    ensures var st := Settled(setup, config, draws, bars, k);
            st.position.Some? ==> st.position.value.tracker == Plain
  {
    DueNext(setup, config, draws, bars, k);
    hide RobustLoop, Balanced;
  }

  lemma SettledTrajectory(setup: Setup, config: FillConfig, draws: Draws, bars: Series)
    requires Frictionless(config, draws)
    ensures Trajectory(setup.costs, bars, SettledStates(setup, config, draws, bars))
  {
    forall k | 0 <= k < |bars|
      ensures PlainStep(setup.costs, bars, k, Settled(setup, config, draws, bars, k), Settled(setup, config, draws, bars, k + 1))
    {
      SettledIsPlain(setup, config, draws, bars, k);
      DueNext(setup, config, draws, bars, k);
      var st := RobustLoop(setup, config, draws, bars, k);
      FillThenRoll(setup, config, draws, bars, k, st);
      var filled := FillPhase(setup.costs, config, draws, bars, k, Rolled(bars[k], st)).sim;
      DecideSettles(setup, config, draws, bars, k);
      hide RobustLoop, Settle, FillPhase, Rolled, InFlight, ExitCheck, EntryPhase, PlainStep;
      PlainBar(setup, bars, k, Settled(setup, config, draws, bars, k), filled,
               RobustAtDecision(setup, config, draws, bars, k).sim);
    }
    SettledIsPlain(setup, config, draws, bars, |bars|);
    hide PlainStep, Settled;
  }

  /** Once a decision differs, so does the next trade: in its quantity, its entry bar, or by being there. */
  lemma PartWays(setup: Setup, config: FillConfig, draws: Draws, bars: Series, k: nat)
    requires k + 1 < |bars| && Chronological(bars) && Frictionless(config, draws)
    requires InStep(setup, config, draws, bars, k) && !Indifferent(setup, bars, k)
    ensures RobustRun(setup, config, draws, bars) != Run(setup, Standard, bars).trades
  {
    hide Loop, AtDecision, RobustAtDecision, Finish, RobustDayStart, PlainStep, Settled;
    StepChecked(setup, config, draws, bars, k);
    DecideSettles(setup, config, draws, bars, k);
    DecidesNext(setup, Standard, bars, k);
    var s, z := Loop(setup, Standard, bars, k + 1), Settled(setup, config, draws, bars, k + 1);
    ReferenceTrajectory(setup, bars);
    NextTrade(setup.costs, bars, ReferenceStates(setup, bars), k + 1);
    SettledTrajectory(setup, config, draws, bars);
    NextTrade(setup.costs, bars, SettledStates(setup, config, draws, bars), k + 1);
    LastSettled(setup, config, draws, bars);
    var a := AtDecision(setup, Standard, bars, k).account;
    SameEntryButSize(setup, bars, k, a, DayStart(a, RobustDayStart(setup, bars, k)));
    hide Enter, Trajectory;
    assert s.trades == z.trades;
  }

  lemma LastSettled(setup: Setup, config: FillConfig, draws: Draws, bars: Series)
    requires Frictionless(config, draws)
    ensures Settled(setup, config, draws, bars, |bars|) == RobustLoop(setup, config, draws, bars, |bars|).sim
  {
    DueNext(setup, config, draws, bars, |bars|);
    hide RobustLoop, InFlight;
  }

  /** From accounts with the same cash, two entries on one bar can differ in their quantity only. */
  lemma SameEntryButSize(setup: Setup, bars: Series, k: nat, a: AccountState, b: AccountState)
    requires k + 1 < |bars| && a.cash == b.cash
    ensures var p, q := Enter(setup, Standard, bars, k, a), Enter(setup, Standard, bars, k, b);
            && (p.Some? ==> p.value.entryTime == bars[k + 1].time)
            && (q.Some? ==> q.value.entryTime == bars[k + 1].time)
            && (p.Some? && q.Some? && p.value.quantity == q.value.quantity ==> p == q)
  {
  }

  /** The frictionless robustness run returns the reference trade list if and only if no entry
      decision of the reference run turns on whether the day-start equity already misses the fee of
      a position that entered on the day's first bar. */
  lemma ZeroFrictionMatchesIff(setup: Setup, config: FillConfig, draws: Draws, bars: Series)
    requires Chronological(bars) && bars != [] && Frictionless(config, draws)
    ensures RobustRun(setup, config, draws, bars) == Run(setup, Standard, bars).trades
            <==> forall k :: 0 <= k && k + 1 < |bars| ==> Indifferent(setup, bars, k)
  {
    hide Indifferent, InStep, Run;
    if forall k :: 0 <= k && k + 1 < |bars| ==> Indifferent(setup, bars, k) {
      StayInStep(setup, config, draws, bars, |bars|);
      InStepMatches(setup, config, draws, bars);
    } else {
      var k := FirstTurn(setup, bars, |bars| - 1);
      StayInStep(setup, config, draws, bars, k);
      PartWays(setup, config, draws, bars, k);
    }
  }

  lemma InStepMatches(setup: Setup, config: FillConfig, draws: Draws, bars: Series)
    requires bars != [] && Frictionless(config, draws) && InStep(setup, config, draws, bars, |bars|)
    ensures RobustRun(setup, config, draws, bars) == Run(setup, Standard, bars).trades
  {
  }

  lemma {:induction false} FirstTurn(setup: Setup, bars: Series, n: nat) returns (k: nat)
    requires n < |bars| && exists j :: 0 <= j < n && !Indifferent(setup, bars, j)
    ensures k < n && !Indifferent(setup, bars, k)
    ensures forall j :: 0 <= j < k ==> Indifferent(setup, bars, j)
  {
    hide Indifferent;
    if exists j :: 0 <= j < n - 1 && !Indifferent(setup, bars, j) {
      k := FirstTurn(setup, bars, n - 1);
    } else {
      k := n - 1;
    }
  }

  ghost predicate IgnoresDayStart(risk: (Signal, AccountState) -> Option<int>) {
    forall signal: Signal, a: AccountState, d: real :: risk(signal, DayStart(a, d)) == risk(signal, a)
  }

  /** A risk policy without a daily-loss rule never tells the two loops apart. */
  lemma ZeroFrictionMatchesWithoutDailyRule(setup: Setup, config: FillConfig, draws: Draws, bars: Series)
    requires bars != [] && Frictionless(config, draws) && IgnoresDayStart(setup.risk)
    ensures RobustRun(setup, config, draws, bars) == Run(setup, Standard, bars).trades
  {
    forall k | 0 <= k && k + 1 < |bars|
      ensures Indifferent(setup, bars, k)
    {
      var a, d := AtDecision(setup, Standard, bars, k).account, RobustDayStart(setup, bars, k);
      hide AtDecision, RobustDayStart, FillAt;
      assert forall signal: Signal :: setup.risk(signal, DayStart(a, d)) == setup.risk(signal, a);
    }
    hide Indifferent, InStep, Run;
    StayInStep(setup, config, draws, bars, |bars|);
    InStepMatches(setup, config, draws, bars);
  }

  /** A cost model that charges nothing per fill; it may still slip. */
  ghost predicate FeeFree(costs: CostModel) {
    costs.brokeragePerFill == 0.0 && costs.feesPct == 0.0 && costs.taxesPct == 0.0
  }

  /** Without fees the day starts from the same equity, whichever loop fills the entry. */
  lemma {:induction false} NoFeeSameDayStart(setup: Setup, bars: Series, k: nat)
    requires k < |bars| && FeeFree(setup.costs)
    ensures RobustDayStart(setup, bars, k) == AtDecision(setup, Standard, bars, k).account.dailyStartEquity
  {
    hide Loop, AtDecision, EntersOn, AccountState.Equity, Notional;
    RollSetsDayStart(setup, Standard, bars, k);
    if k > 0 {
      NoFeeSameDayStart(setup, bars, k - 1);
    }
  }

  /** Under a cost model without fees the two loops agree, whatever the risk policy. */
  lemma ZeroFrictionMatchesWithoutFees(setup: Setup, config: FillConfig, draws: Draws, bars: Series)
    requires bars != [] && Frictionless(config, draws) && FeeFree(setup.costs)
    ensures RobustRun(setup, config, draws, bars) == Run(setup, Standard, bars).trades
  {
    forall k | 0 <= k && k + 1 < |bars|
      ensures Indifferent(setup, bars, k)
    {
      NoFeeSameDayStart(setup, bars, k);
      hide AtDecision, RobustDayStart, Enter;
    }
    hide Indifferent, InStep, Run;
    StayInStep(setup, config, draws, bars, |bars|);
    InStepMatches(setup, config, draws, bars);
  }
}
