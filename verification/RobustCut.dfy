/** Look-ahead in the robustness loop: its one dependence on the data to come is that a delayed fill
    needs a bar to be delayed to (backtesting/execution_robustness.py:149-152). */
module RobustCut {
  import opened Wrappers
  import opened Market
  import opened Costs
  import opened Positions
  import opened Simulator
  import opened ExecutionRobustness
  import opened Ledger
  import opened LookAhead

  lemma ApprovalsAgree(setup: Setup, a: Series, b: Series, i: nat, m: nat, st: RobustState)
    requires Causal(setup.strategy)
    requires i < m <= |a| && m <= |b| && a[..m] == b[..m]
    ensures Approved(setup, a, i, st.sim.account) == Approved(setup, b, i, st.sim.account)
  {
    assert a[..i + 1] == a[..m][..i + 1] == b[..m][..i + 1] == b[..i + 1];
    assert setup.strategy(a, i) == setup.strategy(b, i);
  }

  /** Short of bar m - 2's decision, series that agree on their first m bars give the same states. */
  lemma {:induction false} RobustStatesAgree(setup: Setup, config: FillConfig, draws: Draws, a: Series, b: Series, m: nat, k: nat)
    requires Causal(setup.strategy)
    requires (k == 0 || k + 1 < m) && k < m <= |a| && m <= |b| && a[..m] == b[..m]
    ensures RobustLoop(setup, config, draws, a, k) == RobustLoop(setup, config, draws, b, k)
    ensures RobustAtDecision(setup, config, draws, a, k) == RobustAtDecision(setup, config, draws, b, k)
  {
    hide FillAt, CheckPhase, Approved, PerturbedPrice;
    assert a[k] == a[..m][k] == b[..m][k] == b[k];
    if k > 0 {
      RobustStatesAgree(setup, config, draws, a, b, m, k - 1);
      ApprovalsAgree(setup, a, b, k - 1, m, RobustAtDecision(setup, config, draws, a, k - 1));
    }
  }

  lemma ExitCheckAppends(setup: Setup, bar: Bar, st: SimState)
    requires st.position.Some? ==> st.position.value.tracker.Plain?
    ensures var st' := ExitCheck(setup.costs, bar, st);
            match st.position
            case None => st' == st
            case Some(p) =>
              match CheckExit(p.stop, p.target, bar)
              case None => st'.trades == st.trades && st'.position == Some(p)
              case Some((price, reason)) =>
                st'.position == None && st'.trades == st.trades + [CloseAll(setup.costs, p, price, bar.time, reason)]
  {
  }

  lemma RobustStep(setup: Setup, config: FillConfig, draws: Draws, bars: Series, k: nat)
    requires k < |bars|
    ensures MayAppend(RobustLoop(setup, config, draws, bars, k).sim.trades,
                      RobustAtDecision(setup, config, draws, bars, k).sim.trades, bars[k].time)
    ensures RobustLoop(setup, config, draws, bars, k + 1).sim == RobustAtDecision(setup, config, draws, bars, k).sim
  {
    UnfoldRobust(setup, config, draws, bars, k);
    var st := RobustLoop(setup, config, draws, bars, k);
    var filled := FillPhase(setup.costs, config, draws, bars, k, Rolled(bars[k], st));
    ExitCheckAppends(setup, bars[k], filled.sim);
    DecideKeepsTheRest(setup, config, draws, bars, k);
    hide RobustAtDecision, ExitCheck, FillAt, InFlight, DecidePhase;
  }

  lemma DecideKeepsTheRest(setup: Setup, config: FillConfig, draws: Draws, bars: Series, k: nat)
    requires k < |bars|
    ensures RobustLoop(setup, config, draws, bars, k + 1).sim == RobustAtDecision(setup, config, draws, bars, k).sim
  {
    hide RobustAtDecision, Approved;
  }

  lemma {:induction false} LaterRobustTrades(setup: Setup, config: FillConfig, draws: Draws, bars: Series, m: nat, k: nat)
    requires Chronological(bars)
    requires 1 <= m <= k <= |bars|
    ensures var early, late := RobustAtDecision(setup, config, draws, bars, m - 1).sim.trades,
                               RobustLoop(setup, config, draws, bars, k).sim.trades;
            early <= late && CloseAfter(late, |early|, bars[m - 1].time)
    decreases k
  {
    hide RobustAtDecision, RobustLoop;
    RobustStep(setup, config, draws, bars, k - 1);
    if k > m {
      LaterRobustTrades(setup, config, draws, bars, m, k - 1);
    }
  }

  lemma {:induction false} EarlyRobustTrades(setup: Setup, config: FillConfig, draws: Draws, bars: Series, k: nat)
    requires Chronological(bars) && k < |bars|
    ensures CloseBy(RobustAtDecision(setup, config, draws, bars, k).sim.trades, bars[k].time)
  {
    hide RobustAtDecision;
    RobustStep(setup, config, draws, bars, k);
    if k > 0 {
      EarlyRobustTrades(setup, config, draws, bars, k - 1);
      RobustStep(setup, config, draws, bars, k - 1);
    }
  }

  /** The position a fill that the whole data delays to bar m takes on bar m - 1 once bar m is cut off. */
  function PulledForward(setup: Setup, config: FillConfig, draws: Draws, bars: Series, m: nat): Option<Position>
    requires 1 <= m < |bars|
  {
    var st := RobustLoop(setup, config, draws, bars, m - 1);
    if st.pending.Some? && st.pending.value.fillIndex == m then
      FillAt(setup.costs, Standard, st.pending.value.signal, st.pending.value.quantity, bars[m - 1],
             PerturbedPrice(setup.costs, config, bars[m - 1].open, draws(st.drawn)), st.sim.account.cash)
    else None
  }

  /** Such a fill is also stopped out, or hits its target, on bar m - 1. */
  predicate ExitsEarly(setup: Setup, config: FillConfig, draws: Draws, bars: Series, m: nat)
    requires 1 <= m < |bars|
  {
    var p := PulledForward(setup, config, draws, bars, m);
    p.Some? && CheckExit(p.value.stop, p.value.target, bars[m - 1]).Some?
  }

  /** Before bar m - 1 the cut run differs in nothing but the bar a delayed fill is due on. */
  lemma BeforeTheCut(setup: Setup, config: FillConfig, draws: Draws, bars: Series, m: nat)
    requires Causal(setup.strategy) && 1 <= m < |bars|
    ensures RobustLoop(setup, config, draws, bars[..m], m - 1) == Hastened(RobustLoop(setup, config, draws, bars, m - 1), m)
  {
    hide InFlight, Hastened, RobustAtDecision, RobustLoop, DecidePhase;
    if m >= 2 {
      RobustStatesAgree(setup, config, draws, bars, bars[..m], m, m - 2);
      DecidesNext(setup, config, draws, bars, m - 2);
      DecidesNext(setup, config, draws, bars[..m], m - 2);
      DecisionAtTheCut(setup, config, draws, bars, m, RobustAtDecision(setup, config, draws, bars, m - 2));
    } else {
      NothingToHasten(setup, config, draws, bars, m);
    }
  }

  lemma DecidesNext(setup: Setup, config: FillConfig, draws: Draws, bars: Series, k: nat)
    requires k < |bars|
    ensures InFlight(setup, bars, k, RobustAtDecision(setup, config, draws, bars, k))
    ensures RobustLoop(setup, config, draws, bars, k + 1)
         == DecidePhase(setup, config, draws, bars, k, RobustAtDecision(setup, config, draws, bars, k))
  {
    hide InFlight, DecidePhase, CheckPhase, FillPhase;
    UnfoldRobust(setup, config, draws, bars, k);
  }

  /** The state with a fill that is due on bar m brought forward to bar m - 1. */
  function Hastened(st: RobustState, m: nat): RobustState
    requires m >= 1
  {
    if st.pending.Some? && st.pending.value.fillIndex == m then st.(pending := Some(st.pending.value.(fillIndex := m - 1)))
    else st
  }

  lemma NothingToHasten(setup: Setup, config: FillConfig, draws: Draws, bars: Series, m: nat)
    requires m == 1 < |bars|
    ensures RobustLoop(setup, config, draws, bars[..m], 0) == Hastened(RobustLoop(setup, config, draws, bars, 0), m)
  {
  }

  lemma DecisionAtTheCut(setup: Setup, config: FillConfig, draws: Draws, bars: Series, m: nat, st: RobustState)
    requires Causal(setup.strategy) && 2 <= m < |bars|
    requires InFlight(setup, bars, m - 2, st)
    ensures DecidePhase(setup, config, draws, bars[..m], m - 2, st)
         == Hastened(DecidePhase(setup, config, draws, bars, m - 2, st), m)
  {
    hide Approved, Balanced;
    ApprovalsAgree(setup, bars, bars[..m], m - 2, m, st);
  }

  /** What a bar does to position and log, once its fill is made. */
  lemma CheckAfterFill(setup: Setup, config: FillConfig, draws: Draws, bars: Series, k: nat)
    requires k < |bars|
    ensures var before := Rolled(bars[k], RobustLoop(setup, config, draws, bars, k));
            var filled := FillPhase(setup.costs, config, draws, bars, k, before).sim;
            var st := RobustAtDecision(setup, config, draws, bars, k).sim;
            if filled.position.None? then st == filled
            else
              var p := filled.position.value;
              match CheckExit(p.stop, p.target, bars[k])
              case None => st.trades == filled.trades && st.position == Some(p)
              case Some((price, reason)) =>
                st.position == None && st.trades == filled.trades + [CloseAll(setup.costs, p, price, bars[k].time, reason)]
  {
    UnfoldRobust(setup, config, draws, bars, k);
    var before := Rolled(bars[k], RobustLoop(setup, config, draws, bars, k));
    ExitCheckAppends(setup, bars[k], FillPhase(setup.costs, config, draws, bars, k, before).sim);
    hide RobustLoop, RobustAtDecision, ExitCheck, FillPhase, Rolled, Balanced, CheckExit;
  }

  /** Unless a fill is pulled forward, the two runs are in the same state on bar m - 1. */
  lemma SameAtTheCut(setup: Setup, config: FillConfig, draws: Draws, bars: Series, m: nat)
    requires Causal(setup.strategy) && 1 <= m < |bars|
    requires var st := RobustLoop(setup, config, draws, bars, m - 1);
             !(st.pending.Some? && st.pending.value.fillIndex == m)
    ensures RobustAtDecision(setup, config, draws, bars[..m], m - 1) == RobustAtDecision(setup, config, draws, bars, m - 1)
  {
    BeforeTheCut(setup, config, draws, bars, m);
    hide RobustLoop, CheckPhase, FillAt, PerturbedPrice;
  }

  /** On bar m - 1 the cut run has the trades of the whole run, and at most that one exit besides. */
  lemma AtTheCut(setup: Setup, config: FillConfig, draws: Draws, bars: Series, m: nat)
    requires Causal(setup.strategy) && 1 <= m < |bars|
    ensures var early := RobustAtDecision(setup, config, draws, bars, m - 1).sim.trades;
            var cut := RobustAtDecision(setup, config, draws, bars[..m], m - 1).sim;
            && early <= cut.trades
            && (if ExitsEarly(setup, config, draws, bars, m)
                then |cut.trades| == |early| + 1 && cut.position.None?
                     && cut.trades[|early|].exitTime == bars[m - 1].time && cut.trades[|early|].exitReason != EndOfData
                else cut.trades == early)
  {
    var st := RobustLoop(setup, config, draws, bars, m - 1);
    if st.pending.Some? && st.pending.value.fillIndex == m {
      BeforeTheCut(setup, config, draws, bars, m);
      PulledForwardAtTheCut(setup, config, draws, bars, m);
    } else {
      SameAtTheCut(setup, config, draws, bars, m);
    }
    hide RobustLoop, RobustAtDecision;
  }

  lemma PulledForwardAtTheCut(setup: Setup, config: FillConfig, draws: Draws, bars: Series, m: nat)
    requires 1 <= m < |bars|
    requires var st, cut := RobustLoop(setup, config, draws, bars, m - 1), RobustLoop(setup, config, draws, bars[..m], m - 1);
             && st.pending.Some? && st.pending.value.fillIndex == m
             && cut == Hastened(st, m)
    ensures var early := RobustAtDecision(setup, config, draws, bars, m - 1).sim.trades;
            var cut := RobustAtDecision(setup, config, draws, bars[..m], m - 1).sim;
            && early <= cut.trades
            && (if ExitsEarly(setup, config, draws, bars, m)
                then |cut.trades| == |early| + 1 && cut.position.None?
                     && cut.trades[|early|].exitTime == bars[m - 1].time && cut.trades[|early|].exitReason != EndOfData
                else cut.trades == early)
  {
    hide RobustLoop, RobustAtDecision, FillPhase, Rolled, PulledForward, Hastened, CheckExit, CloseAll;
    FillsAtTheCut(setup, config, draws, bars, m);
    CheckAfterFill(setup, config, draws, bars, m - 1);
    CheckAfterFill(setup, config, draws, bars[..m], m - 1);
    var p := PulledForward(setup, config, draws, bars, m);
    if ExitsEarly(setup, config, draws, bars, m) {
      ExitFields(setup.costs, p.value, bars[m - 1]);
    }
  }

  lemma ExitFields(costs: CostModel, p: Position, bar: Bar)
    ensures match CheckExit(p.stop, p.target, bar)
            case None => true
            case Some((price, reason)) =>
              var t := CloseAll(costs, p, price, bar.time, reason);
              t.exitTime == bar.time && t.exitReason != EndOfData
  {
  }

  lemma FillsAtTheCut(setup: Setup, config: FillConfig, draws: Draws, bars: Series, m: nat)
    requires 1 <= m < |bars|
    requires var st, cut := RobustLoop(setup, config, draws, bars, m - 1), RobustLoop(setup, config, draws, bars[..m], m - 1);
             && st.pending.Some? && st.pending.value.fillIndex == m
             && cut == Hastened(st, m)
    ensures var st, cut := RobustLoop(setup, config, draws, bars, m - 1), RobustLoop(setup, config, draws, bars[..m], m - 1);
            var full := FillPhase(setup.costs, config, draws, bars, m - 1, Rolled(bars[m - 1], st)).sim;
            var short := FillPhase(setup.costs, config, draws, bars[..m], m - 1, Rolled(bars[m - 1], cut)).sim;
            && full.position.None? && full.trades == st.sim.trades
            && short.position == PulledForward(setup, config, draws, bars, m) && short.trades == st.sim.trades
  {
    hide RobustLoop, FillPhase, Rolled, FillAt, Balanced, PerturbedPrice;
    RobustLoopBalances(setup, config, draws, bars, m - 1);
    var st, cut := RobustLoop(setup, config, draws, bars, m - 1), RobustLoop(setup, config, draws, bars[..m], m - 1);
    FillShape(setup.costs, config, draws, bars, m - 1, st);
    FillShape(setup.costs, config, draws, bars[..m], m - 1, cut);
  }

  /** What a fill phase does to position and log. */
  lemma FillShape(costs: CostModel, config: FillConfig, draws: Draws, bars: Series, i: nat, st: RobustState)
    requires i < |bars| && (st.pending.Some? ==> st.sim.position.None?)
    ensures var filled := FillPhase(costs, config, draws, bars, i, Rolled(bars[i], st)).sim;
            && filled.trades == st.sim.trades
            && filled.position ==
               if st.pending.Some? && st.pending.value.fillIndex == i
               then FillAt(costs, Standard, st.pending.value.signal, st.pending.value.quantity, bars[i],
                           PerturbedPrice(costs, config, bars[i].open, draws(st.drawn)), st.sim.account.cash)
               else st.sim.position
  {
    hide FillAt, OpenIn, PerturbedPrice;
  }

  /** Cutting the data after m bars leaves every trade closed by then as it was, and adds at most the
      forced close, exactly unless it pulls a delayed fill forward into an exit on the last bar; in that
      case it adds that one exit. */
  lemma RobustNoLookAheadIff(setup: Setup, config: FillConfig, draws: Draws, bars: Series, m: nat)
    requires Causal(setup.strategy) && Chronological(bars)
    requires 1 <= m < |bars|
    ensures var full, short := RobustRun(setup, config, draws, bars), RobustRun(setup, config, draws, bars[..m]);
            var time := bars[m - 1].time;
            && (exists n: nat :: n <= |full| && n <= |short| <= n + 1 && short[..n] == full[..n]
                                 && CloseBy(full[..n], time) && CloseAfter(full, n, time))
            && ((exists n: nat :: CutAt(full, short, n, time)) <==> !ExitsEarly(setup, config, draws, bars, m))
  {
    hide RobustLoop, RobustAtDecision, Finish, ExitsEarly;
    var cut, time := bars[..m], bars[m - 1].time;
    var full, short := RobustRun(setup, config, draws, bars), RobustRun(setup, config, draws, cut);
    var early := RobustAtDecision(setup, config, draws, bars, m - 1).sim.trades;
    LaterRobustTrades(setup, config, draws, bars, m, |bars|);
    EarlyRobustTrades(setup, config, draws, bars, m - 1);
    FinishShape(setup.costs, bars, RobustLoop(setup, config, draws, bars, |bars|).sim);
    AtTheCut(setup, config, draws, bars, m);
    RobustStep(setup, config, draws, cut, m - 1);
    FinishShape(setup.costs, cut, RobustLoop(setup, config, draws, cut, m).sim);
    assert cut[|cut| - 1] == bars[m - 1];
    CutIsUnique(full, short, early, time);
  }

  lemma CutIsUnique(full: seq<Trade>, short: seq<Trade>, early: seq<Trade>, time: int)
    requires early <= full && early <= short && |short| <= |early| + 1
    requires CloseBy(early, time) && CloseAfter(full, |early|, time)
    requires |short| > |early| ==> short[|early|].exitTime == time
    ensures short[..|early|] == full[..|early|] && CloseBy(full[..|early|], time)
    ensures (exists n: nat :: CutAt(full, short, n, time)) <==> (|short| > |early| ==> short[|early|].exitReason == EndOfData)
  {
    if exists n: nat :: CutAt(full, short, n, time) {
      var n: nat :| CutAt(full, short, n, time);
      if n < |early| {
        assert full[n] == early[n];
      }
    }
    if |short| > |early| ==> short[|early|].exitReason == EndOfData {
      CutAfter(full, short, early, time);
    }
  }
}
