/** What the random draws of the robustness loop decide (backtesting/execution_robustness.py:105-153): which
    approved signals are lost, on which bar the others are filled, and at what price. */
module FillDraws {
  import opened Wrappers
  import opened Market
  import opened Reals
  import opened Costs
  import opened Positions
  import opened Simulator
  import opened Ledger
  import opened ExecutionRobustness
  import opened RobustCut

  /** A flat account with nothing pending decides on bar d, with a bar left to fill on. */
  predicate FreeAt(setup: Setup, config: FillConfig, draws: Draws, bars: Series, d: nat)
    requires d < |bars|
  {
    var st := RobustAtDecision(setup, config, draws, bars, d);
    st.sim.position.None? && st.pending.None? && d + 1 < |bars|
  }

  /** The signal and quantity approved on bar d. */
  function ApprovedAt(setup: Setup, config: FillConfig, draws: Draws, bars: Series, d: nat): Option<(Signal, int)>
    requires d < |bars|
  {
    Approved(setup, bars, d, RobustAtDecision(setup, config, draws, bars, d).sim.account)
  }

  /** Draws already used when bar d decides. */
  function DrawnAt(setup: Setup, config: FillConfig, draws: Draws, bars: Series, d: nat): nat
    requires d < |bars|
  {
    RobustAtDecision(setup, config, draws, bars, d).drawn
  }

  /** An approved signal is lost exactly when its own draw is below the missed-fill probability. Otherwise a
      second draw below the delay probability, and a bar to be delayed to, put its fill off by one bar. */
  lemma ApprovedSignalIsLostIff(setup: Setup, config: FillConfig, draws: Draws, bars: Series, d: nat)
    requires d < |bars| && FreeAt(setup, config, draws, bars, d) && ApprovedAt(setup, config, draws, bars, d).Some?
    ensures var (signal, quantity) := ApprovedAt(setup, config, draws, bars, d).value;
            var n, next := DrawnAt(setup, config, draws, bars, d), RobustLoop(setup, config, draws, bars, d + 1);
            && next.sim == RobustAtDecision(setup, config, draws, bars, d).sim
            && (next.pending.None? <==> draws(n) < config.missedProbability)
            && (next.pending.Some? ==>
                  var due := next.pending.value;
                  && due.signal == signal && due.quantity == quantity
                  && (due.fillIndex == d + 2 <==> draws(n + 1) < config.delayProbability && d + 2 < |bars|)
                  && (due.fillIndex != d + 2 ==> due.fillIndex == d + 1))
            && next.drawn == n + if next.pending.None? then 1 else 2
  {
    hide RobustAtDecision, Approved;
  }

  /** Without an approved signal, or while something is held or pending, nothing is drawn or changed. */
  lemma NothingToDecide(setup: Setup, config: FillConfig, draws: Draws, bars: Series, d: nat)
    requires d < |bars|
    requires !FreeAt(setup, config, draws, bars, d) || ApprovedAt(setup, config, draws, bars, d).None?
    ensures RobustLoop(setup, config, draws, bars, d + 1) == RobustAtDecision(setup, config, draws, bars, d)
  {
    hide RobustAtDecision, Approved;
  }

  /** The quoted open, worsened by a multiple of the entry slippage. */
  function SlippedOpen(costs: CostModel, open: real, multiple: real): real {
    open + multiple * (open * costs.entrySlippageBps / 10000.0)
  }

  /** As far from one end of the slippage range to the other as was drawn. */
  function DrawnPrice(costs: CostModel, config: FillConfig, open: real, draw: real): real {
    var low, high := SlippedOpen(costs, open, config.slippageLow), SlippedOpen(costs, open, config.slippageHigh);
    low + draw * (high - low)
  }

  lemma PriceAlongTheRange(costs: CostModel, config: FillConfig, open: real, draw: real)
    ensures PerturbedPrice(costs, config, open, draw) == DrawnPrice(costs, config, open, draw)
  {
    var bps, low, high := costs.entrySlippageBps, config.slippageLow, config.slippageHigh;
    var unit := open * bps / 10000.0;
    assert open * (bps * (low + (high - low) * draw)) == (open * bps) * low + (open * bps) * ((high - low) * draw);
    assert PerturbedPrice(costs, config, open, draw) == open + unit * low + unit * ((high - low) * draw);
    assert draw * (unit * high - unit * low) == unit * ((high - low) * draw);
  }

  lemma BetweenTheEnds(low: real, high: real, draw: real)
    requires 0.0 <= draw < 1.0
    ensures var price := low + draw * (high - low); if low <= high then low <= price <= high else high <= price <= low
  {
    if low <= high {
      PartOf(draw, high - low, draw * (high - low));
    } else {
      PartOf(draw, low - high, draw * (low - high));
      assert draw * (high - low) == -(draw * (low - high));
    }
  }

  lemma PartOf(draw: real, width: real, part: real)
    requires 0.0 <= draw < 1.0 && width >= 0.0 && part == draw * width
    ensures 0.0 <= part <= width
  {
    if width > 0.0 {
      ScaleLess(draw, 1.0, width);
    }
  }

  /** What comes of a fill: the most of the requested units that the cash pays at the price, or nothing. */
  ghost predicate FilledFor(requested: int, price: real, cash: real, filled: Option<Position>) {
    && (filled.Some? ==> filled.value.entryPrice == price)
    && forall q :: Buys(requested, price, cash, q) <==> filled.Some? && filled.value.quantity == q
  }

  /** A fill that is due takes the next draw for its price, whether or not it can then be paid. */
  lemma DueFillDrawsItsPrice(setup: Setup, config: FillConfig, draws: Draws, bars: Series, e: nat)
    requires e < |bars|
    ensures var st, after := RobustLoop(setup, config, draws, bars, e), RobustAtDecision(setup, config, draws, bars, e);
            if st.pending.Some? && st.pending.value.fillIndex == e then
              && after.drawn == st.drawn + 1 && after.pending == None
              && var filled := FillPhase(setup.costs, config, draws, bars, e, Rolled(bars[e], st)).sim.position;
                 FilledFor(st.pending.value.quantity, DrawnPrice(setup.costs, config, bars[e].open, draws(st.drawn)),
                           st.sim.account.cash, filled)
            else after.drawn == st.drawn && after.pending == st.pending
  {
    hide RobustLoop, ExitCheck, PerturbedPrice, DrawnPrice, FillPhase, FilledFor;
    NothingHeldWhilePending(setup, config, draws, bars, e);
    var st := RobustLoop(setup, config, draws, bars, e);
    PriceAlongTheRange(setup.costs, config, bars[e].open, draws(st.drawn));
    FillBuys(setup.costs, config, draws, bars, e, Rolled(bars[e], st));
    FillUsesOneDraw(setup.costs, config, draws, bars, e, Rolled(bars[e], st));
  }

  lemma NothingHeldWhilePending(setup: Setup, config: FillConfig, draws: Draws, bars: Series, k: nat)
    requires k <= |bars|
    ensures var st := RobustLoop(setup, config, draws, bars, k); st.pending.Some? ==> st.sim.position.None?
  {
    RobustLoopBalances(setup, config, draws, bars, k);
    hide RobustLoop, Balanced;
  }

  lemma FillUsesOneDraw(costs: CostModel, config: FillConfig, draws: Draws, bars: Series, i: nat, st: RobustState)
    requires i < |bars|
    ensures var after := FillPhase(costs, config, draws, bars, i, st);
            if st.pending.Some? && st.pending.value.fillIndex == i then after.drawn == st.drawn + 1 && after.pending == None
            else after == st
  {
    hide FillAt, PerturbedPrice, OpenIn;
  }

  lemma FillBuys(costs: CostModel, config: FillConfig, draws: Draws, bars: Series, i: nat, st: RobustState)
    requires i < |bars| && (st.pending.Some? ==> st.sim.position.None?)
    ensures st.pending.Some? && st.pending.value.fillIndex == i ==>
              var filled := FillPhase(costs, config, draws, bars, i, st).sim.position;
              var price := PerturbedPrice(costs, config, bars[i].open, draws(st.drawn));
              FilledFor(st.pending.value.quantity, price, st.sim.account.cash, filled)
  {
    var price := PerturbedPrice(costs, config, bars[i].open, draws(st.drawn));
    hide PerturbedPrice, Affordable, OpenIn, Buys, Notional, CostModel.CostForFill;
    if st.pending.Some? {
      forall q
        ensures Buys(st.pending.value.quantity, price, st.sim.account.cash, q) <==>
                q >= 1 && q == Affordable(st.pending.value.quantity, price, st.sim.account.cash)
      {
        BuysIff(st.pending.value.quantity, price, st.sim.account.cash, q);
      }
    }
  }

  // ---- every trade of a run ----

  /** The fill that is due was decided on bar d: its signal was approved there, its first draw did not lose
      it, and its second draw set the bar it is due on. */
  ghost predicate Decided(setup: Setup, config: FillConfig, draws: Draws, bars: Series, d: nat, due: Pending) {
    && d + 1 < |bars| && FreeAt(setup, config, draws, bars, d)
    && ApprovedAt(setup, config, draws, bars, d) == Some((due.signal, due.quantity))
    && var n := DrawnAt(setup, config, draws, bars, d);
       && draws(n) >= config.missedProbability
       && due.fillIndex == if draws(n + 1) < config.delayProbability && d + 2 < |bars| then d + 2 else d + 1
  }

  /** The price of a fill lies between the prices at the two ends of the slippage range. */
  predicate InRange(costs: CostModel, config: FillConfig, open: real, price: real) {
    var low, high := SlippedOpen(costs, open, config.slippageLow), SlippedOpen(costs, open, config.slippageHigh);
    if low <= high then low <= price <= high else high <= price <= low
  }

  /** The position is that fill. */
  ghost predicate FilledAs(setup: Setup, config: FillConfig, bars: Series, due: Pending, p: Position) {
    && due.fillIndex < |bars|
    && p.signal == due.signal && p.entryTime == bars[due.fillIndex].time
    && 1 <= p.quantity <= due.quantity && p.remaining == p.quantity
    && p.stop == due.signal.stop && p.target == due.signal.target && p.tracker == Plain
    && InRange(setup.costs, config, bars[due.fillIndex].open, p.entryPrice)
  }

  ghost predicate Traced(setup: Setup, config: FillConfig, draws: Draws, bars: Series, p: Position) {
    exists d: nat, due :: Decided(setup, config, draws, bars, d, due) && FilledAs(setup, config, bars, due, p)
  }

  ghost predicate OfPosition(t: Trade, p: Position) {
    && t.entryTime == p.entryTime && t.entryPrice == p.entryPrice && t.quantity == p.quantity
    && t.stop == p.stop && t.target == p.target
  }

  ghost predicate AllTraced(setup: Setup, config: FillConfig, draws: Draws, bars: Series, trades: seq<Trade>) {
    forall t :: t in trades ==> exists p :: Traced(setup, config, draws, bars, p) && OfPosition(t, p)
  }

  ghost predicate TracedState(setup: Setup, config: FillConfig, draws: Draws, bars: Series, st: RobustState) {
    && (st.pending.Some? ==> exists d: nat :: Decided(setup, config, draws, bars, d, st.pending.value))
    && (st.sim.position.Some? ==> Traced(setup, config, draws, bars, st.sim.position.value))
    && AllTraced(setup, config, draws, bars, st.sim.trades)
  }

  lemma FillIsTraced(setup: Setup, config: FillConfig, draws: Draws, bars: Series, d: nat, due: Pending, n: nat, cash: real)
    requires UnitDraws(draws) && Decided(setup, config, draws, bars, d, due) && due.fillIndex < |bars|
    ensures var p := FillAt(setup.costs, Standard, due.signal, due.quantity, bars[due.fillIndex],
                            PerturbedPrice(setup.costs, config, bars[due.fillIndex].open, draws(n)), cash);
            p.Some? ==> Traced(setup, config, draws, bars, p.value)
  {
    hide Decided, PerturbedPrice, SlippedOpen, Notional;
    var open := bars[due.fillIndex].open;
    var price := PerturbedPrice(setup.costs, config, open, draws(n));
    PriceAlongTheRange(setup.costs, config, open, draws(n));
    BetweenTheEnds(SlippedOpen(setup.costs, open, config.slippageLow),
                   SlippedOpen(setup.costs, open, config.slippageHigh), draws(n));
    var p := FillAt(setup.costs, Standard, due.signal, due.quantity, bars[due.fillIndex], price, cash);
    if p.Some? {
      AffordableIsLargest(due.quantity, price, cash);
      assert FilledAs(setup, config, bars, due, p.value);
    }
  }

  lemma CloseOfPosition(costs: CostModel, p: Position, price: real, time: int, reason: ExitReason)
    requires p.tracker == Plain
    ensures OfPosition(CloseAll(costs, p, price, time, reason), p)
  {
  }

  lemma AppendTraced(setup: Setup, config: FillConfig, draws: Draws, bars: Series, trades: seq<Trade>, p: Position,
                     price: real, time: int, reason: ExitReason)
    requires AllTraced(setup, config, draws, bars, trades) && Traced(setup, config, draws, bars, p) && p.tracker == Plain
    ensures AllTraced(setup, config, draws, bars, trades + [CloseAll(setup.costs, p, price, time, reason)])
  {
    hide Traced, CloseAll, OfPosition;
    CloseOfPosition(setup.costs, p, price, time, reason);
  }

  lemma TracedIsPlain(setup: Setup, config: FillConfig, draws: Draws, bars: Series, p: Position)
    requires Traced(setup, config, draws, bars, p)
    ensures p.tracker == Plain
  {
  }

  lemma CheckKeepsTraces(setup: Setup, config: FillConfig, draws: Draws, bars: Series, k: nat)
    requires k < |bars| && UnitDraws(draws)
    requires TracedState(setup, config, draws, bars, RobustLoop(setup, config, draws, bars, k))
    ensures var st := RobustAtDecision(setup, config, draws, bars, k);
            && (st.sim.position.Some? ==> Traced(setup, config, draws, bars, st.sim.position.value))
            && AllTraced(setup, config, draws, bars, st.sim.trades)
            && (st.pending.Some? ==> st.pending == RobustLoop(setup, config, draws, bars, k).pending)
  {
    hide RobustLoop, RobustAtDecision, FillPhase, FillAt, Traced, Decided, Rolled, CloseAll, AllTraced, CheckExit,
      PerturbedPrice;
    var st := RobustLoop(setup, config, draws, bars, k);
    RobustLoopBalances(setup, config, draws, bars, k);
    FillShape(setup.costs, config, draws, bars, k, st);
    CheckAfterFill(setup, config, draws, bars, k);
    PendingAfterCheck(setup, config, draws, bars, k);
    var filled := FillPhase(setup.costs, config, draws, bars, k, Rolled(bars[k], st)).sim;
    if st.pending.Some? && st.pending.value.fillIndex == k {
      var d: nat :| Decided(setup, config, draws, bars, d, st.pending.value);
      FillIsTraced(setup, config, draws, bars, d, st.pending.value, st.drawn, st.sim.account.cash);
    }
    if filled.position.Some? {
      var p := filled.position.value;
      TracedIsPlain(setup, config, draws, bars, p);
      var exit := CheckExit(p.stop, p.target, bars[k]);
      if exit.Some? {
        AppendTraced(setup, config, draws, bars, filled.trades, p, exit.value.0, bars[k].time, exit.value.1);
      }
    }
  }

  lemma PendingAfterCheck(setup: Setup, config: FillConfig, draws: Draws, bars: Series, k: nat)
    requires k < |bars|
    ensures var st := RobustAtDecision(setup, config, draws, bars, k);
            st.pending == None || st.pending == RobustLoop(setup, config, draws, bars, k).pending
  {
    hide RobustLoop, FillAt, ExitCheck, PerturbedPrice;
  }

  lemma {:induction false} EveryStateIsTraced(setup: Setup, config: FillConfig, draws: Draws, bars: Series, k: nat)
    requires k <= |bars| && UnitDraws(draws)
    ensures TracedState(setup, config, draws, bars, RobustLoop(setup, config, draws, bars, k))
  {
    hide RobustAtDecision, Traced, AllTraced, Approved;
    if k == 0 {
      NothingTraced(setup, config, draws, bars);
    } else {
      EveryStateIsTraced(setup, config, draws, bars, k - 1);
      CheckKeepsTraces(setup, config, draws, bars, k - 1);
      DecisionIsTraced(setup, config, draws, bars, k - 1);
    }
    hide RobustLoop;
  }

  lemma NothingTraced(setup: Setup, config: FillConfig, draws: Draws, bars: Series)
    ensures TracedState(setup, config, draws, bars, RobustLoop(setup, config, draws, bars, 0))
  {
  }

  lemma DecisionIsTraced(setup: Setup, config: FillConfig, draws: Draws, bars: Series, d: nat)
    requires d < |bars|
    ensures var st, next := RobustAtDecision(setup, config, draws, bars, d), RobustLoop(setup, config, draws, bars, d + 1);
            && next.sim == st.sim
            && (next.pending == st.pending || (next.pending.Some? && Decided(setup, config, draws, bars, d, next.pending.value)))
  {
    hide RobustAtDecision, RobustLoop, Approved;
    if FreeAt(setup, config, draws, bars, d) && ApprovedAt(setup, config, draws, bars, d).Some? {
      ApprovedSignalIsLostIff(setup, config, draws, bars, d);
      var (signal, quantity) := ApprovedAt(setup, config, draws, bars, d).value;
      assert ApprovedAt(setup, config, draws, bars, d) == Some((signal, quantity));
    } else {
      NothingToDecide(setup, config, draws, bars, d);
    }
  }

  /** Every trade of every run goes back to a decision whose draws did not lose it, is entered on the bar
      those draws set, for no more than was approved and within the slippage range. */
  lemma EveryRobustTradeIsTraced(setup: Setup, config: FillConfig, draws: Draws, bars: Series)
    requires UnitDraws(draws)
    ensures AllTraced(setup, config, draws, bars, RobustRun(setup, config, draws, bars))
  {
    hide RobustLoop, Traced, AllTraced, CloseAll;
    if bars == [] {
      NoTradesTraced(setup, config, draws, bars);
    } else {
      EveryStateIsTraced(setup, config, draws, bars, |bars|);
      var st := RobustLoop(setup, config, draws, bars, |bars|).sim;
      FinishShape(setup.costs, bars, st);
      if st.position.Some? {
        var last := bars[|bars| - 1];
        TracedIsPlain(setup, config, draws, bars, st.position.value);
        AppendTraced(setup, config, draws, bars, st.trades, st.position.value,
                     setup.costs.ExitFill(last.close), last.time, EndOfData);
      }
    }
  }

  lemma NoTradesTraced(setup: Setup, config: FillConfig, draws: Draws, bars: Series)
    ensures AllTraced(setup, config, draws, bars, [])
  {
  }

  lemma TradedIsNotMissed(setup: Setup, config: FillConfig, draws: Draws, bars: Series)
    requires UnitDraws(draws) && RobustRun(setup, config, draws, bars) != []
    ensures config.missedProbability < 1.0
  {
    EveryRobustTradeIsTraced(setup, config, draws, bars);
    hide RobustRun, FreeAt, ApprovedAt, FilledAs;
    var trades := RobustRun(setup, config, draws, bars);
    assert trades[0] in trades;
    var p :| Traced(setup, config, draws, bars, p) && OfPosition(trades[0], p);
    var d: nat, due :| Decided(setup, config, draws, bars, d, due) && FilledAs(setup, config, bars, due, p);
    assert draws(DrawnAt(setup, config, draws, bars, d)) < 1.0;
  }

  /** When every fill is missed, nothing is ever traded. */
  lemma AllMissed(setup: Setup, config: FillConfig, draws: Draws, bars: Series)
    requires UnitDraws(draws) && config.missedProbability >= 1.0
    ensures RobustRun(setup, config, draws, bars) == []
  {
    hide RobustRun;
    if RobustRun(setup, config, draws, bars) != [] {
      TradedIsNotMissed(setup, config, draws, bars);
    }
  }

  /** The bar a trade's signal was approved on. */
  ghost predicate ApprovedFor(setup: Setup, config: FillConfig, draws: Draws, bars: Series, d: nat, t: Trade) {
    && d + 1 < |bars| && FreeAt(setup, config, draws, bars, d)
    && ApprovedAt(setup, config, draws, bars, d).Some?
    && var (signal, quantity) := ApprovedAt(setup, config, draws, bars, d).value;
       t.stop == signal.stop && t.target == signal.target && 1 <= t.quantity <= quantity
  }

  /** When no fill is delayed every trade enters on the bar after its decision, and when every fill is, two
      bars after it, if there is such a bar. */
  lemma NoneOrAllDelayed(setup: Setup, config: FillConfig, draws: Draws, bars: Series, t: Trade)
    requires UnitDraws(draws) && t in RobustRun(setup, config, draws, bars)
    ensures config.delayProbability <= 0.0 ==>
              exists d: nat :: ApprovedFor(setup, config, draws, bars, d, t) && t.entryTime == bars[d + 1].time
    ensures config.delayProbability >= 1.0 ==>
              exists d: nat :: ApprovedFor(setup, config, draws, bars, d, t)
                               && t.entryTime == bars[if d + 2 < |bars| then d + 2 else d + 1].time
  {
    EveryRobustTradeIsTraced(setup, config, draws, bars);
    hide RobustRun, FreeAt, ApprovedAt;
    var p :| Traced(setup, config, draws, bars, p) && OfPosition(t, p);
    var d: nat, due :| Decided(setup, config, draws, bars, d, due) && FilledAs(setup, config, bars, due, p);
    assert 0.0 <= draws(DrawnAt(setup, config, draws, bars, d) + 1) < 1.0;
    assert ApprovedFor(setup, config, draws, bars, d, t);
  }
}
