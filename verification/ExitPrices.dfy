/** What every trade of every run says: the entry and exit it records, read off the bars, and the arithmetic
    between them (backtesting/execution.py:32-83, backtesting/exit_experiments.py:72-126, 330-369, 591-639,
    874-886). */
module ExitPrices {
  import opened Wrappers
  import opened Market
  import opened Costs
  import opened Positions
  import opened Simulator
  import opened Ledger
  import opened TradeLog
  import opened ExitRules

  /** What a trade copies from its signal and its bars, and how its results add up. */
  ghost predicate Booked(setup: Setup, rule: Rule, bars: Series, s: Span, t: Trade) {
    && 1 <= s.entry <= s.exit < |bars|
    && t.entryTime == bars[s.entry].time && t.exitTime == bars[s.exit].time
    && t.side == Long && t.side == s.origin.signal.side
    && t.strategyName == s.origin.signal.strategyName && t.signalGeneratedAt == s.origin.signal.generatedAt
    && t.entryPrice == setup.costs.EntryFill(bars[s.entry].open) == s.origin.entryPrice
    && t.stop == s.origin.signal.stop
    && t.target == (if rule == TrailingRule then t.entryPrice else s.origin.signal.target)
    && t.gross == Notional(t.exitPrice - t.entryPrice, t.quantity)
    && t.net == t.gross - t.costs
    && var risk := Notional(t.entryPrice - t.stop, t.quantity);
       if risk > 0.0 then t.rMultiple * risk == t.net else t.rMultiple == 0.0
  }

  /** The stop a held bar is tested against: moved to the entry price once +1R was reached, that bar's own
      high included, under the breakeven rule. */
  ghost function TestedStop(rule: Rule, bars: Series, s: Span): real
    requires s.entry <= s.exit < |bars|
  {
    var p := s.origin;
    if rule == BreakevenStop && p.entryPrice > p.stop && Reached(bars, s.entry, s.exit + 1, 2.0 * p.entryPrice - p.stop)
    then p.entryPrice else p.stop
  }

  /** Price and quantity of the exit, by its reason. */
  ghost predicate ExitedBy(setup: Setup, rule: Rule, bars: Series, s: Span, t: Trade)
    requires s.entry <= s.exit < |bars|
  {
    var p, last := s.origin, bars[s.exit];
    var oneR := 2.0 * p.entryPrice - p.stop;
    var kept := if rule == PartialProfit && p.quantity >= 2 && Reached(bars, s.entry, s.exit, oneR)
                then p.quantity - p.quantity / 2 else p.quantity;
    match t.exitReason
    case Stop =>
      && rule != TrailingRule && t.quantity == kept
      && t.exitPrice == TestedStop(rule, bars, s) && last.low <= t.exitPrice
    case Target =>
      && rule != TrailingRule && t.quantity == kept
      && t.exitPrice == p.target && TestedStop(rule, bars, s) < last.low && last.high >= p.target
    case Expired =>
      && rule.TimeCap? && t.quantity == p.quantity
      && t.exitPrice == last.close && s.exit - s.entry + 1 >= rule.maxBars
      && p.stop < last.low && last.high < p.target
    case TrailingStop =>
      && rule == TrailingRule && t.quantity == p.quantity
      && last.low <= t.exitPrice && IsTrail(p, bars, s.entry, s.exit, t.exitPrice)
    case PartialTarget =>
      && rule == PartialProfit && t.quantity == p.quantity / 2 >= 1
      && t.exitPrice == oneR && last.high >= oneR && !Reached(bars, s.entry, s.exit, oneR)
      && p.stop < last.low && last.high < p.target
    case EndOfData =>
      && s.exit == |bars| - 1 && t.exitPrice == setup.costs.ExitFill(last.close)
      && t.quantity == if rule == PartialProfit && p.quantity >= 2 && Reached(bars, s.entry, s.exit + 1, oneR)
                       then p.quantity - p.quantity / 2 else p.quantity
  }

  /** When a position is opened, and which: a flat account, with a bar left to fill on, follows a long signal
      that the risk engine lets through for as many of the approved units as the cash pays at the slipped open. */
  lemma EntersIff(setup: Setup, rule: Rule, bars: Series, k: nat)
    requires k < |bars|
    ensures var st, next := AtDecision(setup, rule, bars, k), Loop(setup, rule, bars, k + 1).position;
            if st.position.Some? || k + 1 == |bars| then next == st.position
            else
              var signal, open := setup.strategy(bars, k), bars[k + 1].open;
              if signal.None? || signal.value.side != Long || setup.risk(signal.value, st.account).None? then next.None?
              else
                var approved, price := setup.risk(signal.value, st.account).value, setup.costs.EntryFill(open);
                && (forall q :: Buys(approved, price, st.account.cash, q) <==> next.Some? && next.value.quantity == q)
                && (next.Some? ==>
                      && next.value.signal == signal.value && next.value.remaining == next.value.quantity
                      && next.value.entryTime == bars[k + 1].time && next.value.entryPrice == price
                      && next.value.stop == signal.value.stop && next.value.target == signal.value.target)
  {
    var st := AtDecision(setup, rule, bars, k);
    EntryPhaseShape(setup, rule, bars, k, st);
    if k + 1 < |bars| && Approved(setup, bars, k, st.account).Some? {
      var approved, price := Approved(setup, bars, k, st.account).value.1, setup.costs.EntryFill(bars[k + 1].open);
      forall q
        ensures Buys(approved, price, st.account.cash, q) <==> q >= 1 && q == Affordable(approved, price, st.account.cash)
      {
        BuysIff(approved, price, st.account.cash, q);
      }
    }
    hide AtDecision, EntryPhase, CostModel.EntryFill, CostModel.CostForFill, Affordable, Buys;
  }

  lemma RatioTimesRisk(net: real, risk: real)
    ensures if risk > 0.0 then RMultiple(net, risk) * risk == net else RMultiple(net, risk) == 0.0
  {
  }

  lemma LegFields(p: Position, quantity: int, entryFee: real, exitFee: real, price: real, time: int, reason: ExitReason)
    ensures var t := Leg(p, quantity, entryFee, exitFee, price, time, reason);
            && t.side == p.signal.side && t.strategyName == p.signal.strategyName
            && t.signalGeneratedAt == p.signal.generatedAt
            && t.entryTime == p.entryTime && t.entryPrice == p.entryPrice && t.quantity == quantity && t.stop == p.stop
            && t.target == (if p.tracker.Trailing? then p.entryPrice else p.target)
            && t.exitTime == time && t.exitPrice == price && t.exitReason == reason
            && t.gross == Notional(price - p.entryPrice, quantity) && t.net == t.gross - t.costs
            && var risk := Notional(p.entryPrice - p.stop, quantity);
               if risk > 0.0 then t.rMultiple * risk == t.net else t.rMultiple == 0.0
  {
    var gross := Notional(price - p.entryPrice, quantity);
    RatioTimesRisk(gross - (entryFee + exitFee), Notional(p.entryPrice - p.stop, quantity));
    hide Notional, RMultiple;
  }

  lemma EntryOf(setup: Setup, rule: Rule, bars: Series, e: nat, p: Position)
    requires 1 <= e < |bars| && EnteredAt(setup, rule, bars, e, p)
    ensures p.signal.side == Long && p.entryTime == bars[e].time && p.entryPrice == setup.costs.EntryFill(bars[e].open)
    ensures p == NewPosition(rule, p.signal, p.entryTime, p.entryPrice, p.quantity, EntryFee(setup.costs, p))
    ensures p.stop == p.signal.stop && p.target == p.signal.target && p.remaining == p.quantity
    ensures p.tracker.Trailing? <==> rule == TrailingRule
  {
    EnteredIsNew(setup, rule, bars, e - 1, AtDecision(setup, rule, bars, e - 1).account);
    hide AtDecision, Approved, Affordable, CostModel.EntryFill, CostModel.CostForFill;
  }

  /** A ride changes what is left and what the rule remembers, and nothing else. */
  lemma {:induction false} RideKeepsEntry(p: Position, bars: Series, e: nat, x: nat)
    requires e <= x <= |bars| && Ride(p, bars, e, x).Some?
    ensures var q := Ride(p, bars, e, x).value; q == p.(remaining := q.remaining, tracker := q.tracker)
    ensures var q := Ride(p, bars, e, x).value;
            && q.tracker.Trailing? == p.tracker.Trailing? && q.tracker.Scaling? == p.tracker.Scaling?
  {
    if x > e {
      RideKeepsEntry(p, bars, e, x - 1);
    }
  }

  lemma ExplainedIsBooked(setup: Setup, rule: Rule, bars: Series, s: Span, t: Trade)
    requires Explains(setup, rule, bars, s, t)
    ensures Booked(setup, rule, bars, s, t)
  {
    hide Explains, EnteredAt, Notional, CostModel.EntryFill, Leg, NewPosition;
    ExplainedHasEntry(setup, rule, bars, s, t);
    EntryOf(setup, rule, bars, s.entry, s.origin);
    LegOf(setup, rule, bars, s, t);
    var q, quantity, entryFee, exitFee, price, reason :|
      && t == Leg(q, quantity, entryFee, exitFee, price, bars[s.exit].time, reason)
      && q == s.origin.(remaining := q.remaining, tracker := q.tracker)
      && q.tracker.Trailing? == s.origin.tracker.Trailing?;
    LegFields(q, quantity, entryFee, exitFee, price, bars[s.exit].time, reason);
  }

  lemma ExplainedHasEntry(setup: Setup, rule: Rule, bars: Series, s: Span, t: Trade)
    requires Explains(setup, rule, bars, s, t)
    ensures 1 <= s.entry <= s.exit < |bars| && EnteredAt(setup, rule, bars, s.entry, s.origin)
  {
  }

  lemma StepKeepsEntry(q: Position, bar: Bar)
    ensures match OnBar(q, bar)
            case Exit(_, _) => true
            case Hold(next) => next == q.(remaining := next.remaining, tracker := next.tracker)
                               && next.tracker.Trailing? == q.tracker.Trailing?
            case ScaleOut(_, _, next) => next == q.(remaining := next.remaining, tracker := next.tracker)
                                         && next.tracker.Trailing? == q.tracker.Trailing?
  {
  }

  /** Every explained trade is a leg of its position. */
  lemma LegOf(setup: Setup, rule: Rule, bars: Series, s: Span, t: Trade)
    requires Explains(setup, rule, bars, s, t)
    ensures exists q: Position, quantity: int, entryFee: real, exitFee: real, price: real, reason: ExitReason ::
              && t == Leg(q, quantity, entryFee, exitFee, price, bars[s.exit].time, reason)
              && q == s.origin.(remaining := q.remaining, tracker := q.tracker)
              && q.tracker.Trailing? == s.origin.tracker.Trailing?
  {
    hide OnBar, Leg, EnteredAt;
    RideKeepsEntry(s.origin, bars, s.entry, s.exit);
    StepKeepsEntry(Ride(s.origin, bars, s.entry, s.exit).value, bars[s.exit]);
    hide Ride;
  }

  /** The trade is what the bar makes of the position as it stood before it. */
  ghost predicate Outcome(setup: Setup, bars: Series, x: nat, q: Position, t: Trade)
    requires x < |bars|
  {
    var last := bars[x];
    match OnBar(q, last)
    case Exit(price, reason) => Closes(t, q, price, reason)
    case ScaleOut(price, quantity, next) =>
      || (t.exitPrice == price && t.exitReason == PartialTarget && t.quantity == quantity)
      || (x == |bars| - 1 && Closes(t, next, setup.costs.ExitFill(last.close), EndOfData))
    case Hold(next) => x == |bars| - 1 && Closes(t, next, setup.costs.ExitFill(last.close), EndOfData)
  }

  predicate Closes(t: Trade, q: Position, price: real, reason: ExitReason) {
    t.exitPrice == price && t.exitReason == reason && t.quantity == if q.tracker.Scaling? then q.remaining else q.quantity
  }

  lemma ExplainedOutcome(setup: Setup, rule: Rule, bars: Series, s: Span, t: Trade)
    requires Explains(setup, rule, bars, s, t)
    ensures Ride(s.origin, bars, s.entry, s.exit).Some?
    ensures Outcome(setup, bars, s.exit, Ride(s.origin, bars, s.entry, s.exit).value, t)
  {
    hide OnBar, Ride, EnteredAt, Notional, CostModel.CostForFill, CostModel.ExitFill, RMultiple, Share;
  }

  lemma PlainExits(setup: Setup, rule: Rule, bars: Series, s: Span, q: Position, t: Trade)
    requires s.entry <= s.exit < |bars| && (rule == Standard || rule.TimeCap?)
    requires Ride(s.origin, bars, s.entry, s.exit) == Some(q) && Outcome(setup, bars, s.exit, q, t)
    requires s.origin.tracker == (if rule == Standard then Plain else Capped(rule.maxBars, 0))
    requires s.origin.remaining == s.origin.quantity
    ensures ExitedBy(setup, rule, bars, s, t)
  {
    if rule == Standard {
      StandardRide(s.origin, bars, s.entry, s.exit);
    } else {
      TimeCapRide(s.origin, bars, s.entry, s.exit);
    }
    hide Ride, Untouched, CostModel.ExitFill, IsTrail, Reached;
  }

  lemma BreakevenExits(setup: Setup, bars: Series, s: Span, q: Position, t: Trade)
    requires s.entry <= s.exit < |bars| && FreshBreakeven(s.origin)
    requires Ride(s.origin, bars, s.entry, s.exit) == Some(q) && Outcome(setup, bars, s.exit, q, t)
    ensures ExitedBy(setup, BreakevenStop, bars, s, t)
  {
    BreakevenRide(s.origin, bars, s.entry, s.exit);
    AdvanceBreakeven(s.origin, bars, s.entry, s.exit, q);
    hide Ride, Untouched, CostModel.ExitFill, IsTrail, Reached, Advance;
  }

  lemma PartialExits(setup: Setup, bars: Series, s: Span, q: Position, t: Trade)
    requires s.entry <= s.exit < |bars| && FreshPartial(setup.costs, s.origin)
    requires Ride(s.origin, bars, s.entry, s.exit) == Some(q) && Outcome(setup, bars, s.exit, q, t)
    ensures ExitedBy(setup, PartialProfit, bars, s, t)
  {
    var oneR := s.origin.OneR();
    PartialRide(setup.costs, s.origin, bars, s.entry, s.exit);
    assert Reached(bars, s.entry, s.exit + 1, oneR) <==> Reached(bars, s.entry, s.exit, oneR) || bars[s.exit].high >= oneR;
    hide Ride, Untouched, CostModel.ExitFill, IsTrail, Reached, EntryFee;
  }

  lemma TrailingExits(setup: Setup, bars: Series, s: Span, q: Position, t: Trade)
    requires s.entry <= s.exit < |bars| && s.origin.tracker == Trailing(s.origin.stop, s.origin.entryPrice)
    requires Ride(s.origin, bars, s.entry, s.exit) == Some(q) && Outcome(setup, bars, s.exit, q, t)
    ensures ExitedBy(setup, TrailingRule, bars, s, t)
  {
    TrailingClosedForm(s.origin, bars, s.entry, s.exit);
    hide Ride, Untouched, CostModel.ExitFill, IsTrail, Reached, Ratchet;
  }

  lemma ExplainedIsExited(setup: Setup, rule: Rule, bars: Series, s: Span, t: Trade)
    requires Explains(setup, rule, bars, s, t)
    ensures s.entry <= s.exit < |bars| && ExitedBy(setup, rule, bars, s, t)
  {
    ExplainedHasEntry(setup, rule, bars, s, t);
    ExplainedOutcome(setup, rule, bars, s, t);
    EntryOf(setup, rule, bars, s.entry, s.origin);
    hide Explains, EnteredAt, Outcome, ExitedBy, Ride, CostModel.EntryFill, EntryFee;
    var q := Ride(s.origin, bars, s.entry, s.exit).value;
    match rule
    case Standard => PlainExits(setup, rule, bars, s, q, t);
    case TimeCap(_) => PlainExits(setup, rule, bars, s, q, t);
    case BreakevenStop => BreakevenExits(setup, bars, s, q, t);
    case PartialProfit => PartialExits(setup, bars, s, q, t);
    case TrailingRule => TrailingExits(setup, bars, s, q, t);
  }

  /** What a held bar must not do for the position to live on: neither reach the stop it is tested against
      nor the target, if the rule has one, nor be the last that a cap allows. */
  ghost predicate LeavesOpen(rule: Rule, bars: Series, s: Span)
    requires s.entry <= s.exit < |bars|
  {
    var p, bar := s.origin, bars[s.exit];
    if rule == TrailingRule then exists level :: IsTrail(p, bars, s.entry, s.exit, level) && level < bar.low
    else
      && TestedStop(rule, bars, s) < bar.low && bar.high < p.target
      && (rule.TimeCap? ==> s.exit - s.entry + 1 < rule.maxBars)
  }

  /** A position lives through exactly the bars that leave it open, from its first one on. */
  lemma LivesOnIff(setup: Setup, rule: Rule, bars: Series, s: Span)
    requires 1 <= s.entry <= s.exit < |bars| && EnteredAt(setup, rule, bars, s.entry, s.origin)
    ensures Ride(s.origin, bars, s.entry, s.exit + 1).Some? <==>
            Ride(s.origin, bars, s.entry, s.exit).Some? && LeavesOpen(rule, bars, s)
  {
    hide EnteredAt, Ride, OnBar, LeavesOpen, CostModel.EntryFill, EntryFee;
    EntryOf(setup, rule, bars, s.entry, s.origin);
    OneBarOn(s.origin, bars, s.entry, s.exit);
    if Ride(s.origin, bars, s.entry, s.exit).Some? {
      var q := Ride(s.origin, bars, s.entry, s.exit).value;
      match rule
      case Standard => PlainLivesOn(rule, bars, s, q);
      case TimeCap(_) => PlainLivesOn(rule, bars, s, q);
      case BreakevenStop => BreakevenLivesOn(bars, s, q);
      case PartialProfit => PartialLivesOn(setup.costs, bars, s, q);
      case TrailingRule => TrailingLivesOn(bars, s, q);
    }
  }

  lemma OneBarOn(p: Position, bars: Series, e: nat, x: nat)
    requires e <= x < |bars|
    ensures Ride(p, bars, e, x + 1).Some? <==> Ride(p, bars, e, x).Some? && !OnBar(Ride(p, bars, e, x).value, bars[x]).Exit?
  {
    hide OnBar;
  }

  lemma PlainLivesOn(rule: Rule, bars: Series, s: Span, q: Position)
    requires s.entry <= s.exit < |bars| && (rule == Standard || rule.TimeCap?)
    requires Ride(s.origin, bars, s.entry, s.exit) == Some(q)
    requires s.origin.tracker == (if rule == Standard then Plain else Capped(rule.maxBars, 0))
    requires s.origin.remaining == s.origin.quantity
    ensures !OnBar(q, bars[s.exit]).Exit? <==> LeavesOpen(rule, bars, s)
  {
    if rule == Standard {
      StandardRide(s.origin, bars, s.entry, s.exit);
    } else {
      TimeCapRide(s.origin, bars, s.entry, s.exit);
    }
    hide Ride, Untouched, IsTrail, Reached;
  }

  lemma BreakevenLivesOn(bars: Series, s: Span, q: Position)
    requires s.entry <= s.exit < |bars| && FreshBreakeven(s.origin)
    requires Ride(s.origin, bars, s.entry, s.exit) == Some(q)
    ensures !OnBar(q, bars[s.exit]).Exit? <==> LeavesOpen(BreakevenStop, bars, s)
  {
    BreakevenRide(s.origin, bars, s.entry, s.exit);
    AdvanceBreakeven(s.origin, bars, s.entry, s.exit, q);
    hide Ride, Untouched, IsTrail, Reached, Advance;
  }

  lemma PartialLivesOn(costs: CostModel, bars: Series, s: Span, q: Position)
    requires s.entry <= s.exit < |bars| && FreshPartial(costs, s.origin)
    requires Ride(s.origin, bars, s.entry, s.exit) == Some(q)
    ensures !OnBar(q, bars[s.exit]).Exit? <==> LeavesOpen(PartialProfit, bars, s)
  {
    PartialRide(costs, s.origin, bars, s.entry, s.exit);
    hide Ride, Untouched, IsTrail, Reached, EntryFee;
  }

  lemma TrailingLivesOn(bars: Series, s: Span, q: Position)
    requires s.entry <= s.exit < |bars| && s.origin.tracker == Trailing(s.origin.stop, s.origin.entryPrice)
    requires Ride(s.origin, bars, s.entry, s.exit) == Some(q)
    ensures !OnBar(q, bars[s.exit]).Exit? <==> LeavesOpen(TrailingRule, bars, s)
  {
    TrailingClosedForm(s.origin, bars, s.entry, s.exit);
    forall level | IsTrail(s.origin, bars, s.entry, s.exit, level)
      ensures level == q.tracker.trail
    {
      OneTrail(s.origin, bars, s.entry, s.exit, level, q.tracker.trail);
    }
    hide Ride, IsTrail, Ratchet;
  }

  lemma OneTrail(p: Position, bars: Series, e: nat, x: nat, a: real, b: real)
    requires e <= x <= |bars| && IsTrail(p, bars, e, x, a) && IsTrail(p, bars, e, x, b)
    ensures a == b
  {
  }

  /** The fees of a trade: the part of the position's one entry fee that falls on its units, and the exit
      fee of those units. */
  ghost predicate Charged(costs: CostModel, s: Span, t: Trade) {
    s.origin.quantity >= 1
    && t.costs == costs.CostForFill(Notional(s.origin.entryPrice, s.origin.quantity))
                  * (t.quantity as real / s.origin.quantity as real)
                  + costs.CostForFill(Notional(t.exitPrice, t.quantity))
  }

  lemma WholeLegCharged(costs: CostModel, q: Position, s: Span, price: real, time: int, reason: ExitReason)
    requires !q.tracker.Scaling? && q == s.origin.(remaining := q.remaining, tracker := q.tracker)
    ensures Charged(costs, s, CloseAll(costs, q, price, time, reason))
  {
    hide CostModel.CostForFill, Notional, RMultiple;
    assert q.quantity as real / s.origin.quantity as real == 1.0;
  }

  lemma SharedLegCharged(costs: CostModel, q: Position, quantity: int, s: Span, price: real, time: int, reason: ExitReason)
    requires q.tracker.Scaling? && q.tracker.entryFee == EntryFee(costs, s.origin)
    requires q == s.origin.(remaining := q.remaining, tracker := q.tracker)
    ensures Charged(costs, s, ClosePartialLeg(costs, q, quantity, price, time, reason))
  {
    hide CostModel.CostForFill, Notional, RMultiple;
  }

  lemma ScalingKeepsFee(q: Position, bar: Bar)
    requires q.tracker.Scaling?
    ensures match OnBar(q, bar)
            case Exit(_, _) => true
            case Hold(next) => next.tracker.Scaling? && next.tracker.entryFee == q.tracker.entryFee
            case ScaleOut(_, _, next) => next.tracker.Scaling? && next.tracker.entryFee == q.tracker.entryFee
  {
  }

  lemma NeverScales(q: Position, bar: Bar)
    requires !q.tracker.Scaling?
    ensures match OnBar(q, bar)
            case Exit(_, _) => true
            case Hold(next) => !next.tracker.Scaling?
            case ScaleOut(_, _, _) => false
  {
  }

  lemma ExplainedIsCharged(setup: Setup, rule: Rule, bars: Series, s: Span, t: Trade)
    requires Explains(setup, rule, bars, s, t)
    ensures Charged(setup.costs, s, t)
  {
    hide EnteredAt, Ride, OnBar, CloseAll, ClosePartialLeg, Charged, Sound, NewPosition, CostModel.ExitFill, EntryFee;
    EntryOf(setup, rule, bars, s.entry, s.origin);
    RideKeepsEntry(s.origin, bars, s.entry, s.exit);
    var q, bar := Ride(s.origin, bars, s.entry, s.exit).value, bars[s.exit];
    StepKeepsEntry(q, bar);
    if q.tracker.Scaling? {
      ScalingRideKeepsFee(setup, rule, bars, s);
      ScalingKeepsFee(q, bar);
      match OnBar(q, bar)
      case Exit(price, reason) =>
        AllOfScaling(setup.costs, q, price, bar.time, reason);
        SharedLegCharged(setup.costs, q, q.remaining, s, price, bar.time, reason);
      case ScaleOut(price, quantity, next) =>
        SharedLegCharged(setup.costs, q, quantity, s, price, bar.time, PartialTarget);
        AllOfScaling(setup.costs, next, setup.costs.ExitFill(bar.close), bar.time, EndOfData);
        SharedLegCharged(setup.costs, next, next.remaining, s, setup.costs.ExitFill(bar.close), bar.time, EndOfData);
      case Hold(next) =>
        AllOfScaling(setup.costs, next, setup.costs.ExitFill(bar.close), bar.time, EndOfData);
        SharedLegCharged(setup.costs, next, next.remaining, s, setup.costs.ExitFill(bar.close), bar.time, EndOfData);
    } else {
      NeverScales(q, bar);
      match OnBar(q, bar)
      case Exit(price, reason) => WholeLegCharged(setup.costs, q, s, price, bar.time, reason);
      case Hold(next) => WholeLegCharged(setup.costs, next, s, setup.costs.ExitFill(bar.close), bar.time, EndOfData);
      case _ =>
    }
  }

  lemma AllOfScaling(costs: CostModel, q: Position, price: real, time: int, reason: ExitReason)
    requires q.tracker.Scaling?
    ensures CloseAll(costs, q, price, time, reason) == ClosePartialLeg(costs, q, q.remaining, price, time, reason)
  {
  }

  lemma {:induction false} ScalingRideKeepsFee(setup: Setup, rule: Rule, bars: Series, s: Span)
    requires 1 <= s.entry <= s.exit < |bars| && EnteredAt(setup, rule, bars, s.entry, s.origin)
    requires Ride(s.origin, bars, s.entry, s.exit).Some? && Ride(s.origin, bars, s.entry, s.exit).value.tracker.Scaling?
    ensures Ride(s.origin, bars, s.entry, s.exit).value.tracker.entryFee == EntryFee(setup.costs, s.origin)
    decreases s.exit
  {
    hide EnteredAt, EntryFee;
    if s.exit == s.entry {
      EntryOf(setup, rule, bars, s.entry, s.origin);
    } else {
      hide OnBar;
      RideKeepsEntry(s.origin, bars, s.entry, s.exit - 1);
      RideKeepsEntry(s.origin, bars, s.entry, s.exit);
      ScalingRideKeepsFee(setup, rule, bars, s.(exit := s.exit - 1));
      ScalingKeepsFee(Ride(s.origin, bars, s.entry, s.exit - 1).value, bars[s.exit - 1]);
    }
  }

  ghost predicate Told(setup: Setup, rule: Rule, bars: Series, trades: seq<Trade>, spans: seq<Span>) {
    && |spans| == |trades|
    && forall k :: 0 <= k < |trades| ==>
         && Booked(setup, rule, bars, spans[k], trades[k]) && ExitedBy(setup, rule, bars, spans[k], trades[k])
         && Charged(setup.costs, spans[k], trades[k])
  }

  lemma ExplainedTells(setup: Setup, rule: Rule, bars: Series, s: Span, t: Trade)
    requires Explains(setup, rule, bars, s, t)
    ensures Booked(setup, rule, bars, s, t) && ExitedBy(setup, rule, bars, s, t) && Charged(setup.costs, s, t)
  {
    hide Explains, ExitedBy, Charged, Booked;
    ExplainedHasEntry(setup, rule, bars, s, t);
    ExplainedIsCharged(setup, rule, bars, s, t);
    ExplainedIsBooked(setup, rule, bars, s, t);
    ExplainedIsExited(setup, rule, bars, s, t);
  }

  /** Every trade of every run, under every exit rule. */
  lemma EveryTradeTells(setup: Setup, rule: Rule, bars: Series)
    requires bars != []
    ensures exists spans ::
              && WellFormed(setup, rule, bars, Run(setup, rule, bars).trades, spans) && Exhaustive(setup, rule, bars, spans)
              && Told(setup, rule, bars, Run(setup, rule, bars).trades, spans)
  {
    hide Run, Explains, ExitedBy, Exhaustive, Charged, InOrder, Booked;
    EveryTradeIsExplained(setup, rule, bars);
    var trades := Run(setup, rule, bars).trades;
    var spans: seq<Span> :| WellFormed(setup, rule, bars, trades, spans) && Exhaustive(setup, rule, bars, spans);
    forall k | 0 <= k < |trades|
      ensures 1 <= spans[k].entry <= spans[k].exit < |bars|
      ensures Booked(setup, rule, bars, spans[k], trades[k]) && ExitedBy(setup, rule, bars, spans[k], trades[k])
      ensures Charged(setup.costs, spans[k], trades[k])
    {
      ExplainedHasEntry(setup, rule, bars, spans[k], trades[k]);
      ExplainedTells(setup, rule, bars, spans[k], trades[k]);
    }
    assert Told(setup, rule, bars, trades, spans);
  }
}
