/** When an exit experiment reproduces the reference loop: exactly when its rule never bites on a
    bar of the reference run. */
module Equivalence {
  import opened Wrappers
  import opened Market
  import opened Costs
  import opened Positions
  import opened Simulator
  import opened LookAhead
  import opened ExitRules

  /** The entry bar of the position open after k bars of the reference run. */
  function Since(setup: Setup, bars: Series, k: nat): (e: nat)
    requires k <= |bars|
    ensures e <= k
  {
    if k == 0 then 0
    else
      var before := Loop(setup, Standard, bars, k - 1).position;
      if before.Some? && OnBar(before.value, bars[k - 1]).Hold? then Since(setup, bars, k - 1) else k
  }

  /** On bar k, with position p open since bar e, the rule does what the standard rule would not. */
  ghost predicate BitesOn(rule: Rule, bars: Series, e: nat, k: nat, p: Position)
    requires e <= k < |bars|
  {
    var bar := bars[k];
    match rule
    case BreakevenStop => p.Risk() > 0.0 && Reached(bars, e, k + 1, p.OneR()) && bar.low <= p.entryPrice
    case PartialProfit => CheckExit(p.stop, p.target, bar).None? && p.quantity >= 2 && bar.high >= p.OneR()
    case TimeCap(maxBars) => CheckExit(p.stop, p.target, bar).None? && k + 1 - e >= maxBars
    case _ => false
  }

  ghost predicate Bites(setup: Setup, rule: Rule, bars: Series, k: nat)
    requires k < |bars|
  {
    var position := Loop(setup, Standard, bars, k).position;
    position.Some? && BitesOn(rule, bars, Since(setup, bars, k), k, position.value)
  }

  /** The experiment's position q is the reference position p with the tracker of its rule. */
  ghost predicate Tracks(costs: CostModel, rule: Rule, bars: Series, e: nat, k: nat, p: Position, q: Position)
    requires e <= k <= |bars|
  {
    && p.tracker == Plain && p.remaining == p.quantity
    && q == p.(tracker := q.tracker)
    && match rule
       case Standard => q == p
       case BreakevenStop => BreakevenAt(p, bars, e, k, q)
       case PartialProfit =>
         q.tracker == Scaling(p.OneR(), if p.quantity >= 2 then p.quantity / 2 else 0, false, EntryFee(costs, p))
       case TimeCap(maxBars) => q.tracker == Capped(maxBars, k - e)
       case TrailingRule => false
  }

  ghost predicate Twins(costs: CostModel, rule: Rule, bars: Series, e: nat, k: nat, s: SimState, v: SimState)
    requires e <= k <= |bars|
  {
    && v == s.(position := v.position)
    && (v.position.Some? <==> s.position.Some?)
    && (s.position.Some? ==> Tracks(costs, rule, bars, e, k, s.position.value, v.position.value))
  }

  /** Closing the tracked position books the very same trade, a lone full leg included. */
  lemma SameClose(costs: CostModel, p: Position, q: Position, price: real, time: int, reason: ExitReason)
    requires p.tracker == Plain && p.remaining == p.quantity
    requires q == p.(tracker := q.tracker) && !q.tracker.Trailing?
    requires q.tracker.Scaling? ==> q.tracker.entryFee == EntryFee(costs, p)
    ensures CloseAll(costs, p, price, time, reason) == CloseAll(costs, q, price, time, reason)
  {
    assert Share(EntryFee(costs, p), p.quantity, p.quantity) == EntryFee(costs, p) by {
      assert p.quantity as real / p.quantity as real == 1.0;
    }
    hide Share, CostModel.CostForFill, RMultiple, Notional;
  }

  lemma SameOutcome(costs: CostModel, rule: Rule, bars: Series, e: nat, k: nat, p: Position, q: Position)
    requires e <= k < |bars| && Tracks(costs, rule, bars, e, k, p, q)
    requires !BitesOn(rule, bars, e, k, p)
    ensures var standard, outcome := OnBar(p, bars[k]), OnBar(q, bars[k]);
            if standard.Exit? then outcome == standard
            else outcome.Hold? && standard == Hold(p) && Tracks(costs, rule, bars, e, k + 1, p, outcome.next)
  {
    hide CostModel.CostForFill;
    if rule == BreakevenStop {
      AdvanceBreakeven(p, bars, e, k, q);
    }
  }

  lemma ExitTwins(costs: CostModel, rule: Rule, bars: Series, e: nat, k: nat, s: SimState, v: SimState)
    requires e <= k < |bars| && Twins(costs, rule, bars, e, k, s, v)
    requires s.position.Some? ==> !BitesOn(rule, bars, e, k, s.position.value)
    ensures Twins(costs, rule, bars, e, k + 1, ExitPhase(costs, bars[k], s), ExitPhase(costs, bars[k], v))
    ensures s.position.Some? && OnBar(s.position.value, bars[k]).Exit? ==> ExitPhase(costs, bars[k], s).position.None?
  {
    if s.position.Some? {
      var p, q := s.position.value, v.position.value;
      SameOutcome(costs, rule, bars, e, k, p, q);
      if OnBar(p, bars[k]).Exit? {
        var o := OnBar(p, bars[k]);
        SameClose(costs, p, q, o.price, bars[k].time, o.reason);
      }
      hide OnBar, CloseAll, BreakevenAt, CostModel.CostForFill;
    }
  }

  lemma EntryTwins(setup: Setup, rule: Rule, bars: Series, e: nat, i: nat, s: SimState, v: SimState)
    requires e <= i + 1 <= |bars| && Twins(setup.costs, rule, bars, e, i + 1, s, v)
    requires rule != TrailingRule
    ensures Twins(setup.costs, rule, bars, if s.position.Some? then e else i + 1, i + 1,
                  EntryPhase(setup, Standard, bars, i, s), EntryPhase(setup, rule, bars, i, v))
  {
  }

  ghost predicate Agree(setup: Setup, rule: Rule, bars: Series, k: nat)
    requires k <= |bars|
  {
    Twins(setup.costs, rule, bars, Since(setup, bars, k), k, Loop(setup, Standard, bars, k), Loop(setup, rule, bars, k))
  }

  lemma AgreeStep(setup: Setup, rule: Rule, bars: Series, k: nat)
    requires k < |bars| && rule != TrailingRule
    requires Agree(setup, rule, bars, k) && !Bites(setup, rule, bars, k)
    ensures Agree(setup, rule, bars, k + 1)
  {
    hide ExitPhase, EntryPhase, OnBar, Tracks, BitesOn;
    var e, s, v := Since(setup, bars, k), Loop(setup, Standard, bars, k), Loop(setup, rule, bars, k);
    ExitTwins(setup.costs, rule, bars, e, k, s, v);
    ExitPhaseShape(setup.costs, bars[k], s);
    var s', v' := AtDecision(setup, Standard, bars, k), AtDecision(setup, rule, bars, k);
    if s'.position.None? {
      EntryTwins(setup, rule, bars, k + 1, k, s', v');
    } else {
      EntryTwins(setup, rule, bars, e, k, s', v');
    }
    StandardNeverScales(setup, bars, k);
  }

  lemma {:induction false} StandardNeverScales(setup: Setup, bars: Series, k: nat)
    requires k <= |bars|
    ensures var position := Loop(setup, Standard, bars, k).position;
            position.Some? ==>
              && position.value.tracker == Plain
              && (k < |bars| ==> !OnBar(position.value, bars[k]).ScaleOut?)
  {
    if k > 0 {
      StandardNeverScales(setup, bars, k - 1);
      ExitPhaseShape(setup.costs, bars[k - 1], Loop(setup, Standard, bars, k - 1));
      EntryPhaseShape(setup, Standard, bars, k - 1, AtDecision(setup, Standard, bars, k - 1));
      hide ExitPhase, EntryPhase;
    }
  }

  lemma {:induction false} AgreeUntilBitten(setup: Setup, rule: Rule, bars: Series, k: nat)
    requires k <= |bars| && rule != TrailingRule
    requires forall j :: 0 <= j < k ==> !Bites(setup, rule, bars, j)
    ensures Agree(setup, rule, bars, k)
  {
    hide Agree, Bites;
    if k == 0 {
      AgreeInitially(setup, rule, bars);
    } else {
      AgreeUntilBitten(setup, rule, bars, k - 1);
      AgreeStep(setup, rule, bars, k - 1);
    }
  }

  lemma AgreeInitially(setup: Setup, rule: Rule, bars: Series)
    ensures Agree(setup, rule, bars, 0)
  {
  }

  /** A run only ever appends to the log of its earlier states. */
  lemma {:induction false} LogGrows(setup: Setup, rule: Rule, bars: Series, k: nat)
    requires k <= |bars| && bars != []
    ensures Loop(setup, rule, bars, k).trades <= Run(setup, rule, bars).trades
    decreases |bars| - k
  {
    hide Loop, AtDecision, Finish;
    if k == |bars| {
      FinishShape(setup.costs, bars, Loop(setup, rule, bars, k));
    } else {
      Step(setup, rule, bars, k);
      LogGrows(setup, rule, bars, k + 1);
    }
  }

  /** The next trade of a reference run with an open position closes it at its stop, at its target
      or at the end of the data. */
  ghost predicate StandardClose(p: Position, t: Trade) {
    || (t.exitReason == Stop && t.exitPrice == p.stop)
    || t.exitReason == Target
    || t.exitReason == EndOfData
  }

  lemma StandardOutcome(p: Position, bar: Bar)
    requires p.tracker == Plain
    ensures var o := OnBar(p, bar);
            o == Hold(p) || (o.Exit? && ((o.reason == Stop && o.price == p.stop) || o.reason == Target))
  {
  }

  lemma {:induction false} NextStandardTrade(setup: Setup, bars: Series, k: nat, p: Position)
    requires k <= |bars| && bars != []
    requires Loop(setup, Standard, bars, k).position == Some(p)
    ensures var early, full := Loop(setup, Standard, bars, k).trades, Run(setup, Standard, bars).trades;
            early < full && StandardClose(p, full[|early|])
    decreases |bars| - k
  {
    hide ExitPhase, EntryPhase, Finish, OnBar;
    var st := Loop(setup, Standard, bars, k);
    StandardNeverScales(setup, bars, k);
    if k == |bars| {
      FinishShape(setup.costs, bars, st);
    } else {
      StandardOutcome(p, bars[k]);
      ExitPhaseShape(setup.costs, bars[k], st);
      EntryPhaseShape(setup, Standard, bars, k, AtDecision(setup, Standard, bars, k));
      if OnBar(p, bars[k]).Hold? {
        NextStandardTrade(setup, bars, k + 1, p);
      } else {
        LogGrows(setup, Standard, bars, k + 1);
      }
    }
  }

  lemma BiteOutcome(costs: CostModel, rule: Rule, bars: Series, e: nat, k: nat, p: Position, q: Position)
    requires e <= k < |bars| && Tracks(costs, rule, bars, e, k, p, q)
    requires BitesOn(rule, bars, e, k, p)
    ensures match OnBar(q, bars[k])
            case Hold(_) => false
            case ScaleOut(_, _, _) => true
            case Exit(price, reason) => reason == Expired || (reason == Stop && price != p.stop)
  {
    hide CostModel.CostForFill;
    if rule == BreakevenStop {
      AdvanceBreakeven(p, bars, e, k, q);
    }
  }

  /** A bite closes, or partly closes, the position in a way the reference run never does. */
  lemma BiteDiverges(setup: Setup, rule: Rule, bars: Series, k: nat)
    requires k < |bars| && Agree(setup, rule, bars, k) && Bites(setup, rule, bars, k)
    ensures Run(setup, rule, bars).trades != Run(setup, Standard, bars).trades
  {
    hide OnBar, Tracks, BitesOn, ExitPhase, EntryPhase, Run;
    var s, v := Loop(setup, Standard, bars, k), Loop(setup, rule, bars, k);
    var p := s.position.value;
    BiteOutcome(setup.costs, rule, bars, Since(setup, bars, k), k, p, v.position.value);
    ExitPhaseShape(setup.costs, bars[k], v);
    LogGrows(setup, rule, bars, k + 1);
    EntryPhaseShape(setup, rule, bars, k, AtDecision(setup, rule, bars, k));
    NextStandardTrade(setup, bars, k, p);
    assert !StandardClose(p, Run(setup, rule, bars).trades[|s.trades|]);
  }

  /** The breakeven, partial and time-cap experiments reproduce the reference run, down to every
      trade, if and only if their rule bites on no bar of the reference run. */
  lemma ExperimentMatchesIff(setup: Setup, rule: Rule, bars: Series)
    requires bars != [] && rule != TrailingRule
    ensures Run(setup, rule, bars).trades == Run(setup, Standard, bars).trades
            <==> forall k :: 0 <= k < |bars| ==> !Bites(setup, rule, bars, k)
    ensures (forall k :: 0 <= k < |bars| ==> !Bites(setup, rule, bars, k)) ==>
              Run(setup, rule, bars) == Run(setup, Standard, bars)
  {
    if forall k :: 0 <= k < |bars| ==> !Bites(setup, rule, bars, k) {
      AgreeUntilBitten(setup, rule, bars, |bars|);
      TwinsFinishAlike(setup, rule, bars);
    } else {
      var k := FirstBite(setup, rule, bars, |bars|);
      AgreeUntilBitten(setup, rule, bars, k);
      BiteDiverges(setup, rule, bars, k);
    }
  }

  lemma TwinsFinishAlike(setup: Setup, rule: Rule, bars: Series)
    requires bars != [] && Agree(setup, rule, bars, |bars|)
    ensures Run(setup, rule, bars) == Run(setup, Standard, bars)
  {
    var s, v := Loop(setup, Standard, bars, |bars|), Loop(setup, rule, bars, |bars|);
    if s.position.Some? {
      var last := bars[|bars| - 1];
      SameClose(setup.costs, s.position.value, v.position.value, setup.costs.ExitFill(last.close), last.time, EndOfData);
      hide CloseAll, Loop;
    }
  }

  lemma {:induction false} FirstBite(setup: Setup, rule: Rule, bars: Series, n: nat) returns (k: nat)
    requires n <= |bars| && exists j :: 0 <= j < n && Bites(setup, rule, bars, j)
    ensures k < n && Bites(setup, rule, bars, k)
    ensures forall j :: 0 <= j < k ==> !Bites(setup, rule, bars, j)
  {
    if exists j :: 0 <= j < n - 1 && Bites(setup, rule, bars, j) {
      k := FirstBite(setup, rule, bars, n - 1);
    } else {
      k := n - 1;
    }
  }

  /** The control case the breakeven experiment documents: no held bar ever reaches +1R. */
  lemma BreakevenControlCase(setup: Setup, bars: Series)
    requires bars != []
    requires forall k :: 0 <= k < |bars| && Loop(setup, Standard, bars, k).position.Some? ==>
               bars[k].high < Loop(setup, Standard, bars, k).position.value.OneR()
    ensures Run(setup, BreakevenStop, bars) == Run(setup, Standard, bars)
  {
    forall k | 0 <= k < |bars|
      ensures !Bites(setup, BreakevenStop, bars, k)
    {
      if Loop(setup, Standard, bars, k).position.Some? {
        HeldSince(setup, bars, k);
      }
    }
    ExperimentMatchesIff(setup, BreakevenStop, bars);
  }

  /** The partial experiment's: every held position is too small to split or short of +1R. */
  lemma PartialControlCase(setup: Setup, bars: Series)
    requires bars != []
    requires forall k :: 0 <= k < |bars| && Loop(setup, Standard, bars, k).position.Some? ==>
               var p := Loop(setup, Standard, bars, k).position.value;
               p.quantity < 2 || bars[k].high < p.OneR()
    ensures Run(setup, PartialProfit, bars) == Run(setup, Standard, bars)
  {
    ExperimentMatchesIff(setup, PartialProfit, bars);
  }

  /** The time cap's: the cap is larger than any held position has been held for. */
  lemma TimeCapControlCase(setup: Setup, maxBars: int, bars: Series)
    requires bars != []
    requires forall k :: 0 <= k < |bars| && Loop(setup, Standard, bars, k).position.Some? ==>
               k + 1 - Since(setup, bars, k) < maxBars
    ensures Run(setup, TimeCap(maxBars), bars) == Run(setup, Standard, bars)
  {
    ExperimentMatchesIff(setup, TimeCap(maxBars), bars);
  }

  /** One and the same position has been open ever since its entry bar. */
  lemma {:induction false} HeldSince(setup: Setup, bars: Series, k: nat)
    requires k <= |bars| && Loop(setup, Standard, bars, k).position.Some?
    ensures forall j :: Since(setup, bars, k) <= j <= k ==>
              Loop(setup, Standard, bars, j).position == Loop(setup, Standard, bars, k).position
  {
    hide ExitPhase, EntryPhase, OnBar;
    if k > 0 {
      StandardNeverScales(setup, bars, k - 1);
      var before := Loop(setup, Standard, bars, k - 1);
      ExitPhaseShape(setup.costs, bars[k - 1], before);
      EntryPhaseShape(setup, Standard, bars, k - 1, AtDecision(setup, Standard, bars, k - 1));
      if before.position.Some? {
        StandardOutcome(before.position.value, bars[k - 1]);
      }
      if before.position.Some? && OnBar(before.position.value, bars[k - 1]).Hold? {
        HeldSince(setup, bars, k - 1);
      }
    }
  }
}
