/** What each exit rule does to one position: its ride over the bars in closed form, and how it
    compares with the standard rule from the same entry on the same bars. */
module ExitRules {
  import opened Wrappers
  import opened Market
  import opened Costs
  import opened Positions
  import opened TradeLog

  function AsStandard(p: Position): Position {
    p.(remaining := p.quantity, tracker := Plain)
  }

  /** Neither the original stop nor the target was touched on bars e to x - 1. */
  ghost predicate Untouched(p: Position, bars: Series, e: nat, x: nat)
    requires e <= x <= |bars|
  {
    forall j :: e <= j < x ==> p.stop < bars[j].low && bars[j].high < p.target
  }

  /** Some bar from e to x - 1 reached a price level. */
  ghost predicate Reached(bars: Series, e: nat, x: nat, level: real)
    requires e <= x <= |bars|
  {
    exists j :: e <= j < x && bars[j].high >= level
  }

  lemma {:induction false} StandardRide(p: Position, bars: Series, e: nat, x: nat)
    requires p.tracker.Plain? && e <= x <= |bars|
    ensures Ride(p, bars, e, x) == if Untouched(p, bars, e, x) then Some(p) else None
  {
    if x > e {
      StandardRide(p, bars, e, x - 1);
      assert Untouched(p, bars, e, x) <==>
             Untouched(p, bars, e, x - 1) && p.stop < bars[x - 1].low && bars[x - 1].high < p.target;
    }
  }

  // ---- breakeven stop ----

  lemma OneRIsReached(best: real, entry: real, risk: real)
    requires risk > 0.0
    ensures (best - entry) / risk >= 1.0 <==> best >= entry + risk
  {
  }

  /** The stop has moved exactly when the position risked something and a bar reached +1R. */
  ghost predicate BreakevenAt(p: Position, bars: Series, e: nat, x: nat, q: Position)
    requires e <= x <= |bars|
  {
    && q.tracker.Breakeven?
    && q == p.(tracker := q.tracker)
    && (q.tracker.moved <==> p.Risk() > 0.0 && Reached(bars, e, x, p.OneR()))
    && q.tracker.currentStop == (if q.tracker.moved then p.entryPrice else p.stop)
    && (p.Risk() > 0.0 && !q.tracker.moved ==> q.tracker.best < p.OneR())
  }

  lemma AdvanceBreakeven(p: Position, bars: Series, e: nat, x: nat, q: Position)
    requires e <= x < |bars| && BreakevenAt(p, bars, e, x, q)
    ensures BreakevenAt(p, bars, e, x + 1, Advance(q, bars[x]))
  {
    if p.Risk() > 0.0 {
      OneRIsReached(Max(q.tracker.best, bars[x].high), p.entryPrice, p.Risk());
    }
    assert Reached(bars, e, x + 1, p.OneR()) <==> Reached(bars, e, x, p.OneR()) || bars[x].high >= p.OneR();
  }

  ghost predicate FreshBreakeven(p: Position) {
    p.remaining == p.quantity && p.tracker == Breakeven(p.stop, p.entryPrice, false)
  }

  lemma StartsUnmoved(p: Position, bars: Series, e: nat)
    requires FreshBreakeven(p) && e <= |bars|
    ensures BreakevenAt(p, bars, e, e, p)
  {
  }

  lemma {:induction false} BreakevenRide(p: Position, bars: Series, e: nat, x: nat)
    requires FreshBreakeven(p) && e <= x <= |bars|
    ensures var q := Ride(p, bars, e, x);
            q.Some? ==> BreakevenAt(p, bars, e, x, q.value) && Untouched(p, bars, e, x)
  {
    hide FreshBreakeven, Advance, Reached;
    if x == e {
      StartsUnmoved(p, bars, e);
    } else {
      BreakevenRide(p, bars, e, x - 1);
      if Ride(p, bars, e, x - 1).Some? {
        AdvanceBreakeven(p, bars, e, x - 1, Ride(p, bars, e, x - 1).value);
      }
    }
  }

  /** Breakeven dominance: the moved stop only ever closes a position earlier, never holds it longer;
      when the standard rule stops out on the same bar, it does so at no better a price. */
  lemma BreakevenDominates(p: Position, bars: Series, e: nat, x: nat)
    requires FreshBreakeven(p) && e <= x <= |bars|
    ensures Ride(p, bars, e, x).Some? ==> Ride(AsStandard(p), bars, e, x).Some?
    ensures x < |bars| && Ride(p, bars, e, x).Some? ==>
              match (OnBar(Ride(p, bars, e, x).value, bars[x]), OnBar(AsStandard(p), bars[x]))
              case (Hold(_), standard) => standard.Hold?
              case (Exit(price, _), Exit(standardPrice, Stop)) => price >= standardPrice
              case _ => true
  {
    BreakevenRide(p, bars, e, x);
    StandardRide(AsStandard(p), bars, e, x);
    if x < |bars| && Ride(p, bars, e, x).Some? {
      AdvanceBreakeven(p, bars, e, x, Ride(p, bars, e, x).value);
    }
  }

  /** The stop moves at most once, from the original stop up to the entry price; from then on no
      stop or target exit is below the entry price, provided the target is not. */
  lemma BreakevenStopMovesOnce(p: Position, bars: Series, e: nat, x: nat, y: nat)
    requires FreshBreakeven(p) && e <= x <= y < |bars|
    requires Ride(p, bars, e, y).Some?
    ensures Ride(p, bars, e, x).Some?
    ensures var a, b := Ride(p, bars, e, x).value.tracker, Ride(p, bars, e, y).value.tracker;
            && a.Breakeven? && b.Breakeven?
            && p.stop <= a.currentStop <= b.currentStop
            && (a.currentStop != p.stop ==> a.currentStop == b.currentStop == p.entryPrice)
            && (b.moved && p.target >= p.entryPrice && OnBar(Ride(p, bars, e, y).value, bars[y]).Exit? ==>
                  OnBar(Ride(p, bars, e, y).value, bars[y]).price >= p.entryPrice)
  {
    RideIsClosedOnce(p, bars, e, x, y);
    BreakevenRide(p, bars, e, x);
    BreakevenRide(p, bars, e, y);
  }

  lemma {:induction false} RideIsClosedOnce(p: Position, bars: Series, e: nat, x: nat, y: nat)
    requires e <= x <= y <= |bars|
    requires Ride(p, bars, e, y).Some?
    ensures Ride(p, bars, e, x).Some?
  {
    if x < y {
      RideIsClosedOnce(p, bars, e, x, y - 1);
    }
  }

  // ---- partial profit take ----

  ghost predicate FreshPartial(costs: CostModel, p: Position) {
    Sound(costs, p) && p.tracker.Scaling? && !p.tracker.taken
  }

  /** The partial leg has been taken exactly when the position can be split and +1R was reached. */
  lemma {:induction false} PartialRide(costs: CostModel, p: Position, bars: Series, e: nat, x: nat)
    requires FreshPartial(costs, p) && e <= x <= |bars|
    ensures Ride(p, bars, e, x).Some? <==> Untouched(p, bars, e, x)
    ensures Ride(p, bars, e, x).Some? ==>
              var q := Ride(p, bars, e, x).value;
              && Sound(costs, q)
              && q.tracker == p.tracker.(taken := p.quantity >= 2 && Reached(bars, e, x, p.OneR()))
              && q == p.(remaining := if q.tracker.taken then p.quantity - p.quantity / 2 else p.quantity, tracker := q.tracker)
  {
    hide CostModel.CostForFill;
    if x > e {
      PartialRide(costs, p, bars, e, x - 1);
      var bar := bars[x - 1];
      assert Untouched(p, bars, e, x) <==> Untouched(p, bars, e, x - 1) && p.stop < bar.low && bar.high < p.target;
      assert Reached(bars, e, x, p.OneR()) <==> Reached(bars, e, x - 1, p.OneR()) || bar.high >= p.OneR();
    }
  }

  /** Taking a partial profit never changes when, where or why the position is finally closed. */
  lemma PartialKeepsTheExit(costs: CostModel, p: Position, bars: Series, e: nat, x: nat)
    requires FreshPartial(costs, p) && e <= x <= |bars|
    ensures Ride(p, bars, e, x).Some? <==> Ride(AsStandard(p), bars, e, x).Some?
    ensures x < |bars| && Ride(p, bars, e, x).Some? ==>
              var outcome, standard := OnBar(Ride(p, bars, e, x).value, bars[x]), OnBar(AsStandard(p), bars[x]);
              && (outcome.Exit? <==> standard.Exit?)
              && (outcome.Exit? ==> outcome == standard)
  {
    PartialRide(costs, p, bars, e, x);
    StandardRide(AsStandard(p), bars, e, x);
  }

  /** A position is scaled out of at most once, on the first bar to reach +1R, and something is kept. */
  lemma PartialIsTakenOnce(costs: CostModel, p: Position, bars: Series, e: nat, x: nat, y: nat)
    requires FreshPartial(costs, p) && e <= x <= y < |bars|
    requires Ride(p, bars, e, x).Some? && OnBar(Ride(p, bars, e, x).value, bars[x]).ScaleOut?
    requires Ride(p, bars, e, y).Some? && OnBar(Ride(p, bars, e, y).value, bars[y]).ScaleOut?
    ensures x == y && bars[x].high >= p.OneR() && !Reached(bars, e, x, p.OneR())
    ensures var o := OnBar(Ride(p, bars, e, x).value, bars[x]);
            && o.price == p.OneR() && o.quantity == p.quantity / 2
            && o.quantity + o.next.remaining == p.quantity && o.next.remaining >= 1
  {
    PartialRide(costs, p, bars, e, x);
    PartialRide(costs, p, bars, e, y);
    if x < y {
      assert Reached(bars, e, y, p.OneR());
    }
  }

  // ---- trailing stop ----

  /** The highest price since entry, the entry fill and bars e to x - 1. */
  function HighestHigh(entryPrice: real, bars: Series, e: nat, x: nat): real
    requires e <= x <= |bars|
  {
    if x == e then entryPrice else Max(HighestHigh(entryPrice, bars, e, x - 1), bars[x - 1].high)
  }

  predicate HasAtr(bar: Bar) {
    bar.Atr().Some? && bar.Atr().value > 0.0
  }

  /** The level a held bar proposes: its distance in ATRs below the highest high up to and with it. */
  function Candidate(p: Position, bars: Series, e: nat, t: nat): real
    requires e <= t < |bars| && HasAtr(bars[t])
  {
    HighestHigh(p.entryPrice, bars, e, t + 1) - 1.5 * bars[t].Atr().value
  }

  /** `level` is the greatest of the original stop and the candidates of bars e to x - 1. */
  ghost predicate IsTrail(p: Position, bars: Series, e: nat, x: nat, level: real)
    requires e <= x <= |bars|
  {
    && level >= p.stop
    && (forall t :: e <= t < x && HasAtr(bars[t]) ==> level >= Candidate(p, bars, e, t))
    && (level == p.stop || exists t :: e <= t < x && HasAtr(bars[t]) && level == Candidate(p, bars, e, t))
  }

  /** The trailing stop in closed form: the level bar x is tested against is a maximum over the
      earlier held bars only. */
  lemma {:induction false} TrailingClosedForm(p: Position, bars: Series, e: nat, x: nat)
    requires p.tracker == Trailing(p.stop, p.entryPrice) && e <= x <= |bars|
    ensures Ride(p, bars, e, x).Some? ==>
              var q := Ride(p, bars, e, x).value;
              && q.tracker.Trailing? && q == p.(tracker := q.tracker)
              && q.tracker.highest == HighestHigh(p.entryPrice, bars, e, x)
              && IsTrail(p, bars, e, x, q.tracker.trail)
  {
    if x > e && Ride(p, bars, e, x).Some? {
      TrailingClosedForm(p, bars, e, x - 1);
      var q := Ride(p, bars, e, x - 1).value;
      var next := Ratchet(q, bars[x - 1]);
      assert Ride(p, bars, e, x) == Some(next);
      if next.tracker.trail > q.tracker.trail {
        assert HasAtr(bars[x - 1]) && next.tracker.trail == Candidate(p, bars, e, x - 1);
      } else if q.tracker.trail != p.stop {
        var t :| e <= t < x - 1 && HasAtr(bars[t]) && q.tracker.trail == Candidate(p, bars, e, t);
        assert next.tracker.trail == Candidate(p, bars, e, t);
      }
    }
  }

  /** The trail never falls, is the same whatever the tested bar turns out to be, and is the price
      of a trailing exit. */
  lemma {:induction false} TrailingNeverFalls(p: Position, bars: Series, other: Series, e: nat, x: nat, y: nat)
    requires p.tracker == Trailing(p.stop, p.entryPrice) && e <= x <= y <= |bars|
    requires Ride(p, bars, e, y).Some?
    requires x <= |other| && other[..x] == bars[..x]
    ensures Ride(p, bars, e, x).Some? && Ride(p, other, e, x) == Ride(p, bars, e, x)
    ensures Ride(p, bars, e, x).value.tracker.Trailing? && Ride(p, bars, e, y).value.tracker.Trailing?
    ensures p.stop <= Ride(p, bars, e, x).value.tracker.trail <= Ride(p, bars, e, y).value.tracker.trail
    ensures y < |bars| && OnBar(Ride(p, bars, e, y).value, bars[y]).Exit? ==>
              OnBar(Ride(p, bars, e, y).value, bars[y]) == Exit(Ride(p, bars, e, y).value.tracker.trail, TrailingStop)
  {
    RideIsClosedOnce(p, bars, e, x, y);
    RideSeesOnlyThePast(p, bars, other, e, x);
    TrailRises(p, bars, e, x, y);
    TrailingClosedForm(p, bars, e, x);
    TrailingClosedForm(p, bars, e, y);
  }

  lemma {:induction false} TrailRises(p: Position, bars: Series, e: nat, x: nat, y: nat)
    requires p.tracker == Trailing(p.stop, p.entryPrice) && e <= x <= y <= |bars|
    requires Ride(p, bars, e, y).Some? && Ride(p, bars, e, x).Some?
    ensures Ride(p, bars, e, x).value.tracker.Trailing? && Ride(p, bars, e, y).value.tracker.Trailing?
    ensures Ride(p, bars, e, x).value.tracker.trail <= Ride(p, bars, e, y).value.tracker.trail
  {
    TrailingClosedForm(p, bars, e, x);
    TrailingClosedForm(p, bars, e, y);
    if x < y {
      TrailingClosedForm(p, bars, e, y - 1);
      TrailRises(p, bars, e, x, y - 1);
    }
  }

  lemma {:induction false} RideSeesOnlyThePast(p: Position, a: Series, b: Series, e: nat, x: nat)
    requires e <= x <= |a| && x <= |b| && a[..x] == b[..x]
    ensures Ride(p, a, e, x) == Ride(p, b, e, x)
  {
    if x > e {
      assert a[..x - 1] == a[..x][..x - 1] == b[..x][..x - 1] == b[..x - 1];
      assert a[x - 1] == a[..x][x - 1] == b[..x][x - 1] == b[x - 1];
      RideSeesOnlyThePast(p, a, b, e, x - 1);
    }
  }

  // ---- time cap ----

  /** The cap closes a position after maxBars held bars, and otherwise leaves it to stop and target. */
  lemma {:induction false} TimeCapRide(p: Position, bars: Series, e: nat, x: nat)
    requires p.tracker.Capped? && p.tracker.held == 0 && p.remaining == p.quantity && e <= x <= |bars|
    ensures Ride(p, bars, e, x) ==
            if Untouched(p, bars, e, x) && (x == e || x - e < p.tracker.maxBars)
            then Some(p.(tracker := Capped(p.tracker.maxBars, x - e))) else None
  {
    if x > e {
      TimeCapRide(p, bars, e, x - 1);
      assert Untouched(p, bars, e, x) <==>
             Untouched(p, bars, e, x - 1) && p.stop < bars[x - 1].low && bars[x - 1].high < p.target;
    }
  }
}
