/** Excursions of a finished trade (backtesting/forensics.py), re-walked on the same bars. */
module Forensics {
  import opened Wrappers
  import opened Market
  import opened Costs
  import opened Positions
  import opened Simulator
  import opened TradeLog
  import opened ExitRules

  datatype Excursion = Excursion(mfe: real, mae: real, barsHeld: nat)

  function Window(bars: Series, from: int, to: int): Series {
    if bars == [] then []
    else Window(bars[..|bars| - 1], from, to)
         + (if from <= bars[|bars| - 1].time <= to then [bars[|bars| - 1]] else [])
  }

  function MaxHigh(bars: Series): real
    requires bars != []
  {
    if |bars| == 1 then bars[0].high else Max(MaxHigh(bars[..|bars| - 1]), bars[|bars| - 1].high)
  }

  function MinLow(bars: Series): real
    requires bars != []
  {
    if |bars| == 1 then bars[0].low
    else var rest := MinLow(bars[..|bars| - 1]); if bars[|bars| - 1].low < rest then bars[|bars| - 1].low else rest
  }

  function ComputeTradeExcursion(t: Trade, bars: Series): Option<Excursion>
    requires t.entryPrice != 0.0
  {
    var window := Window(bars, t.entryTime, t.exitTime);
    if window == [] then None
    else Some(Excursion(Max(0.0, (MaxHigh(window) - t.entryPrice) / t.entryPrice),
                        Max(0.0, (t.entryPrice - MinLow(window)) / t.entryPrice),
                        |window|))
  }

  lemma WindowUnfolds(bars: Series, from: int, to: int)
    requires bars != []
    ensures var last := bars[|bars| - 1];
            Window(bars, from, to) == Window(bars[..|bars| - 1], from, to) + if from <= last.time <= to then [last] else []
  {
  }

  /** On a chronological series the time window of a span is the slice of its bars. */
  lemma {:induction false} WindowIsSlice(bars: Series, e: nat, x: nat)
    requires Chronological(bars) && e <= x < |bars|
    ensures Window(bars, bars[e].time, bars[x].time) == bars[e..x + 1]
  {
    hide Window;
    var n := |bars| - 1;
    var rest := bars[..n];
    WindowUnfolds(bars, bars[e].time, bars[x].time);
    if x < n {
      WindowIsSlice(rest, e, x);
      assert rest[e..x + 1] == bars[e..x + 1];
    } else if e < n {
      WindowIsSlice(rest, e, n - 1);
      assert Window(rest, bars[e].time, bars[n].time) == Window(rest, bars[e].time, bars[n - 1].time) by {
        SameWindow(rest, bars[e].time, bars[n - 1].time, bars[n].time);
      }
      assert bars[e..n + 1] == rest[e..n] + [bars[n]];
    } else {
      NoWindow(rest, bars[n].time, bars[n].time);
      assert bars[n..n + 1] == [bars[n]];
    }
  }

  lemma {:induction false} SameWindow(bars: Series, from: int, to: int, later: int)
    requires to <= later && forall k :: 0 <= k < |bars| ==> bars[k].time <= to
    ensures Window(bars, from, to) == Window(bars, from, later)
  {
    if bars != [] {
      SameWindow(bars[..|bars| - 1], from, to, later);
    }
  }

  lemma {:induction false} NoWindow(bars: Series, from: int, to: int)
    requires forall k :: 0 <= k < |bars| ==> bars[k].time < from
    ensures Window(bars, from, to) == []
  {
    if bars != [] {
      NoWindow(bars[..|bars| - 1], from, to);
    }
  }

  lemma {:induction false} ExtremesOf(bars: Series)
    requires bars != []
    ensures forall k :: 0 <= k < |bars| ==> bars[k].high <= MaxHigh(bars) && MinLow(bars) <= bars[k].low
    ensures exists k :: 0 <= k < |bars| && bars[k].high == MaxHigh(bars)
    ensures exists k :: 0 <= k < |bars| && bars[k].low == MinLow(bars)
  {
    var n := |bars| - 1;
    if n == 0 {
      assert bars[0].high == MaxHigh(bars) && bars[0].low == MinLow(bars);
    } else {
      var rest := bars[..n];
      ExtremesOf(rest);
      var h :| 0 <= h < n && rest[h].high == MaxHigh(rest);
      var l :| 0 <= l < n && rest[l].low == MinLow(rest);
      assert bars[h].high == MaxHigh(rest) && bars[l].low == MinLow(rest);
      assert bars[n].high <= MaxHigh(bars) && MinLow(bars) <= bars[n].low;
    }
  }

  /** How a trade of the reference run ended, read off its bars. */
  ghost predicate EndedBy(setup: Setup, bars: Series, s: Span, t: Trade) {
    && 1 <= s.entry <= s.exit < |bars|
    && t.entryTime == bars[s.entry].time && t.exitTime == bars[s.exit].time
    && t.entryPrice == setup.costs.EntryFill(bars[s.entry].open)
    && (forall j :: s.entry <= j < s.exit ==> t.stop < bars[j].low && bars[j].high < t.target)
    && var last := bars[s.exit];
       match t.exitReason
       case Stop => t.exitPrice == t.stop && last.low <= t.stop
       case Target => t.exitPrice == t.target && t.stop < last.low && last.high >= t.target
       case EndOfData =>
         t.exitPrice == setup.costs.ExitFill(last.close) && t.stop < last.low && last.high < t.target && s.exit == |bars| - 1
       case _ => false
  }

  lemma EntryFacts(setup: Setup, bars: Series, e: nat, p: Position)
    requires 1 <= e < |bars| && EnteredAt(setup, Standard, bars, e, p)
    ensures p.tracker == Plain && p.entryTime == bars[e].time && p.entryPrice == setup.costs.EntryFill(bars[e].open)
    ensures p.remaining == p.quantity
  {
    hide AtDecision, CostModel.EntryFill, CostModel.CostForFill, Affordable;
  }

  lemma PlainExit(p: Position, bar: Bar)
    requires p.tracker == Plain
    ensures match OnBar(p, bar)
            case Hold(next) => next == p && p.stop < bar.low && bar.high < p.target
            case Exit(price, Stop) => price == p.stop && bar.low <= p.stop
            case Exit(price, Target) => price == p.target && p.stop < bar.low && bar.high >= p.target
            case _ => false
  {
  }

  lemma PlainCloseKeeps(costs: CostModel, p: Position, price: real, time: int, reason: ExitReason)
    requires p.tracker == Plain
    ensures var t := CloseAll(costs, p, price, time, reason);
            && t.entryTime == p.entryTime && t.exitTime == time && t.entryPrice == p.entryPrice
            && t.stop == p.stop && t.target == p.target && t.exitPrice == price && t.exitReason == reason
  {
  }

  lemma ExplainedEnds(setup: Setup, bars: Series, s: Span, t: Trade)
    requires Explains(setup, Standard, bars, s, t)
    ensures EndedBy(setup, bars, s, t)
  {
    var p, bar := s.origin, bars[s.exit];
    EntryFacts(setup, bars, s.entry, p);
    StandardRide(p, bars, s.entry, s.exit);
    PlainExit(p, bar);
    match OnBar(p, bar) {
      case Exit(price, reason) => PlainCloseKeeps(setup.costs, p, price, bar.time, reason);
      case Hold(_) => PlainCloseKeeps(setup.costs, p, setup.costs.ExitFill(bar.close), bar.time, EndOfData);
    }
    hide OnBar, CloseAll, EnteredAt, CostModel.EntryFill, CostModel.ExitFill;
  }

  lemma ComparedToEntry(a: real, b: real, entry: real)
    requires entry > 0.0
    ensures a / entry >= b / entry <==> a >= b
    ensures b > 0.0 ==> b / entry > 0.0
  {
  }

  /** The excursions found for a trade say why it ended. */
  ghost predicate ExcursionTells(bars: Series, s: Span, t: Trade)
    requires t.entryPrice > 0.0
  {
    var excursion := ComputeTradeExcursion(t, bars);
    && excursion.Some? && excursion.value.barsHeld == s.exit - s.entry + 1
    && (t.exitReason == Stop ==> excursion.value.mae >= (t.entryPrice - t.stop) / t.entryPrice)
    && (t.exitReason == Target ==> excursion.value.mfe >= (t.target - t.entryPrice) / t.entryPrice)
    && (t.entryPrice > t.stop ==>
          (t.exitReason == Stop <==> excursion.value.mae >= (t.entryPrice - t.stop) / t.entryPrice))
    && (t.target > t.entryPrice && t.exitReason != Stop ==>
          (t.exitReason == Target <==> excursion.value.mfe >= (t.target - t.entryPrice) / t.entryPrice))
  }

  /** Re-walking a reference trade finds exactly why it ended: the worst excursion reaches the stop
      distance if and only if the trade was stopped out, and among the others the best excursion
      reaches the target distance if and only if it hit its target. */
  lemma ExcursionsMatchExits(setup: Setup, bars: Series, s: Span, t: Trade)
    requires Chronological(bars) && Explains(setup, Standard, bars, s, t)
    requires t.entryPrice > 0.0
    ensures ExcursionTells(bars, s, t)
  {
    hide Explains, EndedBy, Window, MaxHigh, MinLow;
    ExplainedEnds(setup, bars, s, t);
    EndedWithin(setup, bars, s, t);
    var window := bars[s.entry..s.exit + 1];
    ExtremesDecide(setup, bars, s, t);
    ComparedToEntry(t.entryPrice - MinLow(window), t.entryPrice - t.stop, t.entryPrice);
    ComparedToEntry(MaxHigh(window) - t.entryPrice, t.target - t.entryPrice, t.entryPrice);
  }

  lemma EndedWithin(setup: Setup, bars: Series, s: Span, t: Trade)
    requires Chronological(bars) && EndedBy(setup, bars, s, t)
    ensures s.entry <= s.exit < |bars| && Window(bars, t.entryTime, t.exitTime) == bars[s.entry..s.exit + 1]
  {
    WindowIsSlice(bars, s.entry, s.exit);
  }

  /** The lowest low and highest high of the held bars tell the three ways to end apart. */
  lemma ExtremesDecide(setup: Setup, bars: Series, s: Span, t: Trade)
    requires EndedBy(setup, bars, s, t)
    ensures var window := bars[s.entry..s.exit + 1];
            && (t.exitReason == Stop <==> MinLow(window) <= t.stop)
            && (t.exitReason == Target ==> MaxHigh(window) >= t.target)
            && (t.exitReason != Stop ==> (t.exitReason == Target <==> MaxHigh(window) >= t.target))
  {
    hide MaxHigh, MinLow, CostModel.EntryFill, CostModel.ExitFill;
    var window := bars[s.entry..s.exit + 1];
    ExtremesOf(window);
    assert forall j :: s.entry <= j <= s.exit ==> bars[j] == window[j - s.entry];
    assert window[s.exit - s.entry] == bars[s.exit];
  }

  /** All trades of a reference run at once: each ended as its bars say, and its excursions tell. */
  lemma EveryExcursionMatches(setup: Setup, bars: Series)
    requires bars != [] && Chronological(bars)
    ensures exists spans :: EveryExcursionTells(setup, bars, spans)
  {
    EveryTradeIsExplained(setup, Standard, bars);
    hide Run, Explains, EndedBy, ExcursionTells;
    var trades := Run(setup, Standard, bars).trades;
    var spans :| WellFormed(setup, Standard, bars, trades, spans);
    forall k | 0 <= k < |spans|
      ensures EndedBy(setup, bars, spans[k], trades[k])
      ensures trades[k].entryPrice > 0.0 ==> ExcursionTells(bars, spans[k], trades[k])
    {
      ExplainedEnds(setup, bars, spans[k], trades[k]);
      if trades[k].entryPrice > 0.0 {
        ExcursionsMatchExits(setup, bars, spans[k], trades[k]);
      }
    }
    assert EveryExcursionTells(setup, bars, spans);
  }

  ghost predicate EveryExcursionTells(setup: Setup, bars: Series, spans: seq<Span>)
    requires bars != []
  {
    var trades := Run(setup, Standard, bars).trades;
    && WellFormed(setup, Standard, bars, trades, spans)
    && forall k :: 0 <= k < |spans| ==>
         EndedBy(setup, bars, spans[k], trades[k])
         && (trades[k].entryPrice > 0.0 ==> ExcursionTells(bars, spans[k], trades[k]))
  }
}
