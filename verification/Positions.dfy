/** Open positions, their exit checks and the trades they close into: backtesting/execution.py
    and the position types of backtesting/exit_experiments.py. */
module Positions {
  import opened Wrappers
  import opened Market
  import opened Costs

  /** STOP_ATR_MULTIPLIER of strategy/baseline.py. */
  const STOP_ATR_MULTIPLIER: real := 1.5

  /** Units held: a position is only opened when at least one can be bought. */
  type Units = n: int | n >= 1 witness 1

  datatype ExitReason = Stop | Target | EndOfData | Expired | PartialTarget | TrailingStop

  datatype Trade = Trade(
    side: Side, strategyName: string, signalGeneratedAt: int,
    entryTime: int, entryPrice: real, quantity: int, stop: real, target: real,
    exitTime: int, exitPrice: real, exitReason: ExitReason,
    gross: real, costs: real, net: real, rMultiple: real)

  /** The exit rule a simulator runs. */
  datatype Rule = Standard | BreakevenStop | PartialProfit | TrailingRule | TimeCap(maxBars: int)

  /** What an exit rule remembers about an open position besides the entry. */
  datatype Tracker =
    | Plain
    | Breakeven(currentStop: real, best: real, moved: bool)
    | Scaling(partialPrice: real, partialQuantity: int, taken: bool, entryFee: real)
    | Trailing(trail: real, highest: real)
    | Capped(maxBars: int, held: int)

  datatype Position = Position(
    signal: Signal, entryTime: int, entryPrice: real, quantity: Units, remaining: int,
    stop: real, target: real, tracker: Tracker)
  {
    function Risk(): real {
      entryPrice - stop
    }

    /** The quoted level at which the position is one initial risk in profit. */
    function OneR(): real {
      entryPrice + Risk()
    }
  }

  /** What one bar does to an open position. */
  datatype BarOutcome =
    | Hold(next: Position)
    | ScaleOut(price: real, quantity: int, next: Position)
    | Exit(price: real, reason: ExitReason)

  /** Same-bar ambiguity is resolved against the trader: the stop wins. */
  function CheckExit(stop: real, target: real, bar: Bar): Option<(real, ExitReason)> {
    if bar.low <= stop then Some((stop, Stop))
    else if bar.high >= target then Some((target, Target))
    else None
  }

  function ExitOr(exit: Option<(real, ExitReason)>, otherwise: BarOutcome): BarOutcome {
    if exit.Some? then Exit(exit.value.0, exit.value.1) else otherwise
  }

  /** The breakeven tracker after it has looked at the bar's high. */
  function Advance(p: Position, bar: Bar): Position
    requires p.tracker.Breakeven?
  {
    var best := Max(p.tracker.best, bar.high);
    if !p.tracker.moved && p.Risk() > 0.0 && (best - p.entryPrice) / p.Risk() >= 1.0 then
      p.(tracker := Breakeven(p.entryPrice, best, true))
    else
      p.(tracker := Breakeven(p.tracker.currentStop, best, p.tracker.moved))
  }

  /** The trailing tracker after a bar that did not touch the trail. */
  function Ratchet(p: Position, bar: Bar): Position
    requires p.tracker.Trailing?
  {
    var highest := Max(p.tracker.highest, bar.high);
    var trail :=
      if bar.Atr().Some? && bar.Atr().value > 0.0 && highest - STOP_ATR_MULTIPLIER * bar.Atr().value > p.tracker.trail
      then highest - STOP_ATR_MULTIPLIER * bar.Atr().value
      else p.tracker.trail;
    p.(tracker := Trailing(trail, highest))
  }

  function OnBar(p: Position, bar: Bar): (outcome: BarOutcome)
    ensures outcome.ScaleOut? ==> p.tracker.Scaling?
  {
    match p.tracker
    case Plain => ExitOr(CheckExit(p.stop, p.target, bar), Hold(p))
    case Breakeven(_, _, _) =>
      var q := Advance(p, bar);
      ExitOr(CheckExit(q.tracker.currentStop, p.target, bar), Hold(q))
    case Scaling(price, quantity, taken, fee) =>
      ExitOr(CheckExit(p.stop, p.target, bar),
             if !taken && quantity > 0 && bar.high >= price
             then ScaleOut(price, quantity, p.(remaining := p.remaining - quantity,
                                               tracker := Scaling(price, quantity, true, fee)))
             else Hold(p))
    case Trailing(trail, _) =>
      if bar.low <= trail then Exit(trail, TrailingStop) else Hold(Ratchet(p, bar))
    case Capped(maxBars, held) =>
      ExitOr(CheckExit(p.stop, p.target, bar),
             if held + 1 >= maxBars then Exit(bar.close, Expired)
             else Hold(p.(tracker := Capped(maxBars, held + 1))))
  }

  /** The position an exit rule starts from when an entry fills. */
  function NewPosition(rule: Rule, signal: Signal, time: int, price: real, quantity: Units, fee: real): Position {
    var tracker := match rule
      case Standard => Plain
      case BreakevenStop => Breakeven(signal.stop, price, false)
      case PartialProfit => Scaling(price + (price - signal.stop), if quantity >= 2 then quantity / 2 else 0, false, fee)
      case TrailingRule => Trailing(signal.stop, price)
      case TimeCap(maxBars) => Capped(maxBars, 0);
    Position(signal, time, price, quantity, quantity, signal.stop, signal.target, tracker)
  }

  function RMultiple(net: real, risk: real): real {
    if risk > 0.0 then net / risk else 0.0
  }

  /** Closes `quantity` units against a share of the entry fee. The trailing experiment has no
      target and records the entry price in its place; every rule records the original stop. */
  function Leg(p: Position, quantity: int, entryFee: real, exitFee: real,
               price: real, time: int, reason: ExitReason): Trade
  {
    var gross := Notional(price - p.entryPrice, quantity);
    var costs := entryFee + exitFee;
    Trade(p.signal.side, p.signal.strategyName, p.signal.generatedAt, p.entryTime, p.entryPrice, quantity, p.stop,
          if p.tracker.Trailing? then p.entryPrice else p.target,
          time, price, reason, gross, costs, gross - costs,
          RMultiple(gross - costs, Notional(p.entryPrice - p.stop, quantity)))
  }

  /** close_trade, _close_breakeven_trade and _close_trailing_trade: both fees in full. */
  function CloseTrade(costs: CostModel, p: Position, price: real, time: int, reason: ExitReason): Trade {
    Leg(p, p.quantity, costs.CostForFill(Notional(p.entryPrice, p.quantity)),
        costs.CostForFill(Notional(price, p.quantity)), price, time, reason)
  }

  /** The pro-rata share of a fee that belongs to `part` of `whole` units. */
  function Share(fee: real, part: int, whole: Units): real {
    fee * (part as real / whole as real)
  }

  /** _close_partial_leg: the one entry fee is shared pro rata between the legs. */
  function ClosePartialLeg(costs: CostModel, p: Position, quantity: int, price: real, time: int, reason: ExitReason): Trade
    requires p.tracker.Scaling?
  {
    Leg(p, quantity, Share(p.tracker.entryFee, quantity, p.quantity),
        costs.CostForFill(Notional(price, quantity)), price, time, reason)
  }

  /** The trade that closes all that is left of a position. */
  function CloseAll(costs: CostModel, p: Position, price: real, time: int, reason: ExitReason): Trade
  {
    if p.tracker.Scaling? then ClosePartialLeg(costs, p, p.remaining, price, time, reason)
    else CloseTrade(costs, p, price, time, reason)
  }

  /** What every reachable position satisfies; `costs` priced its entry. */
  ghost predicate Sound(costs: CostModel, p: Position) {
    && 1 <= p.remaining <= p.quantity
    && p.signal.side == Long && p.stop == p.signal.stop && p.target == p.signal.target
    && match p.tracker
       case Scaling(price, part, taken, fee) =>
         && fee == EntryFee(costs, p)
         && price == p.OneR()
         && part == (if p.quantity >= 2 then p.quantity / 2 else 0)
         && (taken ==> part > 0)
         && p.remaining == (if taken then p.quantity - part else p.quantity)
       case Breakeven(stop, best, moved) =>
         && p.remaining == p.quantity
         && best >= p.entryPrice
         && stop == (if moved then p.entryPrice else p.stop)
         && (moved ==> p.Risk() > 0.0)
       case _ => p.remaining == p.quantity
  }

  function EntryFee(costs: CostModel, p: Position): real {
    costs.CostForFill(Notional(p.entryPrice, p.quantity))
  }

  lemma SoundOnBar(costs: CostModel, p: Position, bar: Bar)
    requires Sound(costs, p)
    ensures OnBar(p, bar).Hold? ==> Sound(costs, OnBar(p, bar).next)
    ensures OnBar(p, bar).ScaleOut? ==> Sound(costs, OnBar(p, bar).next)
  {
  }
}
