/** The four exit experiments (backtesting/exit_experiments.py). Each is a loop of its own over
    a mutable position, and each is proved to compute `Run` under its exit rule. */
module ExitExperiments {
  import opened Wrappers
  import opened Market
  import opened Costs
  import opened Accounts
  import opened Positions
  import opened Simulator
  import opened Ledger
  import opened Engine

  class BreakevenPosition {
    const signal: Signal
    const entryTime: int
    const entryPrice: real
    const quantity: Units
    const originalStop: real
    const target: real
    var currentStop: real
    var best: real
    var moved: bool

    function View(): Position
      reads this
    {
      Position(signal, entryTime, entryPrice, quantity, quantity, originalStop, target,
               Breakeven(currentStop, best, moved))
    }

    constructor (signal: Signal, entryTime: int, entryPrice: real, quantity: Units)
      ensures forall fee :: View() == NewPosition(BreakevenStop, signal, entryTime, entryPrice, quantity, fee)
    {
      this.signal, this.entryTime, this.entryPrice, this.quantity := signal, entryTime, entryPrice, quantity;
      originalStop, currentStop, target := signal.stop, signal.stop, signal.target;
      best, moved := entryPrice, false;
    }

    /** The move to breakeven comes first, from this bar's own high; only then is the exit checked. */
    method CheckExitWithBreakeven(bar: Bar) returns (exit: Option<(real, ExitReason)>)
      modifies this
      ensures OnBar(old(View()), bar) == ExitOr(exit, Hold(View()))
      ensures View() == old(View()).(tracker := View().tracker)
    {
      best := Max(best, bar.high);
      if !moved {
        var initialRisk := entryPrice - originalStop;
        if initialRisk > 0.0 {
          var unrealizedR := (best - entryPrice) / initialRisk;
          if unrealizedR >= 1.0 {
            currentStop, moved := entryPrice, true;
          }
        }
      }
      exit := if bar.low <= currentStop then Some((currentStop, Stop))
              else if bar.high >= target then Some((target, Target))
              else None;
    }
  }

  class PartialPosition {
    const signal: Signal
    const entryTime: int
    const entryPrice: real
    const originalQuantity: Units
    const stop: real
    const target: real
    const partialPrice: real
    const partialQuantity: int
    const entryFee: real
    var remaining: int
    var taken: bool

    function View(): Position
      reads this
    {
      Position(signal, entryTime, entryPrice, originalQuantity, remaining, stop, target,
               Scaling(partialPrice, partialQuantity, taken, entryFee))
    }

    constructor (signal: Signal, entryTime: int, entryPrice: real, quantity: Units, entryFee: real)
      ensures View() == NewPosition(PartialProfit, signal, entryTime, entryPrice, quantity, entryFee)
    {
      this.signal, this.entryTime, this.entryPrice, this.entryFee := signal, entryTime, entryPrice, entryFee;
      originalQuantity, remaining, taken := quantity, quantity, false;
      stop, target := signal.stop, signal.target;
      var riskPerShare := entryPrice - signal.stop;
      partialPrice, partialQuantity := entryPrice + riskPerShare, if quantity >= 2 then quantity / 2 else 0;
    }

    function AfterPartial(quantity: int): Position
      reads this
    {
      View().(remaining := remaining - quantity, tracker := Scaling(partialPrice, partialQuantity, true, entryFee))
    }

    /** Stop before target before partial take, with the quantity each would close. */
    function CheckExitWithPartial(bar: Bar): (exit: Option<(real, ExitReason, int)>)
      reads this
      ensures OnBar(View(), bar) ==
              match exit
              case None => Hold(View())
              case Some((price, reason, quantity)) =>
                if reason == PartialTarget then ScaleOut(price, quantity, AfterPartial(quantity)) else Exit(price, reason)
    {
      if bar.low <= stop then Some((stop, Stop, remaining))
      else if bar.high >= target then Some((target, Target, remaining))
      else if !taken && partialQuantity > 0 && bar.high >= partialPrice then
        Some((partialPrice, PartialTarget, partialQuantity))
      else None
    }
  }

  class TrailingPosition {
    const signal: Signal
    const entryTime: int
    const entryPrice: real
    const quantity: Units
    const originalStop: real
    var currentStop: real
    var highest: real

    function View(): Position
      reads this
    {
      Position(signal, entryTime, entryPrice, quantity, quantity, originalStop, signal.target,
               Trailing(currentStop, highest))
    }

    constructor (signal: Signal, entryTime: int, entryPrice: real, quantity: Units)
      ensures forall fee :: View() == NewPosition(TrailingRule, signal, entryTime, entryPrice, quantity, fee)
    {
      this.signal, this.entryTime, this.entryPrice, this.quantity := signal, entryTime, entryPrice, quantity;
      originalStop, currentStop, highest := signal.stop, signal.stop, entryPrice;
    }

    /** This bar's low meets the level set by earlier bars; its high only raises the next one. */
    method CheckExitWithTrailingStop(bar: Bar) returns (exit: Option<(real, ExitReason)>)
      modifies this
      ensures OnBar(old(View()), bar) == ExitOr(exit, Hold(View()))
      ensures exit.Some? ==> View() == old(View())
    {
      if bar.low <= currentStop {
        return Some((currentStop, TrailingStop));
      }
      highest := Max(highest, bar.high);
      if bar.Atr().Some? && bar.Atr().value > 0.0 {
        var candidate := highest - STOP_ATR_MULTIPLIER * bar.Atr().value;
        if candidate > currentStop {
          currentStop := candidate;
        }
      }
      return None;
    }
  }

  /** Only the tracker of a position may change before it is closed. */
  lemma CloseIgnoresTracker(costs: CostModel, st: SimState, p: Position, tracker: Tracker, price: real, time: int,
                            reason: ExitReason)
    requires !p.tracker.Scaling? && !tracker.Scaling?
    requires p.tracker.Trailing? == tracker.Trailing?
    ensures CloseOut(costs, st, p, price, time, reason) == CloseOut(costs, st, p.(tracker := tracker), price, time, reason)
  {
  }

  /** The exit half of a bar of the breakeven experiment. */
  method BreakevenExitHalf(costs: CostModel, bar: Bar, account: Account, position: BreakevenPosition,
                           trades: seq<Trade>, equities: seq<(int, real)>)
    returns (left: BreakevenPosition?, trades': seq<Trade>, equities': seq<(int, real)>)
    requires account.openQuantity == position.quantity
    modifies account, position
    ensures left == null || left == position
    ensures SimState(account.View(), if left == null then None else Some(left.View()), trades', equities')
         == ExitPhase(costs, bar, SimState(old(account.View()), Some(old(position.View())), trades, equities))
  {
    hide OnBar, CloseAll;
    left, trades', equities' := position, trades, equities;
    account.RollToDay(bar.day);
    account.MarkToMarket(bar.close);
    ghost var marked := SimState(account.View(), None, trades, equities);
    var exit := position.CheckExitWithBreakeven(bar);
    if exit.Some? {
      CloseIgnoresTracker(costs, marked, old(position.View()), position.View().tracker, exit.value.0, bar.time, exit.value.1);
      trades', equities' := CloseTo(costs, account, position.View(), exit.value.0, bar.time, exit.value.1, trades, equities);
      left := null;
    }
  }

  method RunBreakevenStopBacktest(setup: Setup, bars: Series) returns (r: Result<Report, string>)
    ensures r.Success? <==> Accepts(setup, bars)
    ensures r.Success? ==> r.value == ReportOf(Run(setup, BreakevenStop, bars))
  {
    if bars == [] {
      return Failure("No indicator data; cannot backtest an empty series.");
    }
    var account :- OpenAccount(setup.capital);
    var trades: seq<Trade>, equities: seq<(int, real)>, position: BreakevenPosition? := [], [], null;
    hide ExitPhase, Enter, OpenIn, CloseOut;
    for i := 0 to |bars|
      invariant fresh(account)
      invariant position != null ==> fresh(position)
      invariant SimState(account.View(), if position == null then None else Some(position.View()), trades, equities)
             == Loop(setup, BreakevenStop, bars, i)
    {
      HoldingsMatch(setup, BreakevenStop, bars, i);
      if position == null {
        FlatExitPhase(setup.costs, bars[i], Loop(setup, BreakevenStop, bars, i));
        account.RollToDay(bars[i].day);
      } else {
        position, trades, equities := BreakevenExitHalf(setup.costs, bars[i], account, position, trades, equities);
      }
      if position == null && i + 1 < |bars| {
        FlatAtDecision(setup, BreakevenStop, bars, i);
        var entered := TryEnter(setup, BreakevenStop, bars, i, account);
        if entered.Some? {
          var p := entered.value;
          EnteredIsNew(setup, BreakevenStop, bars, i, AtDecision(setup, BreakevenStop, bars, i).account);
          position := new BreakevenPosition(p.signal, p.entryTime, p.entryPrice, p.quantity);
        }
      }
    }
    if position != null {
      HoldingsMatch(setup, BreakevenStop, bars, |bars|);
      trades, equities := ForceClose(setup.costs, bars, account, position.View(), trades, equities);
    }
    return Success(Report(trades, equities, account.Equity()));
  }

  /** The exit half of a bar: a partial take keeps the position, any other exit ends it. */
  method PartialExitHalf(costs: CostModel, bar: Bar, account: Account, position: PartialPosition,
                         trades: seq<Trade>, equities: seq<(int, real)>)
    returns (left: PartialPosition?, trades': seq<Trade>, equities': seq<(int, real)>)
    requires account.openQuantity == position.remaining >= 1
    modifies account, position
    ensures left == null || left == position
    ensures SimState(account.View(), if left == null then None else Some(left.View()), trades', equities')
         == ExitPhase(costs, bar, SimState(old(account.View()), Some(old(position.View())), trades, equities))
  {
    hide OnBar, ClosePartialLeg, CloseAll;
    left, trades', equities' := position, trades, equities;
    account.RollToDay(bar.day);
    account.MarkToMarket(bar.close);
    var exit := position.CheckExitWithPartial(bar);
    if exit.Some? {
      var (price, reason, quantity) := exit.value;
      if reason == PartialTarget {
        var trade := ClosePartialLeg(costs, position.View(), quantity, price, bar.time, reason);
        account.PartialClose(quantity, price, costs.CostForFill(Notional(price, quantity)), trade.net);
        trades', equities' := trades + [trade], equities + [(bar.time, account.Equity())];
        position.remaining, position.taken := position.remaining - quantity, true;
      } else {
        trades', equities' := CloseTo(costs, account, position.View(), price, bar.time, reason, trades, equities);
        left := null;
      }
    }
  }

  method RunPartialProfitBacktest(setup: Setup, bars: Series) returns (r: Result<Report, string>)
    ensures r.Success? <==> Accepts(setup, bars)
    ensures r.Success? ==> r.value == ReportOf(Run(setup, PartialProfit, bars))
  {
    if bars == [] {
      return Failure("No indicator data; cannot backtest an empty series.");
    }
    var account :- OpenAccount(setup.capital);
    var trades: seq<Trade>, equities: seq<(int, real)>, position: PartialPosition? := [], [], null;
    hide ExitPhase, Enter, OpenIn, CloseOut;
    for i := 0 to |bars|
      invariant fresh(account)
      invariant position != null ==> fresh(position)
      invariant SimState(account.View(), if position == null then None else Some(position.View()), trades, equities)
             == Loop(setup, PartialProfit, bars, i)
    {
      HoldingsMatch(setup, PartialProfit, bars, i);
      if position == null {
        FlatExitPhase(setup.costs, bars[i], Loop(setup, PartialProfit, bars, i));
        account.RollToDay(bars[i].day);
      } else {
        position, trades, equities := PartialExitHalf(setup.costs, bars[i], account, position, trades, equities);
      }
      if position == null && i + 1 < |bars| {
        FlatAtDecision(setup, PartialProfit, bars, i);
        var entered := TryEnter(setup, PartialProfit, bars, i, account);
        if entered.Some? {
          var p := entered.value;
          EnteredIsNew(setup, PartialProfit, bars, i, AtDecision(setup, PartialProfit, bars, i).account);
          position := new PartialPosition(p.signal, p.entryTime, p.entryPrice, p.quantity, p.tracker.entryFee);
        }
      }
    }
    if position != null {
      HoldingsMatch(setup, PartialProfit, bars, |bars|);
      trades, equities := ForceClose(setup.costs, bars, account, position.View(), trades, equities);
    }
    return Success(Report(trades, equities, account.Equity()));
  }

  /** The exit half of a bar of the trailing-stop experiment. */
  method TrailingExitHalf(costs: CostModel, bar: Bar, account: Account, position: TrailingPosition,
                          trades: seq<Trade>, equities: seq<(int, real)>)
    returns (left: TrailingPosition?, trades': seq<Trade>, equities': seq<(int, real)>)
    requires account.openQuantity == position.quantity
    modifies account, position
    ensures left == null || left == position
    ensures SimState(account.View(), if left == null then None else Some(left.View()), trades', equities')
         == ExitPhase(costs, bar, SimState(old(account.View()), Some(old(position.View())), trades, equities))
  {
    hide OnBar, CloseAll;
    left, trades', equities' := position, trades, equities;
    account.RollToDay(bar.day);
    account.MarkToMarket(bar.close);
    var exit := position.CheckExitWithTrailingStop(bar);
    if exit.Some? {
      trades', equities' := CloseTo(costs, account, position.View(), exit.value.0, bar.time, exit.value.1, trades, equities);
      left := null;
    }
  }

  method RunTrailingStopBacktest(setup: Setup, bars: Series) returns (r: Result<Report, string>)
    ensures r.Success? <==> Accepts(setup, bars)
    ensures r.Success? ==> r.value == ReportOf(Run(setup, TrailingRule, bars))
  {
    if bars == [] {
      return Failure("No indicator data; cannot backtest an empty series.");
    }
    var account :- OpenAccount(setup.capital);
    var trades: seq<Trade>, equities: seq<(int, real)>, position: TrailingPosition? := [], [], null;
    hide ExitPhase, Enter, OpenIn, CloseOut;
    for i := 0 to |bars|
      invariant fresh(account)
      invariant position != null ==> fresh(position)
      invariant SimState(account.View(), if position == null then None else Some(position.View()), trades, equities)
             == Loop(setup, TrailingRule, bars, i)
    {
      HoldingsMatch(setup, TrailingRule, bars, i);
      if position == null {
        FlatExitPhase(setup.costs, bars[i], Loop(setup, TrailingRule, bars, i));
        account.RollToDay(bars[i].day);
      } else {
        position, trades, equities := TrailingExitHalf(setup.costs, bars[i], account, position, trades, equities);
      }
      if position == null && i + 1 < |bars| {
        FlatAtDecision(setup, TrailingRule, bars, i);
        var entered := TryEnter(setup, TrailingRule, bars, i, account);
        if entered.Some? {
          var p := entered.value;
          EnteredIsNew(setup, TrailingRule, bars, i, AtDecision(setup, TrailingRule, bars, i).account);
          position := new TrailingPosition(p.signal, p.entryTime, p.entryPrice, p.quantity);
        }
      }
    }
    if position != null {
      HoldingsMatch(setup, TrailingRule, bars, |bars|);
      trades, equities := ForceClose(setup.costs, bars, account, position.View(), trades, equities);
    }
    return Success(Report(trades, equities, account.Equity()));
  }

  /** The loop keeps the bars-held counter beside the position, not inside it. */
  ghost function Counted(position: Option<Position>, maxBars: int, held: int): Option<Position> {
    if position.None? then None else Some(position.value.(tracker := Capped(maxBars, held)))
  }

  /** The exit half of a bar: the stop and the target are looked at before the time cap. */
  method TimeCapExitHalf(costs: CostModel, bar: Bar, account: Account, p: Position, maxHoldingBars: int, held: int,
                         trades: seq<Trade>, equities: seq<(int, real)>)
    returns (left: Option<Position>, held': int, trades': seq<Trade>, equities': seq<(int, real)>)
    requires account.openQuantity == p.remaining == p.quantity && p.tracker.Capped?
    modifies account
    ensures left == None || left == Some(p)
    ensures SimState(account.View(), Counted(left, maxHoldingBars, held'), trades', equities')
         == ExitPhase(costs, bar, SimState(old(account.View()), Counted(Some(p), maxHoldingBars, held), trades, equities))
  {
    hide CloseAll;
    left, held', trades', equities' := Some(p), held, trades, equities;
    account.RollToDay(bar.day);
    account.MarkToMarket(bar.close);
    var exit := CheckExit(p.stop, p.target, bar);
    if exit.None? {
      held' := held' + 1;
      if held' >= maxHoldingBars {
        exit := Some((bar.close, Expired));
      }
    }
    if exit.Some? {
      CloseIgnoresTracker(costs, SimState(account.View(), None, trades, equities), p, Capped(maxHoldingBars, held),
                          exit.value.0, bar.time, exit.value.1);
      trades', equities' := CloseTo(costs, account, p, exit.value.0, bar.time, exit.value.1, trades, equities);
      left, held' := None, 0;
    }
  }

  method RunTimeBasedExitBacktest(setup: Setup, bars: Series, maxHoldingBars: int) returns (r: Result<Report, string>)
    ensures r.Success? <==> Accepts(setup, bars)
    ensures r.Success? ==> r.value == ReportOf(Run(setup, TimeCap(maxHoldingBars), bars))
  {
    if bars == [] {
      return Failure("No indicator data; cannot backtest an empty series.");
    }
    var account :- OpenAccount(setup.capital);
    var trades: seq<Trade>, equities: seq<(int, real)>, position: Option<Position> := [], [], None;
    var barsHeld := 0;
    hide ExitPhase, Enter, OpenIn, CloseOut, NewPosition, CostModel.ExitFill, AccountState.Equity;
    for i := 0 to |bars|
      invariant fresh(account)
      invariant position.Some? ==> position.value.tracker.Capped?
      invariant SimState(account.View(), Counted(position, maxHoldingBars, barsHeld), trades, equities)
             == Loop(setup, TimeCap(maxHoldingBars), bars, i)
    {
      HoldingsMatch(setup, TimeCap(maxHoldingBars), bars, i);
      if position.None? {
        FlatExitPhase(setup.costs, bars[i], Loop(setup, TimeCap(maxHoldingBars), bars, i));
        account.RollToDay(bars[i].day);
      } else {
        position, barsHeld, trades, equities :=
          TimeCapExitHalf(setup.costs, bars[i], account, position.value, maxHoldingBars, barsHeld, trades, equities);
      }
      if position.None? && i + 1 < |bars| {
        FlatAtDecision(setup, TimeCap(maxHoldingBars), bars, i);
        position := TryEnter(setup, TimeCap(maxHoldingBars), bars, i, account);
        EnteredIsNew(setup, TimeCap(maxHoldingBars), bars, i, AtDecision(setup, TimeCap(maxHoldingBars), bars, i).account);
        if position.Some? {
          barsHeld := 0;
        }
      }
    }
    if position.Some? {
      HoldingsMatch(setup, TimeCap(maxHoldingBars), bars, |bars|);
      ghost var counted := Capped(maxHoldingBars, barsHeld);
      var last := bars[|bars| - 1];
      CloseIgnoresTracker(setup.costs, SimState(account.View(), None, trades, equities), position.value, counted,
                          setup.costs.ExitFill(last.close), last.time, EndOfData);
      trades, equities := ForceClose(setup.costs, bars, account, position.value, trades, equities);
    }
    return Success(Report(trades, equities, account.Equity()));
  }
}
