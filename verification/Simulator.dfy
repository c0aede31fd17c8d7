/** The bar-by-bar replay as a state machine over values, one for all five exit rules.
    The loops in Engine and ExitExperiments are proved to compute `Run`. */
module Simulator {
  import opened Wrappers
  import opened Market
  import opened Costs
  import opened Accounts
  import opened Positions

  /** `risk` is the quantity the risk engine approves for a signal, None when it rejects it. */
  datatype Setup = Setup(strategy: Strategy, risk: (Signal, AccountState) -> Option<int>, costs: CostModel, capital: real)

  datatype SimState = SimState(account: AccountState, position: Option<Position>, trades: seq<Trade>,
                               equities: seq<(int, real)>)

  function Init(setup: Setup): SimState {
    SimState(NewAccount(setup.capital), None, [], [])
  }

  /** The approved quantity, cut to what the cash can pay at the actual fill price. */
  function Affordable(approved: int, price: real, cash: real): int {
    if Notional(price, approved) > cash then
      if price > 0.0 then (cash / price).Floor else 0
    else approved
  }

  /** A long signal the risk engine lets through, with the approved quantity. */
  function Approved(setup: Setup, bars: Series, i: nat, account: AccountState): Option<(Signal, int)>
    requires i < |bars|
  {
    match setup.strategy(bars, i)
    case None => None
    case Some(signal) =>
      if signal.side != Long then None
      else match setup.risk(signal, account)
        case None => None
        case Some(quantity) => Some((signal, quantity))
  }

  /** The position opened by filling an approved signal at a bar's open. */
  function FillAt(costs: CostModel, rule: Rule, signal: Signal, approved: int, bar: Bar, price: real, cash: real)
    : Option<Position>
  {
    var quantity := Affordable(approved, price, cash);
    if quantity >= 1 then
      Some(NewPosition(rule, signal, bar.time, price, quantity, costs.CostForFill(Notional(price, quantity))))
    else None
  }

  /** The entry decided at bar i, filled at the open of bar i + 1. */
  function Enter(setup: Setup, rule: Rule, bars: Series, i: nat, account: AccountState): Option<Position>
    requires i + 1 < |bars|
  {
    match Approved(setup, bars, i, account)
    case None => None
    case Some((signal, approved)) =>
      FillAt(setup.costs, rule, signal, approved, bars[i + 1], setup.costs.EntryFill(bars[i + 1].open), account.cash)
  }

  function OpenIn(costs: CostModel, account: AccountState, p: Position): AccountState {
    account.Open(p.quantity, p.entryPrice, costs.CostForFill(Notional(p.entryPrice, p.quantity)))
  }

  /** Books the trade that closes a position. */
  function CloseOut(costs: CostModel, st: SimState, p: Position, price: real, time: int, reason: ExitReason): SimState
  {
    var trade := CloseAll(costs, p, price, time, reason);
    var account := st.account.Close(price, costs.CostForFill(Notional(price, trade.quantity)), trade.net);
    SimState(account, None, st.trades + [trade], st.equities + [(time, account.Equity())])
  }

  function TakePartial(costs: CostModel, st: SimState, p: Position, quantity: int, price: real, next: Position, time: int)
    : SimState
    requires p.tracker.Scaling?
  {
    var trade := ClosePartialLeg(costs, p, quantity, price, time, PartialTarget);
    var account := st.account.PartialClose(quantity, price, costs.CostForFill(Notional(price, quantity)), trade.net);
    SimState(account, Some(next), st.trades + [trade], st.equities + [(time, account.Equity())])
  }

  /** Marks an open position to the close and checks its exit. */
  function ExitCheck(costs: CostModel, bar: Bar, st: SimState): SimState {
    match st.position
    case None => st
    case Some(p) =>
      var marked := st.(account := st.account.MarkToMarket(bar.close));
      match OnBar(p, bar)
      case Hold(next) => marked.(position := Some(next))
      case ScaleOut(price, quantity, next) =>
        TakePartial(costs, marked, p, quantity, price, next, bar.time)
      case Exit(price, reason) => CloseOut(costs, marked, p, price, bar.time, reason)
  }

  /** The first half of a bar: roll the day, mark to market, check the exit. */
  function ExitPhase(costs: CostModel, bar: Bar, st: SimState): SimState {
    ExitCheck(costs, bar, st.(account := st.account.RollToDay(bar.day)))
  }

  /** The second half: a flat account may take a signal, to be filled at the next open. */
  function EntryPhase(setup: Setup, rule: Rule, bars: Series, i: nat, st: SimState): SimState
    requires i < |bars|
  {
    if st.position.None? && i + 1 < |bars| then
      match Enter(setup, rule, bars, i, st.account)
      case None => st
      case Some(p) => st.(position := Some(p), account := OpenIn(setup.costs, st.account, p))
    else st
  }

  /** The state after the first k bars. */
  function Loop(setup: Setup, rule: Rule, bars: Series, k: nat): SimState
    requires k <= |bars|
  {
    if k == 0 then Init(setup)
    else EntryPhase(setup, rule, bars, k - 1, ExitPhase(setup.costs, bars[k - 1], Loop(setup, rule, bars, k - 1)))
  }

  /** The state after bar k's exit check, before its entry decision. */
  function AtDecision(setup: Setup, rule: Rule, bars: Series, k: nat): SimState
    requires k < |bars|
  {
    ExitPhase(setup.costs, bars[k], Loop(setup, rule, bars, k))
  }

  /** A position that outlives the data is closed at the last close. */
  function Finish(costs: CostModel, bars: Series, st: SimState): SimState
    requires bars != []
  {
    match st.position
    case None => st
    case Some(p) =>
      var last := bars[|bars| - 1];
      CloseOut(costs, st, p, costs.ExitFill(last.close), last.time, EndOfData)
  }

  function Run(setup: Setup, rule: Rule, bars: Series): SimState
    requires bars != []
  {
    Finish(setup.costs, bars, Loop(setup, rule, bars, |bars|))
  }

  /** What the exit half of a bar does to position and trade log, the account set aside. */
  lemma ExitPhaseShape(costs: CostModel, bar: Bar, st: SimState)
    ensures var st' := ExitPhase(costs, bar, st);
            match st.position
            case None => st'.position == None && st'.trades == st.trades
            case Some(p) =>
              match OnBar(p, bar)
              case Hold(next) => st'.position == Some(next) && st'.trades == st.trades
              case ScaleOut(price, quantity, next) =>
                && st'.position == Some(next)
                && st'.trades == st.trades + [ClosePartialLeg(costs, p, quantity, price, bar.time, PartialTarget)]
              case Exit(price, reason) =>
                && st'.position == None
                && st'.trades == st.trades + [CloseAll(costs, p, price, bar.time, reason)]
  {
  }

  /** The entry half never touches the log, and only opens a position when there is none. */
  lemma EntryPhaseShape(setup: Setup, rule: Rule, bars: Series, i: nat, st: SimState)
    requires i < |bars|
    ensures var st' := EntryPhase(setup, rule, bars, i, st);
            && st'.trades == st.trades
            && st'.position == if st.position.None? && i + 1 < |bars| then Enter(setup, rule, bars, i, st.account)
                               else st.position
  {
  }

  lemma FinishShape(costs: CostModel, bars: Series, st: SimState)
    requires bars != []
    ensures var last := bars[|bars| - 1];
            Finish(costs, bars, st).trades ==
            st.trades + if st.position.None? then []
                        else [CloseAll(costs, st.position.value, costs.ExitFill(last.close), last.time, EndOfData)]
  {
  }

  /** Every entry starts its exit rule afresh, on the long side. */
  lemma EnteredIsNew(setup: Setup, rule: Rule, bars: Series, i: nat, account: AccountState)
    requires i + 1 < |bars|
    ensures Enter(setup, rule, bars, i, account).Some? ==>
              var p := Enter(setup, rule, bars, i, account).value;
              && p == NewPosition(rule, p.signal, p.entryTime, p.entryPrice, p.quantity, EntryFee(setup.costs, p))
              && p.signal.side == Long
  {
  }
}
