/** The single-position cash account (risk/account.py) and the bespoke partial close of
    backtesting/exit_experiments.py. `AccountState` says what each operation does to the
    account's value; the class updates its fields in place and is proved to do just that. */
module Accounts {
  import opened Wrappers
  import opened Market

  datatype AccountState = AccountState(
    initialCapital: real, cash: real, realizedPnl: real,
    openQuantity: int, openEntryPrice: real, costBasis: real, unrealizedPnl: real,
    peakEquity: real, dailyStartEquity: real, currentDay: Option<int>,
    consecutiveLosses: int, totalTrades: int)
  {
    function Equity(): real {
      cash + (costBasis + unrealizedPnl)
    }

    function DrawdownPct(): real {
      if peakEquity <= 0.0 then 0.0 else Max(0.0, (peakEquity - Equity()) / peakEquity * 100.0)
    }

    function DailyPnl(): real {
      Equity() - dailyStartEquity
    }

    function RollToDay(day: int): AccountState {
      if currentDay == Some(day) then this else this.(currentDay := Some(day), dailyStartEquity := Equity())
    }

    function UpdatePeak(): AccountState {
      this.(peakEquity := Max(peakEquity, Equity()))
    }

    function MarkToMarket(price: real): AccountState {
      (if openQuantity > 0 then this.(unrealizedPnl := Notional(price - openEntryPrice, openQuantity)) else this)
      .UpdatePeak()
    }

    function Open(quantity: int, price: real, fee: real): AccountState {
      var notional := Notional(price, quantity);
      this.(cash := cash - (notional + fee), openQuantity := quantity, openEntryPrice := price,
      costBasis := notional, unrealizedPnl := 0.0).UpdatePeak()
    }

    function Book(proceeds: real, fee: real, netPnl: real): AccountState {
      this.(cash := cash + (proceeds - fee), realizedPnl := realizedPnl + netPnl, totalTrades := totalTrades + 1,
      consecutiveLosses := if netPnl < 0.0 then consecutiveLosses + 1 else 0)
    }

    function Close(price: real, fee: real, netPnl: real): AccountState {
      Book(Notional(price, openQuantity), fee, netPnl)
      .(openQuantity := 0, openEntryPrice := 0.0, costBasis := 0.0, unrealizedPnl := 0.0).UpdatePeak()
    }

    function PartialClose(quantity: int, price: real, fee: real, netPnl: real): AccountState {
      Book(Notional(price, quantity), fee, netPnl)
      .(openQuantity := openQuantity - quantity, costBasis := costBasis - Notional(openEntryPrice, quantity))
      .MarkToMarket(price)
    }
  }

  function NewAccount(capital: real): AccountState {
    AccountState(capital, capital, 0.0, 0, 0.0, 0.0, 0.0, capital, capital, None, 0, 0)
  }

  class Account {
    var initialCapital: real
    var cash: real
    var realizedPnl: real
    var openQuantity: int
    var openEntryPrice: real
    var costBasis: real
    var unrealizedPnl: real
    var peakEquity: real
    var dailyStartEquity: real
    var currentDay: Option<int>
    var consecutiveLosses: int
    var totalTrades: int

    function View(): AccountState
      reads this
    {
      AccountState(initialCapital, cash, realizedPnl, openQuantity, openEntryPrice, costBasis, unrealizedPnl,
                   peakEquity, dailyStartEquity, currentDay, consecutiveLosses, totalTrades)
    }

    constructor (capital: real)
      ensures View() == NewAccount(capital)
    {
      initialCapital, cash, realizedPnl := capital, capital, 0.0;
      openQuantity, openEntryPrice, costBasis, unrealizedPnl := 0, 0.0, 0.0, 0.0;
      peakEquity, dailyStartEquity, currentDay := capital, capital, None;
      consecutiveLosses, totalTrades := 0, 0;
    }

    function Equity(): real
      reads this
    {
      cash + (costBasis + unrealizedPnl)
    }

    method RollToDay(day: int)
      modifies this
      ensures View() == old(View()).RollToDay(day)
    {
      if currentDay != Some(day) {
        currentDay := Some(day);
        dailyStartEquity := Equity();
      }
    }

    method UpdatePeak()
      modifies this
      ensures View() == old(View()).UpdatePeak()
    {
      peakEquity := Max(peakEquity, Equity());
    }

    method MarkToMarket(price: real)
      modifies this
      ensures View() == old(View()).MarkToMarket(price)
    {
      if openQuantity > 0 {
        unrealizedPnl := Notional(price - openEntryPrice, openQuantity);
      }
      UpdatePeak();
    }

    method OpenPosition(quantity: int, entryPrice: real, entryCost: real) returns (r: Outcome<string>)
      modifies this
      ensures r.Pass? <==> quantity > 0 && old(openQuantity) <= 0
      ensures View() == if r.Pass? then old(View()).Open(quantity, entryPrice, entryCost) else old(View())
    {
      if quantity <= 0 {
        return Fail("quantity must be positive to open a position.");
      }
      if openQuantity > 0 {
        return Fail("a position is already open (single-position engine).");
      }
      var notional := Notional(entryPrice, quantity);
      cash := cash - (notional + entryCost);
      openQuantity, openEntryPrice, costBasis, unrealizedPnl := quantity, entryPrice, notional, 0.0;
      UpdatePeak();
      return Pass;
    }

    method ClosePosition(exitPrice: real, exitCost: real, netPnl: real) returns (r: Outcome<string>)
      modifies this
      ensures r.Pass? <==> old(openQuantity) != 0
      ensures View() == if r.Pass? then old(View()).Close(exitPrice, exitCost, netPnl) else old(View())
    {
      if openQuantity == 0 {
        return Fail("no open position to close.");
      }
      var proceeds := Notional(exitPrice, openQuantity);
      cash := cash + (proceeds - exitCost);
      realizedPnl := realizedPnl + netPnl;
      totalTrades := totalTrades + 1;
      consecutiveLosses := if netPnl < 0.0 then consecutiveLosses + 1 else 0;
      openQuantity, openEntryPrice, costBasis, unrealizedPnl := 0, 0.0, 0.0, 0.0;
      UpdatePeak();
      return Pass;
    }

    method PartialClose(quantity: int, exitPrice: real, exitCost: real, netPnl: real)
      modifies this
      ensures View() == old(View()).PartialClose(quantity, exitPrice, exitCost, netPnl)
    {
      var proceeds := Notional(exitPrice, quantity);
      cash := cash + (proceeds - exitCost);
      realizedPnl := realizedPnl + netPnl;
      totalTrades := totalTrades + 1;
      consecutiveLosses := if netPnl < 0.0 then consecutiveLosses + 1 else 0;
      openQuantity := openQuantity - quantity;
      costBasis := costBasis - Notional(openEntryPrice, quantity);
      MarkToMarket(exitPrice);
    }
  }
}
