/** Money conservation: what every bar of every exit rule keeps true of account and trade log. */
module Ledger {
  import opened Wrappers
  import opened Reals
  import opened Market
  import opened Costs
  import opened Accounts
  import opened Positions
  import opened Simulator

  function SumNet(trades: seq<Trade>): real {
    if trades == [] then 0.0 else SumNet(trades[..|trades| - 1]) + trades[|trades| - 1].net
  }

  function SumGross(trades: seq<Trade>): real {
    if trades == [] then 0.0 else SumGross(trades[..|trades| - 1]) + trades[|trades| - 1].gross
  }

  function SumCosts(trades: seq<Trade>): real {
    if trades == [] then 0.0 else SumCosts(trades[..|trades| - 1]) + trades[|trades| - 1].costs
  }

  /** The length of the losing streak that ends the log. */
  function LosingStreak(trades: seq<Trade>): nat {
    if trades == [] || trades[|trades| - 1].net >= 0.0 then 0 else LosingStreak(trades[..|trades| - 1]) + 1
  }

  lemma SumsAppend(trades: seq<Trade>, t: Trade)
    ensures SumNet(trades + [t]) == SumNet(trades) + t.net
    ensures LosingStreak(trades + [t]) == if t.net < 0.0 then LosingStreak(trades) + 1 else 0
  {
  }

  lemma {:induction false} NetIsGrossLessCosts(trades: seq<Trade>)
    requires forall t <- trades :: t.net == t.gross - t.costs
    ensures SumNet(trades) == SumGross(trades) - SumCosts(trades)
  {
    if trades != [] {
      NetIsGrossLessCosts(trades[..|trades| - 1]);
    }
  }

  /** The part of the entry fee that is paid but not yet charged to a trade. */
  function UnchargedFee(costs: CostModel, p: Position): real {
    Share(EntryFee(costs, p), p.remaining, p.quantity)
  }

  ghost predicate EquityAgrees(capital: real, trades: seq<Trade>, equities: seq<(int, real)>, k: nat)
    requires k < |trades| == |equities|
  {
    && equities[k].0 == trades[k].exitTime
    && trades[k].net == trades[k].gross - trades[k].costs
    && (trades[k].exitReason != PartialTarget ==> equities[k].1 == capital + SumNet(trades[..k + 1]))
  }

  /** One equity is recorded per trade, and it is the capital plus the results booked so far. */
  ghost predicate EquitiesAgree(capital: real, trades: seq<Trade>, equities: seq<(int, real)>) {
    && |equities| == |trades|
    && forall k :: 0 <= k < |trades| ==> EquityAgrees(capital, trades, equities, k)
  }

  /** The least cash an open position can leave: the entry took all of it and then the fee, and a
      partial take has brought in what its leg sold for, less the leg's own fee. */
  function CashFloor(costs: CostModel, p: Position): real {
    var sold := Notional(p.OneR(), p.quantity - p.remaining);
    -EntryFee(costs, p) + if p.remaining == p.quantity then 0.0 else sold - costs.CostForFill(sold)
  }

  /** The account's books agree with the open position and with `net`, the profit booked so far. */
  ghost predicate Books(setup: Setup, a: AccountState, position: Option<Position>, net: real) {
    && a.initialCapital == setup.capital
    && a.realizedPnl == net
    && a.peakEquity >= a.Equity()
    && a.peakEquity >= setup.capital
    && match position
       case None =>
         && a.openQuantity == 0 && a.costBasis == 0.0 && a.unrealizedPnl == 0.0
         && a.cash == setup.capital + net
       case Some(p) =>
         && Sound(setup.costs, p)
         && a.openQuantity == p.remaining && a.openEntryPrice == p.entryPrice
         && a.costBasis == Notional(p.entryPrice, p.remaining)
         && a.cash + a.costBasis + UnchargedFee(setup.costs, p) == setup.capital + net
         && a.cash >= CashFloor(setup.costs, p)
  }

  /** The whole simulation state is in order: books, counters and recorded equities. */
  ghost predicate Balanced(setup: Setup, st: SimState) {
    && Books(setup, st.account, st.position, SumNet(st.trades))
    && st.account.totalTrades == |st.trades|
    && st.account.consecutiveLosses == LosingStreak(st.trades)
    && EquitiesAgree(setup.capital, st.trades, st.equities)
  }

  lemma WholeFee(costs: CostModel, p: Position)
    requires p.remaining == p.quantity
    ensures UnchargedFee(costs, p) == EntryFee(costs, p)
  {
  }

  /** Two pro-rata shares of one fee add up to the share of the sum. */
  lemma SharesAdd(fee: real, a: int, b: int, whole: Units)
    ensures Share(fee, a, whole) + Share(fee, b, whole) == Share(fee, a + b, whole)
  {
  }

  lemma AppendEquity(capital: real, st: SimState, t: Trade, equity: real)
    requires EquitiesAgree(capital, st.trades, st.equities)
    requires t.net == t.gross - t.costs
    requires t.exitReason != PartialTarget ==> equity == capital + SumNet(st.trades) + t.net
    ensures EquitiesAgree(capital, st.trades + [t], st.equities + [(t.exitTime, equity)])
  {
    var trades := st.trades + [t];
    SumsAppend(st.trades, t);
    forall k | 0 <= k < |trades|
      ensures EquityAgrees(capital, trades, st.equities + [(t.exitTime, equity)], k)
    {
      if k < |st.trades| {
        assert EquityAgrees(capital, st.trades, st.equities, k);
        assert trades[..k + 1] == st.trades[..k + 1];
      } else {
        assert trades[..k + 1] == trades;
      }
    }
  }

  /** Selling some units moves their cost basis and their gain into cash. */
  lemma NotionalSplits(entry: real, price: real, sold: int, kept: int)
    ensures Notional(entry, sold + kept) == Notional(entry, sold) + Notional(entry, kept)
    ensures Notional(price - entry, sold) == Notional(price, sold) - Notional(entry, sold)
    ensures Notional(entry, 0) == 0.0
  {
  }

  lemma CloseBooks(setup: Setup, a: AccountState, p: Position, net: real, price: real, time: int, reason: ExitReason)
    requires Books(setup, a, Some(p), net)
    ensures var t := CloseAll(setup.costs, p, price, time, reason);
            && t.quantity == p.remaining
            && Books(setup, a.Close(price, setup.costs.CostForFill(Notional(price, t.quantity)), t.net), None, net + t.net)
  {
    if !p.tracker.Scaling? {
      WholeFee(setup.costs, p);
    }
    hide CostModel.CostForFill, RMultiple, Share, EntryFee, Notional;
    NotionalSplits(p.entryPrice, price, p.remaining, 0);
  }

  lemma CloseOutBalances(setup: Setup, st: SimState, p: Position, price: real, time: int, reason: ExitReason)
    requires Balanced(setup, st) && st.position == Some(p)
    requires reason != PartialTarget
    ensures Balanced(setup, CloseOut(setup.costs, st, p, price, time, reason))
  {
    var t := CloseAll(setup.costs, p, price, time, reason);
    CloseBooks(setup, st.account, p, SumNet(st.trades), price, time, reason);
    SumsAppend(st.trades, t);
    hide CostModel.CostForFill;
    AppendEquity(setup.capital, st, t, CloseOut(setup.costs, st, p, price, time, reason).account.Equity());
  }

  lemma ScaleOutSplits(costs: CostModel, p: Position, bar: Bar)
    requires Sound(costs, p) && OnBar(p, bar).ScaleOut?
    ensures var o := OnBar(p, bar);
            && Sound(costs, o.next)
            && o.next == p.(remaining := o.next.remaining, tracker := o.next.tracker)
            && o.next.tracker == p.tracker.(taken := true)
            && o.quantity >= 1 && o.next.remaining >= 1
            && o.quantity + o.next.remaining == p.remaining == p.quantity
            && o.price == p.OneR() == o.next.OneR()
            && p.tracker.entryFee == EntryFee(costs, p)
  {
  }

  /** A partial leg is charged its share of the entry fee, and what is left stays uncharged. */
  lemma FeeSplits(costs: CostModel, p: Position, bar: Bar)
    requires Sound(costs, p) && OnBar(p, bar).ScaleOut?
    ensures var o := OnBar(p, bar);
            var t := ClosePartialLeg(costs, p, o.quantity, o.price, bar.time, PartialTarget);
            && t.costs == UnchargedFee(costs, p) - UnchargedFee(costs, o.next) + costs.CostForFill(Notional(o.price, o.quantity))
            && UnchargedFee(costs, p) == EntryFee(costs, p)
  {
    ScaleOutSplits(costs, p, bar);
    WholeFee(costs, p);
    hide CostModel.CostForFill, Sound, OnBar, RMultiple, Share;
    var o := OnBar(p, bar);
    SharesAdd(EntryFee(costs, p), o.quantity, o.next.remaining, p.quantity);
  }

  lemma PartialBooks(setup: Setup, a: AccountState, p: Position, net: real, bar: Bar)
    requires Books(setup, a, Some(p), net)
    requires OnBar(p, bar).ScaleOut?
    ensures var o := OnBar(p, bar);
            var t := ClosePartialLeg(setup.costs, p, o.quantity, o.price, bar.time, PartialTarget);
            Books(setup, a.PartialClose(o.quantity, o.price, setup.costs.CostForFill(Notional(o.price, o.quantity)), t.net),
                  Some(o.next), net + t.net)
  {
    var o := OnBar(p, bar);
    ScaleOutSplits(setup.costs, p, bar);
    FeeSplits(setup.costs, p, bar);
    hide CostModel.CostForFill, Sound, OnBar, RMultiple, UnchargedFee, EntryFee, Share, Notional;
    NotionalSplits(p.entryPrice, o.price, o.quantity, o.next.remaining);
  }

  lemma TakePartialBalances(setup: Setup, st: SimState, p: Position, bar: Bar)
    requires Balanced(setup, st) && st.position == Some(p)
    requires OnBar(p, bar).ScaleOut?
    ensures var o := OnBar(p, bar);
            Balanced(setup, TakePartial(setup.costs, st, p, o.quantity, o.price, o.next, bar.time))
  {
    var o := OnBar(p, bar);
    var t := ClosePartialLeg(setup.costs, p, o.quantity, o.price, bar.time, PartialTarget);
    PartialBooks(setup, st.account, p, SumNet(st.trades), bar);
    SumsAppend(st.trades, t);
    hide CostModel.CostForFill;
    AppendEquity(setup.capital, st, t, TakePartial(setup.costs, st, p, o.quantity, o.price, o.next, bar.time).account.Equity());
  }

  lemma MarkKeepsBooks(setup: Setup, a: AccountState, p: Position, net: real, close: real)
    requires Books(setup, a, Some(p), net)
    ensures Books(setup, a.MarkToMarket(close), Some(p), net)
  {
  }

  lemma HoldKeepsBooks(setup: Setup, a: AccountState, p: Position, net: real, bar: Bar)
    requires Books(setup, a, Some(p), net)
    requires OnBar(p, bar).Hold?
    ensures Books(setup, a, Some(OnBar(p, bar).next), net)
  {
  }

  lemma ExitCheckBalances(setup: Setup, bar: Bar, st: SimState)
    requires Balanced(setup, st)
    ensures Balanced(setup, ExitCheck(setup.costs, bar, st))
  {
    if st.position.Some? {
      var p := st.position.value;
      var marked := st.(account := st.account.MarkToMarket(bar.close));
      MarkKeepsBooks(setup, st.account, p, SumNet(st.trades), bar.close);
      hide Books, EquitiesAgree, CostModel.CostForFill;
      match OnBar(p, bar)
      case Hold(next) => HoldKeepsBooks(setup, marked.account, p, SumNet(st.trades), bar);
      case ScaleOut(price, quantity, next) => TakePartialBalances(setup, marked, p, bar);
      case Exit(price, reason) => CloseOutBalances(setup, marked, p, price, bar.time, reason);
    }
  }

  lemma ExitPhaseBalances(setup: Setup, bar: Bar, st: SimState)
    requires Balanced(setup, st)
    ensures Balanced(setup, ExitPhase(setup.costs, bar, st))
  {
    ExitCheckBalances(setup, bar, st.(account := st.account.RollToDay(bar.day)));
    hide ExitCheck, EquitiesAgree;
  }

  lemma QuotientBounds(cash: real, ratio: real, price: real, lo: real, hi: real)
    requires price > 0.0 && ratio * price == cash
    requires lo <= ratio < hi
    ensures lo * price <= cash < hi * price
  {
  }

  /** An entry never costs more than the cash, and is only cut when the approved size does. */
  lemma AffordableIsLargest(approved: int, price: real, cash: real)
    requires Affordable(approved, price, cash) >= 1
    ensures var q := Affordable(approved, price, cash);
            && q <= approved
            && Notional(price, q) <= cash
            && (q == approved || Notional(price, q + 1) > cash)
  {
    if Notional(price, approved) > cash {
      var q := (cash / price).Floor;
      var lo, hi := q as real, (q + 1) as real;
      assert lo <= cash / price < hi;
      QuotientBounds(cash, cash / price, price, lo, hi);
      if q > approved {
        ScaleLess(approved as real, lo, price);
      }
    }
  }

  /** The most units, up to those approved and at least one, that the cash pays at the price. */
  predicate Buys(approved: int, price: real, cash: real, q: int) {
    1 <= q <= approved && Notional(price, q) <= cash && (q == approved || Notional(price, q + 1) > cash)
  }

  lemma BuysIff(approved: int, price: real, cash: real, q: int)
    ensures Buys(approved, price, cash, q) <==> q >= 1 && q == Affordable(approved, price, cash)
  {
    hide Affordable;
    if Affordable(approved, price, cash) >= 1 {
      AffordableIsLargest(approved, price, cash);
    }
    if Buys(approved, price, cash, q) {
      OneSizeFits(approved, price, cash, q);
    }
  }

  lemma OneSizeFits(approved: int, price: real, cash: real, q: int)
    requires Buys(approved, price, cash, q)
    ensures q == Affordable(approved, price, cash)
  {
    if Notional(price, approved) <= cash {
      if q < approved {
        Between(price, cash, q, approved);
      }
    } else {
      Between(price, cash, q, approved);
      var ratio := cash / price;
      assert ratio * price == cash;
      hide Notional;
      NotionalAgainst(price, q, ratio, cash);
      NotionalAgainst(price, q + 1, ratio, cash);
      assert q as real <= ratio < (q + 1) as real;
    }
  }

  lemma NotionalAgainst(price: real, units: int, ratio: real, amount: real)
    requires price != 0.0 && ratio * price == amount
    ensures units as real <= ratio <==> if price > 0.0 then Notional(price, units) <= amount else Notional(price, units) >= amount
  {
    var size := if price > 0.0 then price else -price;
    if units as real < ratio {
      ScaleLess(units as real, ratio, size);
    } else if ratio < units as real {
      ScaleLess(ratio, units as real, size);
    }
  }

  /** Paying for q units and not for one more takes a positive price, and then for no larger number. */
  lemma Between(price: real, cash: real, q: int, more: int)
    requires Notional(price, q) <= cash < Notional(price, q + 1) && q < more
    ensures price > 0.0 && Notional(price, more) > cash
  {
    assert Notional(price, q + 1) == Notional(price, q) + price;
    if q + 1 < more {
      ScaleLess((q + 1) as real, more as real, price);
    }
  }

  lemma FillBooks(setup: Setup, rule: Rule, signal: Signal, approved: int, bar: Bar, price: real, a: AccountState, net: real)
    requires signal.side == Long && Books(setup, a, None, net)
    requires FillAt(setup.costs, rule, signal, approved, bar, price, a.cash).Some?
    ensures var p := FillAt(setup.costs, rule, signal, approved, bar, price, a.cash).value;
            && Notional(p.entryPrice, p.quantity) <= a.cash
            && Books(setup, OpenIn(setup.costs, a, p), Some(p), net)
  {
    var p := FillAt(setup.costs, rule, signal, approved, bar, price, a.cash).value;
    AffordableIsLargest(approved, price, a.cash);
    WholeFee(setup.costs, p);
    hide CostModel.CostForFill;
    assert Sound(setup.costs, p);
  }

  lemma EntryPhaseBalances(setup: Setup, rule: Rule, bars: Series, i: nat, st: SimState)
    requires i < |bars| && Balanced(setup, st)
    ensures Balanced(setup, EntryPhase(setup, rule, bars, i, st))
  {
    if st.position.None? && i + 1 < |bars| && Enter(setup, rule, bars, i, st.account).Some? {
      var (signal, approved) := Approved(setup, bars, i, st.account).value;
      FillBooks(setup, rule, signal, approved, bars[i + 1], setup.costs.EntryFill(bars[i + 1].open), st.account,
                SumNet(st.trades));
    }
    hide Books, EquitiesAgree, FillAt, CostModel.EntryFill;
  }

  lemma {:induction false} LoopBalances(setup: Setup, rule: Rule, bars: Series, k: nat)
    requires k <= |bars|
    ensures Balanced(setup, Loop(setup, rule, bars, k))
  {
    hide Balanced, ExitPhase, EntryPhase;
    if k == 0 {
      InitBalances(setup);
    } else {
      LoopBalances(setup, rule, bars, k - 1);
      ExitPhaseBalances(setup, bars[k - 1], Loop(setup, rule, bars, k - 1));
      EntryPhaseBalances(setup, rule, bars, k - 1, AtDecision(setup, rule, bars, k - 1));
    }
  }

  lemma InitBalances(setup: Setup)
    ensures Balanced(setup, Init(setup))
  {
  }

  /** The account holds exactly the units of the open position, so no loop opens or closes twice. */
  lemma HoldingsMatch(setup: Setup, rule: Rule, bars: Series, k: nat)
    requires k <= |bars|
    ensures var st := Loop(setup, rule, bars, k);
            match st.position
            case None => st.account.openQuantity == 0
            case Some(p) =>
              && st.account.openQuantity == p.remaining >= 1
              && (!p.tracker.Scaling? ==> p.remaining == p.quantity)
              && p.signal.side == Long
  {
    LoopBalances(setup, rule, bars, k);
  }

  lemma NetsAdd(capital: real, trades: seq<Trade>, equities: seq<(int, real)>)
    requires EquitiesAgree(capital, trades, equities)
    ensures SumNet(trades) == SumGross(trades) - SumCosts(trades)
  {
    forall t | t in trades
      ensures t.net == t.gross - t.costs
    {
      var k :| 0 <= k < |trades| && trades[k] == t;
      assert EquityAgrees(capital, trades, equities, k);
    }
    NetIsGrossLessCosts(trades);
  }

  /** No simulator creates or loses money: it ends flat with exactly the starting capital, plus
      every gross result, less every cost, and the account's counters are those of the log. */
  lemma Conservation(setup: Setup, rule: Rule, bars: Series)
    requires bars != []
    ensures var end := Run(setup, rule, bars);
            && end.position.None? && end.account.openQuantity == 0
            && end.account.cash == setup.capital + SumNet(end.trades)
            && end.account.cash == setup.capital + SumGross(end.trades) - SumCosts(end.trades)
            && end.account.Equity() == end.account.cash
            && end.account.realizedPnl == SumNet(end.trades)
            && end.account.totalTrades == |end.trades|
            && end.account.consecutiveLosses == LosingStreak(end.trades)
            && EquitiesAgree(setup.capital, end.trades, end.equities)
  {
    var st := Loop(setup, rule, bars, |bars|);
    LoopBalances(setup, rule, bars, |bars|);
    if st.position.Some? {
      var last := bars[|bars| - 1];
      CloseOutBalances(setup, st, st.position.value, setup.costs.ExitFill(last.close), last.time, EndOfData);
    }
    var end := Run(setup, rule, bars);
    NetsAdd(setup.capital, end.trades, end.equities);
  }

  lemma LastLegCosts(costs: CostModel, p: Position, price: real, time: int, reason: ExitReason)
    requires p.tracker.Scaling? && p.tracker.entryFee == EntryFee(costs, p)
    ensures CloseAll(costs, p, price, time, reason).costs
         == UnchargedFee(costs, p) + costs.CostForFill(Notional(price, p.remaining))
  {
  }

  /** The legs of a scaled-out position charge the one entry fee exactly once between them. */
  lemma PartialLegsShareOneFee(costs: CostModel, p: Position, bar: Bar, price: real, time: int, reason: ExitReason)
    requires Sound(costs, p) && OnBar(p, bar).ScaleOut?
    ensures var first := OnBar(p, bar);
            var leg := ClosePartialLeg(costs, p, first.quantity, first.price, bar.time, PartialTarget);
            var rest := CloseAll(costs, first.next, price, time, reason);
            && leg.quantity >= 1 && rest.quantity >= 1 && leg.quantity + rest.quantity == p.quantity
            && leg.costs + rest.costs == EntryFee(costs, p)
               + costs.CostForFill(Notional(first.price, leg.quantity)) + costs.CostForFill(Notional(price, rest.quantity))
  {
    var first := OnBar(p, bar);
    ScaleOutSplits(costs, p, bar);
    FeeSplits(costs, p, bar);
    LastLegCosts(costs, first.next, price, time, reason);
    hide CostModel.CostForFill, Sound, OnBar, RMultiple, EntryFee, UnchargedFee, Share;
  }

  /** What scaling out costs: closed at one price, the two legs together book exactly the gross result
      of a single close and pay one more flat brokerage. */
  lemma ScalingOutCostsOneBrokerage(costs: CostModel, p: Position, bar: Bar, time: int, reason: ExitReason)
    requires Sound(costs, p) && OnBar(p, bar).ScaleOut?
    ensures var first := OnBar(p, bar);
            var leg := ClosePartialLeg(costs, p, first.quantity, first.price, bar.time, PartialTarget);
            var rest := CloseAll(costs, first.next, first.price, time, reason);
            var whole := CloseTrade(costs, p, first.price, time, reason);
            && leg.gross + rest.gross == whole.gross
            && leg.costs + rest.costs == whole.costs + costs.brokeragePerFill
  {
    var first := OnBar(p, bar);
    PartialLegsShareOneFee(costs, p, bar, first.price, time, reason);
    NotionalSplits(first.price, first.price, first.quantity, first.next.remaining);
    NotionalSplits(first.price - p.entryPrice, first.price, first.quantity, first.next.remaining);
    SplitFillPaysBrokerageTwice(costs, Notional(first.price, first.quantity), Notional(first.price, first.next.remaining));
    hide CostModel.CostForFill, Notional, Share;
  }
}
