/** Fees and slippage of one fill (backtesting/costs.py). */
module Costs {
  import opened Wrappers
  import opened Market
  import Reals

  datatype CostModel = CostModel(brokeragePerFill: real, feesPct: real, taxesPct: real,
                                 entrySlippageBps: real, exitSlippageBps: real)
  {
    function CostForFill(notional: real): real {
      brokeragePerFill + notional * (feesPct + taxesPct) / 100.0
    }

    /** A long entry pays more than the quoted price, a long exit receives less. */
    function EntryFill(price: real): real {
      price + price * entrySlippageBps / 10000.0
    }

    function ExitFill(price: real): real {
      price - price * exitSlippageBps / 10000.0
    }

    function SlippageAdjustedPrice(price: real, side: Side, isEntry: bool): Result<real, string> {
      if side != Long then Failure("Only Side.LONG is implemented.")
      else Success(if isEntry then EntryFill(price) else ExitFill(price))
    }
  }

  /** The constraints the cost model's fields are declared with. */
  ghost predicate Declared(costs: CostModel) {
    && costs.brokeragePerFill >= 0.0 && costs.feesPct >= 0.0 && costs.taxesPct >= 0.0
    && costs.entrySlippageBps >= 0.0 && costs.exitSlippageBps >= 0.0
  }

  /** Slippage is only ever adverse: a long never buys below nor sells above the quote; nothing but
      a long can be filled. */
  lemma SlippageIsAdverse(costs: CostModel, price: real, side: Side)
    requires Declared(costs) && price >= 0.0
    ensures var entry, exit := costs.SlippageAdjustedPrice(price, side, true), costs.SlippageAdjustedPrice(price, side, false);
            && (entry.Success? <==> side == Long) && (exit.Success? <==> side == Long)
            && (side == Long ==> exit.value <= price <= entry.value)
  {
    Reals.Products(price, costs.entrySlippageBps);
    Reals.Products(price, costs.exitSlippageBps);
  }

  /** Percentages are of the notional, basis points of the price, each side by its own. */
  lemma ChargesAreToScale(costs: CostModel, price: real, notional: real)
    ensures 100.0 * (costs.CostForFill(notional) - costs.brokeragePerFill) == notional * (costs.feesPct + costs.taxesPct)
    ensures var entry, exit := costs.SlippageAdjustedPrice(price, Long, true), costs.SlippageAdjustedPrice(price, Long, false);
            && entry == Success(costs.EntryFill(price)) && 10000.0 * (entry.value - price) == price * costs.entrySlippageBps
            && exit == Success(costs.ExitFill(price)) && 10000.0 * (price - exit.value) == price * costs.exitSlippageBps
  {
    Hundredths(notional * (costs.feesPct + costs.taxesPct), 100.0);
    Hundredths(price * costs.entrySlippageBps, 10000.0);
    Hundredths(price * costs.exitSlippageBps, 10000.0);
  }

  lemma Hundredths(x: real, parts: real)
    requires parts > 0.0
    ensures parts * (x / parts) == x
  {
  }

  /** Filling in two parts pays the percentages once over and the flat brokerage twice. */
  lemma SplitFillPaysBrokerageTwice(costs: CostModel, a: real, b: real)
    ensures costs.CostForFill(a) + costs.CostForFill(b) == costs.CostForFill(a + b) + costs.brokeragePerFill
  {
  }
}
