/** Bars, signals and strategies: the inputs of every simulator. */
module Market {
  import opened Wrappers

  datatype Side = Long | Short

  /** One row of the indicator series. A column that is absent or NaN is a missing key. */
  datatype Bar = Bar(time: int, day: int, open: real, high: real, low: real, close: real,
                     indicators: map<string, real>)
  {
    function Atr(): Option<real> {
      if "atr_14" in indicators then Some(indicators["atr_14"]) else None
    }
  }

  datatype Signal = Signal(symbol: string, generatedAt: int, side: Side, reference: real, stop: real, target: real,
                           riskReward: real, strategyName: string)

  type Series = seq<Bar>

  type Strategy = (Series, nat) -> Option<Signal>

  /** The money value of `quantity` units at a price. */
  function Notional(price: real, quantity: int): real {
    price * quantity as real
  }

  /** The strategy protocol: the signal at a bar is a function of the rows up to that bar. */
  ghost predicate Causal(strategy: Strategy) {
    forall s: Series, t: Series, i: nat ::
      i < |s| && i < |t| && s[..i + 1] == t[..i + 1] ==> strategy(s, i) == strategy(t, i)
  }

  ghost predicate Chronological(bars: Series) {
    forall i, j :: 0 <= i < j < |bars| ==> bars[i].time < bars[j].time
  }
}
