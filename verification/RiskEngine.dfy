/** The risk engine (risk/engine.py): every veto is collected, and only a signal without one is
    approved. Account-level halts depend on the account alone. */
module RiskEngine {
  import opened Wrappers
  import opened Market
  import opened Accounts
  import opened Reals
  import opened Simulator
  import opened Ledger

  datatype RiskConfig = RiskConfig(
    riskPerTradePct: real, maxDailyLossPct: real, maxDrawdownPct: real, maxExposurePct: real,
    maxConsecutiveLosses: int, consecutiveLossRiskMultiplier: real, consecutiveLossHardLimit: int, minRiskReward: real)

  /** The defaults of risk/config.py. */
  const DEFAULT_CONFIG := RiskConfig(0.5, 3.0, 10.0, 25.0, 3, 0.5, 6, 1.5)

  datatype Veto =
    | InvalidSignal | InvalidStop | InvalidRiskReward | ZeroPositionSize | InsufficientCapital | MaxExposure
    | MaxDailyLoss | MaxDrawdown | ConsecutiveLossLimit | PositionAlreadyOpen

  datatype Decision = Decision(approved: bool, quantity: Option<int>, vetoes: seq<Veto>)

  function When(condition: bool, veto: Veto): seq<Veto> {
    if condition then [veto] else []
  }

  predicate DailyLossBreached(config: RiskConfig, account: AccountState) {
    account.dailyStartEquity <= 0.0
    || -account.DailyPnl() >= account.dailyStartEquity * config.maxDailyLossPct / 100.0
  }

  function AccountLevelHalts(config: RiskConfig, account: AccountState): seq<Veto> {
    When(DailyLossBreached(config, account), MaxDailyLoss)
    + When(account.DrawdownPct() >= config.maxDrawdownPct, MaxDrawdown)
    + When(account.consecutiveLosses >= config.consecutiveLossHardLimit, ConsecutiveLossLimit)
  }

  predicate StructurallyValid(signal: Signal) {
    signal.side == Long && signal.reference > signal.stop && signal.target > signal.reference
  }

  function RiskBudget(config: RiskConfig, account: AccountState): real {
    var pct := if account.consecutiveLosses >= config.maxConsecutiveLosses
               then config.riskPerTradePct * config.consecutiveLossRiskMultiplier
               else config.riskPerTradePct;
    account.Equity() * pct / 100.0
  }

  /** What the risk budget buys, before any look at the cash. */
  function Requested(config: RiskConfig, signal: Signal, account: AccountState): int
    requires StructurallyValid(signal)
  {
    (RiskBudget(config, account) / (signal.reference - signal.stop)).Floor
  }

  /** The one case in which the source divides by zero, and raises: a well-formed signal referring to a
      price of zero, sized for an account in debt. */
  predicate DividesByZero(config: RiskConfig, signal: Signal, account: AccountState) {
    StructurallyValid(signal) && signal.reference == 0.0 && account.cash < 0.0 && Requested(config, signal, account) >= 1
  }

  /** The requested size, cut to the cash. */
  function Sized(config: RiskConfig, signal: Signal, account: AccountState): int
    requires StructurallyValid(signal) && !DividesByZero(config, signal, account)
  {
    var quantity := Requested(config, signal, account);
    if quantity >= 1 && Notional(signal.reference, quantity) > account.cash
    then (account.cash / signal.reference).Floor
    else quantity
  }

  predicate OverExposed(config: RiskConfig, account: AccountState, notional: real) {
    account.Equity() <= 0.0 || notional / account.Equity() * 100.0 > config.maxExposurePct
  }

  function Evaluate(config: RiskConfig, signal: Signal, account: AccountState): Result<Decision, string> {
    var structure :=
      When(signal.side != Long, InvalidSignal)
      + When(signal.reference <= signal.stop, InvalidStop)
      + When(signal.target <= signal.reference, InvalidSignal);
    var general :=
      When(signal.riskReward <= 0.0 || signal.riskReward < config.minRiskReward, InvalidRiskReward)
      + When(account.openQuantity > 0, PositionAlreadyOpen)
      + AccountLevelHalts(config, account);
    if !StructurallyValid(signal) then Success(Decision(false, None, structure + general))
    else if DividesByZero(config, signal, account) then Failure("float division by zero")
    else
      var wanted, quantity := Requested(config, signal, account), Sized(config, signal, account);
      var sizing :=
        When(wanted < 1, ZeroPositionSize)
        + When(wanted >= 1 && quantity < 1, InsufficientCapital)
        + When(quantity >= 1 && OverExposed(config, account, Notional(signal.reference, quantity)), MaxExposure);
      var vetoes := structure + general + sizing;
      Success(Decision(quantity >= 1 && vetoes == [], if quantity >= 1 then Some(quantity) else None, vetoes))
  }

  /** The quantity the simulators act on: approved and sized, or nothing. */
  function ApprovedQuantity(config: RiskConfig, signal: Signal, account: AccountState): Option<int> {
    match Evaluate(config, signal, account)
    case Failure(_) => None
    case Success(decision) => if decision.approved then decision.quantity else None
  }

  /** Fail-closed: exactly the signals that break no rule at all are approved. */
  lemma ApprovedIff(config: RiskConfig, signal: Signal, account: AccountState)
    ensures Evaluate(config, signal, account).Failure? <==> DividesByZero(config, signal, account)
    ensures Evaluate(config, signal, account).Success? ==>
              var decision := Evaluate(config, signal, account).value;
              && (decision.approved <==>
                    && StructurallyValid(signal)
                    && signal.riskReward > 0.0 && signal.riskReward >= config.minRiskReward
                    && account.openQuantity <= 0
                    && !DailyLossBreached(config, account)
                    && account.DrawdownPct() < config.maxDrawdownPct
                    && account.consecutiveLosses < config.consecutiveLossHardLimit
                    && Sized(config, signal, account) >= 1
                    && !OverExposed(config, account, Notional(signal.reference, Sized(config, signal, account))))
              && (decision.approved <==> decision.vetoes == [])
              && (decision.approved ==> decision.quantity == Some(Sized(config, signal, account)))
  {
  }

  /** The whole units of a price, of either sign, that an amount comes to, rounded down. */
  predicate Fits(amount: real, price: real, units: int) {
    if price > 0.0 then Notional(price, units) <= amount < Notional(price, units + 1)
    else Notional(price, units) >= amount > Notional(price, units + 1)
  }

  /** The risk budget, cut in a losing streak. */
  function Granted(config: RiskConfig, account: AccountState): real {
    var budget := (account.cash + account.costBasis + account.unrealizedPnl) * config.riskPerTradePct / 100.0;
    if account.consecutiveLosses >= config.maxConsecutiveLosses then budget * config.consecutiveLossRiskMultiplier else budget
  }

  /** The size a well-formed signal comes to: what the budget fits, or what the cash fits of it. */
  ghost predicate SizedTo(config: RiskConfig, signal: Signal, account: AccountState, q: int) {
    && signal.side == Long && signal.stop < signal.reference < signal.target
    && exists wanted: int ::
         && Fits(Granted(config, account), signal.reference - signal.stop, wanted) && wanted >= 1
         && if Notional(signal.reference, wanted) <= account.cash then q == wanted
            else Fits(account.cash, signal.reference, q)
  }

  /** When a reason is given, said on the caller's numbers. */
  ghost predicate Applies(config: RiskConfig, signal: Signal, account: AccountState, veto: Veto) {
    var equity := account.cash + account.costBasis + account.unrealizedPnl;
    match veto
    case InvalidSignal => signal.side != Long || signal.target <= signal.reference
    case InvalidStop => signal.reference <= signal.stop
    case InvalidRiskReward => signal.riskReward <= 0.0 || signal.riskReward < config.minRiskReward
    case PositionAlreadyOpen => account.openQuantity > 0
    case MaxDailyLoss =>
      account.dailyStartEquity <= 0.0
      || 100.0 * (account.dailyStartEquity - equity) >= account.dailyStartEquity * config.maxDailyLossPct
    case MaxDrawdown =>
      || config.maxDrawdownPct <= 0.0
      || (account.peakEquity > 0.0 && 100.0 * (account.peakEquity - equity) >= account.peakEquity * config.maxDrawdownPct)
    case ConsecutiveLossLimit => account.consecutiveLosses >= config.consecutiveLossHardLimit
    case ZeroPositionSize =>
      && signal.side == Long && signal.stop < signal.reference < signal.target
      && Granted(config, account) < signal.reference - signal.stop
    case InsufficientCapital => exists q: int :: SizedTo(config, signal, account, q) && q < 1
    case MaxExposure =>
      exists q: int ::
        && SizedTo(config, signal, account, q) && q >= 1
        && (equity <= 0.0 || 100.0 * Notional(signal.reference, q) > equity * config.maxExposurePct)
  }

  /** What is decided, said on the caller's numbers alone: no decision exactly when a well-formed signal
      comes to no size at all though the budget buys a unit; otherwise every rule that is broken is named,
      and nothing else, and a quantity is approved exactly when it is the signal's size and none is. */
  lemma DecidedOnInputs(config: RiskConfig, signal: Signal, account: AccountState)
    ensures Evaluate(config, signal, account).Failure? <==>
              && signal.side == Long && signal.stop < signal.reference < signal.target
              && Granted(config, account) >= signal.reference - signal.stop
              && signal.reference == 0.0 && account.cash < 0.0
    ensures Evaluate(config, signal, account).Success? ==>
              && (forall veto :: veto in Evaluate(config, signal, account).value.vetoes <==>
                                   Applies(config, signal, account, veto))
              && (forall q: int :: Evaluate(config, signal, account).value.quantity == Some(q) <==>
                    q >= 1 && SizedTo(config, signal, account, q))
    ensures forall q: int :: ApprovedQuantity(config, signal, account) == Some(q) <==>
              && q >= 1 && SizedTo(config, signal, account, q)
              && forall veto :: !Applies(config, signal, account, veto)
  {
    hide Evaluate, Applies, SizedTo, Granted, Requested, Sized, AccountState.DrawdownPct, DailyLossBreached,
      OverExposed, Notional;
    ApprovedIff(config, signal, account);
    if StructurallyValid(signal) {
      SizeOnInputs(config, signal, account);
    } else {
      assert forall q: int :: !SizedTo(config, signal, account, q) by { NotSized(config, signal, account); }
    }
    if Evaluate(config, signal, account).Success? {
      forall veto
        ensures veto in Evaluate(config, signal, account).value.vetoes <==> Applies(config, signal, account, veto)
      {
        NamedIffApplies(config, signal, account, veto);
      }
      NoVetoIsListed(Evaluate(config, signal, account).value.vetoes);
      NamedIffApplies(config, signal, account, ZeroPositionSize);
      UndersizedIsVetoed(config, signal, account);
      QuantityIsSized(config, signal, account);
    }
  }

  lemma NotSized(config: RiskConfig, signal: Signal, account: AccountState)
    requires !StructurallyValid(signal)
    ensures forall q: int :: !SizedTo(config, signal, account, q)
  {
    hide Granted, Notional, Fits;
  }

  lemma QuantityIsSized(config: RiskConfig, signal: Signal, account: AccountState)
    requires Evaluate(config, signal, account).Success?
    ensures Evaluate(config, signal, account).value.quantity
         == if StructurallyValid(signal) && Sized(config, signal, account) >= 1 then Some(Sized(config, signal, account))
            else None
    ensures StructurallyValid(signal) && Sized(config, signal, account) >= 1 ==> Requested(config, signal, account) >= 1
  {
    hide Requested, AccountLevelHalts, OverExposed, Notional;
  }

  lemma NoVetoIsListed(vetoes: seq<Veto>)
    ensures vetoes == [] <==> forall veto :: veto !in vetoes
  {
    if vetoes != [] {
      assert vetoes[0] in vetoes;
    }
  }

  lemma UndersizedIsVetoed(config: RiskConfig, signal: Signal, account: AccountState)
    requires Evaluate(config, signal, account).Success?
    ensures Evaluate(config, signal, account).value.approved ==>
              StructurallyValid(signal) && Requested(config, signal, account) >= 1
  {
    hide Requested, Sized, AccountLevelHalts, OverExposed, Notional;
  }

  lemma InWhen(condition: bool, reason: Veto, veto: Veto)
    ensures veto in When(condition, reason) <==> condition && veto == reason
  {
  }

  lemma Listed(config: RiskConfig, signal: Signal, account: AccountState, veto: Veto)
    requires Evaluate(config, signal, account).Success?
    ensures veto in Evaluate(config, signal, account).value.vetoes <==>
            match veto
            case InvalidSignal => signal.side != Long || signal.target <= signal.reference
            case InvalidStop => signal.reference <= signal.stop
            case InvalidRiskReward => signal.riskReward <= 0.0 || signal.riskReward < config.minRiskReward
            case PositionAlreadyOpen => account.openQuantity > 0
            case MaxDailyLoss => DailyLossBreached(config, account)
            case MaxDrawdown => account.DrawdownPct() >= config.maxDrawdownPct
            case ConsecutiveLossLimit => account.consecutiveLosses >= config.consecutiveLossHardLimit
            case ZeroPositionSize => StructurallyValid(signal) && Requested(config, signal, account) < 1
            case InsufficientCapital =>
              StructurallyValid(signal) && Requested(config, signal, account) >= 1 && Sized(config, signal, account) < 1
            case MaxExposure =>
              && StructurallyValid(signal) && Sized(config, signal, account) >= 1
              && OverExposed(config, account, Notional(signal.reference, Sized(config, signal, account)))
  {
    hide Notional, Requested, Sized, AccountState.DrawdownPct, DailyLossBreached, OverExposed, When;
    forall condition: bool, reason: Veto
      ensures veto in When(condition, reason) <==> condition && veto == reason
    {
      InWhen(condition, reason, veto);
    }
  }

  lemma NamedIffApplies(config: RiskConfig, signal: Signal, account: AccountState, veto: Veto)
    requires Evaluate(config, signal, account).Success?
    ensures veto in Evaluate(config, signal, account).value.vetoes <==> Applies(config, signal, account, veto)
  {
    hide Evaluate, Notional, Granted, Requested, Sized, AccountState.DrawdownPct, DailyLossBreached, OverExposed, SizedTo;
    Listed(config, signal, account, veto);
    RaisesOrNot(config, signal, account);
    match veto
    case MaxDailyLoss => DailyLossOnInputs(config, account);
    case MaxDrawdown => DrawdownOnInputs(config, account);
    case ZeroPositionSize => SizeIfValid(config, signal, account);
    case InsufficientCapital =>
      SizeIfValid(config, signal, account);
      assert StructurallyValid(signal) && Requested(config, signal, account) >= 1 ==>
          SizedTo(config, signal, account, Sized(config, signal, account));
    case MaxExposure =>
      SizeIfValid(config, signal, account);
      if StructurallyValid(signal) {
        OverExposedOnInputs(config, account, Notional(signal.reference, Sized(config, signal, account)));
        UnsizedIsSmall(config, signal, account);
      }
    case _ =>
  }

  lemma RaisesOrNot(config: RiskConfig, signal: Signal, account: AccountState)
    ensures Evaluate(config, signal, account).Failure? <==> DividesByZero(config, signal, account)
  {
  }

  lemma UnsizedIsSmall(config: RiskConfig, signal: Signal, account: AccountState)
    requires StructurallyValid(signal) && !DividesByZero(config, signal, account)
    ensures Requested(config, signal, account) < 1 ==> Sized(config, signal, account) < 1
  {
    hide Requested, Notional;
  }

  lemma SizeIfValid(config: RiskConfig, signal: Signal, account: AccountState)
    requires !DividesByZero(config, signal, account)
    ensures StructurallyValid(signal) ==>
              (Requested(config, signal, account) >= 1 <==> Granted(config, account) >= signal.reference - signal.stop)
    ensures forall q: int :: SizedTo(config, signal, account, q) <==>
              StructurallyValid(signal) && q == Sized(config, signal, account) && Requested(config, signal, account) >= 1
  {
    hide Notional, Granted, Requested, Sized, SizedTo;
    if StructurallyValid(signal) {
      SizeOnInputs(config, signal, account);
    } else {
      NotSized(config, signal, account);
    }
  }

  lemma DailyLossOnInputs(config: RiskConfig, account: AccountState)
    ensures DailyLossBreached(config, account) <==>
            var equity := account.cash + account.costBasis + account.unrealizedPnl;
            account.dailyStartEquity <= 0.0
            || 100.0 * (account.dailyStartEquity - equity) >= account.dailyStartEquity * config.maxDailyLossPct
  {
  }

  lemma DrawdownOnInputs(config: RiskConfig, account: AccountState)
    ensures account.DrawdownPct() < config.maxDrawdownPct <==>
            var equity := account.cash + account.costBasis + account.unrealizedPnl;
            && 0.0 < config.maxDrawdownPct
            && (account.peakEquity > 0.0 ==> 100.0 * (account.peakEquity - equity) < account.peakEquity * config.maxDrawdownPct)
  {
    if account.peakEquity > 0.0 {
      PercentAgainst(account.peakEquity - account.Equity(), account.peakEquity, config.maxDrawdownPct);
    }
  }

  lemma OverExposedOnInputs(config: RiskConfig, account: AccountState, notional: real)
    ensures OverExposed(config, account, notional) <==>
            var equity := account.cash + account.costBasis + account.unrealizedPnl;
            equity <= 0.0 || 100.0 * notional > equity * config.maxExposurePct
  {
    if account.Equity() > 0.0 {
      PercentAgainst(notional, account.Equity(), config.maxExposurePct);
    }
  }

  lemma PercentAgainst(part: real, whole: real, limit: real)
    requires whole > 0.0
    ensures part / whole * 100.0 < limit <==> 100.0 * part < whole * limit
    ensures part / whole * 100.0 > limit <==> 100.0 * part > whole * limit
  {
    var pct := part / whole * 100.0;
    assert pct * whole == 100.0 * part by {
      assert part / whole * whole == part;
    }
    if pct < limit {
      ScaleLess(pct, limit, whole);
    } else if pct > limit {
      ScaleLess(limit, pct, whole);
    }
  }

  lemma BudgetOnInputs(config: RiskConfig, account: AccountState)
    ensures RiskBudget(config, account) == Granted(config, account)
  {
  }

  lemma SizeOnInputs(config: RiskConfig, signal: Signal, account: AccountState)
    requires StructurallyValid(signal)
    ensures Requested(config, signal, account) >= 1 <==> Granted(config, account) >= signal.reference - signal.stop
    ensures DividesByZero(config, signal, account) ==> forall q: int :: !SizedTo(config, signal, account, q)
    ensures !DividesByZero(config, signal, account) ==>
              forall q: int :: SizedTo(config, signal, account, q) <==>
                q == Sized(config, signal, account) && Requested(config, signal, account) >= 1
  {
    hide Notional, RiskBudget, Granted, Fits;
    BudgetOnInputs(config, account);
    var unit, wanted := signal.reference - signal.stop, Requested(config, signal, account);
    FloorFits(RiskBudget(config, account), unit);
    FloorOfQuotientIsPositive(RiskBudget(config, account), unit);
    assert Fits(RiskBudget(config, account), unit, wanted);
    if signal.reference != 0.0 {
      FloorFits(account.cash, signal.reference);
    }
    NothingFree(signal.reference, account.cash);
  }

  lemma FloorOfQuotientIsPositive(amount: real, price: real)
    requires price > 0.0
    ensures (amount / price).Floor >= 1 <==> amount >= price
  {
    var ratio := amount / price;
    assert ratio * price == amount;
    if ratio < 1.0 {
      ScaleLess(ratio, 1.0, price);
    } else if ratio > 1.0 {
      ScaleLess(1.0, ratio, price);
    }
  }

  lemma FloorFits(amount: real, price: real)
    requires price != 0.0
    ensures forall units: int :: Fits(amount, price, units) <==> units == (amount / price).Floor
  {
    var ratio := amount / price;
    assert ratio * price == amount;
    forall units: int
      ensures Fits(amount, price, units) <==> units == ratio.Floor
    {
      hide Notional;
      NotionalAgainst(price, units, ratio, amount);
      NotionalAgainst(price, units + 1, ratio, amount);
      assert units == ratio.Floor <==> units as real <= ratio < (units + 1) as real;
    }
  }

  lemma NothingFree(price: real, cash: real)
    ensures price == 0.0 ==> forall units: int :: Notional(price, units) == 0.0 && !Fits(cash, price, units)
  {
  }

  /** What an approval guarantees: an exposure within the limit; a price the cash can pay, unless the
      reference price is negative and the account more in debt than the requested size would bring in,
      a case the source does not guard against; and with it a risk within the budget, which shrinks in a
      losing streak, for the largest size that budget and cash allow. */
  lemma ApprovalIsBounded(config: RiskConfig, signal: Signal, account: AccountState)
    requires ApprovedQuantity(config, signal, account).Some?
    ensures var q, wanted := ApprovedQuantity(config, signal, account).value, Requested(config, signal, account);
            var unit, budget := signal.reference - signal.stop, RiskBudget(config, account);
            var guarded := signal.reference >= 0.0 || Notional(signal.reference, wanted) <= account.cash;
            && q >= 1
            && Notional(signal.reference, q) <= account.Equity() * config.maxExposurePct / 100.0
            && (if guarded then Notional(signal.reference, q) <= account.cash
                else q >= wanted && Notional(signal.reference, q) >= account.cash)
            && (Notional(unit, q) <= budget <==> guarded || q == wanted)
            && (guarded ==> Notional(unit, q + 1) > budget || Notional(signal.reference, q + 1) > account.cash)
  {
    hide Evaluate, Notional, RiskBudget, DailyLossBreached, AccountState.Equity, AccountState.DrawdownPct;
    ApprovedIff(config, signal, account);
    var q, wanted := Sized(config, signal, account), Requested(config, signal, account);
    FloorOfQuotient(RiskBudget(config, account), signal.reference - signal.stop, wanted);
    WithinExposure(Notional(signal.reference, q), account.Equity(), config.maxExposurePct);
    SizedBounds(config, signal, account);
    MoreUnits(signal.reference - signal.stop, wanted + 1, q);
    MoreUnits(signal.reference - signal.stop, q, wanted);
  }

  /** The requested size, or what the cash affords of it; or more than was asked for, in debt at a
      negative price. */
  lemma SizedBounds(config: RiskConfig, signal: Signal, account: AccountState)
    requires StructurallyValid(signal) && !DividesByZero(config, signal, account) && Sized(config, signal, account) >= 1
    ensures var q, wanted := Sized(config, signal, account), Requested(config, signal, account);
            if signal.reference >= 0.0 || Notional(signal.reference, wanted) <= account.cash then
              && q <= wanted && Notional(signal.reference, q) <= account.cash
              && (q == wanted || Notional(signal.reference, q + 1) > account.cash)
            else q >= wanted && Notional(signal.reference, q) >= account.cash
  {
    hide Requested;
    var wanted := Requested(config, signal, account);
    if signal.reference < 0.0 && Notional(signal.reference, wanted) > account.cash {
      NegativeFloor(account.cash, signal.reference, wanted);
    } else {
      assert Sized(config, signal, account) == Affordable(wanted, signal.reference, account.cash);
      AffordableIsLargest(wanted, signal.reference, account.cash);
    }
  }

  lemma FloorOfQuotient(budget: real, unit: real, wanted: int)
    requires unit > 0.0 && wanted == (budget / unit).Floor
    ensures Notional(unit, wanted) <= budget < Notional(unit, wanted + 1)
  {
    QuotientBounds(budget, budget / unit, unit, wanted as real, (wanted + 1) as real);
  }

  lemma MoreUnits(unit: real, fewer: int, more: int)
    requires unit > 0.0
    ensures fewer <= more ==> Notional(unit, fewer) <= Notional(unit, more)
  {
    if fewer < more {
      ScaleLess(fewer as real, more as real, unit);
    }
  }

  /** Dividing a debt by a negative price rounds up the wrong way: to more units than were asked for,
      and still more money than there is. */
  lemma NegativeFloor(cash: real, price: real, wanted: int)
    requires price < 0.0 && Notional(price, wanted) > cash
    ensures var q := (cash / price).Floor; q >= wanted && Notional(price, q) >= cash
  {
    var ratio := cash / price;
    var q := ratio.Floor;
    assert ratio * price == cash;
    if ratio < wanted as real {
      ScaleLess(ratio, wanted as real, -price);
    }
    if q as real < ratio {
      ScaleLess(q as real, ratio, -price);
    }
  }

  lemma WithinExposure(notional: real, equity: real, limit: real)
    requires equity > 0.0 && notional / equity * 100.0 <= limit
    ensures notional <= equity * limit / 100.0
  {
    var share := notional / equity;
    assert share * equity == notional;
    if share < limit / 100.0 {
      ScaleLess(share, limit / 100.0, equity);
    }
  }
}
