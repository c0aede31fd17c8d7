# Verified model of the trading platform's simulators, critic gate and live protocols

The platform replays a strategy bar by bar over an account (`backtesting/engine.py`), keeps four deliberate copies
of that loop with one exit rule changed each (`backtesting/exit_experiments.py`) and one with randomised fills
(`backtesting/execution_robustness.py`), and judges the outcome (`backtesting/equity.py`, `metrics.py`,
`forensics.py`, `walk_forward.py`, `learning/profitability.py`). Live, every proposed trade passes a critic
(`critic/engine.py`) behind a timed evidence cache (`live/critic_gate.py`), while a gap alarm
(`live/gap_monitor.py`), a broker reconciliation (`live/broker_reconciliation.py`) and an approval lifecycle
(`live/approval.py`) watch over delivery, state and consent. This project models those parts in Dafny and proves
what they promise over every run, every input and every behaviour of clock, data provider and random source.

Verify everything with `dafny verify dfyconfig.toml`.

## How it is built

- **Simulators.** `Simulator.Run(setup, rule, bars)` is one specification machine for the reference loop and the four
  exit rules; `Positions.OnBar` is what one bar does to one position. `Engine` and `ExitExperiments` hold the
  imperative loops, over the mutable `Accounts.Account` and position objects, each proved equal to `Run` of its rule.
  All theorems about runs are about `Run`: `Ledger` (money), `LookAhead` (prefixes), `TradeLog` (what each trade is),
  `ExitPrices` (its prices, units and fees, read off the bars), `Marking` (what equity, peak and day start are worth),
  `ExitRules` (each rule against the standard one), `Equivalence` (when an experiment is the reference run).
- **Random fills.** `ExecutionRobustness.RobustRun` is the loop with a pending fill, for an arbitrary sequence of draws.
  `FillDraws` says what each draw decides, `RobustCut` what cutting the data changes. `ZeroFriction`, `Trajectories` and `ZeroFrictionIff` compare it with the
  reference run; `FeeTiming` and `DailyLossExample` hold runs on which they differ, the latter under the default limits of
  `RiskEngine`.
- **After the run.** `Drawdown` defines the running decline once, for the equity curve and the compounded returns;
  `Equity`, `Metrics`, `Forensics`, `WalkForward` and `Profitability` each connect their figures to the run or to an
  independent definition, and `ReturnSums` says the statistics on sums and counts.
- **Live.** `Critic` and `CriticGates` follow the source's order of checks and branches; `GateTraces` and `GateTolerance`
  state what the gate guarantees on every sequence of calls. `GapMonitor`, `Reconciliation` (with `ReconciliationMatches` and `TradePairs`) and
  `Approval` are the three smaller protocols. `Reals`, `Sequences`, `Dicts`, `Wrappers`, `Market` and `Costs` serve the rest.

The strategy is an arbitrary function of the series and an index, required to be causal only where look-ahead is the
point; the risk decision is an arbitrary function of signal and account, except where `RiskEngine` models the real one.
Prices, money, clocks and ratios are `real`; bar times are integers (clock ticks in `WalkForward`). Exceptions become
`Result` or `Outcome` values; the provider's answers, clock readings and random draws are parameters.

## Where code and documentation differ

The model follows the code.

- `backtesting/execution_robustness.py:78` perturbs only how entries are filled. Without any perturbation its loop still is
  not always the reference loop: it rolls the day before it fills, while the reference loop opens the position on the
  evening before, so the equity a day starts from differs by the entry fee, and a daily-loss rule can decide otherwise.
  `ZeroFrictionIff.ZeroFrictionMatchesIff` gives the exact condition on a run; `FeeTiming.ZeroFrictionMatchesAlwaysIff` says that
  a cost model never tells the two apart exactly when it charges nothing per fill, which is the case of the parity test.
- `live/critic_gate.py:109` says that one or two transient failures in a row do not block. One does not, exactly when the
  polling period and a call's own delay fit one refresh interval; two can, at any positive polling period, because every
  late attempt uses up part of the bound.
- `backtesting/walk_forward.py:41` promises equal, non-overlapping windows covering the span. They are equal exactly when their
  number divides the span in clock ticks; neighbours always share their boundary instant, so a bar on it is in both slices;
  and for datetimes the rounded length can overshoot a span of a few microseconds, and then the last window runs backward.
  The validation itself passes pandas timestamps, which truncate and never overshoot.
- `live/broker_reconciliation.py:30` keeps one position per symbol and compares the last; another one of the same symbol can
  go unmatched unnoticed exactly when it differs from the last in quantity or entry price.
- `learning/profitability.py:168` reports the worst decline of the compounded returns unless they overdraw it: a return below
  -1, which a flat brokerage on a small notional can cause, before any return of -1. Then the figure is too small, except
  when the curve falls deepest straight from its start.

## Model

| member | source | states |
|---|---|---|
| `Engine.RunBacktest` | backtesting/engine.py:65-177 | The bar loop, run on a mutable account, returns exactly the trades, recorded equities and final equity of the specification run with the standard exit rule; it fails only on an empty series or non-positive capital |
| `Ledger.Conservation` | backtesting/engine.py:79-154 | Every run, under every exit rule, ends flat with cash = capital + sum of net results = capital + sum of gross results - sum of costs; realised profit, trade count, losing streak and each recorded equity agree with the trade log |
| `Ledger.LoopBalances` | backtesting/engine.py:75-135 | On every bar of every run the books balance: cash + cost basis + entry fee not yet charged = capital + booked results, cash never below minus the entry fee plus what a partial take brought in after its own fee, peak equity never below equity or capital |
| `Marking.EquityAtDecision` | backtesting/engine.py:81-98 | At every decision the account is worth its cash and the units left at the bar's close, or at the take price on a scale-out bar, and the peak has taken in the worth of what was held into the bar at its close, a bar that stops it out included |
| `Marking.EquityIsWorth` | risk/account.py:45-73 | Before every bar of every run the equity is cash plus the units held at the price they were last valued at, their fill price on the evening of the entry |
| `Marking.PeakIsGreatestValue` | risk/account.py:105-106 | The peak equity is the greatest value the account has had since the start, and one it did have |
| `Marking.DayStartsFromWorth` | risk/account.py:59-65 | On every bar the daily loss is measured from what the account was worth before the first bar of that day |
| `Marking.RecordedIsChecked` | backtesting/engine.py:91-98 | The equity recorded with a trade is the cash and whatever units are left after it, valued at the price they were last valued at |
| `Ledger.HoldingsMatch` | backtesting/engine.py:79-135 | The account holds exactly the units of the open position on every bar, so a position is never opened twice or closed when there is none |
| `Ledger.AffordableIsLargest` | backtesting/engine.py:121-125 | The entered quantity is the approved one, or the largest the cash can pay at the fill price when the approved one is too expensive |
| `LookAhead.StatesAgree` | backtesting/engine.py:75-135 | For a causal strategy, series that agree on their first m bars give the same state on every bar before m - 1 and the same exits on bar m - 1 |
| `LookAhead.NoLookAhead` | backtesting/engine.py:75-154 | Cutting the data after m bars leaves exactly the trades the full run closed by then, plus at most one END_OF_DATA trade on the last bar |
| `TradeLog.EveryTradeIsExplained` | backtesting/engine.py:81-154 | Every trade of every run is what one position, entered by the signal and risk decision of the bar before, comes to when followed bar by bar on its own, and nothing a bar does to an opened position is missing from the log; positions never overlap, each exit bar lies strictly before the next entry bar |
| `ExitPrices.EntersIff` | backtesting/engine.py:100-135 | When a position is opened and which: a flat account with a bar left to fill on follows a long, approved signal for the most of the approved units that the cash pays at the slipped open, and nothing else opens one |
| `ExitPrices.EveryTradeTells` | backtesting/execution.py:32-83 | Every trade of every run under every rule, read off its bars: entry at the slipped open of the bar after the signal, exit price, quantity and reason as the rule gives them for the bar (the close for an expiry, the tested level for a trailing stop, the moved stop for a breakeven one), results as price difference times units less both fees, and net = R-multiple times the money at risk |
| `ExitPrices.LivesOnIff` | backtesting/exit_experiments.py:72-99 | Under every rule a position lives through exactly the bars that stay strictly above the stop or level they are tested against and strictly below the target, if the rule has one, and are not the last a cap allows |
| `ExitRules.StandardRide` | backtesting/execution.py:32-44 | A position survives to a bar exactly when every held bar before stayed strictly between stop and target |
| `Positions.SoundOnBar` | backtesting/execution.py:32-44 | Whatever a bar does to a position, what remains keeps the invariant that ties its remaining units, its fee and its exit state together |
| `Accounts.Account.OpenPosition` | risk/account.py:75-87 | Refuses a non-positive quantity or a second position and changes nothing; otherwise charges notional and fee to cash and updates the peak |
| `Accounts.Account.ClosePosition` | risk/account.py:89-103 | Refuses when flat; otherwise books proceeds less fee, the result, the streak and the count, and leaves the account flat |
| `Accounts.Account.PartialClose` | backtesting/exit_experiments.py:372-389 | Books one leg's proceeds less its own fee and releases that leg's cost basis, then marks the rest to the exit price |
| `RiskEngine.ApprovedIff` | risk/engine.py:44-188 | Whether the evaluation raises or approves, step by step: it raises exactly where it divides by zero, and otherwise approves exactly when every one of its own conditions holds, with the sized quantity |
| `RiskEngine.DecidedOnInputs` | risk/engine.py:44-188 | What is decided, said on the caller's numbers: it raises exactly for a well-formed signal at a price of zero and an account in debt whose budget buys a unit; otherwise every broken rule is named and nothing else, the size is what the budget, cut in a losing streak, and the cash fit, and it is approved exactly when no rule is broken |
| `RiskEngine.ApprovalIsBounded` | risk/engine.py:95-149 | An approved quantity is at least one and exposes no more than the limit; it costs no more than the cash, and risks no more than the budget, as the largest that both allow, unless a negative reference price meets a debt larger than the requested size, where it is at least the requested one |
| `Costs.SlippageIsAdverse` | backtesting/costs.py:46-54 | A long never buys below nor sells above the quote, and only longs can be filled |
| `Costs.ChargesAreToScale` | backtesting/costs.py:43-54 | Charges are the flat brokerage and the two percentages of the notional; slippage is the entry's or the exit's own basis points of the price |
| `Costs.SplitFillPaysBrokerageTwice` | backtesting/costs.py:43-44 | Two part fills pay the percentages of the whole once and the flat brokerage twice |
| `ExitExperiments.RunBreakevenStopBacktest` | backtesting/exit_experiments.py:139-229 | The loop over a position whose stop is moved in place equals the specification run with the breakeven rule |
| `ExitExperiments.RunPartialProfitBacktest` | backtesting/exit_experiments.py:402-504 | The loop that splits a position in place equals the specification run with the partial-profit rule |
| `ExitExperiments.RunTrailingStopBacktest` | backtesting/exit_experiments.py:652-740 | The loop with the ratcheted stop equals the specification run with the trailing rule |
| `ExitExperiments.RunTimeBasedExitBacktest` | backtesting/exit_experiments.py:829-934 | The loop with the bars-held counter equals the specification run with the time-cap rule |
| `ExitExperiments.BreakevenPosition.CheckExitWithBreakeven` | backtesting/exit_experiments.py:72-99 | Updates the best price and the stop in place before testing them, as the specification's bar outcome does |
| `ExitExperiments.TrailingPosition.CheckExitWithTrailingStop` | backtesting/exit_experiments.py:591-615 | Tests the stop set by earlier bars, and only then ratchets it |
| `Equivalence.ExperimentMatchesIff` | backtesting/exit_experiments.py:149-156 | The breakeven, partial and time-cap experiments return the reference run's trades if and only if their rule would act on no bar of the reference run; then the whole end state is equal |
| `Equivalence.BreakevenControlCase` | backtesting/exit_experiments.py:154-156 | With no held bar reaching +1R the breakeven run is the reference run |
| `Equivalence.PartialControlCase` | backtesting/exit_experiments.py:416-419 | With every held position below two units or short of +1R the partial run is the reference run |
| `Equivalence.TimeCapControlCase` | backtesting/exit_experiments.py:851-854 | With a cap beyond every holding period the time-cap run is the reference run |
| `ExitRules.BreakevenDominates` | backtesting/exit_experiments.py:72-99 | From the same entry the breakeven position closes no later than the standard one, and on a shared stop-out bar at no worse a price |
| `ExitRules.BreakevenStopMovesOnce` | backtesting/exit_experiments.py:85-98 | The stop moves at most once, up from the original to the entry price; afterwards no stop or target exit is below entry when the target is not |
| `ExitRules.PartialKeepsTheExit` | backtesting/exit_experiments.py:330-347 | Taking a partial profit never changes the bar, price or reason of the final exit |
| `ExitRules.PartialIsTakenOnce` | backtesting/exit_experiments.py:345-346 | At most one partial leg, on the first bar to reach +1R, for half the units rounded down, with at least one unit kept |
| `Ledger.PartialLegsShareOneFee` | backtesting/exit_experiments.py:350-358 | The two legs together charge the one entry fee exactly once, and their units add up to the original |
| `Ledger.ScalingOutCostsOneBrokerage` | backtesting/exit_experiments.py:350-369 | Closed at one price, the two legs book the gross result of a single close and pay exactly one more flat brokerage |
| `ExitRules.TrailingClosedForm` | backtesting/exit_experiments.py:601-613 | The level a bar is tested against is the maximum of the original stop and, over the earlier held bars with a valid ATR, the highest high so far less the multiple of that ATR |
| `ExitRules.TrailingNeverFalls` | backtesting/exit_experiments.py:601-613 | The trailing level never falls, is the same whatever the tested bar turns out to be, and is the price of every trailing exit |
| `ExitRules.TimeCapRide` | backtesting/exit_experiments.py:874-894 | A capped position is open exactly while its bars stay inside stop and target and fewer than the cap have been held |
| `ExecutionRobustness.RunExecutionRobustBacktest` | backtesting/execution_robustness.py:91-166 | The loop over account, position and pending fill returns the specification's trades for every sequence of random draws |
| `ExecutionRobustness.NoFillOutlivesTheData` | backtesting/execution_robustness.py:99-164 | Whatever is drawn, no fill is still pending when the data ends, the run ends flat, and cash = capital + net results = capital + gross - costs |
| `FillDraws.ApprovedSignalIsLostIff` | backtesting/execution_robustness.py:143-153 | At a free decision an approved signal is lost exactly when its own draw is below the missed-fill probability; otherwise a second draw below the delay probability, and a bar to be delayed to, put the fill off by one bar |
| `FillDraws.NothingToDecide` | backtesting/execution_robustness.py:143-148 | Without an approved signal, or while something is held or pending, nothing is drawn and nothing changes |
| `FillDraws.DueFillDrawsItsPrice` | backtesting/execution_robustness.py:105-127 | A due fill takes exactly one draw for its price, whether or not it can be paid, and becomes a position of the requested units or the most the cash pays |
| `FillDraws.EveryRobustTradeIsTraced` | backtesting/execution_robustness.py:99-166 | For all unit draws every trade goes back to a decision one bar before its entry, or two where the second draw delayed it, that its first draw did not lose, and its entry price lies between the prices at the two ends of the slippage range |
| `FillDraws.AllMissed` | backtesting/execution_robustness.py:148-153 | With a missed-fill probability of one nothing is ever traded |
| `FillDraws.NoneOrAllDelayed` | backtesting/execution_robustness.py:149-152 | With a delay probability of zero every position enters on the bar after its decision, and of one two bars after it whenever that bar exists |
| `RobustCut.RobustNoLookAheadIff` | backtesting/execution_robustness.py:99-166 | Cutting the data after m bars leaves every trade closed by then as it was, and adds at most the forced close, if and only if it does not pull a delayed fill forward into an exit on the last bar; then it adds that exit |
| `ZeroFrictionIff.ZeroFrictionMatchesIff` | backtesting/execution_robustness.py:99-166 | With no friction the trade list equals the reference engine's if and only if no entry decision turns on whether the day-start equity was taken before or after a fill on the day's first bar |
| `ZeroFrictionIff.ZeroFrictionMatchesWithoutDailyRule` | backtesting/execution_robustness.py:103-127 | Under a risk policy that ignores the day-start equity the two loops always agree |
| `ZeroFrictionIff.ZeroFrictionMatchesWithoutFees` | tests/test_backtest_execution_robustness.py:54-67 | Under a cost model that charges nothing per fill the frictionless run returns the reference engine's trades, whatever the risk policy |
| `FeeTiming.ZeroFrictionMatchesAlwaysIff` | backtesting/execution_robustness.py:103-127 | For a cost model the two agree on all inputs if and only if it charges nothing per fill |
| `DailyLossExample.ZeroFrictionCanDiffer` | backtesting/execution_robustness.py:103-127 | Under the default risk limits and a brokerage of 20 per fill there are bars on which the frictionless run and the reference run return different trades |
| `Equity.BuildEquityCurve` | backtesting/equity.py:19-27 | The loop's points are the starting capital and each recorded equity, each with its decline from the peak so far |
| `Equity.PointTells` | backtesting/equity.py:19-27 | Each point read off the recorded equities: its time and value, and its decline from the highest value so far in percent of it, none while nothing was above zero |
| `Equity.LargestDrawdown` | backtesting/equity.py:21-25 | The largest drawdown on the curve is 100 times the running maximum decline |
| `Drawdown.RunningIsWorstDeclineIff` | backtesting/equity.py:21-25 | The running form is the greatest decline between any two points in time order if and only if the curve never falls below zero, or falls deepest straight from its starting value |
| `Drawdown.RunningIsSomeDecline` | backtesting/equity.py:21-25 | The running form never overstates: it is the decline between some two points, and below one exactly on an all-positive curve |
| `Metrics.MetricsAgreeWithTheRun` | backtesting/metrics.py:36-61 | Reported profit, curve and account agree: gross - costs = net = gain in equity, the curve ends at the account's equity, the risk engine's streak never exceeds the reported one, and the profit factor exceeds one exactly when equity grew |
| `Metrics.ProfitFactorAboveOne` | backtesting/metrics.py:44-51 | The profit factor exists exactly when some trade lost, and exceeds one exactly when the trades made money |
| `Metrics.AveragesKeepTheirSign` | backtesting/metrics.py:47-50 | Average winner positive, average loser negative, win rate a percentage |
| `Metrics.FiguresAreMeans` | backtesting/metrics.py:41-51 | The averages times their counts are the sums they stand for, the win rate is the percentage of winners, and the profit factor times what was lost is what was won; each is absent or zero exactly without trades to divide by |
| `Metrics.SortedBySign` | backtesting/metrics.py:37-38 | Winners and losers are exactly the trades with a positive and a negative result, each as often as it occurs |
| `Metrics.SumsOverParts` | backtesting/metrics.py:40-45 | The three sums add up over any cut of the trade list and are the trade's own figures on one trade |
| `Metrics.MaxConsecutiveLosses` | backtesting/metrics.py:84-92 | Some block of that many consecutive trades all lost, and no longer block did |
| `Metrics.LastTradeIsWhole` | backtesting/exit_experiments.py:449-459 | No run ends on a partial take |
| `Forensics.ExcursionsMatchExits` | backtesting/forensics.py:44-61 | Re-walking a trade's bars finds why it ended: the adverse excursion reaches the stop distance exactly for a stop-out, and among the others the favourable one reaches the target distance exactly for a target |
| `Forensics.EveryExcursionMatches` | backtesting/forensics.py:44-61 | The same for all trades of a reference run at once |
| `Forensics.WindowIsSlice` | backtesting/forensics.py:50-52 | On a chronological series the time window of a trade is the slice of bars it was held |
| `WalkForward.SplitIntoNFolds` | backtesting/walk_forward.py:49-61 | Rejects fewer than two folds or an empty span; otherwise returns n windows of the span's nth part, as the clock at hand divides it, the last one ending at the end |
| `WalkForward.SplitRunsForwardIff` | backtesting/walk_forward.py:54-60 | The windows are always contiguous from start to end; they run forward in time if and only if the common length does not overshoot, which pandas timestamps never do and datetimes do not from a span of n(n-1)/2 microseconds on; the last window has the common length exactly when n divides the span |
| `WalkForward.SplitCanOvershoot` | backtesting/walk_forward.py:41-42 | Five folds of three microseconds of datetime: the last window runs backward |
| `WalkForward.SlicesShareTheBars` | backtesting/walk_forward.py:133-135 | Every bar falls in some slice and, on windows that run forward, in two of them exactly when it sits on both their edges; with a positive common length only neighbours share one |
| `WalkForward.SliceHolds` | backtesting/walk_forward.py:135-135 | A slice holds exactly the bars whose time lies in its closed window |
| `Profitability.WilsonInvertsTheScoreTest` | learning/profitability.py:142-146 | The interval is exactly the set of rates the score test at z accepts |
| `Profitability.WilsonNeedsNoClamp` | learning/profitability.py:139-146 | For 0 <= wins <= n, n > 0 the unclamped interval already lies in [0, 1] and contains wins / n, so the clamps never bite |
| `Profitability.VerdictIsSignificance` | learning/profitability.py:240-257 | No verdict below thirty returns; otherwise the sign of the mean when its square exceeds z squared times the variance of the mean, and MEANINGLESS exactly when it does not |
| `Profitability.ComputeMaxDrawdown` | learning/profitability.py:168-179 | None for no returns; otherwise the running maximum decline of the compounded equity |
| `Profitability.DrawdownIsWorstDeclineIff` | learning/profitability.py:171-179 | It is the worst decline between any two points of the compounded curve if and only if no return below -1 comes before a return of exactly -1, or the curve falls deepest straight from its start; it is in [0, 1) exactly when every return is above -1 |
| `Profitability.CompoundedStaysUpIff` | learning/profitability.py:171-175 | The compounded curve falls below zero exactly when some return is below -1 and none before it is -1 |
| `Profitability.DrawdownBelowZero` | learning/profitability.py:171-179 | On returns of -0.5 and -3 the figure is 2 and the worst decline 3 |
| `ReturnSums.ReturnsCompound` | learning/profitability.py:171-175 | The compounded curve starts at one, each return is its relative change, and two lists of returns compound to the product of what each comes to |
| `ReturnSums.VarianceOnSums` | learning/profitability.py:149-154 | n(n - 1) times the sample variance is n times the sum of squares less the square of the sum |
| `ReturnSums.VerdictOnSums` | learning/profitability.py:240-257 | The verdict by two sums alone, without mean, variance or root: none below thirty returns, otherwise the sign of the total when it is significant |
| `ReturnSums.MeanIntervalOnSums` | learning/profitability.py:157-165 | Where the confidence interval of the mean has its middle and how wide it is, by the same sums |
| `ReturnSums.WilsonOnCounts` | learning/profitability.py:139-146 | The win-rate interval by the counts alone: the rates p whose squared gap n p - wins is within z squared times the binomial variance |
| `Profitability.ComputeReport` | learning/profitability.py:217-269 | The win rate is the share of positive returns, its interval the Wilson one, which contains it within [0, 1]; the expectancy is the mean with its confidence interval, the drawdown the running one, and the verdict the significance of the mean |
| `Critic.Evaluate` | critic/engine.py:43-223 | Raises exactly for a non-BUY or another symbol; otherwise returns the thirteen checks, the failures of each severity, the verdict and its explanations |
| `Critic.VerdictIff` | critic/engine.py:195-218 | When each verdict is given, as a condition on the set of failing checks: REJECT exactly when a hard check fails, then too little evidence, then the number of failing warnings against the threshold |
| `Critic.Explain` | critic/engine.py:209-215 | The explanation lookup finds a failed check for every name, and that check's own explanation |
| `Critic.FailuresCounted` | critic/engine.py:195-196 | The failure lists name each failing check of their severity exactly once |
| `Critic.ReasonsIff` | critic/engine.py:198-223 | The reasons given are, for a rejection, the failing disqualifying checks and, for a downgrade, the failing warnings, each once and in the order they were made; otherwise the verdict's own |
| `Critic.MoreFailuresNeverSoften` | critic/engine.py:198-218 | With the same evidence, failing more checks never lowers the verdict in APPROVE < DOWNGRADE < INSUFFICIENT_EVIDENCE < REJECT |
| `Critic.PassedIsSafe` | critic/engine.py:55-124 | An approved or downgraded trade has no reported kill switch, no pending order or open position, ordered prices, scanner evidence, and market context that is neither stale nor from the future if there is any |
| `Critic.WarningsOnInputs` | critic/engine.py:55-193 | Which of the seven warnings fail, said on the caller's inputs |
| `Critic.NoHardFailureIff` | critic/engine.py:55-124 | No disqualifying check fails exactly under conditions on the signal, the situation and the age of the indicators |
| `CriticGates.CriticGate.constructor` | live/critic_gate.py:84-123 | An empty cache, and a staleness bound of three refresh intervals unless another is given |
| `CriticGates.CriticGate.RefreshIfNeeded` | live/critic_gate.py:129-162 | Both fetches or neither change the evidence; every attempt advances the retry timer |
| `CriticGates.CriticGate.Evaluate` | live/critic_gate.py:167-255 | Refreshes, then blocks without evidence, on stale evidence, on any exception and on a blocking verdict, with the reason of each |
| `GateTraces.CacheTellsTheTrace` | live/critic_gate.py:129-162 | After any calls the cache holds the candidate and benchmark of the last complete refresh and never a mixture of two |
| `GateTraces.OpensIff` | live/critic_gate.py:177-255 | On any run of calls the gate opens if and only if the last complete refresh found the symbol, is within the staleness bound, and its candidate and benchmark together survive the critic |
| `GateTraces.OpensOnInputsIff` | live/critic_gate.py:60-255 | The gate opens exactly when the last complete refetch found the symbol within the bound, indicators and confidence came, and no disqualifying condition holds on the caller's inputs, whatever number of warnings fail: a downgraded trade passes as an approved one does |
| `GateTraces.ReasonsTell` | live/critic_gate.py:167-255 | Each reason for blocking is given exactly in its case, a failed check only when that check disqualifies, and never a bare verdict |
| `GateTraces.WhyWithoutCandidate` | live/critic_gate.py:140-193 | Without a candidate the reason is the last attempt's error, the scan's before the benchmark's, or the reason that attempt gave for excluding the symbol, if any |
| `GateTraces.FoundIsFirst` | live/critic_gate.py:152-158 | What is found under a symbol is the first entry filed under it |
| `GateTraces.OpenOnOneFreshRefetch` | live/critic_gate.py:152-193 | The decision and assessment behind an open gate come from one and the same complete refresh, the latest, at most the bound old |
| `GateTraces.AttemptedIff` | live/critic_gate.py:129-132 | Under a clock that never goes back, a call fetches if and only if no attempt, successful or not, was made less than the refresh interval before |
| `GateTraces.OpenIsSafe` | live/critic_gate.py:218-255 | An open gate means: kill switch not reported active, nothing pending or open, ordered prices, and indicators supplied, fresh and not from the future |
| `GateTolerance.ToleratedFailures` | live/critic_gate.py:164-165 | After k failures in a row the evidence is younger than k late attempts plus one refresh interval, and so not stale while that fits the bound |
| `GateTolerance.ForgivesIff` | live/critic_gate.py:102-113 | On every run polled within a period, k failures in a row never make the evidence stale if and only if k attempts that each come a period late, one more interval and the call's own delay fit the staleness bound |
| `GateTolerance.OneFailureForgivenIff` | live/critic_gate.py:109-111 | With the default bound one failed refresh is forgiven if and only if the polling period and the call's own delay together fit one refresh interval |
| `GateTolerance.TwoFailuresForgivenIff` | live/critic_gate.py:109-111 | With the default bound two failed refreshes in a row are not forgiven at any positive polling period |
| `GapMonitor.BarGapMonitor.RecordNewBar` | live/gap_monitor.py:83-93 | Restarts the gap clock and clears the report state |
| `GapMonitor.BarGapMonitor.Check` | live/gap_monitor.py:95-116 | One step of the alarm, on the object's fields |
| `GapMonitor.ReportsIff` | live/gap_monitor.py:95-116 | On any time-ordered run a poll reports if and only if the silence since the last bar exceeds the threshold and no report of this gap was made less than the repeat interval before; the report is new exactly when it is the gap's first |
| `GapMonitor.ReportsAreRateLimited` | live/gap_monitor.py:109-115 | k reports of one gap take more than k - 1 repeat intervals beyond the threshold |
| `Reconciliation.ReconcileAgainstBroker` | live/broker_reconciliation.py:27-74 | Every discrepancy in positions, cash and trade counts is reported exactly once, and nothing else is |
| `Reconciliation.OkIff` | live/broker_reconciliation.py:30-74 | A clean report means the positions shown agree symbol by symbol, cash is within tolerance, and the trades are the same multiset of keys |
| `ReconciliationMatches.LastIsShown` | live/broker_reconciliation.py:30-31 | The position compared for a symbol is the last of that symbol, among the local ones the last that is open |
| `ReconciliationMatches.OkIffEverythingMatches` | live/broker_reconciliation.py:30-74 | On lists whose positions are each, in quantity and entry price, the last of their symbol, a clean report means every open position has its match on the other side, and conversely |
| `ReconciliationMatches.LocalSideMatchedIff` | live/broker_reconciliation.py:30-47 | Against every broker a clean report leaves no open local position unmatched if and only if the open local positions are each the last of their symbol in quantity and entry price |
| `ReconciliationMatches.BrokerSideMatchedIff` | live/broker_reconciliation.py:30-47 | Against every local state a clean report leaves nothing the broker reports unmatched if and only if the same holds of the broker's list |
| `Reconciliation.OneIssuePerDifferingKey` | live/broker_reconciliation.py:58-72 | There are exactly as many trade issues as keys whose multiplicities differ |
| `TradePairs.RoundsToNearest` | live/broker_reconciliation.py:52-53 | Rounding to four decimals gives the nearest ten-thousandth, the even one of two that are equally near |
| `TradePairs.SameKeyIff` | live/broker_reconciliation.py:52-53 | Two trades have the same key exactly when symbol, quantity and reason are equal and both prices round to the same ten-thousandth |
| `TradePairs.CleanIffPaired` | live/broker_reconciliation.py:30-74 | A report is clean exactly when the shown positions agree, cash is within a millionth, and the trades of both sides can be paired one to one, each pair the same in symbol, quantity, reason and rounded prices |
| `TradePairs.CleanTradesPairUp` | live/broker_reconciliation.py:55-72 | After a clean report each trade has its partner, whose prices are within 0.0001 of its own |
| `ReconciliationMatches.HiddenBehindALaterPosition` | live/broker_reconciliation.py:30-31 | A broker that reports two positions of one symbol: the report is clean though nothing local matches the first |
| `Approval.SignalLifecycle.TransitionTo` | live/approval.py:105-110 | Succeeds exactly on a legal transition, which it appends to the history; otherwise changes nothing |
| `Approval.ExecutionNeedsAHuman` | live/approval.py:58-87 | Human approval is required if and only if every legal history reaches EXECUTED only right after PENDING_HUMAN_APPROVAL and HUMAN_APPROVED |
| `Approval.HistoryIsShort` | live/approval.py:58-87 | No state repeats and no history is longer than six states |
| `Approval.LivesIff` | live/approval.py:58-87 | The complete lives of a signal, all of them: exactly the listed ends can be reached, with or without a required human |
| `Approval.SignalLifecycle.TerminalIff` | live/approval.py:112-117 | A lifecycle reports itself terminal exactly when no transition is legal |

## Left out

- Floating point: rounding, NaN and infinities; all arithmetic is exact, and the square root of the statistics is any function with the defining property.
- The risk engine's veto of non-finite values, its explanation text and its risk summary: without NaN there is nothing to veto, and the text drives no decision.
- The list of signal records that the reference loop also returns, and the period labels: they are written and never read by the loop.
- The four universe runners and the pooling of walk-forward trades over symbols: loops of fetches around the modelled functions.
- R-multiple averages, expectancy in R, largest win and largest loss of the metrics: plain folds that would add easy members; each trade's own R-multiple is modelled.
- Per-trade returns, sign flips and percentiles of the robustness study, the random baseline and market regimes: sampling and summary statistics.
- Sector grouping, average win and loss, profit factor, volatility and reasoning text of the profitability report.
- Strategy signals, indicators, the scanner's scores and the confidence computation: opaque inputs; the confidence is a function that may fail.
- Time zones and calendar days: a bar carries its time and its day.
- Wording of issues, explanations and block reasons: each is a value that names its case and carries its numbers.
- Storage, network, command line, dashboards and language-model narration.
- A lifecycle created in a later state or with a history of its own: every modelled one starts at SIGNAL_GENERATED.
- The normalisation of the gate's symbol to upper case without surrounding blanks: the symbol is taken as already normalised.
- GateTraces.AttemptedIff: assumes a clock that never goes back, which the default monotonic clock promises.
- WalkForward.SplitIntoNFolds: a pandas Timestamp divides through a float; the truncation modelled is that of the exact quotient.
- RiskEngine.ApprovedQuantity: where the evaluation would raise, the simulators see no approval, while the source's loops end.
