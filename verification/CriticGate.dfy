/** The live critic gate (live/critic_gate.py): a timed evidence cache with a retry timer, a
    separate staleness bound, an all-or-nothing refresh and a fail-closed evaluation. */
module CriticGates {
  import opened Wrappers
  import opened Market
  import opened Critic

  datatype ScanReport = ScanReport(candidates: seq<(string, Scanner)>, excluded: seq<(string, string)>)

  /** The first entry filed under a symbol. */
  function Find<T>(entries: seq<(string, T)>, symbol: string): Option<T> {
    if entries == [] then None
    else if entries[0].0 == symbol then Some(entries[0].1)
    else Find(entries[1..], symbol)
  }

  /** What the data provider would answer to an attempt: either of the two fetches may raise. */
  datatype Fetch = Fetch(scan: Result<ScanReport, string>, benchmark: Result<Regime, string>)
  {
    predicate Succeeds() {
      scan.Success? && benchmark.Success?
    }

    function Error(): string
      requires !Succeeds()
    {
      if scan.Failure? then scan.error else benchmark.error
    }
  }

  datatype Settings = Settings(symbol: string, config: CriticConfig, confidence: Scanner -> Result<real, string>,
                               refreshSeconds: real, maxStaleness: real)

  datatype GateState = GateState(candidate: Option<Scanner>, exclusionReason: Option<string>, benchmark: Option<Regime>,
                                 lastRefresh: Option<real>, lastRefreshError: Option<string>,
                                 lastSuccessfulRefresh: Option<real>)

  const INITIAL := GateState(None, None, None, None, None, None)

  /** One call of evaluate(): the two clock readings it takes, what the provider would answer, and
      the trade. Indicators that cannot be converted raise. */
  datatype Call = Call(refreshAt: real, checkAt: real, fetch: Fetch, signal: Signal,
                       indicators: Option<Result<MarketContext, string>>, now: int,
                       killSwitch: Option<bool>, pendingOrder: bool, openPosition: bool)

  datatype BlockReason =
    | NotBlocked | Stale | NoCandidate(why: string) | EvaluationRaised(error: string)
    | Because(detail: Message) | TooLittle | VerdictAlone(verdict: Verdict)

  datatype GateResult = GateResult(blocked: bool, reason: BlockReason, assessment: Option<Assessment>,
                                   decision: Option<Decision>)

  // ---- one call, as functions of the state ----

  predicate Due(g: Settings, s: GateState, now: real) {
    s.lastRefresh.None? || now - s.lastRefresh.value >= g.refreshSeconds
  }

  function Refreshed(g: Settings, s: GateState, now: real, fetch: Fetch): GateState {
    if !Due(g, s, now) then s
    else if fetch.Succeeds() then
      var candidate := Find(fetch.scan.value.candidates, g.symbol);
      GateState(candidate, if candidate.None? then Find(fetch.scan.value.excluded, g.symbol) else None,
                Some(fetch.benchmark.value), Some(now), None, Some(now))
    else s.(lastRefresh := Some(now), lastRefreshError := Some(fetch.Error()))
  }

  predicate StaleAt(g: Settings, s: GateState, now: real) {
    s.lastSuccessfulRefresh.None? || now - s.lastSuccessfulRefresh.value > g.maxStaleness
  }

  predicate Blocks(verdict: Verdict) {
    verdict == Reject || verdict == InsufficientEvidence
  }

  /** The proposal put before the critic: always a BUY, never with research. */
  function Proposed(g: Settings, candidate: Scanner, context: Option<MarketContext>, confidence: real): Decision {
    Decision(Buy, g.symbol, Some(candidate), context, false, Some(confidence))
  }

  function SituationOf(benchmark: Option<Regime>, call: Call): Situation {
    Situation(call.now, call.killSwitch, call.pendingOrder, call.openPosition, benchmark)
  }

  /** The part of evaluate() whose every exception blocks. */
  function Scrutinise(g: Settings, candidate: Scanner, benchmark: Option<Regime>, call: Call)
    : Result<(Decision, Assessment), string>
  {
    if call.indicators.Some? && call.indicators.value.Failure? then Failure(call.indicators.value.error)
    else
      var context := if call.indicators.Some? then Some(call.indicators.value.value) else None;
      var confidence := g.confidence(candidate);
      if confidence.Failure? then Failure(confidence.error)
      else if g.symbol != call.signal.symbol then Failure("Decision symbol does not match signal symbol.")
      else
        var decision := Proposed(g, candidate, context, confidence.value);
        Success((decision, AssessmentOf(g.config, decision, call.signal, SituationOf(benchmark, call))))
  }

  function WhyNoCandidate(s: GateState): string {
    if s.lastRefreshError.Some? then s.lastRefreshError.value
    else if s.exclusionReason.Some? && s.exclusionReason.value != "" then s.exclusionReason.value
    else "excluded from screening or no history"
  }

  function ReasonOf(a: Assessment): BlockReason {
    if !Blocks(a.verdict) then NotBlocked
    else match a.reasons
      case NoEvidence => TooLittle
      case Explained(details) => if details == [] then VerdictAlone(a.verdict) else Because(details[0])
      case AllPassed => VerdictAlone(a.verdict)
  }

  /** The answer, once the cache has been refreshed. */
  function Judged(g: Settings, s: GateState, call: Call): GateResult {
    if s.candidate.None? then GateResult(true, NoCandidate(WhyNoCandidate(s)), None, None)
    else if StaleAt(g, s, call.checkAt) then GateResult(true, Stale, None, None)
    else match Scrutinise(g, s.candidate.value, s.benchmark, call)
      case Failure(error) => GateResult(true, EvaluationRaised(error), None, None)
      case Success((decision, a)) => GateResult(Blocks(a.verdict), ReasonOf(a), Some(a), Some(decision))
  }

  /** The gate as the source has it: an object that overwrites its cache. */
  class CriticGate {
    const settings: Settings
    var candidate: Option<Scanner>
    var exclusionReason: Option<string>
    var benchmark: Option<Regime>
    var lastRefresh: Option<real>
    var lastRefreshError: Option<string>
    var lastSuccessfulRefresh: Option<real>

    ghost function State(): GateState
      reads this
    {
      GateState(candidate, exclusionReason, benchmark, lastRefresh, lastRefreshError, lastSuccessfulRefresh)
    }

    constructor (symbol: string, config: CriticConfig, confidence: Scanner -> Result<real, string>,
                 refreshSeconds: real, maxStaleness: Option<real>)
      ensures State() == INITIAL
      ensures settings == Settings(symbol, config, confidence, refreshSeconds,
                                   if maxStaleness.Some? then maxStaleness.value else 3.0 * refreshSeconds)
    {
      settings := Settings(symbol, config, confidence, refreshSeconds,
                           if maxStaleness.Some? then maxStaleness.value else refreshSeconds * 3.0);
      candidate, exclusionReason, benchmark := None, None, None;
      lastRefresh, lastRefreshError, lastSuccessfulRefresh := None, None, None;
    }

    method RefreshIfNeeded(now: real, fetch: Fetch)
      modifies this
      ensures State() == Refreshed(settings, old(State()), now, fetch)
    {
      if lastRefresh.Some? && now - lastRefresh.value < settings.refreshSeconds {
        return;
      }
      if fetch.scan.Failure? {
        lastRefreshError := Some(fetch.scan.error);
      } else if fetch.benchmark.Failure? {
        lastRefreshError := Some(fetch.benchmark.error);
      } else {
        candidate := Find(fetch.scan.value.candidates, settings.symbol);
        exclusionReason := if candidate.None? then Find(fetch.scan.value.excluded, settings.symbol) else None;
        benchmark := Some(fetch.benchmark.value);
        lastRefreshError := None;
        lastSuccessfulRefresh := Some(now);
      }
      lastRefresh := Some(now);
    }

    predicate IsStale(now: real)
      reads this
    {
      lastSuccessfulRefresh.None? || now - lastSuccessfulRefresh.value > settings.maxStaleness
    }

    method Evaluate(call: Call) returns (r: GateResult)
      modifies this
      ensures State() == Refreshed(settings, old(State()), call.refreshAt, call.fetch)
      ensures r == Judged(settings, State(), call)
    {
      hide AssessmentOf, Refreshed;
      RefreshIfNeeded(call.refreshAt, call.fetch);
      if candidate.None? || IsStale(call.checkAt) {
        if candidate.Some? {
          return GateResult(true, Stale, None, None);
        } else if lastRefreshError.Some? {
          return GateResult(true, NoCandidate(lastRefreshError.value), None, None);
        } else if exclusionReason.Some? && exclusionReason.value != "" {
          return GateResult(true, NoCandidate(exclusionReason.value), None, None);
        }
        return GateResult(true, NoCandidate("excluded from screening or no history"), None, None);
      }
      var scrutiny := Examine(call);
      if scrutiny.Failure? {
        return GateResult(true, EvaluationRaised(scrutiny.error), None, None);
      }
      var (decision, assessment) := scrutiny.value;
      return GateResult(Blocks(assessment.verdict), ReasonOf(assessment), Some(assessment), Some(decision));
    }

    method Examine(call: Call) returns (r: Result<(Decision, Assessment), string>)
      requires candidate.Some?
      ensures r == Scrutinise(settings, candidate.value, benchmark, call)
    {
      var context: Option<MarketContext> := None;
      if call.indicators.Some? {
        var converted :- call.indicators.value;
        context := Some(converted);
      }
      var confidence :- settings.confidence(candidate.value);
      var decision := Proposed(settings, candidate.value, context, confidence);
      var outcome := Critic.Evaluate(settings.config, decision, call.signal, SituationOf(benchmark, call));
      if outcome.Failure? {
        return Failure("Decision symbol does not match signal symbol.");
      }
      return Success((decision, outcome.value));
    }
  }
}
