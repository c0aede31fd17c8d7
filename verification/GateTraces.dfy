/** What the critic gate guarantees over every run of calls, whatever the clock and the data
    provider do (live/critic_gate.py:129-193). */
module GateTraces {
  import opened Wrappers
  import opened Critic
  import opened CriticGates

  type Trace = seq<Call>

  function StateBefore(g: Settings, calls: Trace, n: nat): GateState
    requires n <= |calls|
    decreases n, 0
  {
    if n == 0 then INITIAL else StateAfter(g, calls, n - 1)
  }

  /** The cache that call `n` judges with. */
  function StateAfter(g: Settings, calls: Trace, n: nat): GateState
    requires n < |calls|
    decreases n, 1
  {
    Refreshed(g, StateBefore(g, calls, n), calls[n].refreshAt, calls[n].fetch)
  }

  function ResultOf(g: Settings, calls: Trace, n: nat): GateResult
    requires n < |calls|
  {
    Judged(g, StateAfter(g, calls, n), calls[n])
  }

  lemma AfterIsBeforeTheNext(g: Settings, calls: Trace, n: nat)
    requires n < |calls|
    ensures StateBefore(g, calls, n + 1) == StateAfter(g, calls, n)
  {
  }

  // ---- the same run told through its attempts, without the cache ----

  /** The last of the first `n` calls that went to the provider. */
  function LastAttempt(g: Settings, calls: Trace, n: nat): (last: Option<nat>)
    requires n <= |calls|
    ensures last.Some? ==> last.value < n
  {
    if n == 0 then None
    else
      var before := LastAttempt(g, calls, n - 1);
      if before.None? || calls[n - 1].refreshAt - calls[before.value].refreshAt >= g.refreshSeconds then Some(n - 1)
      else before
  }

  predicate Attempted(g: Settings, calls: Trace, n: nat)
    requires n < |calls|
  {
    LastAttempt(g, calls, n + 1) == Some(n)
  }

  predicate Refetched(g: Settings, calls: Trace, n: nat)
    requires n < |calls|
  {
    Attempted(g, calls, n) && calls[n].fetch.Succeeds()
  }

  /** The last of the first `n` calls that got both fetches back. */
  function LastRefetch(g: Settings, calls: Trace, n: nat): (last: Option<nat>)
    requires n <= |calls|
    ensures last.Some? ==> last.value < n && Refetched(g, calls, last.value)
    ensures forall k :: (if last.Some? then last.value + 1 else 0) <= k < n ==> !Refetched(g, calls, k)
  {
    if n == 0 then None
    else if Refetched(g, calls, n - 1) then Some(n - 1)
    else LastRefetch(g, calls, n - 1)
  }

  /** The cache holds exactly the evidence of the last refetch, never a mixture of two. */
  ghost predicate Tells(g: Settings, calls: Trace, n: nat, s: GateState)
    requires n <= |calls|
  {
    var attempt, refetch := LastAttempt(g, calls, n), LastRefetch(g, calls, n);
    && s.lastRefresh == (if attempt.Some? then Some(calls[attempt.value].refreshAt) else None)
    && match refetch
       case None => s.candidate.None? && s.lastSuccessfulRefresh.None?
       case Some(m) =>
         && s.candidate == Find(calls[m].fetch.scan.value.candidates, g.symbol)
         && s.benchmark == Some(calls[m].fetch.benchmark.value)
         && s.lastSuccessfulRefresh == Some(calls[m].refreshAt)
  }

  lemma {:induction false} CacheTellsTheTrace(g: Settings, calls: Trace, n: nat)
    requires n <= |calls|
    ensures Tells(g, calls, n, StateBefore(g, calls, n))
  {
    if n > 0 {
      CacheTellsTheTrace(g, calls, n - 1);
    }
  }

  /** The staleness test asks for the age of the last refetch. */
  lemma StaleIff(g: Settings, calls: Trace, n: nat)
    requires n < |calls|
    ensures StaleAt(g, StateAfter(g, calls, n), calls[n].checkAt) <==>
            var m := LastRefetch(g, calls, n + 1);
            m.Some? ==> calls[n].checkAt - calls[m.value].refreshAt > g.maxStaleness
  {
    hide StateBefore, StateAfter, Find, LastRefetch, LastAttempt;
    AfterIsBeforeTheNext(g, calls, n);
    CacheTellsTheTrace(g, calls, n + 1);
  }

  /** What the critic must find of a trade for the gate to open. */
  predicate Survives(g: Settings, candidate: Scanner, benchmark: Regime, call: Call) {
    var scrutiny := Scrutinise(g, candidate, Some(benchmark), call);
    scrutiny.Success? && !Blocks(scrutiny.value.1.verdict)
  }

  /** The gate opens exactly when the last complete refetch found the symbol, is not too old, and
      its candidate and its benchmark together survive the critic. Everything else blocks. */
  lemma OpensIff(g: Settings, calls: Trace, n: nat)
    requires n < |calls|
    ensures !ResultOf(g, calls, n).blocked <==>
            var m := LastRefetch(g, calls, n + 1);
            m.Some? && var evidence := calls[m.value].fetch;
            var candidate := Find(evidence.scan.value.candidates, g.symbol);
            && candidate.Some?
            && calls[n].checkAt - calls[m.value].refreshAt <= g.maxStaleness
            && Survives(g, candidate.value, evidence.benchmark.value, calls[n])
  {
    hide Scrutinise, Find, StateBefore, Refreshed, LastRefetch, LastAttempt;
    AfterIsBeforeTheNext(g, calls, n);
    CacheTellsTheTrace(g, calls, n + 1);
  }

  /** When the gate lets an evaluated trade through, on the caller's inputs: whatever the number of failing
      warnings, it asks that nothing speaks against the trade that would be disqualifying on its own. */
  lemma PassesIff(g: Settings, candidate: Scanner, benchmark: Regime, call: Call)
    ensures Survives(g, candidate, benchmark, call) <==>
            && call.indicators.Some? && call.indicators.value.Success? && g.confidence(candidate).Success?
            && call.signal.symbol == g.symbol
            && call.killSwitch != Some(true) && !call.pendingOrder && !call.openPosition
            && call.signal.stop < call.signal.reference < call.signal.target
            && call.indicators.value.value.asOf <= call.now + g.config.futureTolerance
            && call.now - call.indicators.value.value.asOf <= g.config.maxStaleness
  {
    var scrutiny := Scrutinise(g, candidate, Some(benchmark), call);
    if scrutiny.Success? {
      var (d, a) := scrutiny.value;
      VerdictIff(g.config, d, call.signal, SituationOf(Some(benchmark), call));
      NoHardFailureIff(g.config, d, call.signal, SituationOf(Some(benchmark), call));
    }
    hide Records, FailedOf, VerdictFor, Failing;
  }

  /** The gate opens exactly when the last complete refetch found the symbol and is not too old, the
      indicators came and could be read, the confidence could be computed, the symbols are the same, and none
      of the disqualifying conditions holds. A downgraded trade passes as an approved one does. */
  lemma OpensOnInputsIff(g: Settings, calls: Trace, n: nat)
    requires n < |calls|
    ensures !ResultOf(g, calls, n).blocked <==>
            var m, call := LastRefetch(g, calls, n + 1), calls[n];
            m.Some? && var candidate := Find(calls[m.value].fetch.scan.value.candidates, g.symbol);
            && candidate.Some?
            && call.checkAt - calls[m.value].refreshAt <= g.maxStaleness
            && call.indicators.Some? && call.indicators.value.Success? && g.confidence(candidate.value).Success?
            && call.signal.symbol == g.symbol
            && call.killSwitch != Some(true) && !call.pendingOrder && !call.openPosition
            && call.signal.stop < call.signal.reference < call.signal.target
            && call.indicators.value.value.asOf <= call.now + g.config.futureTolerance
            && call.now - call.indicators.value.value.asOf <= g.config.maxStaleness
  {
    hide ResultOf, LastRefetch, Survives, Find;
    OpensIff(g, calls, n);
    var m := LastRefetch(g, calls, n + 1);
    if m.Some? && Find(calls[m.value].fetch.scan.value.candidates, g.symbol).Some? {
      var evidence := calls[m.value].fetch;
      PassesIff(g, Find(evidence.scan.value.candidates, g.symbol).value, evidence.benchmark.value, calls[n]);
    }
  }

  /** The evidence behind an open gate is one refetch, the latest, within the bound. */
  lemma OpenOnOneFreshRefetch(g: Settings, calls: Trace, n: nat) returns (m: nat)
    requires n < |calls|
    requires !ResultOf(g, calls, n).blocked
    ensures m <= n && Refetched(g, calls, m)
    ensures forall k :: m < k <= n ==> !Refetched(g, calls, k)
    ensures calls[n].checkAt - calls[m].refreshAt <= g.maxStaleness
    ensures var evidence, r := calls[m].fetch, ResultOf(g, calls, n);
            && r.decision.Some? && r.decision.value.scanner == Find(evidence.scan.value.candidates, g.symbol)
            && r.assessment == Some(AssessmentOf(g.config, r.decision.value, calls[n].signal,
                                                 SituationOf(Some(evidence.benchmark.value), calls[n])))
  {
    hide AssessmentOf, Find, StateBefore, Refreshed, LastRefetch, LastAttempt;
    AfterIsBeforeTheNext(g, calls, n);
    CacheTellsTheTrace(g, calls, n + 1);
    m := LastRefetch(g, calls, n + 1).value;
  }

  /** An open gate, down to what the caller reported: the kill switch was not reported active,
      nothing was pending or open, the prices were in order, and indicators were supplied that are
      neither stale nor beyond the clock tolerance. */
  lemma OpenIsSafe(g: Settings, calls: Trace, n: nat)
    requires n < |calls|
    requires !ResultOf(g, calls, n).blocked
    ensures var call := calls[n];
            && call.killSwitch != Some(true) && !call.pendingOrder && !call.openPosition
            && call.signal.symbol == g.symbol
            && call.signal.stop < call.signal.reference < call.signal.target
            && call.indicators.Some? && call.indicators.value.Success?
            && -g.config.futureTolerance <= call.now - call.indicators.value.value.asOf <= g.config.maxStaleness
  {
    hide VerdictOf, Records, FailedOf, Find, Refreshed;
    var r := ResultOf(g, calls, n);
    var s := StateAfter(g, calls, n);
    var d := r.decision.value;
    PassedIsSafe(g.config, d, calls[n].signal, SituationOf(s.benchmark, calls[n]));
  }

  /** What a blocked call says: there is a reason exactly when it blocks; it is staleness only with a
      candidate in the cache, a failed check only when that check disqualifies, and never a bare verdict. */
  lemma ReasonsTell(g: Settings, calls: Trace, n: nat)
    requires n < |calls|
    ensures var r, s := ResultOf(g, calls, n), StateAfter(g, calls, n);
            && (r.blocked <==> r.reason != NotBlocked)
            && (r.reason.NoCandidate? <==> s.candidate.None?)
            && (r.reason.Stale? <==> s.candidate.Some? && StaleAt(g, s, calls[n].checkAt))
            && (r.reason.Because? ==>
                  && r.decision.Some?
                  && var failing := Failing(Hard, g.config, r.decision.value, calls[n].signal, SituationOf(s.benchmark, calls[n]));
                  && r.reason.detail.name in failing
                  && (forall name :: name in failing ==> Critic.Position(r.reason.detail.name) <= Critic.Position(name))
                  && r.reason.detail.evaluated && !r.reason.detail.passed)
            && (r.reason.TooLittle? ==> calls[n].indicators.None?)
            && !r.reason.VerdictAlone?
            && (r.assessment.Some? <==> r.decision.Some?)
            && (r.reason.EvaluationRaised? || r.reason.Stale? || r.reason.NoCandidate? <==> r.assessment.None?)
  {
    hide StateAfter, StaleAt, Records, FailedOf, VerdictOf, WhyNoCandidate, Failing;
    var r, s := ResultOf(g, calls, n), StateAfter(g, calls, n);
    if r.decision.Some? {
      var d, at := r.decision.value, SituationOf(s.benchmark, calls[n]);
      RejectedNames(g.config, d, calls[n].signal, at);
      FirstIsNamed(g.config, d, calls[n].signal, at);
    }
  }

  /** What is found under a symbol is the first entry filed under it. */
  lemma {:induction false} FoundIsFirst<T>(entries: seq<(string, T)>, symbol: string)
    ensures match Find(entries, symbol)
            case None => forall j :: 0 <= j < |entries| ==> entries[j].0 != symbol
            case Some(found) =>
              exists k :: 0 <= k < |entries| && entries[k] == (symbol, found)
                          && forall j :: 0 <= j < k ==> entries[j].0 != symbol
  {
    if entries != [] {
      if entries[0].0 == symbol {
        assert entries[0] == (symbol, entries[0].1);
      } else {
        FoundIsFirst(entries[1..], symbol);
        var found := Find(entries[1..], symbol);
        if found.Some? {
          var k :| 0 <= k < |entries[1..]| && entries[1..][k] == (symbol, found.value)
                   && forall j :: 0 <= j < k ==> entries[1..][j].0 != symbol;
          assert entries[k + 1] == (symbol, found.value);
          forall j | 0 <= j < k + 1
            ensures entries[j].0 != symbol
          {
            assert j > 0 ==> entries[j] == entries[1..][j - 1];
          }
        }
      }
    }
  }

  /** What the cache remembers of the last attempt besides the evidence. */
  ghost predicate Remembers(g: Settings, calls: Trace, n: nat, s: GateState)
    requires n <= |calls|
  {
    match LastAttempt(g, calls, n)
    case None => s.lastRefreshError.None? && s.exclusionReason.None?
    case Some(m) =>
      var fetch := calls[m].fetch;
      match fetch.scan
      case Failure(error) => s.lastRefreshError == Some(error)
      case Success(scan) =>
        match fetch.benchmark
        case Failure(error) => s.lastRefreshError == Some(error)
        case Success(_) =>
          && s.lastRefreshError.None? && s.candidate == Find(scan.candidates, g.symbol)
          && s.exclusionReason
             == if Find(scan.candidates, g.symbol).None? then Find(scan.excluded, g.symbol) else None
  }

  lemma {:induction false} CacheRemembers(g: Settings, calls: Trace, n: nat)
    requires n <= |calls|
    ensures Remembers(g, calls, n, StateBefore(g, calls, n))
  {
    if n > 0 {
      hide Find;
      CacheRemembers(g, calls, n - 1);
      CacheTellsTheTrace(g, calls, n - 1);
    }
  }

  lemma FirstCallAttempts(g: Settings, calls: Trace, n: nat)
    requires 0 < n <= |calls|
    ensures LastAttempt(g, calls, n).Some?
  {
  }

  /** Why there is nothing to judge: the error of the last attempt, the scan's before the benchmark's; or,
      when that attempt came back, the reason it gives for excluding the symbol, if it gives one. */
  lemma WhyWithoutCandidate(g: Settings, calls: Trace, n: nat)
    requires n < |calls| && ResultOf(g, calls, n).reason.NoCandidate?
    ensures LastAttempt(g, calls, n + 1).Some?
    ensures var fetch, why := calls[LastAttempt(g, calls, n + 1).value].fetch, ResultOf(g, calls, n).reason.why;
            if fetch.scan.Failure? then why == fetch.scan.error
            else if fetch.benchmark.Failure? then why == fetch.benchmark.error
            else var excluded := Find(fetch.scan.value.excluded, g.symbol);
                 && Find(fetch.scan.value.candidates, g.symbol).None?
                 && why == if excluded.Some? && |excluded.value| > 0 then excluded.value
                           else "excluded from screening or no history"
  {
    hide Scrutinise, Find, StateBefore, Refreshed, LastRefetch;
    AfterIsBeforeTheNext(g, calls, n);
    FirstCallAttempts(g, calls, n + 1);
    CacheRemembers(g, calls, n + 1);
  }

  // ---- the retry timer ----

  ghost predicate ClockNeverGoesBack(calls: Trace) {
    forall i, j :: 0 <= i < j < |calls| ==> calls[i].refreshAt <= calls[j].refreshAt
  }

  lemma {:induction false} LastAttemptIsLast(g: Settings, calls: Trace, n: nat, k: nat)
    requires k < n <= |calls| && Attempted(g, calls, k)
    ensures var last := LastAttempt(g, calls, n); last.Some? && k <= last.value && Attempted(g, calls, last.value)
  {
    if k < n - 1 {
      LastAttemptIsLast(g, calls, n - 1, k);
    }
  }

  lemma {:induction false} LastAttemptWasMade(g: Settings, calls: Trace, n: nat)
    requires n <= |calls|
    ensures var last := LastAttempt(g, calls, n); last.Some? ==> Attempted(g, calls, last.value)
  {
    if n > 0 {
      LastAttemptWasMade(g, calls, n - 1);
    }
  }

  /** A call goes to the provider exactly when no attempt, successful or not, was made less than
      the refresh interval before: never sooner, and never later than the first call that may. */
  lemma AttemptedIff(g: Settings, calls: Trace, n: nat)
    requires n < |calls|
    requires ClockNeverGoesBack(calls)
    ensures Attempted(g, calls, n) <==>
            forall k :: 0 <= k < n && Attempted(g, calls, k) ==>
              calls[n].refreshAt - calls[k].refreshAt >= g.refreshSeconds
  {
    LastAttemptWasMade(g, calls, n);
    var last := LastAttempt(g, calls, n);
    forall k | 0 <= k < n && Attempted(g, calls, k)
      ensures last.Some? && k <= last.value
    {
      LastAttemptIsLast(g, calls, n, k);
    }
  }
}
