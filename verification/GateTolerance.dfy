/** How many failed refetches in a row the staleness bound of the critic gate forgives
    (live/critic_gate.py:102-113, 164-165). */
module GateTolerance {
  import opened Wrappers
  import opened Reals
  import opened CriticGates
  import opened GateTraces

  /** Consecutive failed attempts since the last refetch. */
  function Failures(g: Settings, calls: Trace, n: nat): nat
    requires n <= |calls|
  {
    if n == 0 || Refetched(g, calls, n - 1) then 0
    else Failures(g, calls, n - 1) + if Attempted(g, calls, n - 1) then 1 else 0
  }

  ghost predicate PolledEvery(calls: Trace, period: real) {
    forall i :: 0 < i < |calls| ==> 0.0 <= calls[i].refreshAt - calls[i - 1].refreshAt <= period
  }

  /** The longest the evidence can wait for `failures` attempts that each come a poll late. */
  function Grace(g: Settings, period: real, failures: nat): real {
    if failures == 0 then 0.0 else Grace(g, period, failures - 1) + g.refreshSeconds + period
  }

  lemma {:induction false} AttemptLag(g: Settings, calls: Trace, period: real, n: nat)
    requires n <= |calls| && g.refreshSeconds > 0.0 && PolledEvery(calls, period)
    requires LastRefetch(g, calls, n).Some?
    ensures var attempt, refetch := LastAttempt(g, calls, n), LastRefetch(g, calls, n).value;
            && attempt.Some?
            && calls[attempt.value].refreshAt - calls[refetch].refreshAt <= Grace(g, period, Failures(g, calls, n))
            && calls[n - 1].refreshAt - calls[attempt.value].refreshAt < g.refreshSeconds
  {
    if !Refetched(g, calls, n - 1) {
      AttemptLag(g, calls, period, n - 1);
    }
  }

  /** After `k` failures in a row the evidence is still younger than k polls-late attempts plus one
      refresh interval. */
  lemma ToleratedFailures(g: Settings, calls: Trace, period: real, n: nat)
    requires n < |calls| && g.refreshSeconds > 0.0 && PolledEvery(calls, period)
    requires LastRefetch(g, calls, n + 1).Some?
    requires var delay := calls[n].checkAt - calls[n].refreshAt;
             delay + Grace(g, period, Failures(g, calls, n + 1)) + g.refreshSeconds <= g.maxStaleness
    ensures !StaleAt(g, StateAfter(g, calls, n), calls[n].checkAt)
  {
    hide StateAfter, StaleAt, LastRefetch, LastAttempt, Failures, Grace, PolledEvery;
    StaleIff(g, calls, n);
    AttemptLag(g, calls, period, n + 1);
  }

  /** Within a call and from call to call, the clock never goes back. */
  ghost predicate ClockRuns(calls: Trace) {
    && (forall i :: 0 <= i < |calls| ==> calls[i].refreshAt <= calls[i].checkAt)
    && (forall i :: 0 < i < |calls| ==> calls[i - 1].checkAt <= calls[i].refreshAt)
  }

  /** However the calls of a gate polled within `period` fall, so many failures in a row never make its
      evidence stale, in a call that takes at most `delay` from its refresh to its staleness test. */
  ghost predicate Forgives(g: Settings, period: real, delay: real, failures: nat) {
    forall calls: Trace, n: nat ::
      n < |calls| && PolledEvery(calls, period) && ClockRuns(calls) && calls[n].checkAt - calls[n].refreshAt <= delay
      && LastRefetch(g, calls, n + 1).Some? && Failures(g, calls, n + 1) <= failures
      ==> !StaleAt(g, StateAfter(g, calls, n), calls[n].checkAt)
  }

  lemma {:induction false} GraceGrows(g: Settings, period: real, fewer: nat, more: nat)
    requires g.refreshSeconds > 0.0 && period >= 0.0 && fewer <= more
    ensures 0.0 <= Grace(g, period, fewer) <= Grace(g, period, more)
    decreases more
  {
    if fewer < more {
      GraceGrows(g, period, fewer, more - 1);
    } else if fewer > 0 {
      GraceGrows(g, period, fewer - 1, more - 1);
    }
  }

  lemma GraceForgives(g: Settings, period: real, delay: real, failures: nat)
    requires g.refreshSeconds > 0.0 && period >= 0.0
    requires Grace(g, period, failures) + g.refreshSeconds + delay <= g.maxStaleness
    ensures Forgives(g, period, delay, failures)
  {
    hide StaleAt, LastRefetch, Failures, StateAfter, PolledEvery, ClockRuns, Grace;
    forall calls: Trace, n: nat | n < |calls| && PolledEvery(calls, period) && ClockRuns(calls)
                                  && calls[n].checkAt - calls[n].refreshAt <= delay
                                  && LastRefetch(g, calls, n + 1).Some? && Failures(g, calls, n + 1) <= failures
      ensures !StaleAt(g, StateAfter(g, calls, n), calls[n].checkAt)
    {
      GraceGrows(g, period, Failures(g, calls, n + 1), failures);
      ToleratedFailures(g, calls, period, n);
    }
  }

  // ---- the bound is sharp ----

  /** What a trace tells about its first calls does not depend on the later ones. */
  lemma {:induction false} PrefixTells(g: Settings, calls: Trace, longer: Trace, n: nat)
    requires n <= |calls| && calls <= longer
    ensures LastAttempt(g, longer, n) == LastAttempt(g, calls, n)
    ensures LastRefetch(g, longer, n) == LastRefetch(g, calls, n) && Failures(g, longer, n) == Failures(g, calls, n)
  {
    if n > 0 {
      PrefixTells(g, calls, longer, n - 1);
    }
  }

  /** The calls between two attempts come too soon after the first. */
  ghost predicate TooSoon(g: Settings, calls: Trace, base: nat, n: nat)
    requires base < n <= |calls|
  {
    forall m :: base < m < n ==> calls[m].refreshAt - calls[base].refreshAt < g.refreshSeconds
  }

  lemma {:induction false} NothingBetween(g: Settings, calls: Trace, base: nat, n: nat)
    requires base < n <= |calls| && Attempted(g, calls, base) && TooSoon(g, calls, base, n)
    ensures LastAttempt(g, calls, n) == Some(base)
    ensures LastRefetch(g, calls, n) == LastRefetch(g, calls, base + 1) && Failures(g, calls, n) == Failures(g, calls, base + 1)
    decreases n
  {
    if n > base + 1 {
      NothingBetween(g, calls, base, n - 1);
    }
  }

  lemma FailedRetry(g: Settings, calls: Trace, base: nat, next: nat)
    requires base < next < |calls| && Attempted(g, calls, base) && TooSoon(g, calls, base, next)
    requires calls[next].refreshAt - calls[base].refreshAt >= g.refreshSeconds && !calls[next].fetch.Succeeds()
    ensures Attempted(g, calls, next)
    ensures LastRefetch(g, calls, next + 1) == LastRefetch(g, calls, base + 1)
    ensures Failures(g, calls, next + 1) == Failures(g, calls, base + 1) + 1
  {
    NothingBetween(g, calls, base, next);
  }

  function At(i: int, step: real): real {
    i as real * step
  }

  lemma AtStep(i: int, step: real)
    ensures At(i + 1, step) == At(i, step) + step && At(0, step) == 0.0
  {
  }

  lemma AtGrows(i: int, j: int, step: real)
    requires i <= j && step > 0.0
    ensures At(i, step) <= At(j, step)
  {
  }

  /** From call `start` on, calls come at a fixed step. */
  ghost predicate Paced(calls: Trace, start: nat, from: real, step: real) {
    forall n :: start <= n < |calls| ==> calls[n].refreshAt == from + At(n - start, step)
  }

  /** Calls at a fixed step; only the last takes any time. */
  function Burst(count: nat, from: real, step: real, delay: real, call: Call): (calls: Trace)
    ensures |calls| == count
  {
    seq(count, i requires 0 <= i < count =>
      var at := from + At(i, step);
      call.(refreshAt := at, checkAt := if i == count - 1 then at + delay else at))
  }

  lemma BurstRuns(count: nat, from: real, step: real, delay: real, call: Call)
    requires count > 0 && step > 0.0 && delay >= 0.0
    ensures var calls := Burst(count, from, step, delay, call);
            && ClockRuns(calls) && PolledEvery(calls, step)
            && calls[0].refreshAt == from && calls[count - 1].refreshAt == from + At(count - 1, step)
            && calls[count - 1].checkAt == calls[count - 1].refreshAt + delay
            && calls[0].fetch == call.fetch && Paced(calls, 0, from, step)
  {
    hide At;
    AtStep(0, step);
    forall i | 0 < i < count
      ensures At(i, step) == At(i - 1, step) + step
    {
      AtStep(i - 1, step);
    }
  }

  /** The time of an attempt after so many, each a whole period after a wait just short of due. */
  function LateAt(wait: real, period: real, failures: nat): real {
    if failures == 0 then 0.0 else LateAt(wait, period, failures - 1) + wait + period
  }

  /** Bursts of polls that stop just before a refresh is due, each a whole period after the one before:
      the first gets the evidence and all others fail to refresh it. */
  ghost predicate Late(g: Settings, calls: Trace, period: real, step: real, count: nat, delay: real, failures: nat) {
    var start := |calls| - count;
    && count > 0 && start >= 0 && PolledEvery(calls, period) && ClockRuns(calls)
    && Attempted(g, calls, start)
    && LastRefetch(g, calls, |calls|) == Some(0) && Failures(g, calls, |calls|) == failures
    && calls[0].refreshAt == 0.0
    && Paced(calls, start, LateAt(At(count - 1, step), period, failures), step)
    && calls[|calls| - 1].checkAt == calls[|calls| - 1].refreshAt + delay
  }

  ghost predicate Rhythm(g: Settings, period: real, step: real, count: nat) {
    && count > 0 && 0.0 < step <= period
    && At(count - 1, step) < g.refreshSeconds <= At(count - 1, step) + period
  }

  lemma BurstTooSoon(g: Settings, calls: Trace, start: nat, from: real, step: real, count: nat)
    requires count > 0 && start + count == |calls| && step > 0.0 && At(count - 1, step) < g.refreshSeconds
    requires Paced(calls, start, from, step)
    ensures TooSoon(g, calls, start, |calls|)
  {
    hide At;
    AtStep(0, step);
    assert calls[start].refreshAt == from + At(0, step);
    forall m | start < m < |calls|
      ensures calls[m].refreshAt - calls[start].refreshAt < g.refreshSeconds
    {
      AtGrows(m - start, count - 1, step);
    }
  }

  lemma FirstBurst(g: Settings, period: real, step: real, count: nat, delay: real, good: Call)
    requires Rhythm(g, period, step, count) && delay >= 0.0 && good.fetch.Succeeds()
    ensures Late(g, Burst(count, 0.0, step, delay, good), period, step, count, delay, 0)
  {
    hide At, Burst, Paced, TooSoon, LastAttempt, LastRefetch, Failures;
    var calls := Burst(count, 0.0, step, delay, good);
    BurstRuns(count, 0.0, step, delay, good);
    BurstTooSoon(g, calls, 0, 0.0, step, count);
    FirstCallRefetches(g, calls);
    NothingBetween(g, calls, 0, count);
  }

  lemma FirstCallRefetches(g: Settings, calls: Trace)
    requires |calls| > 0 && calls[0].fetch.Succeeds()
    ensures Attempted(g, calls, 0) && LastRefetch(g, calls, 1) == Some(0) && Failures(g, calls, 1) == 0
  {
  }

  lemma PollsContinue(earlier: Trace, later: Trace, period: real, step: real)
    requires PolledEvery(earlier, period) && PolledEvery(later, step) && step <= period
    requires ClockRuns(earlier) && ClockRuns(later) && earlier != [] && later != []
    requires earlier[|earlier| - 1].checkAt <= later[0].refreshAt
    requires later[0].refreshAt == earlier[|earlier| - 1].refreshAt + period
    ensures PolledEvery(earlier + later, period) && ClockRuns(earlier + later)
  {
    var calls, n := earlier + later, |earlier|;
    assert forall i :: 0 <= i < n ==> calls[i] == earlier[i];
    assert forall i :: n <= i < |calls| ==> calls[i] == later[i - n];
    forall i | 0 < i < |calls|
      ensures calls[i - 1].checkAt <= calls[i].refreshAt && 0.0 <= calls[i].refreshAt - calls[i - 1].refreshAt <= period
    {
      if i < n {
        assert earlier[i - 1].checkAt <= earlier[i].refreshAt;
      } else if i > n {
        assert later[i - n - 1].checkAt <= later[i - n].refreshAt;
      }
    }
  }

  /** A burst of failures after another burst: its first call is an attempt, its others are not. */
  lemma NextAttempt(g: Settings, earlier: Trace, later: Trace, base: nat)
    requires base < |earlier| && later != [] && Attempted(g, earlier, base)
    requires TooSoon(g, earlier, base, |earlier|) && TooSoon(g, later, 0, |later|)
    requires later[0].refreshAt - earlier[base].refreshAt >= g.refreshSeconds && !later[0].fetch.Succeeds()
    ensures Attempted(g, earlier + later, |earlier|)
    ensures LastRefetch(g, earlier + later, |earlier + later|) == LastRefetch(g, earlier, |earlier|)
    ensures Failures(g, earlier + later, |earlier + later|) == Failures(g, earlier, |earlier|) + 1
  {
    hide LastAttempt, LastRefetch, Failures;
    var calls, next := earlier + later, |earlier|;
    assert forall m :: 0 <= m < next ==> calls[m] == earlier[m];
    assert forall m :: next <= m < |calls| ==> calls[m] == later[m - next];
    PrefixTells(g, earlier, calls, base + 1);
    NothingBetween(g, earlier, base, next);
    FailedRetry(g, calls, base, next);
    forall m | next < m < |calls|
      ensures calls[m].refreshAt - calls[next].refreshAt < g.refreshSeconds
    {
      assert later[m - next].refreshAt - later[0].refreshAt < g.refreshSeconds;
    }
    NothingBetween(g, calls, next, |calls|);
  }

  lemma NextBurst(g: Settings, earlier: Trace, period: real, step: real, count: nat, delay: real, failures: nat, bad: Call)
    requires Rhythm(g, period, step, count) && delay >= 0.0 && !bad.fetch.Succeeds()
    requires Late(g, earlier, period, step, count, 0.0, failures)
    ensures var from := LateAt(At(count - 1, step), period, failures + 1);
            Late(g, earlier + Burst(count, from, step, delay, bad), period, step, count, delay, failures + 1)
  {
    hide At, Burst, Rhythm, Attempted, LastRefetch, Failures, PolledEvery, ClockRuns, LateAt, Paced;
    var from := LateAt(At(count - 1, step), period, failures + 1);
    var later := Burst(count, from, step, delay, bad);
    NextBurstFails(g, earlier, later, period, step, count, delay, failures, bad);
    NextBurstRuns(g, earlier, later, period, step, count, delay, failures, bad);
  }

  lemma NextBurstFails(g: Settings, earlier: Trace, later: Trace, period: real, step: real, count: nat, delay: real,
                       failures: nat, bad: Call)
    requires Rhythm(g, period, step, count) && delay >= 0.0 && !bad.fetch.Succeeds()
    requires Late(g, earlier, period, step, count, 0.0, failures)
    requires later == Burst(count, LateAt(At(count - 1, step), period, failures + 1), step, delay, bad)
    ensures Attempted(g, earlier + later, |earlier|)
    ensures LastRefetch(g, earlier + later, |earlier + later|) == Some(0)
    ensures Failures(g, earlier + later, |earlier + later|) == failures + 1
  {
    hide At, Burst, Attempted, LastRefetch, Failures, PolledEvery, ClockRuns, TooSoon, Paced;
    var wait, base := At(count - 1, step), |earlier| - count;
    var from := LateAt(wait, period, failures);
    BurstRuns(count, LateAt(wait, period, failures + 1), step, delay, bad);
    EndsOfBurst(earlier, base, count, step, from);
    BurstTooSoon(g, earlier, base, from, step, count);
    BurstTooSoon(g, later, 0, LateAt(wait, period, failures + 1), step, count);
    NextAttempt(g, earlier, later, base);
  }

  lemma NextBurstRuns(g: Settings, earlier: Trace, later: Trace, period: real, step: real, count: nat, delay: real,
                      failures: nat, bad: Call)
    requires Rhythm(g, period, step, count) && delay >= 0.0
    requires Late(g, earlier, period, step, count, 0.0, failures)
    requires later == Burst(count, LateAt(At(count - 1, step), period, failures + 1), step, delay, bad)
    ensures var calls := earlier + later;
            && PolledEvery(calls, period) && ClockRuns(calls) && calls[0].refreshAt == 0.0
            && calls[|calls| - 1].checkAt == calls[|calls| - 1].refreshAt + delay
            && Paced(calls, |earlier|, LateAt(At(count - 1, step), period, failures + 1), step)
  {
    hide At, Burst, Attempted, LastRefetch, Failures, PolledEvery, ClockRuns, Paced;
    var wait, base := At(count - 1, step), |earlier| - count;
    var from := LateAt(wait, period, failures + 1);
    BurstRuns(count, from, step, delay, bad);
    EndsOfBurst(earlier, base, count, step, LateAt(wait, period, failures));
    PollsContinue(earlier, later, period, step);
    EndsWith(earlier, later, step, from);
  }

  lemma EndsOfBurst(calls: Trace, start: nat, count: nat, step: real, from: real)
    requires count > 0 && start + count == |calls| && Paced(calls, start, from, step)
    ensures calls[start].refreshAt == from && calls[|calls| - 1].refreshAt == from + At(count - 1, step)
  {
    AtStep(0, step);
  }

  lemma EndsWith(earlier: Trace, later: Trace, step: real, from: real)
    requires earlier != [] && later != [] && Paced(later, 0, from, step)
    ensures Paced(earlier + later, |earlier|, from, step)
    ensures (earlier + later)[|earlier + later| - 1] == later[|later| - 1]
  {
  }

  lemma {:induction false} LatePolls(g: Settings, period: real, step: real, count: nat, delay: real, failures: nat,
                                     good: Call, bad: Call) returns (calls: Trace)
    requires Rhythm(g, period, step, count) && delay >= 0.0 && good.fetch.Succeeds() && !bad.fetch.Succeeds()
    ensures Late(g, calls, period, step, count, delay, failures)
    decreases failures
  {
    hide Late, Rhythm;
    if failures == 0 {
      calls := Burst(count, 0.0, step, delay, good);
      FirstBurst(g, period, step, count, delay, good);
    } else {
      var earlier := LatePolls(g, period, step, count, 0.0, failures - 1, good, bad);
      NextBurst(g, earlier, period, step, count, delay, failures - 1, bad);
      calls := earlier + Burst(count, LateAt(At(count - 1, step), period, failures), step, delay, bad);
    }
  }

  /** Steps within the period that add up to a wait as little short of the interval as asked. */
  lemma JustShort(g: Settings, period: real, short: real) returns (count: nat, step: real)
    requires 0.0 < short < g.refreshSeconds && short <= period
    ensures Rhythm(g, period, step, count) && At(count - 1, step) == g.refreshSeconds - short
  {
    var wait := g.refreshSeconds - short;
    RatioIsPositive(wait, period);
    var ratio := wait / period;
    var steps := ratio.Floor + 1;
    step := wait / steps as real;
    RatioIsPositive(wait, steps as real);
    assert step * steps as real == wait && ratio * period == wait;
    SmallerFactor(wait, ratio, period, step, steps as real);
    count := steps + 1;
  }

  lemma SmallerFactor(product: real, less: real, period: real, step: real, more: real)
    requires less * period == product && step * more == product
    requires 0.0 < less < more && period > 0.0
    ensures step < period
  {
  }

  /** Each attempt of the late polls falls short of the grace by one more shortfall. */
  lemma {:induction false} LateAgainstGrace(g: Settings, period: real, short: real, failures: nat)
    ensures LateAt(g.refreshSeconds - short, period, failures) == Grace(g, period, failures) - At(failures, short)
  {
    if failures == 0 {
      AtStep(0, short);
    } else {
      LateAgainstGrace(g, period, short, failures - 1);
      AtStep(failures - 1, short);
    }
    hide At;
  }

  /** A shortfall so small that so many of it, and one more, do not use up an excess. */
  lemma SmallShortfall(refresh: real, period: real, excess: real, failures: nat) returns (short: real)
    requires refresh > 0.0 && period > 0.0 && excess > 0.0
    ensures 0.0 < short < refresh && short <= period && At(failures, short) + short < excess
  {
    var share := excess / (failures + 1) as real;
    RatioIsPositive(excess, (failures + 1) as real);
    assert share * (failures + 1) as real == excess;
    short := (if share < refresh then if share < period then share else period
              else if refresh < period then refresh else period) / 2.0;
    AtStep(failures, short);
    ScaleLess(short, share, (failures + 1) as real);
  }

  lemma OverTheBound(g: Settings, period: real, delay: real, failures: nat, good: Call, bad: Call)
    requires g.refreshSeconds > 0.0 && period > 0.0 && delay >= 0.0 && good.fetch.Succeeds() && !bad.fetch.Succeeds()
    requires Grace(g, period, failures) + g.refreshSeconds + delay > g.maxStaleness
    ensures !Forgives(g, period, delay, failures)
  {
    hide Forgives, At, LateAt, Grace, Rhythm, Late;
    var excess := Grace(g, period, failures) + g.refreshSeconds + delay - g.maxStaleness;
    var short := SmallShortfall(g.refreshSeconds, period, excess, failures);
    var count, step := JustShort(g, period, short);
    var calls := LatePolls(g, period, step, count, delay, failures, good, bad);
    LateAgainstGrace(g, period, short, failures);
    LateIsStale(g, calls, period, step, count, delay, failures);
  }

  /** Late polls whose last call comes too late for the bound refute it. */
  lemma LateIsStale(g: Settings, calls: Trace, period: real, step: real, count: nat, delay: real, failures: nat)
    requires Late(g, calls, period, step, count, delay, failures)
    requires LateAt(At(count - 1, step), period, failures) + At(count - 1, step) + delay > g.maxStaleness
    ensures !Forgives(g, period, delay, failures)
  {
    hide At, LateAt, LastRefetch, Failures, StateAfter, StaleAt, ClockRuns, PolledEvery, Paced;
    var n: nat := |calls| - 1;
    EndsOfBurst(calls, |calls| - count, count, step, LateAt(At(count - 1, step), period, failures));
    StaleIff(g, calls, n);
  }

  /** Exactly how many failures in a row are forgiven: `k` of them, each attempt a poll late, and one
      more interval must fit the staleness bound, together with what the call itself takes. A gate whose
      calls all fall on one instant makes a single attempt, and needs room for its own delay only. */
  lemma ForgivesIff(g: Settings, period: real, delay: real, failures: nat, good: Call, bad: Call)
    requires g.refreshSeconds > 0.0 && period >= 0.0 && delay >= 0.0
    requires good.fetch.Succeeds() && !bad.fetch.Succeeds()
    ensures Forgives(g, period, delay, failures) <==>
            if period > 0.0 then Grace(g, period, failures) + g.refreshSeconds + delay <= g.maxStaleness
            else delay <= g.maxStaleness
  {
    if period > 0.0 {
      if Grace(g, period, failures) + g.refreshSeconds + delay <= g.maxStaleness {
        GraceForgives(g, period, delay, failures);
      } else {
        OverTheBound(g, period, delay, failures, good, bad);
      }
    } else {
      OneInstant(g, delay, failures, good);
    }
    hide Forgives;
  }

  lemma {:induction false} SameInstant(calls: Trace, n: nat)
    requires PolledEvery(calls, 0.0) && n < |calls|
    ensures calls[n].refreshAt == calls[0].refreshAt
  {
    if n > 0 {
      SameInstant(calls, n - 1);
    }
  }

  lemma OneInstant(g: Settings, delay: real, failures: nat, good: Call)
    requires g.refreshSeconds > 0.0 && delay >= 0.0 && good.fetch.Succeeds()
    ensures Forgives(g, 0.0, delay, failures) <==> delay <= g.maxStaleness
  {
    var one := [good.(refreshAt := 0.0, checkAt := delay)];
    FirstCallRefetches(g, one);
    StaleIff(g, one, 0);
    hide StaleAt, LastRefetch, Failures, StateAfter;
    assert PolledEvery(one, 0.0) && ClockRuns(one);
    forall calls: Trace, n: nat | n < |calls| && PolledEvery(calls, 0.0) && calls[n].checkAt - calls[n].refreshAt <= delay
                                  && LastRefetch(g, calls, n + 1).Some? && delay <= g.maxStaleness
      ensures !StaleAt(g, StateAfter(g, calls, n), calls[n].checkAt)
    {
      StaleIff(g, calls, n);
      SameInstant(calls, n);
      SameInstant(calls, LastRefetch(g, calls, n + 1).value);
    }
    if Forgives(g, 0.0, delay, failures) {
      assert !StaleAt(g, StateAfter(g, one, 0), one[0].checkAt);
    }
  }

  /** With the default bound, one failure is forgiven exactly when the polling period and the call's own
      delay together fit one refresh interval. */
  lemma OneFailureForgivenIff(g: Settings, period: real, delay: real, good: Call, bad: Call)
    requires g.refreshSeconds > 0.0 && g.maxStaleness == 3.0 * g.refreshSeconds && period > 0.0 && delay >= 0.0
    requires good.fetch.Succeeds() && !bad.fetch.Succeeds()
    ensures Forgives(g, period, delay, 1) <==> period + delay <= g.refreshSeconds
  {
    ForgivesIff(g, period, delay, 1, good, bad);
    assert Grace(g, period, 0) == 0.0;
    hide Forgives;
  }

  /** The default bound does not forgive two failures in a row, as its comment says it does, at any
      positive polling period. */
  lemma TwoFailuresForgivenIff(g: Settings, period: real, delay: real, good: Call, bad: Call)
    requires g.refreshSeconds > 0.0 && g.maxStaleness == 3.0 * g.refreshSeconds && period >= 0.0 && delay >= 0.0
    requires good.fetch.Succeeds() && !bad.fetch.Succeeds()
    ensures Forgives(g, period, delay, 2) <==> period == 0.0 && delay <= g.maxStaleness
  {
    ForgivesIff(g, period, delay, 2, good, bad);
    assert Grace(g, period, 1) == g.refreshSeconds + period;
    hide Forgives;
  }
}
