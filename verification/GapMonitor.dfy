/** The bar-delivery gap alarm (live/gap_monitor.py): a rate-limited report while no new bar comes. */
module GapMonitor {
  import opened Wrappers

  datatype GapStatus = GapStatus(elapsed: real, threshold: real, isNew: bool)

  datatype Settings = Settings(expectedInterval: real, gapMultiplier: real, repeatWarning: real)
  {
    function Threshold(): real {
      expectedInterval * gapMultiplier
    }
  }

  datatype MonitorState = MonitorState(lastNewBarAt: Option<real>, lastGapReportAt: Option<real>, gapActive: bool)

  const INITIAL := MonitorState(None, None, false)

  function Recorded(now: real): MonitorState {
    MonitorState(Some(now), None, false)
  }

  function Checked(g: Settings, s: MonitorState, now: real): (MonitorState, Option<GapStatus>) {
    if s.lastNewBarAt.None? then (s, None)
    else
      var elapsed := now - s.lastNewBarAt.value;
      if elapsed <= g.Threshold() then (s, None)
      else if !s.gapActive then
        (s.(gapActive := true, lastGapReportAt := Some(now)), Some(GapStatus(elapsed, g.Threshold(), true)))
      else if s.lastGapReportAt.Some? && now - s.lastGapReportAt.value >= g.repeatWarning then
        (s.(lastGapReportAt := Some(now)), Some(GapStatus(elapsed, g.Threshold(), false)))
      else (s, None)
  }

  class BarGapMonitor {
    const settings: Settings
    var lastNewBarAt: Option<real>
    var lastGapReportAt: Option<real>
    var gapActive: bool

    ghost function State(): MonitorState
      reads this
    {
      MonitorState(lastNewBarAt, lastGapReportAt, gapActive)
    }

    constructor (settings: Settings)
      ensures this.settings == settings && State() == INITIAL
    {
      this.settings := settings;
      lastNewBarAt, lastGapReportAt, gapActive := None, None, false;
    }

    method RecordNewBar(now: real)
      modifies this
      ensures State() == Recorded(now)
    {
      lastNewBarAt := Some(now);
      lastGapReportAt := None;
      gapActive := false;
    }

    method Check(now: real) returns (status: Option<GapStatus>)
      modifies this
      ensures State() == Checked(settings, old(State()), now).0
      ensures status == Checked(settings, old(State()), now).1
    {
      if lastNewBarAt.None? {
        return None;
      }
      var elapsed := now - lastNewBarAt.value;
      var threshold := settings.expectedInterval * settings.gapMultiplier;
      assert threshold == settings.Threshold();
      if elapsed <= threshold {
        return None;
      }
      if !gapActive {
        gapActive := true;
        lastGapReportAt := Some(now);
        return Some(GapStatus(elapsed, threshold, true));
      }
      if lastGapReportAt.Some? && now - lastGapReportAt.value >= settings.repeatWarning {
        lastGapReportAt := Some(now);
        return Some(GapStatus(elapsed, threshold, false));
      }
      return None;
    }
  }

  // ---- every run of the monitor ----

  datatype Event = NewBar(at: real) | Poll(at: real)

  type Trace = seq<Event>

  ghost predicate Chronological(trace: Trace) {
    forall i, j :: 0 <= i < j < |trace| ==> trace[i].at <= trace[j].at
  }

  function StateBefore(g: Settings, trace: Trace, n: nat): MonitorState
    requires n <= |trace|
  {
    if n == 0 then INITIAL
    else if trace[n - 1].NewBar? then Recorded(trace[n - 1].at)
    else Checked(g, StateBefore(g, trace, n - 1), trace[n - 1].at).0
  }

  /** What event `n` reports; recording a bar reports nothing. */
  function ReportAt(g: Settings, trace: Trace, n: nat): Option<GapStatus>
    requires n < |trace|
  {
    if trace[n].NewBar? then None else Checked(g, StateBefore(g, trace, n), trace[n].at).1
  }

  predicate Reports(g: Settings, trace: Trace, n: nat)
    requires n < |trace|
  {
    ReportAt(g, trace, n).Some?
  }

  /** The bar whose gap the event `n` falls in. */
  function GapOf(trace: Trace, n: nat): (bar: Option<nat>)
    requires n <= |trace|
    ensures bar.Some? ==> bar.value < n && trace[bar.value].NewBar?
    ensures forall k :: (if bar.Some? then bar.value + 1 else 0) <= k < n ==> trace[k].Poll?
  {
    if n == 0 then None
    else if trace[n - 1].NewBar? then Some(n - 1)
    else GapOf(trace, n - 1)
  }

  /** The last report since the bar, before event `n`. */
  function LastReport(g: Settings, trace: Trace, bar: nat, n: nat): (last: Option<nat>)
    requires bar < n <= |trace|
    ensures last.Some? ==> bar < last.value < n && Reports(g, trace, last.value)
    ensures forall k :: (if last.Some? then last.value + 1 else bar + 1) <= k < n ==> !Reports(g, trace, k)
    decreases n
  {
    if n == bar + 1 then None
    else if Reports(g, trace, n - 1) then Some(n - 1)
    else LastReport(g, trace, bar, n - 1)
  }

  /** The fields hold nothing but the bar that opened the gap and its last report. */
  lemma {:induction false} StateTellsTheGap(g: Settings, trace: Trace, n: nat)
    requires n <= |trace|
    ensures GapOf(trace, n).None? ==> StateBefore(g, trace, n) == INITIAL
    ensures GapOf(trace, n).Some? ==>
              var bar := GapOf(trace, n).value;
              var last := LastReport(g, trace, bar, n);
              StateBefore(g, trace, n) ==
              MonitorState(Some(trace[bar].at), if last.Some? then Some(trace[last.value].at) else None, last.Some?)
  {
    if n > 0 && trace[n - 1].Poll? {
      StateTellsTheGap(g, trace, n - 1);
    }
  }

  lemma {:induction false} LastReportIsLast(g: Settings, trace: Trace, bar: nat, n: nat, k: nat)
    requires bar < k < n <= |trace| && Reports(g, trace, k)
    ensures var last := LastReport(g, trace, bar, n); last.Some? && k <= last.value
  {
  }

  /** The same as the fields tell it: only the last report counts. */
  lemma ReportsByLast(g: Settings, trace: Trace, n: nat)
    requires n < |trace| && trace[n].Poll?
    ensures GapOf(trace, n).None? ==> !Reports(g, trace, n)
    ensures GapOf(trace, n).Some? ==>
              var bar := GapOf(trace, n).value;
              var last := LastReport(g, trace, bar, n);
              var elapsed := trace[n].at - trace[bar].at;
              ReportAt(g, trace, n) ==
              if elapsed > g.Threshold() && (last.Some? ==> trace[n].at - trace[last.value].at >= g.repeatWarning)
              then Some(GapStatus(elapsed, g.Threshold(), last.None?)) else None
  {
    hide GapOf, LastReport, StateBefore, Settings.Threshold;
    StateTellsTheGap(g, trace, n);
  }

  /** Exactly when a poll reports: once the silence since the last bar exceeds the threshold, unless
      this gap was already reported less than the repeat interval before. What it reports is that
      silence, and it is called new exactly when this gap was never reported. */
  lemma ReportsIff(g: Settings, trace: Trace, n: nat)
    requires n < |trace| && trace[n].Poll? && Chronological(trace)
    ensures Reports(g, trace, n) <==>
            var bar := GapOf(trace, n);
            && bar.Some? && trace[n].at - trace[bar.value].at > g.expectedInterval * g.gapMultiplier
            && forall k :: bar.value < k < n && Reports(g, trace, k) ==> trace[n].at - trace[k].at >= g.repeatWarning
    ensures Reports(g, trace, n) ==>
              var bar, report := GapOf(trace, n).value, ReportAt(g, trace, n).value;
              && report.elapsed == trace[n].at - trace[bar].at && report.threshold == g.expectedInterval * g.gapMultiplier
              && (report.isNew <==> forall k :: bar < k < n ==> !Reports(g, trace, k))
  {
    hide Reports, GapOf, LastReport, Settings.Threshold, Chronological;
    Product(g);
    ReportsByLast(g, trace, n);
    if GapOf(trace, n).Some? {
      LastBinds(g, trace, GapOf(trace, n).value, n);
    }
    SomeIsReport(g, trace, n);
  }

  lemma Product(g: Settings)
    ensures g.Threshold() == g.expectedInterval * g.gapMultiplier
  {
  }

  lemma SomeIsReport(g: Settings, trace: Trace, n: nat)
    requires n < |trace|
    ensures Reports(g, trace, n) <==> ReportAt(g, trace, n).Some?
  {
  }

  /** In time order, the last report is the one to wait for. */
  lemma LastBinds(g: Settings, trace: Trace, bar: nat, n: nat)
    requires bar < n < |trace| && Chronological(trace)
    ensures var last := LastReport(g, trace, bar, n);
            && (last.None? <==> forall k :: bar < k < n ==> !Reports(g, trace, k))
            && ((last.Some? ==> trace[n].at - trace[last.value].at >= g.repeatWarning) <==>
                forall k :: bar < k < n && Reports(g, trace, k) ==> trace[n].at - trace[k].at >= g.repeatWarning)
  {
    hide Reports, LastReport;
    var last := LastReport(g, trace, bar, n);
    forall k | bar < k < n && Reports(g, trace, k)
      ensures last.Some? && k <= last.value && trace[k].at <= trace[last.value].at
    {
      LastReportIsLast(g, trace, bar, n, k);
    }
  }

  /** Reports made in the gap of `bar` before event `n`. */
  function ReportCount(g: Settings, trace: Trace, bar: nat, n: nat): nat
    requires bar < n <= |trace|
  {
    if n == bar + 1 then 0 else ReportCount(g, trace, bar, n - 1) + if Reports(g, trace, n - 1) then 1 else 0
  }

  ghost function ReportsOf(g: Settings, trace: Trace, bar: nat, n: nat): set<nat>
    requires bar < n <= |trace|
  {
    set k: nat | bar < k < n && Reports(g, trace, k)
  }

  lemma {:induction false} CountIsCardinality(g: Settings, trace: Trace, bar: nat, n: nat)
    requires bar < n <= |trace|
    ensures ReportCount(g, trace, bar, n) == |ReportsOf(g, trace, bar, n)|
    decreases n
  {
    hide Reports;
    if n > bar + 1 {
      CountIsCardinality(g, trace, bar, n - 1);
      var last := if Reports(g, trace, n - 1) then {n - 1} else {};
      assert ReportsOf(g, trace, bar, n) == ReportsOf(g, trace, bar, n - 1) + last;
    }
  }

  function Intervals(g: Settings, k: int): real {
    k as real * g.repeatWarning
  }

  lemma OneIntervalMore(g: Settings, k: int)
    ensures Intervals(g, k + 1) == Intervals(g, k) + g.repeatWarning
    ensures Intervals(g, 0) == 0.0
  {
  }

  /** The alarm is rate-limited: `k` reports of one gap take more than `k - 1` repeat intervals
      beyond the threshold. */
  lemma ReportsAreRateLimited(g: Settings, trace: Trace, bar: nat, n: nat)
    requires bar < n <= |trace| && Chronological(trace)
    requires GapOf(trace, n) == Some(bar) && ReportsOf(g, trace, bar, n) != {}
    ensures var k := |ReportsOf(g, trace, bar, n)|;
            && trace[n - 1].at - trace[bar].at > g.expectedInterval * g.gapMultiplier + (k - 1) as real * g.repeatWarning
            && exists last <- ReportsOf(g, trace, bar, n) ::
                 trace[last].at - trace[bar].at > g.expectedInterval * g.gapMultiplier + (k - 1) as real * g.repeatWarning
  {
    hide Reports, StateBefore, GapOf, LastReport, ReportCount, Settings.Threshold;
    CountIsCardinality(g, trace, bar, n);
    CountedReportsAreSpaced(g, trace, bar, n);
    assert LastReport(g, trace, bar, n).value in ReportsOf(g, trace, bar, n);
    Product(g);
  }

  lemma {:induction false} CountedReportsAreSpaced(g: Settings, trace: Trace, bar: nat, n: nat)
    requires bar < n <= |trace| && Chronological(trace)
    requires GapOf(trace, n) == Some(bar) && ReportCount(g, trace, bar, n) > 0
    ensures var last, k := LastReport(g, trace, bar, n), ReportCount(g, trace, bar, n);
            && last.Some?
            && Intervals(g, k - 1) < trace[last.value].at - trace[bar].at - g.Threshold()
            && Intervals(g, k - 1) < trace[n - 1].at - trace[bar].at - g.Threshold()
    decreases n
  {
    hide ReportAt, Intervals, Settings.Threshold;
    Product(g);
    var m := n - 1;
    assert trace[m].Poll? && GapOf(trace, m) == Some(bar);
    var before := ReportCount(g, trace, bar, m);
    if before > 0 {
      CountedReportsAreSpaced(g, trace, bar, m);
      OneIntervalMore(g, before - 1);
    } else {
      OneIntervalMore(g, 0);
    }
    if Reports(g, trace, m) {
      ReportsIff(g, trace, m);
    }
  }
}
