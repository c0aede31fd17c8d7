/** No look-ahead: what a simulator has done by a bar is a function of the bars up to it. */
module LookAhead {
  import opened Market
  import opened Positions
  import opened Simulator

  lemma EntriesAgree(setup: Setup, rule: Rule, a: Series, b: Series, i: nat, st: SimState)
    requires Causal(setup.strategy)
    requires i + 1 < |a| && i + 1 < |b| && a[..i + 2] == b[..i + 2]
    ensures EntryPhase(setup, rule, a, i, st) == EntryPhase(setup, rule, b, i, st)
  {
    hide FillAt, OpenIn;
    assert a[..i + 1] == a[..i + 2][..i + 1] == b[..i + 2][..i + 1] == b[..i + 1];
    assert setup.strategy(a, i) == setup.strategy(b, i);
    assert a[i + 1] == a[..i + 2][i + 1] == b[..i + 2][i + 1] == b[i + 1];
  }

  /** Every simulated state short of bar m - 1's entry decision is the same on all series that
      agree on their first m bars, whatever follows. */
  lemma {:induction false} StatesAgree(setup: Setup, rule: Rule, a: Series, b: Series, m: nat, k: nat)
    requires Causal(setup.strategy)
    requires k < m <= |a| && m <= |b| && a[..m] == b[..m]
    ensures Loop(setup, rule, a, k) == Loop(setup, rule, b, k)
    ensures AtDecision(setup, rule, a, k) == AtDecision(setup, rule, b, k)
  {
    hide ExitPhase, EntryPhase;
    assert a[k] == a[..m][k] == b[..m][k] == b[k];
    if k > 0 {
      StatesAgree(setup, rule, a, b, m, k - 1);
      assert a[..k + 1] == a[..m][..k + 1] == b[..m][..k + 1] == b[..k + 1];
      EntriesAgree(setup, rule, a, b, k - 1, AtDecision(setup, rule, a, k - 1));
    }
  }

  /** All trades from position n on close after a given time. */
  ghost predicate CloseAfter(trades: seq<Trade>, n: nat, time: int) {
    n <= |trades| && forall k :: n <= k < |trades| ==> trades[k].exitTime > time
  }

  /** All trades close by a given time, none of them by force. */
  ghost predicate CloseBy(trades: seq<Trade>, time: int) {
    forall k :: 0 <= k < |trades| ==> trades[k].exitTime <= time && trades[k].exitReason != EndOfData
  }

  /** The log is unchanged, or longer by one trade closed at this time. */
  ghost predicate MayAppend(before: seq<Trade>, after: seq<Trade>, time: int) {
    && |before| <= |after| <= |before| + 1
    && after[..|before|] == before
    && (|after| > |before| ==> after[|before|].exitTime == time && after[|before|].exitReason != EndOfData)
  }

  lemma Step(setup: Setup, rule: Rule, bars: Series, k: nat)
    requires k < |bars|
    ensures MayAppend(Loop(setup, rule, bars, k).trades, AtDecision(setup, rule, bars, k).trades, bars[k].time)
    ensures Loop(setup, rule, bars, k + 1).trades == AtDecision(setup, rule, bars, k).trades
  {
    hide ExitPhase, EntryPhase;
    ExitPhaseShape(setup.costs, bars[k], Loop(setup, rule, bars, k));
    EntryPhaseShape(setup, rule, bars, k, AtDecision(setup, rule, bars, k));
  }

  /** Later bars only append trades, and those close no earlier than the next bar. */
  lemma {:induction false} LaterTradesCloseLater(setup: Setup, rule: Rule, bars: Series, m: nat, k: nat)
    requires Chronological(bars)
    requires 1 <= m <= k <= |bars|
    ensures var early, late := AtDecision(setup, rule, bars, m - 1).trades, Loop(setup, rule, bars, k).trades;
            early <= late && CloseAfter(late, |early|, bars[m - 1].time)
    decreases k
  {
    hide AtDecision, Loop;
    Step(setup, rule, bars, k - 1);
    if k > m {
      LaterTradesCloseLater(setup, rule, bars, m, k - 1);
    }
  }

  lemma {:induction false} EarlyTradesCloseEarly(setup: Setup, rule: Rule, bars: Series, k: nat)
    requires Chronological(bars)
    requires k < |bars|
    ensures CloseBy(AtDecision(setup, rule, bars, k).trades, bars[k].time)
  {
    hide AtDecision, ExitPhase, EntryPhase;
    Step(setup, rule, bars, k);
    if k > 0 {
      EarlyTradesCloseEarly(setup, rule, bars, k - 1);
      Step(setup, rule, bars, k - 1);
    }
  }

  /** A short log that keeps the trades the full one closed by a time, and adds at most the forced close. */
  ghost predicate CutAt(full: seq<Trade>, short: seq<Trade>, n: nat, time: int) {
    && n <= |full| && n <= |short| <= n + 1 && short[..n] == full[..n]
    && CloseBy(full[..n], time) && CloseAfter(full, n, time)
    && (|short| == n + 1 ==> short[n].exitReason == EndOfData && short[n].exitTime == time)
  }

  /** Cutting the data after m bars changes nothing that had happened by then: the short run has
      exactly the trades the full run closed by bar m - 1, plus at most one END_OF_DATA trade. */
  lemma NoLookAhead(setup: Setup, rule: Rule, bars: Series, m: nat)
    requires Causal(setup.strategy) && Chronological(bars)
    requires 1 <= m < |bars|
    ensures var full, short := Run(setup, rule, bars).trades, Run(setup, rule, bars[..m]).trades;
            var time := bars[m - 1].time;
            exists n: nat :: CutAt(full, short, n, time)
  {
    hide Run, AtDecision;
    var full, short := Run(setup, rule, bars).trades, Run(setup, rule, bars[..m]).trades;
    var early := AtDecision(setup, rule, bars, m - 1).trades;
    FullRunExtends(setup, rule, bars, m);
    ShortRunExtends(setup, rule, bars, m);
    EarlyTradesCloseEarly(setup, rule, bars, m - 1);
    CutAfter(full, short, early, bars[m - 1].time);
  }

  lemma CutAfter(full: seq<Trade>, short: seq<Trade>, early: seq<Trade>, time: int)
    requires early <= full && early <= short && |short| <= |early| + 1
    requires CloseBy(early, time) && CloseAfter(full, |early|, time)
    requires |short| > |early| ==> short[|early|].exitReason == EndOfData && short[|early|].exitTime == time
    ensures CutAt(full, short, |early|, time)
  {
  }

  lemma FullRunExtends(setup: Setup, rule: Rule, bars: Series, m: nat)
    requires Chronological(bars)
    requires 1 <= m < |bars|
    ensures var early, full := AtDecision(setup, rule, bars, m - 1).trades, Run(setup, rule, bars).trades;
            early <= full && CloseAfter(full, |early|, bars[m - 1].time)
  {
    hide Loop, AtDecision, Finish;
    LaterTradesCloseLater(setup, rule, bars, m, |bars|);
    FinishShape(setup.costs, bars, Loop(setup, rule, bars, |bars|));
  }

  lemma ShortRunExtends(setup: Setup, rule: Rule, bars: Series, m: nat)
    requires Causal(setup.strategy)
    requires 1 <= m < |bars|
    ensures var early, short := AtDecision(setup, rule, bars, m - 1).trades, Run(setup, rule, bars[..m]).trades;
            && early <= short && |short| <= |early| + 1
            && (|short| > |early| ==> short[|early|].exitReason == EndOfData && short[|early|].exitTime == bars[m - 1].time)
  {
    hide Loop, AtDecision, Finish;
    var cut := bars[..m];
    StatesAgree(setup, rule, bars, cut, m, m - 1);
    Step(setup, rule, cut, m - 1);
    FinishShape(setup.costs, cut, Loop(setup, rule, cut, m));
  }
}
