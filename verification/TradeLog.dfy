/** The shape of the trade log: every trade is one position's ride over consecutive bars. */
module TradeLog {
  import opened Wrappers
  import opened Market
  import opened Positions
  import opened Simulator

  /** The position that enters at bar e as it stands before bar x, None once it has been closed. */
  function Ride(p: Position, bars: Series, e: nat, x: nat): Option<Position>
    requires e <= x <= |bars|
  {
    if x == e then Some(p)
    else match Ride(p, bars, e, x - 1)
      case None => None
      case Some(q) =>
        match OnBar(q, bars[x - 1])
        case Hold(next) => Some(next)
        case ScaleOut(_, _, next) => Some(next)
        case Exit(_, _) => None
  }

  /** A trade's entry bar, exit bar, and its position as it was opened. */
  datatype Span = Span(entry: nat, exit: nat, origin: Position)

  /** The position was opened by the signal, risk decision and cash of the bar before. */
  ghost predicate EnteredAt(setup: Setup, rule: Rule, bars: Series, e: nat, p: Position)
    requires 1 <= e < |bars|
  {
    && AtDecision(setup, rule, bars, e - 1).position.None?
    && Enter(setup, rule, bars, e - 1, AtDecision(setup, rule, bars, e - 1).account) == Some(p)
  }

  /** The trade is what the ride of the position entered from `entry` up to `exit` ends in. */
  ghost predicate Explains(setup: Setup, rule: Rule, bars: Series, s: Span, t: Trade) {
    && 1 <= s.entry <= s.exit < |bars|
    && EnteredAt(setup, rule, bars, s.entry, s.origin)
    && Ride(s.origin, bars, s.entry, s.exit).Some?
    && var q := Ride(s.origin, bars, s.entry, s.exit).value;
       var bar := bars[s.exit];
       match OnBar(q, bar)
       case Exit(price, reason) => t == CloseAll(setup.costs, q, price, bar.time, reason)
       case ScaleOut(price, quantity, next) =>
         || t == ClosePartialLeg(setup.costs, q, quantity, price, bar.time, PartialTarget)
         || EndsTheData(setup, bars, s, next, t)
       case Hold(next) => EndsTheData(setup, bars, s, next, t)
  }

  ghost predicate EndsTheData(setup: Setup, bars: Series, s: Span, last: Position, t: Trade)
    requires s.exit < |bars|
  {
    && s.exit == |bars| - 1
    && t == CloseAll(setup.costs, last, setup.costs.ExitFill(bars[s.exit].close), bars[s.exit].time, EndOfData)
  }

  /** Trades come in the order of their exits; two positions never overlap, and a later trade of
      the same position only follows its partial take. */
  ghost predicate InOrder(rule: Rule, a: Span, b: Span) {
    a.exit < b.entry || (rule == PartialProfit && a.entry == b.entry && a.origin == b.origin && a.exit <= b.exit)
  }

  ghost predicate WellFormed(setup: Setup, rule: Rule, bars: Series, trades: seq<Trade>, spans: seq<Span>) {
    && |spans| == |trades|
    && (forall k :: 0 <= k < |trades| ==> Explains(setup, rule, bars, spans[k], trades[k]))
    && (forall k :: 0 < k < |spans| ==> InOrder(rule, spans[k - 1], spans[k]))
  }

  /** The state after k bars with its trades explained, and its open position riding since bar e. */
  ghost predicate Explained(setup: Setup, rule: Rule, bars: Series, k: nat, spans: seq<Span>, e: nat, origin: Position)
    requires k <= |bars|
  {
    var st := Loop(setup, rule, bars, k);
    && WellFormed(setup, rule, bars, st.trades, spans)
    && (forall s <- spans :: s.exit < k)
    && (st.position.Some? ==> RidesFrom(setup, rule, bars, k, spans, e, origin))
  }

  ghost predicate RidesFrom(setup: Setup, rule: Rule, bars: Series, k: nat, spans: seq<Span>, e: nat, origin: Position)
    requires k <= |bars|
  {
    && 1 <= e <= k && e < |bars|
    && EnteredAt(setup, rule, bars, e, origin)
    && Ride(origin, bars, e, k) == Loop(setup, rule, bars, k).position
    && (spans != [] ==>
          var last := spans[|spans| - 1];
          last.exit < e || (rule == PartialProfit && last.entry == e && last.origin == origin))
  }

  /** The bar does something to the position that rides since bar e: it closes it or part of it. */
  ghost predicate Acts(bars: Series, e: nat, x: nat, p: Position) {
    && e <= x < |bars|
    && Ride(p, bars, e, x).Some?
    && !OnBar(Ride(p, bars, e, x).value, bars[x]).Hold?
  }

  /** Every action on a position opened so far is logged, and only the tracked position still rides. */
  ghost predicate Logged(setup: Setup, rule: Rule, bars: Series, k: nat, spans: seq<Span>, e: nat, origin: Position)
    requires k <= |bars|
  {
    && (forall e': nat, x: nat, p :: 1 <= e' < |bars| && EnteredAt(setup, rule, bars, e', p) && Acts(bars, e', x, p) && x < k ==>
          Span(e', x, p) in spans)
    && (forall e': nat, p :: 1 <= e' <= k && e' < |bars| && EnteredAt(setup, rule, bars, e', p) && Ride(p, bars, e', k).Some? ==>
          Loop(setup, rule, bars, k).position.Some? && e' == e && p == origin)
  }

  /** Nothing is missing from a log: every action on a position that was opened has its trade, and a
      position that rides out the data has the last one. */
  ghost predicate Exhaustive(setup: Setup, rule: Rule, bars: Series, spans: seq<Span>) {
    && (forall e: nat, x: nat, p :: 1 <= e < |bars| && EnteredAt(setup, rule, bars, e, p) && Acts(bars, e, x, p) ==>
          Span(e, x, p) in spans)
    && (forall e: nat, p :: 1 <= e < |bars| && EnteredAt(setup, rule, bars, e, p) && Ride(p, bars, e, |bars|).Some? ==>
          spans != [] && spans[|spans| - 1] == Span(e, |bars| - 1, p))
  }

  lemma WellFormedAppend(setup: Setup, rule: Rule, bars: Series, trades: seq<Trade>, spans: seq<Span>, t: Trade, s: Span)
    requires WellFormed(setup, rule, bars, trades, spans)
    requires Explains(setup, rule, bars, s, t)
    requires spans != [] ==> InOrder(rule, spans[|spans| - 1], s)
    ensures WellFormed(setup, rule, bars, trades + [t], spans + [s])
  {
    hide Explains;
  }

  /** What bar k's exit check does to the log: nothing, or one more explained trade. */
  lemma ExplainExit(setup: Setup, rule: Rule, bars: Series, k: nat, spans: seq<Span>, e: nat, origin: Position)
    returns (spans': seq<Span>)
    requires k < |bars| && Explained(setup, rule, bars, k, spans, e, origin)
    requires Loop(setup, rule, bars, k).position.Some?
    ensures var st := AtDecision(setup, rule, bars, k);
            && WellFormed(setup, rule, bars, st.trades, spans')
            && (forall s <- spans' :: s.exit <= k)
            && (st.position.Some? ==>
                  && Ride(origin, bars, e, k + 1) == st.position
                  && (spans' != [] ==>
                        var last := spans'[|spans'| - 1];
                        last.exit < e || (rule == PartialProfit && last.entry == e && last.origin == origin)))
    ensures spans' == spans + if OnBar(Loop(setup, rule, bars, k).position.value, bars[k]).Hold? then []
                              else [Span(e, k, origin)]
  {
    hide ExitPhase, OnBar, Leg, Enter;
    EnteredIsNew(setup, rule, bars, e - 1, AtDecision(setup, rule, bars, e - 1).account);
    var st := Loop(setup, rule, bars, k);
    var p := st.position.value;
    var span := Span(e, k, origin);
    spans' := spans;
    ExitPhaseShape(setup.costs, bars[k], st);
    if !OnBar(p, bars[k]).Hold? {
      RideKeepsRule(origin, bars, e, k);
      var t := AtDecision(setup, rule, bars, k).trades[|st.trades|];
      WellFormedAppend(setup, rule, bars, st.trades, spans, t, span);
      spans' := spans + [span];
    }
  }

  lemma {:induction false} RideKeepsRule(p: Position, bars: Series, e: nat, x: nat)
    requires e <= x <= |bars|
    ensures Ride(p, bars, e, x).Some? ==> Ride(p, bars, e, x).value.tracker.Scaling? == p.tracker.Scaling?
  {
    if x > e {
      RideKeepsRule(p, bars, e, x - 1);
    }
  }

  lemma {:induction false} ExplainLoop(setup: Setup, rule: Rule, bars: Series, k: nat)
    returns (spans: seq<Span>, e: nat, origin: Position)
    requires k <= |bars|
    ensures Explained(setup, rule, bars, k, spans, e, origin) && Logged(setup, rule, bars, k, spans, e, origin)
  {
    hide Explained, Logged;
    if k == 0 {
      spans, e := [], 0;
      origin :| true;
      NothingToExplain(setup, rule, bars, e, origin);
    } else {
      spans, e, origin := ExplainLoop(setup, rule, bars, k - 1);
      var spans', e', origin' := ExplainStep(setup, rule, bars, k - 1, spans, e, origin);
      LogStep(setup, rule, bars, k - 1, spans, e, origin, spans', e', origin');
      spans, e, origin := spans', e', origin';
    }
  }

  lemma NothingToExplain(setup: Setup, rule: Rule, bars: Series, e: nat, origin: Position)
    ensures Explained(setup, rule, bars, 0, [], e, origin) && Logged(setup, rule, bars, 0, [], e, origin)
  {
  }

  /** What bar k adds to the log, and the position tracked after it. */
  ghost predicate Extends(setup: Setup, rule: Rule, bars: Series, k: nat, spans: seq<Span>, e: nat, origin: Position,
                          spans': seq<Span>, e': nat, origin': Position)
    requires k < |bars|
  {
    var position, st := Loop(setup, rule, bars, k).position, AtDecision(setup, rule, bars, k);
    && spans' == spans + (if position.Some? && !OnBar(position.value, bars[k]).Hold? then [Span(e, k, origin)] else [])
    && (if st.position.None? && k + 1 < |bars| && Enter(setup, rule, bars, k, st.account).Some?
        then e' == k + 1 && origin' == Enter(setup, rule, bars, k, st.account).value
        else e' == e && origin' == origin)
  }

  lemma LogStep(setup: Setup, rule: Rule, bars: Series, k: nat, spans: seq<Span>, e: nat, origin: Position,
                spans': seq<Span>, e': nat, origin': Position)
    requires k < |bars| && Explained(setup, rule, bars, k, spans, e, origin)
    requires Logged(setup, rule, bars, k, spans, e, origin)
    requires Extends(setup, rule, bars, k, spans, e, origin, spans', e', origin')
    ensures Logged(setup, rule, bars, k + 1, spans', e', origin')
  {
    hide WellFormed, OnBar, ExitPhase, EntryPhase, Enter;
    ExitPhaseShape(setup.costs, bars[k], Loop(setup, rule, bars, k));
    EntryPhaseShape(setup, rule, bars, k, AtDecision(setup, rule, bars, k));
    forall a: nat, x: nat, p | 1 <= a < |bars| && EnteredAt(setup, rule, bars, a, p) && Acts(bars, a, x, p) && x < k + 1
      ensures Span(a, x, p) in spans'
    {
      if x < k {
        assert Span(a, x, p) in spans;
      } else {
        assert a == e && p == origin;
      }
    }
    forall a: nat, p | 1 <= a <= k + 1 && a < |bars| && EnteredAt(setup, rule, bars, a, p) && Ride(p, bars, a, k + 1).Some?
      ensures Loop(setup, rule, bars, k + 1).position.Some? && a == e' && p == origin'
    {
      if a <= k {
        assert Ride(p, bars, a, k).Some?;
      }
    }
  }

  lemma ExplainStep(setup: Setup, rule: Rule, bars: Series, k: nat, spans: seq<Span>, e: nat, origin: Position)
    returns (spans': seq<Span>, e': nat, origin': Position)
    requires k < |bars| && Explained(setup, rule, bars, k, spans, e, origin)
    ensures Explained(setup, rule, bars, k + 1, spans', e', origin')
    ensures Extends(setup, rule, bars, k, spans, e, origin, spans', e', origin')
  {
    hide ExitPhase, EntryPhase, Enter, WellFormed, Explains, OnBar;
    spans', e', origin' := spans, e, origin;
    var st := AtDecision(setup, rule, bars, k);
    ExitPhaseShape(setup.costs, bars[k], Loop(setup, rule, bars, k));
    EntryPhaseShape(setup, rule, bars, k, st);
    if Loop(setup, rule, bars, k).position.Some? {
      spans' := ExplainExit(setup, rule, bars, k, spans, e, origin);
    }
    if st.position.None? && k + 1 < |bars| && Enter(setup, rule, bars, k, st.account).Some? {
      e', origin' := k + 1, Enter(setup, rule, bars, k, st.account).value;
    }
  }

  /** Every run of every exit rule: the trades are, in order and without overlap, exactly what the
      positions it opened come to when each is followed bar by bar on its own, with none left out. */
  lemma EveryTradeIsExplained(setup: Setup, rule: Rule, bars: Series)
    requires bars != []
    ensures exists spans :: WellFormed(setup, rule, bars, Run(setup, rule, bars).trades, spans)
                            && Exhaustive(setup, rule, bars, spans)
  {
    hide Loop, EnteredAt, CloseAll, OnBar;
    var spans, e, origin := ExplainLoop(setup, rule, bars, |bars|);
    var st := Loop(setup, rule, bars, |bars|);
    FinishShape(setup.costs, bars, st);
    if st.position.Some? {
      var span := Span(e, |bars| - 1, origin);
      WellFormedAppend(setup, rule, bars, st.trades, spans, Run(setup, rule, bars).trades[|st.trades|], span);
      spans := spans + [span];
    }
    assert WellFormed(setup, rule, bars, Run(setup, rule, bars).trades, spans) && Exhaustive(setup, rule, bars, spans);
  }
}
