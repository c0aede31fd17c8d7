/** Local state against what the broker reports (live/broker_reconciliation.py): positions by
    symbol, cash, and trades counted by content. */
module Reconciliation {
  import opened Wrappers
  import opened Dicts
  import opened Sequences
  import Positions

  const TOLERANCE := 0.000001

  datatype Position = Position(symbol: string, quantity: int, entryPrice: real, isOpen: bool)

  datatype Trade = Trade(symbol: string, entryPrice: real, exitPrice: real, quantity: int, exitReason: Positions.ExitReason)

  /** A trade by content; prices in ten-thousandths. */
  datatype TradeKey = TradeKey(symbol: string, entry: int, exit: int, quantity: int, exitReason: Positions.ExitReason)

  datatype Issue =
    | MissingAtBroker(symbol: string, localQuantity: int)
    | QuantityMismatch(symbol: string, localQuantity: int, brokerQuantity: int)
    | PriceMismatch(symbol: string, localEntry: real, brokerEntry: real)
    | UnexpectedAtBroker(symbol: string)
    | CashMismatch(localCash: real, brokerCash: real)
    | TradeMissing(key: TradeKey, localCount: nat, brokerCount: nat)
    | DuplicateTrade(key: TradeKey, brokerCount: nat, localCount: nat)
  {
    predicate OfTrade() {
      TradeMissing? || DuplicateTrade?
    }

    predicate OfPosition() {
      MissingAtBroker? || QuantityMismatch? || PriceMismatch? || UnexpectedAtBroker?
    }
  }

  datatype Report = Report(ok: bool, issues: seq<Issue>)

  datatype Books = Books(positions: seq<Position>, cash: real, trades: seq<Trade>)

  function Distance(x: real, y: real): real {
    if x >= y then x - y else y - x
  }

  /** Rounding to four decimals, ties to the even neighbour, counted in ten-thousandths. */
  function Round4(x: real): int {
    var scaled := x * 10000.0;
    var below := scaled.Floor;
    var rest := scaled - below as real;
    if rest < 0.5 || (rest == 0.5 && below % 2 == 0) then below else below + 1
  }

  function KeyOf(t: Trade): TradeKey {
    TradeKey(t.symbol, Round4(t.entryPrice), Round4(t.exitPrice), t.quantity, t.exitReason)
  }

  function KeysOf(trades: seq<Trade>): seq<TradeKey> {
    seq(|trades|, i requires 0 <= i < |trades| => KeyOf(trades[i]))
  }

  function OpenOnly(positions: seq<Position>): (open: seq<Position>)
    ensures forall p :: p in open <==> p in positions && p.isOpen
  {
    if positions == [] then [] else (if positions[0].isOpen then [positions[0]] else []) + OpenOnly(positions[1..])
  }

  // ---- what may be wrong, told without dictionaries ----

  /** The position a list ends up showing for a symbol: its last one. */
  function Shown(positions: seq<Position>, symbol: string): (shown: Option<Position>)
    ensures shown.Some? ==> shown.value in positions && shown.value.symbol == symbol
    ensures shown.None? ==> forall p :: p in positions ==> p.symbol != symbol
  {
    if positions == [] then None
    else
      var last := positions[|positions| - 1];
      if last.symbol == symbol then Some(last) else Shown(positions[..|positions| - 1], symbol)
  }

  function Count(keys: seq<TradeKey>, key: TradeKey): nat {
    multiset(keys)[key]
  }

  /** Whether an issue is true of the two positions shown for its symbol. */
  predicate PositionDiffers(issue: Issue, mine: Option<Position>, theirs: Option<Position>) {
    match issue
    case MissingAtBroker(_, quantity) => mine.Some? && theirs.None? && mine.value.quantity == quantity
    case QuantityMismatch(_, m, t) =>
      mine.Some? && theirs.Some? && mine.value.quantity == m && theirs.value.quantity == t && m != t
    case PriceMismatch(_, m, t) =>
      mine.Some? && theirs.Some? && mine.value.entryPrice == m && theirs.value.entryPrice == t && Distance(t, m) > TOLERANCE
    case UnexpectedAtBroker(_) => mine.None? && theirs.Some?
    case _ => false
  }

  /** Whether an issue is true of the two counts of its trade. */
  predicate CountDiffers(issue: Issue, mine: nat, theirs: nat) {
    match issue
    case TradeMissing(_, m, t) => m == mine && t == theirs && theirs < mine
    case DuplicateTrade(_, t, m) => m == mine && t == theirs && theirs > mine
    case _ => false
  }

  /** A discrepancy between the local books and the broker's, exactly as an issue states it. */
  predicate Differs(issue: Issue, local: Books, broker: Books) {
    if issue.OfPosition() then
      PositionDiffers(issue, Shown(OpenOnly(local.positions), issue.symbol), Shown(broker.positions, issue.symbol))
    else if issue.OfTrade() then
      CountDiffers(issue, Count(KeysOf(local.trades), issue.key), Count(KeysOf(broker.trades), issue.key))
    else
      issue == CashMismatch(local.cash, broker.cash) && Distance(local.cash, broker.cash) > TOLERANCE
  }

  /** A report that lists every discrepancy once and nothing else. */
  ghost predicate Complete(report: Report, local: Books, broker: Books) {
    && (report.ok <==> report.issues == [])
    && Distinct(report.issues)
    && forall issue :: issue in report.issues <==> Differs(issue, local, broker)
  }

  // ---- the comparison ----

  method BySymbol(positions: seq<Position>) returns (d: Dict<string, Position>)
    ensures d.Valid()
    ensures forall symbol :: d.Get(symbol) == Shown(positions, symbol)
  {
    d := Empty();
    for i := 0 to |positions|
      invariant d.Valid()
      invariant forall symbol :: d.Get(symbol) == Shown(positions[..i], symbol)
    {
      assert positions[..i + 1][..i] == positions[..i];
      d := Put(d, positions[i].symbol, positions[i]);
    }
    assert positions[..|positions|] == positions;
  }

  method CountKeys(keys: seq<TradeKey>) returns (d: Dict<TradeKey, nat>)
    ensures d.Valid()
    ensures forall k :: d.Get(k) == if Count(keys, k) > 0 then Some(Count(keys, k)) else None
  {
    d := Empty();
    for i := 0 to |keys|
      invariant d.Valid()
      invariant forall k :: d.Get(k) == if Count(keys[..i], k) > 0 then Some(Count(keys[..i], k)) else None
    {
      assert keys[..i + 1] == keys[..i] + [keys[i]];
      var before := d.Get(keys[i]);
      d := Put(d, keys[i], (if before.Some? then before.value else 0) + 1);
    }
    assert keys[..|keys|] == keys;
  }

  /** What is wrong with one local position. */
  function LocalIssues(symbol: string, p: Position, q: Option<Position>): seq<Issue> {
    if q.None? then [MissingAtBroker(symbol, p.quantity)]
    else
      (if q.value.quantity != p.quantity then [QuantityMismatch(symbol, p.quantity, q.value.quantity)] else []) +
      (if Distance(q.value.entryPrice, p.entryPrice) > TOLERANCE
       then [PriceMismatch(symbol, p.entryPrice, q.value.entryPrice)] else [])
  }

  lemma LocalIssuesAreTrue(symbol: string, p: Position, q: Option<Position>)
    ensures Distinct(LocalIssues(symbol, p, q))
    ensures forall x :: x in LocalIssues(symbol, p, q) <==>
              x.OfPosition() && x.symbol == symbol && PositionDiffers(x, Some(p), q)
  {
  }

  method ComparePositions(local: Dict<string, Position>, broker: Dict<string, Position>) returns (issues: seq<Issue>)
    requires local.Valid() && broker.Valid()
    ensures Distinct(issues)
    ensures forall x :: x in issues <==> x.OfPosition() && PositionDiffers(x, local.Get(x.symbol), broker.Get(x.symbol))
  {
    hide PositionDiffers, LocalIssues;
    issues := [];
    for i := 0 to |local.keys|
      invariant Distinct(issues)
      invariant forall x :: x in issues <==> x.OfPosition() && x.symbol in local.keys[..i]
                                             && PositionDiffers(x, local.Get(x.symbol), broker.Get(x.symbol))
    {
      var symbol := local.keys[i];
      assert symbol in local.keys && symbol !in local.keys[..i];
      assert local.keys[..i + 1] == local.keys[..i] + [symbol];
      var more := LocalIssues(symbol, local.entries[symbol], broker.Get(symbol));
      LocalIssuesAreTrue(symbol, local.entries[symbol], broker.Get(symbol));
      DistinctAppend(issues, more);
      issues := issues + more;
    }
    assert local.keys[..|local.keys|] == local.keys;
    var unexpected := Unexpected(local, broker);
    OnlyBrokerIsUnexpected(local, broker);
    DistinctAppend(issues, unexpected);
    issues := issues + unexpected;
  }

  lemma OnlyBrokerIsUnexpected(local: Dict<string, Position>, broker: Dict<string, Position>)
    requires local.Valid() && broker.Valid()
    ensures forall x: Issue :: x.OfPosition() && PositionDiffers(x, local.Get(x.symbol), broker.Get(x.symbol)) ==>
              (x.symbol in local.keys <==> !x.UnexpectedAtBroker?)
  {
  }

  method Unexpected(local: Dict<string, Position>, broker: Dict<string, Position>) returns (issues: seq<Issue>)
    requires local.Valid() && broker.Valid()
    ensures Distinct(issues)
    ensures forall x :: x in issues <==>
              x.UnexpectedAtBroker? && PositionDiffers(x, local.Get(x.symbol), broker.Get(x.symbol))
  {
    issues := [];
    for i := 0 to |broker.keys|
      invariant Distinct(issues)
      invariant forall x :: x in issues <==> x.UnexpectedAtBroker? && x.symbol in broker.keys[..i] && x.symbol !in local.entries
    {
      var symbol := broker.keys[i];
      assert symbol in broker.keys && symbol !in broker.keys[..i];
      assert broker.keys[..i + 1] == broker.keys[..i] + [symbol];
      if symbol !in local.entries {
        DistinctAppend(issues, [UnexpectedAtBroker(symbol)]);
        issues := issues + [UnexpectedAtBroker(symbol)];
      }
    }
    assert broker.keys[..|broker.keys|] == broker.keys;
  }

  function CountIn(d: Dict<TradeKey, nat>, k: TradeKey): nat {
    if d.Get(k).Some? then d.Get(k).value else 0
  }

  method CompareTrades(local: Dict<TradeKey, nat>, broker: Dict<TradeKey, nat>) returns (issues: seq<Issue>)
    requires local.Valid() && broker.Valid()
    ensures Distinct(issues)
    ensures forall x :: x in issues <==> x.OfTrade() && CountDiffers(x, CountIn(local, x.key), CountIn(broker, x.key))
  {
    issues := [];
    for i := 0 to |local.keys|
      invariant Distinct(issues)
      invariant forall x :: x in issues <==> x.TradeMissing? && x.key in local.keys[..i]
                                             && CountDiffers(x, CountIn(local, x.key), CountIn(broker, x.key))
    {
      var k := local.keys[i];
      assert k in local.keys && k !in local.keys[..i];
      assert local.keys[..i + 1] == local.keys[..i] + [k];
      var count, brokerCount := local.entries[k], CountIn(broker, k);
      if brokerCount < count {
        DistinctAppend(issues, [TradeMissing(k, count, brokerCount)]);
        issues := issues + [TradeMissing(k, count, brokerCount)];
      }
    }
    assert local.keys[..|local.keys|] == local.keys;
    for i := 0 to |broker.keys|
      invariant Distinct(issues)
      invariant forall x :: x in issues <==> (x.TradeMissing? || (x.DuplicateTrade? && x.key in broker.keys[..i]))
                                             && CountDiffers(x, CountIn(local, x.key), CountIn(broker, x.key))
    {
      var k := broker.keys[i];
      assert k in broker.keys && k !in broker.keys[..i];
      assert broker.keys[..i + 1] == broker.keys[..i] + [k];
      var count, localCount := broker.entries[k], CountIn(local, k);
      if count > localCount {
        DistinctAppend(issues, [DuplicateTrade(k, count, localCount)]);
        issues := issues + [DuplicateTrade(k, count, localCount)];
      }
    }
    assert broker.keys[..|broker.keys|] == broker.keys;
  }

  /** The reconciliation: every discrepancy is reported, once, and nothing else is. */
  method ReconcileAgainstBroker(local: Books, broker: Books) returns (report: Report)
    ensures Complete(report, local, broker)
  {
    hide PositionDiffers, CountDiffers, Shown, OpenOnly, Count, KeysOf;
    var localPositions := BySymbol(OpenOnly(local.positions));
    var brokerPositions := BySymbol(broker.positions);
    var issues := ComparePositions(localPositions, brokerPositions);
    if Distance(local.cash, broker.cash) > TOLERANCE {
      DistinctAppend(issues, [CashMismatch(local.cash, broker.cash)]);
      issues := issues + [CashMismatch(local.cash, broker.cash)];
    }
    var localCounts := CountKeys(KeysOf(local.trades));
    var brokerCounts := CountKeys(KeysOf(broker.trades));
    var ofTrades := CompareTrades(localCounts, brokerCounts);
    DistinctAppend(issues, ofTrades);
    issues := issues + ofTrades;
    return Report(issues == [], issues);
  }

  // ---- what a clean report means ----

  ghost predicate ShownAgree(mine: seq<Position>, theirs: seq<Position>) {
    forall symbol :: SameShown(Shown(mine, symbol), Shown(theirs, symbol))
  }

  /** The books agree in all that the comparison looks at: the positions shown, symbol by symbol, the
      cash within the tolerance, and the trades as a multiset of keys. */
  ghost predicate Agree(local: Books, broker: Books) {
    && ShownAgree(OpenOnly(local.positions), broker.positions)
    && Distance(local.cash, broker.cash) <= TOLERANCE
    && multiset(KeysOf(local.trades)) == multiset(KeysOf(broker.trades))
  }

  lemma NothingDiffersIff(local: Books, broker: Books)
    ensures (forall issue :: !Differs(issue, local, broker)) <==> Agree(local, broker)
  {
    hide OpenOnly, KeysOf, Shown;
    var mine, theirs := KeysOf(local.trades), KeysOf(broker.trades);
    if forall issue :: !Differs(issue, local, broker) {
      forall symbol
        ensures SameShown(Shown(OpenOnly(local.positions), symbol), Shown(broker.positions, symbol))
      {
        NothingDiffers(symbol, local, broker);
      }
      assert !Differs(CashMismatch(local.cash, broker.cash), local, broker);
      forall key
        ensures multiset(mine)[key] == multiset(theirs)[key]
      {
        assert !Differs(TradeMissing(key, Count(mine, key), Count(theirs, key)), local, broker);
        assert !Differs(DuplicateTrade(key, Count(theirs, key), Count(mine, key)), local, broker);
      }
    }
    forall issue | Agree(local, broker)
      ensures !Differs(issue, local, broker)
    {
      if issue.OfPosition() {
        assert SameShown(Shown(OpenOnly(local.positions), issue.symbol), Shown(broker.positions, issue.symbol));
      }
    }
  }

  /** A report is clean exactly when the books agree. */
  lemma OkIff(report: Report, local: Books, broker: Books)
    requires Complete(report, local, broker)
    ensures report.ok <==> Agree(local, broker)
  {
    NothingDiffersIff(local, broker);
    hide Agree, Differs;
    if report.issues != [] {
      assert report.issues[0] in report.issues;
    }
  }

  /** Both sides show nothing for a symbol, or the same quantity at the same price within tolerance. */
  predicate SameShown(mine: Option<Position>, theirs: Option<Position>) {
    && mine.Some? == theirs.Some?
    && (mine.Some? ==> && mine.value.quantity == theirs.value.quantity
                       && Distance(theirs.value.entryPrice, mine.value.entryPrice) <= TOLERANCE)
  }

  lemma NothingDiffers(symbol: string, local: Books, broker: Books)
    requires forall issue :: !Differs(issue, local, broker)
    ensures SameShown(Shown(OpenOnly(local.positions), symbol), Shown(broker.positions, symbol))
  {
    hide OpenOnly, Shown;
    var p, q := Shown(OpenOnly(local.positions), symbol), Shown(broker.positions, symbol);
    var issue := if p.Some? && q.Some? then QuantityMismatch(symbol, p.value.quantity, q.value.quantity)
                 else if p.Some? then MissingAtBroker(symbol, p.value.quantity)
                 else UnexpectedAtBroker(symbol);
    assert !Differs(issue, local, broker);
    if p.Some? && q.Some? {
      assert !Differs(PriceMismatch(symbol, p.value.entryPrice, q.value.entryPrice), local, broker);
    }
  }

  // ---- how many trade issues there are ----

  function TradeIssues(issues: seq<Issue>): (r: seq<Issue>)
    ensures forall x :: x in r <==> x in issues && x.OfTrade()
  {
    if issues == [] then [] else (if issues[0].OfTrade() then [issues[0]] else []) + TradeIssues(issues[1..])
  }

  lemma {:induction false} TradeIssuesStayDistinct(issues: seq<Issue>)
    requires Distinct(issues)
    ensures Distinct(TradeIssues(issues))
  {
    if issues != [] {
      TradeIssuesStayDistinct(issues[1..]);
      assert forall x :: x in issues[1..] ==> x != issues[0];
    }
  }

  ghost function Differing(mine: seq<TradeKey>, theirs: seq<TradeKey>): set<TradeKey> {
    set key | key in mine + theirs && Count(mine, key) != Count(theirs, key)
  }

  /** The issue that a differing key deserves. */
  lemma DifferingIsReported(report: Report, local: Books, broker: Books, key: TradeKey)
    requires Complete(report, local, broker)
    ensures key in Differing(KeysOf(local.trades), KeysOf(broker.trades)) <==>
            exists issue :: issue in TradeIssues(report.issues) && issue.key == key
  {
    hide KeysOf, TradeIssues;
    var mine, theirs := Count(KeysOf(local.trades), key), Count(KeysOf(broker.trades), key);
    if key in Differing(KeysOf(local.trades), KeysOf(broker.trades)) {
      var issue := if theirs < mine then TradeMissing(key, mine, theirs) else DuplicateTrade(key, theirs, mine);
      assert Differs(issue, local, broker);
      assert issue in TradeIssues(report.issues);
    }
    forall issue | issue in TradeIssues(report.issues) && issue.key == key
      ensures mine != theirs
    {
      assert Differs(issue, local, broker);
    }
  }

  /** One trade issue per key whose multiplicities differ, no more and no fewer. */
  lemma OneIssuePerDifferingKey(report: Report, local: Books, broker: Books)
    requires Complete(report, local, broker)
    ensures |TradeIssues(report.issues)| == |Differing(KeysOf(local.trades), KeysOf(broker.trades))|
  {
    hide KeysOf, TradeIssues, Differing;
    var issues := TradeIssues(report.issues);
    TradeIssuesStayDistinct(report.issues);
    assert forall i :: 0 <= i < |issues| ==> issues[i] in issues;
    var keys := seq(|issues|, i requires 0 <= i < |issues| => issues[i].key);
    forall i, j | 0 <= i < j < |issues|
      ensures keys[i] != keys[j]
    {
      assert Differs(issues[i], local, broker) && Differs(issues[j], local, broker);
    }
    hide Complete;
    forall key
      ensures key in keys <==> key in Differing(KeysOf(local.trades), KeysOf(broker.trades))
    {
      DifferingIsReported(report, local, broker, key);
      if key in Differing(KeysOf(local.trades), KeysOf(broker.trades)) {
        var issue :| issue in issues && issue.key == key;
        var i :| 0 <= i < |issues| && issues[i] == issue;
        assert keys[i] == key;
      }
    }
    SizeOfDistinct(keys, Differing(KeysOf(local.trades), KeysOf(broker.trades)));
  }
}
