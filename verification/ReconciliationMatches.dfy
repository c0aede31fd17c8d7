/** What a clean reconciliation says about each single position, when a symbol may occur twice
    (live/broker_reconciliation.py:30-31 keeps the last one of each). */
module ReconciliationMatches {
  import opened Wrappers
  import opened Reconciliation

  predicate Matches(p: Position, q: Position) {
    p.symbol == q.symbol && p.quantity == q.quantity && Distance(q.entryPrice, p.entryPrice) <= TOLERANCE
  }

  ghost predicate AllMatched(positions: seq<Position>, others: seq<Position>) {
    forall p :: p in positions ==> exists q :: q in others && Matches(p, q)
  }

  /** Every position is, in quantity and entry price, the one that is shown for its symbol. */
  ghost predicate Uniform(positions: seq<Position>) {
    forall p :: p in positions ==> IsAsShown(positions, p)
  }

  predicate IsAsShown(positions: seq<Position>, p: Position) {
    var shown := Shown(positions, p.symbol);
    shown.Some? && shown.value.quantity == p.quantity && shown.value.entryPrice == p.entryPrice
  }

  /** The last of the positions of a symbol, of the open ones only if so asked. */
  ghost predicate IsLastOf(positions: seq<Position>, symbol: string, openOnly: bool, i: nat) {
    && i < |positions| && Concerns(positions[i], symbol, openOnly)
    && forall j :: i < j < |positions| ==> !Concerns(positions[j], symbol, openOnly)
  }

  predicate Concerns(p: Position, symbol: string, openOnly: bool) {
    p.symbol == symbol && (openOnly ==> p.isOpen)
  }

  ghost predicate ShowsLast(positions: seq<Position>, symbol: string, openOnly: bool, shown: Option<Position>) {
    match shown
    case None => forall j :: 0 <= j < |positions| ==> !Concerns(positions[j], symbol, openOnly)
    case Some(p) => exists i: nat :: IsLastOf(positions, symbol, openOnly, i) && positions[i] == p
  }

  /** What a list shows for a symbol is its last position of that symbol, and of the local ones the last
      that is open, whatever comes before or between. */
  lemma LastIsShown(positions: seq<Position>, symbol: string)
    ensures ShowsLast(positions, symbol, false, Shown(positions, symbol))
    ensures ShowsLast(positions, symbol, true, Shown(OpenOnly(positions), symbol))
  {
    LastOfAll(positions, symbol);
    LastOfOpen(positions, symbol);
  }

  lemma {:induction false} LastOfAll(positions: seq<Position>, symbol: string)
    ensures ShowsLast(positions, symbol, false, Shown(positions, symbol))
  {
    if positions != [] {
      var n := |positions| - 1;
      if positions[n].symbol == symbol {
        assert IsLastOf(positions, symbol, false, n);
      } else {
        LastOfAll(positions[..n], symbol);
        if Shown(positions, symbol).Some? {
          var i: nat :| IsLastOf(positions[..n], symbol, false, i) && positions[..n][i] == Shown(positions, symbol).value;
          assert IsLastOf(positions, symbol, false, i);
        }
      }
    }
  }

  lemma {:induction false} LastOfOpen(positions: seq<Position>, symbol: string)
    ensures ShowsLast(positions, symbol, true, Shown(OpenOnly(positions), symbol))
  {
    if positions != [] {
      hide Shown, ShowsLast, OpenOnly;
      LastOfOpen(positions[1..], symbol);
      OneMoreInFront(positions[0], positions[1..], symbol);
      assert positions == [positions[0]] + positions[1..];
    } else {
      NothingShown(symbol);
    }
  }

  lemma OneMoreInFront(first: Position, rest: seq<Position>, symbol: string)
    requires ShowsLast(rest, symbol, true, Shown(OpenOnly(rest), symbol))
    ensures ShowsLast([first] + rest, symbol, true, Shown(OpenOnly([first] + rest), symbol))
  {
    hide ShowsLast;
    LastBehind(first, rest, symbol, Shown(OpenOnly(rest), symbol));
    ShownBehind(first, OpenOnly(rest), symbol);
    OpenBehind(first, rest);
    hide Shown, OpenOnly;
  }

  lemma OpenBehind(first: Position, rest: seq<Position>)
    ensures OpenOnly([first] + rest) == if first.isOpen then [first] + OpenOnly(rest) else OpenOnly(rest)
  {
    assert ([first] + rest)[1..] == rest;
  }

  lemma NothingShown(symbol: string)
    ensures ShowsLast([], symbol, true, Shown([], symbol))
  {
  }

  lemma LastBehind(first: Position, rest: seq<Position>, symbol: string, shown: Option<Position>)
    requires ShowsLast(rest, symbol, true, shown)
    ensures ShowsLast([first] + rest, symbol, true,
                      if shown.Some? then shown else if Concerns(first, symbol, true) then Some(first) else None)
  {
    var positions := [first] + rest;
    assert forall j :: 0 < j < |positions| ==> positions[j] == rest[j - 1];
    if shown.Some? {
      var i: nat :| IsLastOf(rest, symbol, true, i) && rest[i] == shown.value;
      assert IsLastOf(positions, symbol, true, i + 1);
    } else {
      assert Concerns(first, symbol, true) ==> IsLastOf(positions, symbol, true, 0);
    }
  }

  lemma {:induction false} ShownBehind(first: Position, rest: seq<Position>, symbol: string)
    ensures Shown([first] + rest, symbol)
         == if Shown(rest, symbol).Some? then Shown(rest, symbol) else if first.symbol == symbol then Some(first) else None
  {
    if rest == [] {
      assert [first] + rest == [first];
    } else {
      ShownBehind(first, rest[..|rest| - 1], symbol);
      assert ([first] + rest)[..|rest|] == [first] + rest[..|rest| - 1];
    }
  }

  lemma AgreementIsMutual(mine: seq<Position>, theirs: seq<Position>)
    requires ShownAgree(mine, theirs)
    ensures ShownAgree(theirs, mine)
  {
    hide Shown;
    forall symbol
      ensures SameShown(Shown(theirs, symbol), Shown(mine, symbol))
    {
      assert SameShown(Shown(mine, symbol), Shown(theirs, symbol));
    }
  }

  lemma MatchedBecauseShown(mine: seq<Position>, theirs: seq<Position>)
    requires Uniform(mine) && ShownAgree(mine, theirs)
    ensures AllMatched(mine, theirs)
  {
    hide Shown;
    forall p | p in mine
      ensures exists q :: q in theirs && Matches(p, q)
    {
      assert IsAsShown(mine, p) && SameShown(Shown(mine, p.symbol), Shown(theirs, p.symbol));
      assert Matches(p, Shown(theirs, p.symbol).value);
    }
  }

  lemma ShownBecauseMatched(mine: seq<Position>, theirs: seq<Position>)
    requires Uniform(theirs) && AllMatched(mine, theirs) && AllMatched(theirs, mine)
    ensures ShownAgree(mine, theirs)
  {
    hide Shown;
    forall symbol
      ensures SameShown(Shown(mine, symbol), Shown(theirs, symbol))
    {
      var p, q := Shown(mine, symbol), Shown(theirs, symbol);
      assert q.Some? ==> q.value in theirs;
      if p.Some? {
        var partner :| partner in theirs && Matches(p.value, partner);
        assert IsAsShown(theirs, partner);
      }
    }
  }

  /** On uniform lists a clean report is agreement position by position: every open local one has its
      match at the broker, and every one at the broker its open local match. */
  lemma OkIffEverythingMatches(report: Report, local: Books, broker: Books)
    requires Complete(report, local, broker)
    requires Uniform(OpenOnly(local.positions)) && Uniform(broker.positions)
    ensures report.ok <==>
            && AllMatched(OpenOnly(local.positions), broker.positions)
            && AllMatched(broker.positions, OpenOnly(local.positions))
            && Distance(local.cash, broker.cash) <= TOLERANCE
            && multiset(KeysOf(local.trades)) == multiset(KeysOf(broker.trades))
  {
    hide KeysOf, Complete, AllMatched, Uniform, OpenOnly, ShownAgree;
    OkIff(report, local, broker);
    var mine, theirs := OpenOnly(local.positions), broker.positions;
    if ShownAgree(mine, theirs) {
      MatchedBecauseShown(mine, theirs);
      AgreementIsMutual(mine, theirs);
      MatchedBecauseShown(theirs, mine);
    } else if AllMatched(mine, theirs) && AllMatched(theirs, mine) {
      ShownBecauseMatched(mine, theirs);
    }
  }

  /** A list with one position per symbol is uniform. */
  lemma OnePerSymbolIsUniform(positions: seq<Position>)
    requires forall i, j :: 0 <= i < j < |positions| ==> positions[i].symbol != positions[j].symbol
    ensures Uniform(positions)
  {
    hide Shown;
  }

  // ---- without uniformity ----

  /** A list that shows `r` for its symbol and, for every other symbol, what `positions` shows. */
  function Impostors(positions: seq<Position>, r: Position): seq<Position> {
    seq(|positions|, i requires 0 <= i < |positions| =>
      if positions[i].symbol == r.symbol then r
      else if Shown(positions, positions[i].symbol).Some? then Shown(positions, positions[i].symbol).value.(isOpen := true)
      else positions[i])
  }

  lemma ImpostorsShow(positions: seq<Position>, r: Position)
    requires r.isOpen && SameShown(Shown(positions, r.symbol), Some(r))
    ensures ShownAgree(positions, Impostors(positions, r))
    ensures forall q :: q in Impostors(positions, r) ==> q.isOpen && (q.symbol == r.symbol ==> q == r)
  {
    hide Shown;
    var others := Impostors(positions, r);
    forall i | 0 <= i < |positions|
      ensures Shown(positions, positions[i].symbol).Some?
      ensures others[i].symbol == positions[i].symbol
    {
      assert positions[i] in positions;
    }
    forall symbol
      ensures SameShown(Shown(positions, symbol), Shown(others, symbol))
    {
      var p, q := Shown(positions, symbol), Shown(others, symbol);
      if p.Some? {
        var i :| 0 <= i < |positions| && positions[i] == p.value;
        assert others[i] in others;
      }
      if q.Some? {
        var i :| 0 <= i < |others| && others[i] == q.value;
        assert positions[i] in positions;
      }
    }
  }

  /** The position shown, at a price still within the tolerance of it but no longer of `p`. */
  function Stretched(p: Position, shown: Position): Position {
    var price := if p.quantity != shown.quantity then shown.entryPrice
                 else if p.entryPrice < shown.entryPrice then shown.entryPrice + TOLERANCE
                 else shown.entryPrice - TOLERANCE;
    Position(shown.symbol, shown.quantity, price, true)
  }

  /** A position that differs from the one shown for its symbol can go unmatched unnoticed. */
  lemma HiddenPosition(positions: seq<Position>, p: Position) returns (others: seq<Position>)
    requires p in positions && !IsAsShown(positions, p)
    ensures ShownAgree(positions, others) && (forall q :: q in others ==> q.isOpen)
    ensures forall q :: q in others ==> !Matches(p, q)
  {
    hide Shown;
    var r := Stretched(p, Shown(positions, p.symbol).value);
    ImpostorsShow(positions, r);
    hide Impostors;
    others := Impostors(positions, r);
  }

  ghost predicate Clean(local: Books, broker: Books) {
    Complete(Report(true, []), local, broker)
  }

  lemma CleanIff(local: Books, broker: Books)
    ensures Clean(local, broker) <==> Agree(local, broker)
  {
    NothingDiffersIff(local, broker);
    hide Agree, Differs;
  }

  lemma {:induction false} AllOpen(positions: seq<Position>)
    requires forall p :: p in positions ==> p.isOpen
    ensures OpenOnly(positions) == positions
  {
    if positions != [] {
      AllOpen(positions[1..]);
    }
  }

  /** Whatever a broker reports, a clean report leaves no open local position unmatched, exactly when
      the open local positions are uniform. */
  lemma LocalSideMatchedIff(local: Books)
    ensures (forall broker :: Clean(local, broker) ==> AllMatched(OpenOnly(local.positions), broker.positions))
            <==> Uniform(OpenOnly(local.positions))
  {
    hide Clean, ShownAgree, KeysOf, OpenOnly, IsAsShown, Matches;
    var mine := OpenOnly(local.positions);
    if Uniform(mine) {
      forall broker | Clean(local, broker)
        ensures AllMatched(mine, broker.positions)
      {
        CleanIff(local, broker);
        MatchedBecauseShown(mine, broker.positions);
      }
    } else {
      var p :| p in mine && !IsAsShown(mine, p);
      var theirs := HiddenPosition(mine, p);
      var broker := Books(theirs, local.cash, local.trades);
      CleanIff(local, broker);
      assert !AllMatched(mine, broker.positions);
    }
  }

  /** Whatever is recorded locally, a clean report leaves nothing the broker reports unmatched, exactly
      when the broker's positions are uniform. */
  lemma BrokerSideMatchedIff(broker: Books)
    ensures (forall local :: Clean(local, broker) ==> AllMatched(broker.positions, OpenOnly(local.positions)))
            <==> Uniform(broker.positions)
  {
    hide Clean, ShownAgree, KeysOf, OpenOnly, IsAsShown, Matches;
    var theirs := broker.positions;
    if Uniform(theirs) {
      forall local | Clean(local, broker)
        ensures AllMatched(theirs, OpenOnly(local.positions))
      {
        CleanIff(local, broker);
        AgreementIsMutual(OpenOnly(local.positions), theirs);
        MatchedBecauseShown(theirs, OpenOnly(local.positions));
      }
    } else {
      var q :| q in theirs && !IsAsShown(theirs, q);
      var mine := HiddenPosition(theirs, q);
      AllOpen(mine);
      AgreementIsMutual(theirs, mine);
      var local := Books(mine, broker.cash, broker.trades);
      CleanIff(local, broker);
      assert !AllMatched(theirs, OpenOnly(local.positions));
    }
  }

  /** A broker that reports two positions of one symbol: the report is clean, though nothing local
      matches the first. */
  lemma HiddenBehindALaterPosition() returns (local: Books, broker: Books)
    ensures Clean(local, broker)
    ensures !AllMatched(broker.positions, OpenOnly(local.positions))
  {
    var hidden, later := Position("TCS", 5, 100.0, true), Position("TCS", 7, 100.0, true);
    local, broker := Books([later], 0.0, []), Books([hidden, later], 0.0, []);
    AllOpen(local.positions);
    assert broker.positions[..1] == [hidden];
    assert forall symbol :: Shown([later], symbol) == Shown(broker.positions, symbol);
    CleanIff(local, broker);
    hide Clean;
    assert hidden in broker.positions;
  }
}
