/** What it means that two books hold the same trades: their trades can be paired one to one, each pair equal
    in content (live/broker_reconciliation.py:52-72). */
module TradePairs {
  import opened Sequences
  import opened Reconciliation
  import opened ReconciliationMatches

  // ---- the key of a trade ----

  /** `r` ten-thousandths are nearest to x, the even count of two that are equally near. */
  ghost predicate IsRounded(x: real, r: int) {
    var off := x * 10000.0 - r as real;
    -0.5 <= off <= 0.5 && (off == 0.5 || off == -0.5 ==> r % 2 == 0)
  }

  lemma RoundsToNearest(x: real, r: int)
    ensures Round4(x) == r <==> IsRounded(x, r)
  {
    var scaled := x * 10000.0;
    var below := scaled.Floor;
    assert below as real <= scaled < (below + 1) as real;
    if IsRounded(x, r) {
      assert below <= r <= below + 1;
    }
  }

  ghost predicate SameTenThousandth(x: real, y: real) {
    exists r :: IsRounded(x, r) && IsRounded(y, r)
  }

  lemma RoundsAlikeIff(x: real, y: real)
    ensures Round4(x) == Round4(y) <==> SameTenThousandth(x, y)
    ensures SameTenThousandth(x, y) ==> Distance(x, y) <= 0.0001
  {
    RoundsToNearest(x, Round4(x));
    RoundsToNearest(y, Round4(y));
    if SameTenThousandth(x, y) {
      var r :| IsRounded(x, r) && IsRounded(y, r);
      RoundsToNearest(x, r);
      RoundsToNearest(y, r);
    }
    hide Round4;
  }

  /** The same trade by content: all but the prices equal, and those to four decimals. */
  ghost predicate SameTrade(t: Trade, u: Trade) {
    && t.symbol == u.symbol && t.quantity == u.quantity && t.exitReason == u.exitReason
    && SameTenThousandth(t.entryPrice, u.entryPrice) && SameTenThousandth(t.exitPrice, u.exitPrice)
  }

  lemma SameKeyIff(t: Trade, u: Trade)
    ensures KeyOf(t) == KeyOf(u) <==> SameTrade(t, u)
  {
    RoundsAlikeIff(t.entryPrice, u.entryPrice);
    RoundsAlikeIff(t.exitPrice, u.exitPrice);
    hide Round4, SameTenThousandth;
  }

  // ---- pairing ----

  /** Every index below n, each once. */
  ghost predicate IsPairing(pairing: seq<nat>, n: nat) {
    |pairing| == n && Distinct(pairing) && forall i :: 0 <= i < n ==> pairing[i] < n
  }

  function Without<T>(s: seq<T>, j: nat): seq<T>
    requires j < |s|
  {
    s[..j] + s[j + 1..]
  }

  lemma MultisetWithout<T>(s: seq<T>, j: nat)
    requires j < |s|
    ensures multiset(s) == multiset(Without(s, j)) + multiset{s[j]}
  {
    assert s == s[..j] + [s[j]] + s[j + 1..];
  }

  lemma CancelOne<T>(m: multiset<T>, k: multiset<T>, x: T)
    requires m + multiset{x} == k + multiset{x}
    ensures m == k
  {
    assert m == m + multiset{x} - multiset{x};
    assert k == k + multiset{x} - multiset{x};
  }

  lemma {:induction false} PairUp<T>(a: seq<T>, b: seq<T>) returns (pairing: seq<nat>)
    requires multiset(a) == multiset(b)
    ensures |a| == |b| && IsPairing(pairing, |a|) && forall i :: 0 <= i < |a| ==> a[i] == b[pairing[i]]
  {
    assert |multiset(a)| == |a| && |multiset(b)| == |b|;
    if a == [] {
      pairing := [];
    } else {
      var n := |a| - 1;
      assert a[n] in multiset(a);
      var j: nat :| j < |b| && b[j] == a[n];
      MultisetWithout(a, n);
      MultisetWithout(b, j);
      assert Without(a, n) == a[..n];
      CancelOne(multiset(a[..n]), multiset(Without(b, j)), a[n]);
      var rest := PairUp(a[..n], Without(b, j));
      pairing := seq(n + 1, i requires 0 <= i <= n => if i == n then j else if rest[i] < j then rest[i] else rest[i] + 1);
    }
  }

  lemma {:induction false} PairedMultisets<T>(a: seq<T>, b: seq<T>, pairing: seq<nat>)
    requires |a| == |b| && IsPairing(pairing, |a|) && forall i :: 0 <= i < |a| ==> a[i] == b[pairing[i]]
    ensures multiset(a) == multiset(b)
  {
    if a != [] {
      var n, j := |a| - 1, pairing[|a| - 1];
      var rest := seq(n, i requires 0 <= i < n => if pairing[i] > j then pairing[i] - 1 else pairing[i]);
      PairedMultisets(a[..n], Without(b, j), rest);
      MultisetWithout(a, n);
      MultisetWithout(b, j);
      assert Without(a, n) == a[..n];
    }
  }

  ghost predicate PairedUp(trades: seq<Trade>, others: seq<Trade>, pairing: seq<nat>) {
    && |trades| == |others| && IsPairing(pairing, |trades|)
    && forall i :: 0 <= i < |trades| ==> SameTrade(trades[i], others[pairing[i]])
  }

  /** The key counts agree exactly when the trades can be paired one to one. */
  lemma SameKeysIffPaired(trades: seq<Trade>, others: seq<Trade>)
    ensures multiset(KeysOf(trades)) == multiset(KeysOf(others)) <==> exists pairing :: PairedUp(trades, others, pairing)
  {
    hide SameTrade, KeyOf;
    var a, b := KeysOf(trades), KeysOf(others);
    if multiset(a) == multiset(b) {
      var pairing := PairUp(a, b);
      forall i | 0 <= i < |trades|
        ensures SameTrade(trades[i], others[pairing[i]])
      {
        assert a[i] == b[pairing[i]];
        SameKeyIff(trades[i], others[pairing[i]]);
      }
      assert PairedUp(trades, others, pairing);
    }
    if exists pairing :: PairedUp(trades, others, pairing) {
      var pairing :| PairedUp(trades, others, pairing);
      forall i | 0 <= i < |trades|
        ensures a[i] == b[pairing[i]]
      {
        SameKeyIff(trades[i], others[pairing[i]]);
      }
      PairedMultisets(a, b, pairing);
    }
  }

  /** A clean report pairs the trades of the two sides one to one, each pair with the same symbol, quantity
      and exit reason, and within a ten-thousandth in both prices. */
  lemma CleanTradesPairUp(local: Books, broker: Books) returns (pairing: seq<nat>)
    requires Clean(local, broker)
    ensures |local.trades| == |broker.trades| && IsPairing(pairing, |local.trades|)
    ensures forall i :: 0 <= i < |local.trades| ==>
              var t, u := local.trades[i], broker.trades[pairing[i]];
              && t.symbol == u.symbol && t.quantity == u.quantity && t.exitReason == u.exitReason
              && Distance(t.entryPrice, u.entryPrice) <= 0.0001 && Distance(t.exitPrice, u.exitPrice) <= 0.0001
  {
    CleanIff(local, broker);
    SameKeysIffPaired(local.trades, broker.trades);
    hide Clean, KeysOf, SameTenThousandth, Distance;
    pairing :| PairedUp(local.trades, broker.trades, pairing);
    forall i | 0 <= i < |local.trades|
      ensures var t, u := local.trades[i], broker.trades[pairing[i]];
              Distance(t.entryPrice, u.entryPrice) <= 0.0001 && Distance(t.exitPrice, u.exitPrice) <= 0.0001
    {
      var t, u := local.trades[i], broker.trades[pairing[i]];
      assert SameTrade(t, u);
      RoundsAlikeIff(t.entryPrice, u.entryPrice);
      RoundsAlikeIff(t.exitPrice, u.exitPrice);
    }
  }

  /** Exactly when a report is clean, told without shown positions, keys or counts for the cash and the
      trades: the cash differs by at most a millionth and the trades pair up. */
  lemma CleanIffPaired(local: Books, broker: Books)
    ensures Clean(local, broker) <==>
            && ShownAgree(OpenOnly(local.positions), broker.positions)
            && -0.000001 <= local.cash - broker.cash <= 0.000001
            && exists pairing :: PairedUp(local.trades, broker.trades, pairing)
  {
    CleanIff(local, broker);
    SameKeysIffPaired(local.trades, broker.trades);
    hide Clean, ShownAgree, OpenOnly, KeysOf, PairedUp;
  }
}
