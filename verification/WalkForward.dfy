/** The proportional fold splitter of walk-forward validation (backtesting/walk_forward.py), on integer
    clock ticks. Its arithmetic is that of the times it is given: Python's datetime, as in the splitter's
    signature, divides a span by rounding to the microsecond; a pandas Timestamp, as the validation itself
    passes, truncates to the nanosecond. */
module WalkForward {
  import opened Wrappers
  import opened Market
  import opened Forensics

  datatype Clock = Datetime | PandasTimestamp

  /** a / b rounded to the nearest integer, ties to even. */
  function DivideAndRound(a: int, b: int): int
    requires b > 0
  {
    var q, r := a / b, a % b;
    if 2 * r > b || (2 * r == b && q % 2 == 1) then q + 1 else q
  }

  /** The common window length. Truncation and flooring agree, since no span here is negative. */
  function WindowLength(clock: Clock, span: int, n: int): int
    requires n > 0
  {
    match clock
    case Datetime => DivideAndRound(span, n)
    case PandasTimestamp => span / n
  }

  /** Either clock is off by less than one tick per window, and exact when the span divides evenly. */
  lemma LengthError(clock: Clock, span: int, n: int)
    requires n > 0 && span >= 0
    ensures var length := WindowLength(clock, span, n);
            && length >= 0
            && (length * n == span <==> span % n == 0)
            && -n <= 2 * (span - length * n)
            && (clock == Datetime ==> 2 * (span - length * n) <= n)
            && (clock == PandasTimestamp ==> 0 <= span - length * n < n)
  {
    var q, r := span / n, span % n;
    assert span == q * n + r && (q + 1) * n == q * n + n;
  }

  /** Half-way between two lengths, rounding takes the even one. */
  lemma TieIsEven(span: int, n: int)
    requires n > 0 && span >= 0
    ensures var off := 2 * (span - WindowLength(Datetime, span, n) * n);
            off == n || off == -n ==> WindowLength(Datetime, span, n) % 2 == 0
  {
    var q, r := span / n, span % n;
    assert span == q * n + r && (q + 1) * n == q * n + n;
  }

  function FoldAt(start: int, end: int, n: int, length: int, i: int): (int, int) {
    (start + length * i, if i == n - 1 then end else start + length * (i + 1))
  }

  method SplitIntoNFolds(clock: Clock, start: int, end: int, n: int) returns (r: Result<seq<(int, int)>, string>)
    ensures r.Success? <==> n >= 2 && end > start
    ensures r.Success? ==> IsSplit(clock, start, end, n, r.value)
  {
    if n < 2 {
      return Failure("n_folds must be at least 2 (a single fold is not a walk-forward validation).");
    }
    if end <= start {
      return Failure("end must be after start.");
    }
    var total := end - start;
    var length := WindowLength(clock, total, n);
    var folds: seq<(int, int)> := [];
    for i := 0 to n
      invariant |folds| == i
      invariant forall k :: 0 <= k < i ==> folds[k] == FoldAt(start, end, n, length, k)
    {
      var foldStart := start + length * i;
      var foldEnd := if i == n - 1 then end else start + length * (i + 1);
      folds := folds + [(foldStart, foldEnd)];
    }
    return Success(folds);
  }

  ghost predicate IsSplit(clock: Clock, start: int, end: int, n: int, folds: seq<(int, int)>) {
    && n >= 2 && end > start && |folds| == n
    && forall k :: 0 <= k < n ==> folds[k] == FoldAt(start, end, n, WindowLength(clock, end - start, n), k)
  }

  /** The windows follow one another without gap, from the start to the end. */
  ghost predicate Contiguous(start: int, end: int, folds: seq<(int, int)>) {
    && folds != [] && folds[0].0 == start && folds[|folds| - 1].1 == end
    && forall k :: 0 < k < |folds| ==> folds[k - 1].1 == folds[k].0
  }

  ghost predicate Forward(folds: seq<(int, int)>) {
    forall k :: 0 <= k < |folds| ==> folds[k].0 <= folds[k].1
  }

  /** A split is always contiguous. Its windows all run forward in time exactly when the common length
      does not overshoot, and so always on truncating clocks, and on rounding ones whenever the span is at
      least n (n - 1) / 2 ticks. All windows are of the common length exactly when n divides the span. */
  lemma SplitRunsForwardIff(clock: Clock, start: int, end: int, n: int, folds: seq<(int, int)>)
    requires IsSplit(clock, start, end, n, folds)
    ensures Contiguous(start, end, folds)
    ensures Forward(folds) <==> WindowLength(clock, end - start, n) * (n - 1) <= end - start
    ensures clock == PandasTimestamp || 2 * (end - start) >= n * (n - 1) ==> Forward(folds)
    ensures forall k :: 0 <= k < n - 1 ==> folds[k].1 - folds[k].0 == WindowLength(clock, end - start, n)
    ensures folds[n - 1].1 - folds[n - 1].0 == WindowLength(clock, end - start, n) <==> (end - start) % n == 0
    ensures var off := (folds[n - 1].1 - folds[n - 1].0) - WindowLength(clock, end - start, n);
            if clock == Datetime then
              -n <= 2 * off <= n && (2 * off == n || 2 * off == -n ==> WindowLength(clock, end - start, n) % 2 == 0)
            else 0 <= off < n
  {
    hide WindowLength;
    var total, length := end - start, WindowLength(clock, end - start, n);
    LengthError(clock, total, n);
    TieIsEven(total, n);
    assert folds[n - 1] == (start + length * (n - 1), end);
    forall k | 0 <= k < n - 1
      ensures folds[k].1 - folds[k].0 == length
    {
      assert folds[k] == FoldAt(start, end, n, length, k);
      assert length * (k + 1) == length * k + length;
    }
    forall k | 0 < k < n
      ensures folds[k - 1].1 == folds[k].0
    {
      assert folds[k - 1] == FoldAt(start, end, n, length, k - 1);
    }
    assert length * n == length * (n - 1) + length;
    if clock == Datetime && 2 * total >= n * (n - 1) && length * (n - 1) > total {
      Overshoot(total, n, length);
    }
  }

  /** Rounding moves the last boundary by at most half a microsecond per fold. */
  lemma Overshoot(total: int, n: int, length: int)
    requires n >= 2 && 2 * (length * n - total) <= n
    requires 2 * total >= n * (n - 1)
    ensures length * (n - 1) <= total
  {
  }

  /** Five folds of three microseconds: a rounded length overshoots and the last window runs backward. */
  lemma SplitCanOvershoot(start: int, folds: seq<(int, int)>)
    requires IsSplit(Datetime, start, start + 3, 5, folds)
    ensures !Forward(folds) && folds[4] == (start + 4, start + 3)
  {
    assert DivideAndRound(3, 5) == 1;
    assert folds[4] == FoldAt(start, start + 3, 5, 1, 4);
  }

  function InFold(fold: (int, int), time: int): bool {
    fold.0 <= time <= fold.1
  }

  lemma {:induction false} FindFold(folds: seq<(int, int)>, start: int, end: int, time: int) returns (k: nat)
    requires Contiguous(start, end, folds) && start <= time <= end
    ensures k < |folds| && InFold(folds[k], time)
  {
    var n := |folds| - 1;
    if folds[n].0 <= time {
      k := n;
    } else {
      assert Contiguous(start, folds[n - 1].1, folds[..n]);
      k := FindFold(folds[..n], start, folds[n - 1].1, time);
    }
  }

  lemma {:induction false} LaterFoldStartsLater(folds: seq<(int, int)>, start: int, end: int, j: nat, k: nat)
    requires Contiguous(start, end, folds) && Forward(folds) && j < k < |folds|
    ensures folds[j].1 <= folds[k].0
  {
    if j + 1 < k {
      LaterFoldStartsLater(folds, start, end, j, k - 1);
    }
  }

  /** The slices share the bars out: every bar of the span falls in one, and, on windows that run forward,
      in two different ones exactly when it sits on both their edges; between neighbours, on the shared
      boundary. */
  lemma SlicesShareTheBars(clock: Clock, start: int, end: int, n: int, folds: seq<(int, int)>, time: int)
    requires IsSplit(clock, start, end, n, folds) && start <= time <= end
    ensures exists k :: 0 <= k < |folds| && InFold(folds[k], time)
    ensures Forward(folds) ==>
              forall j, k :: 0 <= j < k < |folds| ==>
                (InFold(folds[j], time) && InFold(folds[k], time) <==> time == folds[j].1 == folds[k].0)
    ensures Forward(folds) && WindowLength(clock, end - start, n) > 0 ==>
              forall j, k :: 0 <= j < k < |folds| && InFold(folds[j], time) && InFold(folds[k], time) ==> k == j + 1
  {
    SplitRunsForwardIff(clock, start, end, n, folds);
    var at := FindFold(folds, start, end, time);
    if Forward(folds) {
      forall j, k | 0 <= j < k < |folds|
        ensures folds[j].1 <= folds[k].0
        ensures WindowLength(clock, end - start, n) > 0 && j + 1 < k ==> folds[j].1 < folds[k].0
      {
        LaterFoldStartsLater(folds, start, end, j, k);
        if j + 1 < k {
          LaterFoldStartsLater(folds, start, end, j, k - 1);
        }
      }
    }
    hide IsSplit, Contiguous;
  }

  /** A fold's slice holds exactly the bars whose time lies in its closed window. */
  lemma {:induction false} SliceHolds(bars: Series, fold: (int, int), bar: Bar)
    ensures bar in Window(bars, fold.0, fold.1) <==> bar in bars && InFold(fold, bar.time)
  {
    if bars != [] {
      var rest, last := bars[..|bars| - 1], bars[|bars| - 1];
      SliceHolds(rest, fold, bar);
      assert bars == rest + [last];
    }
  }
}
