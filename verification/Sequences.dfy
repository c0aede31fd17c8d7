/** Sequences without repetition. */
module Sequences {

  ghost predicate Distinct<T>(s: seq<T>) {
    forall i, j :: 0 <= i < j < |s| ==> s[i] != s[j]
  }

  lemma DistinctAppend<T(!new)>(earlier: seq<T>, later: seq<T>)
    requires Distinct(earlier) && Distinct(later)
    requires forall x :: x in later ==> x !in earlier
    ensures Distinct(earlier + later)
  {
    assert forall i :: 0 <= i < |later| ==> later[i] in later;
    assert forall i :: 0 <= i < |earlier| ==> earlier[i] in earlier;
  }

  lemma {:induction false} SizeOfDistinct<T(!new)>(s: seq<T>, members: set<T>)
    requires Distinct(s)
    requires forall x :: x in s <==> x in members
    ensures |s| == |members|
  {
    if s == [] {
      assert members == {};
    } else {
      var last := s[|s| - 1];
      assert last in s;
      SizeOfDistinct(s[..|s| - 1], members - {last});
      assert |members| == |members - {last}| + 1;
    }
  }
}
