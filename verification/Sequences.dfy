/** Sequences without repetitions. */
module Sequences {

  ghost predicate Distinct<T>(s: seq<T>) { forall i, j :: 0 <= i < j < |s| ==> s[i] != s[j] }

  ghost function Members<T>(s: seq<T>): set<T> { set x | x in s }

  lemma {:induction false} DistinctCardinality<T>(s: seq<T>)
    requires Distinct(s)
    ensures |Members(s)| == |s|
  {
    if s == [] {
    } else {
      var last, front := s[|s| - 1], s[..|s| - 1];
      DistinctCardinality(front);
      assert s == front + [last];
      assert last !in front;
      assert Members(s) == Members(front) + {last};
    }
  }
}
