/** Sequences without repeats, and ascending ones. */
module Seqs {
  ghost predicate Distinct<T>(s: seq<T>) { forall i, j :: 0 <= i < j < |s| ==> s[i] != s[j] }

  ghost predicate Ascending(s: seq<nat>) { forall i, j :: 0 <= i < j < |s| ==> s[i] < s[j] }

  lemma {:induction false} DistinctSize<T>(s: seq<T>)
    requires Distinct(s)
    ensures |set x | x in s| == |s|
  {
    if s != [] {
      var front, last := s[..|s| - 1], s[|s| - 1];
      DistinctSize(front);
      assert (set x | x in s) == (set x | x in front) + {last};
    }
  }

  /** A set of the elements of a list without repeats is as large as the list. */
  lemma SameSize<T>(u: set<T>, s: seq<T>)
    requires Distinct(s) && forall x :: x in u <==> x in s
    ensures |u| == |s|
  {
    DistinctSize(s);
    assert u == set x | x in s;
  }
}
