/** Sizes of finite sets. */
module FiniteSets {

  lemma SmallerSet<T>(x: set<T>, y: set<T>)
    requires x <= y
    ensures |x| <= |y|
    ensures |x| == |y| ==> x == y
  {
    assert y == x + (y - x);
  }

  ghost predicate NoDuplicates<T>(s: seq<T>)
  {
    forall i, j :: 0 <= i < j < |s| ==> s[i] != s[j]
  }

  /** A list without duplicates is no longer than a set that its elements come from. */
  lemma {:induction false} DistinctFit<T>(s: seq<T>, within: set<T>)
    requires NoDuplicates(s) && forall x :: x in s ==> x in within
    ensures |s| <= |within|
  {
    if |s| > 0 {
      var last := |s| - 1;
      assert s[last] in s;
      forall x | x in s[..last] ensures x in within - {s[last]} {}
      DistinctFit(s[..last], within - {s[last]});
    }
  }
}
