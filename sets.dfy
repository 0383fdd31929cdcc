/** Facts about finite sets that the aggregate queries (counts, rating sums) rely on. */
module Sets {

  /** A subset is no larger than the set that contains it. */
  lemma {:induction false} SubsetCardinality<T>(a: set<T>, b: set<T>)
    requires a <= b
    ensures |a| <= |b|
    decreases b
  {
    if a != {} {
      var x :| x in a;
      SubsetCardinality(a - {x}, b - {x});
    }
  }

  /** Two disjoint subsets together are no larger than the set holding both. */
  lemma DisjointCounts<T>(a: set<T>, b: set<T>, c: set<T>)
    requires a <= c && b <= c && a * b == {}
    ensures |a| + |b| <= |c|
  {
    assert |a + b| == |a| + |b|;
    SubsetCardinality(a + b, c);
  }
}
