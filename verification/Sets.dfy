/** Cardinalities of sets. */
module Sets {

  lemma {:induction false} SubsetCounts<T>(a: set<T>, b: set<T>)
    requires a <= b
    ensures |a| <= |b|
  {
    if a != {} {
      var x :| x in a;
      SubsetCounts(a - {x}, b - {x});
    }
  }
}
