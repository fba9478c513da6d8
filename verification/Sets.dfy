/** Sizes of sets.  */
module Sets {

  lemma SubsetSmaller<T>(p: set<T>, q: set<T>)
    requires p <= q
    ensures |p| <= |q|
    ensures p != q ==> |p| < |q|
  {
    assert q == p + (q - p);
    if p != q {
      var x :| x in q - p;
    }
  }
}
