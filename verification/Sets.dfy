/** Facts about the size of finite sets. */
module Sets {
  lemma Member<T>(x: set<T>) returns (s: T)
    requires |x| > 0
    ensures s in x
  {
    s :| s in x;
  }

  lemma SubsetSize<T>(x: set<T>, y: set<T>)
    requires x <= y
    ensures |x| <= |y|
  {
    assert y == x + (y - x);
  }

  lemma ProperSubsetSize<T>(x: set<T>, y: set<T>)
    requires x < y
    ensures |x| < |y|
  {
    assert y == x + (y - x) && y - x != {};
  }

  lemma DifferenceSize<T>(x: set<T>, y: set<T>)
    requires y <= x
    ensures |x - y| == |x| - |y|
  {
    assert x == (x - y) + y;
  }
}
