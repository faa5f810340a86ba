/** Sizes of finite sets, for measures. */
module Sets {
  lemma SubsetSize<T>(a: set<T>, b: set<T>)
    requires a <= b
    ensures |a| <= |b| && (a != b ==> |a| < |b|)
  {
    assert |b| == |a| + |b - a| by { assert b == a + (b - a); }
    if a != b {
      assert b - a != {};
    }
  }

  /** What is left of `all` shrinks as more of it is done. */
  lemma SmallerRest<T>(all: set<T>, small: set<T>, large: set<T>)
    requires small < large <= small + all
    ensures |all - large| < |all - small|
  {
    SubsetSize(all - large, all - small);
    var x :| x in large && x !in small;
    assert x in all - small;
  }

  lemma FewerLeft<T>(all: set<T>, done: set<T>, x: T)
    requires x in all && x !in done
    ensures |all - (done + {x})| < |all - done|
  {
    SmallerRest(all, done, done + {x});
  }
}
