// Sizes of finite sets.
module Sets {
  lemma SubsetSize<T>(a: set<T>, b: set<T>)
    requires a <= b
    ensures |a| <= |b|
  {
    if a != {} {
      var x :| x in a;
      SubsetSize(a - {x}, b - {x});
    }
  }

  lemma TwoMembers<T>(s: set<T>, p: T, q: T)
    requires p in s && q in s && p != q
    ensures |s| > 1
  {
    assert {p, q} <= s;
    SubsetSize({p, q}, s);
  }
}
