/** Counting elements of finite sets. */
module Sets {

  lemma {:induction false} SubsetSize<T>(a: set<T>, b: set<T>)
    requires a <= b
    ensures |a| <= |b|
    ensures |a| == |b| ==> a == b
  {
    if a != {} {
      var x :| x in a;
      SubsetSize(a - {x}, b - {x});
    }
  }

  lemma AtMostOneMore<T>(a: set<T>, b: set<T>, x: T)
    requires forall y | y in a :: y in b || y == x
    ensures |a| <= |b| + 1
  {
    SubsetSize(a, b + {x});
  }

  // A set is the part inside another and the part outside it.
  lemma Parts<T>(a: set<T>, b: set<T>)
    ensures |a| == |a * b| + |a - b|
  {
    assert a == (a * b) + (a - b);
  }
}
