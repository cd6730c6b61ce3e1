/** Sizes of finite sets. */
module Sets {

  lemma {:induction false} SubsetSize<T>(a: set<T>, b: set<T>)
    requires a <= b
    ensures |a| <= |b|
    decreases |a|
  {
    if a != {} {
      var x :| x in a;
      SubsetSize(a - {x}, b - {x});
    }
  }

  lemma SmallerSet<T>(a: set<T>, b: set<T>)
    requires a < b
    ensures |a| < |b|
  {
    var x :| x in b && x !in a;
    assert a <= b - {x};
    SubsetSize(a, b - {x});
  }

  lemma {:induction false} BoundOf(m: set<nat>) returns (b: nat)
    ensures forall x :: x in m ==> x < b
    decreases |m|
  {
    b := 0;
    if m != {} {
      var x :| x in m;
      var c := BoundOf(m - {x});
      b := if c > x then c else x + 1;
      forall y | y in m ensures y < b {
        assert y == x || y in m - {x};
      }
    }
  }
}
