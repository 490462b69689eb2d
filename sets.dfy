/** Facts about finite sets used by the cardinality arguments. */
module SetFacts {

  lemma NonEmptyHasElement(A: set<int>)
    requires A != {}
    ensures exists a :: a in A
  {
    if forall a :: a !in A {
      assert false;
    }
  }

  lemma {:induction false} SubsetCard(A: set<int>, B: set<int>)
    requires A <= B
    ensures |A| <= |B|
    decreases |B|
  {
    if A != {} {
      NonEmptyHasElement(A);
      var a :| a in A;
      SubsetCard(A - {a}, B - {a});
    }
  }

  lemma ProperSubsetCard(A: set<int>, B: set<int>)
    requires A < B
    ensures |A| < |B|
  {
    assert B - A != {} by {
      if B - A == {} {
        assert false;
      }
    }
    NonEmptyHasElement(B - A);
    var b :| b in B - A;
    SubsetCard(A, B - {b});
  }

  /** An injective function maps a finite set onto a set of the same size. */
  lemma {:induction false} InjectiveImageCard(A: set<int>, f: int -> int)
    requires forall x, y :: x in A && y in A && f(x) == f(y) ==> x == y
    ensures |set x | x in A :: f(x)| == |A|
    decreases |A|
  {
    if A != {} {
      NonEmptyHasElement(A);
      var a :| a in A;
      var rest := A - {a};
      InjectiveImageCard(rest, f);
      assert (set x | x in A :: f(x)) == (set x | x in rest :: f(x)) + {f(a)};
    }
  }

  /** A subset at least as large as its superset is the whole superset. */
  lemma SubsetOfSameCard(A: set<int>, B: set<int>)
    requires A <= B && |B| <= |A|
    ensures A == B
  {
    if A != B {
      ProperSubsetCard(A, B);
    }
  }

  /** The elements of a sequence, listed once each. */
  ghost predicate Distinct(s: seq<int>)
  {
    forall i, j :: 0 <= i < j < |s| ==> s[i] != s[j]
  }

  /** A sequence without repeats has as many elements as its set. */
  lemma {:induction false} DistinctCard(s: seq<int>)
    requires Distinct(s)
    ensures |set x | x in s| == |s|
    decreases |s|
  {
    if |s| > 0 {
      var front := s[..|s| - 1];
      DistinctCard(front);
      assert (set x | x in s) == (set x | x in front) + {s[|s| - 1]};
      assert s[|s| - 1] !in front;
    }
  }

  /** A sequence without repeats drawn from A is no longer than A is large. */
  lemma DistinctWithin(s: seq<int>, A: set<int>)
    requires Distinct(s) && forall i :: 0 <= i < |s| ==> s[i] in A
    ensures |s| <= |A|
  {
    DistinctCard(s);
    SubsetCard((set x | x in s), A);
  }
}
