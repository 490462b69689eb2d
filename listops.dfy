/**
 * The java.util.List operations the push-relabel solvers reorder their lists with:
 * List.remove(Object), add(0, x) and add(x) as used by moveToFrontOfNeighbors and
 * moveToBackOfNeighbors (BilateralPushRelabel.java:722-729, Bilateral.java.good1.java:504-511,
 * BilateralBipush.java:608-615), and the ListIterator remove/addFirst step of relabelToFront.
 */
module ListOps {

  /** The position of the first occurrence of x in s. */
  function FirstIndex<T(==)>(s: seq<T>, x: T): (i: nat)
    requires x in s
    ensures i < |s| && s[i] == x && x !in s[..i]
  {
    if s[0] == x then 0
    else
      var j := FirstIndex(s[1..], x);
      assert s[..j + 1] == [s[0]] + s[1..][..j];
      j + 1
  }

  /** List.remove(Object): drops the first element equal to x; a list without x is unchanged. */
  function RemoveFirst<T(==)>(s: seq<T>, x: T): (r: seq<T>)
    ensures x !in s ==> r == s
    ensures x in s ==> |r| == |s| - 1
    ensures multiset(r) == multiset(s) - multiset{x}
  {
    if |s| == 0 then []
    else if s[0] == x then
      assert s == [s[0]] + s[1..];
      s[1..]
    else
      assert s == [s[0]] + s[1..];
      [s[0]] + RemoveFirst(s[1..], x)
  }

  /** The other elements keep their order: the result is s with position FirstIndex(s, x) cut out. */
  lemma {:induction false} RemoveFirstCutsFirst<T>(s: seq<T>, x: T)
    requires x in s
    ensures RemoveFirst(s, x) == s[..FirstIndex(s, x)] + s[FirstIndex(s, x) + 1..]
  {
    if s[0] != x {
      RemoveFirstCutsFirst(s[1..], x);
      ConsCut(s, FirstIndex(s[1..], x));
    }
  }

  lemma ConsCut<T>(s: seq<T>, j: nat)
    requires j + 1 < |s|
    ensures [s[0]] + (s[1..][..j] + s[1..][j + 1..]) == s[..j + 1] + s[j + 2..]
  {
    assert s[..j + 1] == [s[0]] + s[1..][..j];
  }

  /** moveToFrontOfNeighbors: remove(x), then add(0, x). */
  function MoveToFront<T(==)>(s: seq<T>, x: T): (r: seq<T>)
    ensures |r| > 0 && r[0] == x
    ensures x in s ==> |r| == |s| && multiset(r) == multiset(s)
  {
    [x] + RemoveFirst(s, x)
  }

  /** moveToBackOfNeighbors: remove(x), then add(x). */
  function MoveToBack<T(==)>(s: seq<T>, x: T): (r: seq<T>)
    ensures |r| > 0 && r[|r| - 1] == x
    ensures x in s ==> |r| == |s| && multiset(r) == multiset(s)
  {
    RemoveFirst(s, x) + [x]
  }

  /**
   * Moving x to either end of a list that holds it keeps every other element, in the same
   * relative order, and keeps the list's members.
   */
  lemma MovesKeepOthers<T>(s: seq<T>, x: T)
    requires x in s
    ensures MoveToFront(s, x)[1..] == s[..FirstIndex(s, x)] + s[FirstIndex(s, x) + 1..]
    ensures MoveToBack(s, x)[..|s| - 1] == s[..FirstIndex(s, x)] + s[FirstIndex(s, x) + 1..]
    ensures forall y :: y in MoveToFront(s, x) <==> y in s
    ensures forall y :: y in MoveToBack(s, x) <==> y in s
  {
    RemoveFirstCutsFirst(s, x);
    forall y
      ensures y in MoveToFront(s, x) <==> y in s
      ensures y in MoveToBack(s, x) <==> y in s
    {
      assert y in s <==> y in multiset(s);
      assert y in MoveToFront(s, x) <==> y in multiset(MoveToFront(s, x));
      assert y in MoveToBack(s, x) <==> y in multiset(MoveToBack(s, x));
    }
  }

  /**
   * relabelToFront's reordering step: iter.remove() takes out the element just returned,
   * at position i, and V.addFirst puts it at the head.
   */
  function MoveAtToFront<T>(s: seq<T>, i: nat): (r: seq<T>)
    requires i < |s|
    ensures |r| == |s| && r[0] == s[i]
    ensures multiset(r) == multiset(s)
    ensures r[i + 1..] == s[i + 1..]
  {
    assert s == s[..i] + [s[i]] + s[i + 1..];
    [s[i]] + s[..i] + s[i + 1..]
  }
}
