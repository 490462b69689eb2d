/**
 * König's construction of a minimum vertex cover from a maximum matching
 * (BilateralBFS.cpp:212-254; computeMinVertexCover and konigDFS in each Java solver). The
 * BFS solver, the two push-relabel solvers and the bipush solver all call MinVertexCover.
 * The graph is given by its adjacency lists and its flow table; an edge is in the matching
 * when flow runs along it in either direction.
 */
module Konig {
  import opened EdgeTable
  import opened SetFacts

  datatype Graph = Graph(adj: map<int, seq<int>>, flow: map<Key, int>, source: int, sink: int)

  function Neighbors(g: Graph, x: int): seq<int>
  {
    if x in g.adj then g.adj[x] else []
  }

  /** konigDFS's test: flow is positive on the edge in one direction or the other. */
  predicate Matched(g: Graph, x: int, y: int)
  {
    Flow(g.flow, x, y) > 0 || Flow(g.flow, y, x) > 0
  }

  /**
   * The alternating rule: from a vertex of side2 only matched edges are followed, from a
   * vertex of side1 only unmatched ones, and never into the source or the sink.
   */
  ghost predicate Eligible(g: Graph, side2: set<int>, x: int, y: int)
  {
    y in Neighbors(g, x) && y != g.source && y != g.sink && Matched(g, x, y) == (x in side2)
  }

  /** Every vertex that x may step to is already in W. */
  ghost predicate Done(g: Graph, side2: set<int>, x: int, W: set<int>)
  {
    forall y :: Eligible(g, side2, x, y) ==> y in W
  }

  ghost predicate Closed(g: Graph, side2: set<int>, W: set<int>)
  {
    forall x :: x in W ==> Done(g, side2, x, W)
  }

  /** T is the set of vertices reachable from `starts` by alternating steps. */
  ghost predicate LeastClosed(g: Graph, side2: set<int>, starts: set<int>, T: set<int>)
  {
    Closed(g, side2, T) && starts <= T &&
    forall W :: Closed(g, side2, W) && starts <= W ==> T <= W
  }

  /**
   * The shape of graph König's construction needs: two disjoint sides, every edge between
   * them, adjacency recorded both ways, matched pairs adjacent, and no vertex with two mates.
   */
  ghost predicate GraphOk(g: Graph, side1: set<int>, side2: set<int>)
  {
    StructureOk(g, side1, side2) && MatchingOk(g, side1, side2)
  }

  /** The adjacency part of GraphOk, which is all the alternating search itself needs. */
  ghost predicate StructureOk(g: Graph, side1: set<int>, side2: set<int>)
  {
    side1 !! side2 &&
    g.source !in side1 + side2 && g.sink !in side1 + side2 &&
    (forall x, y :: x in side1 && y in Neighbors(g, x) && y != g.source && y != g.sink ==> y in side2) &&
    (forall x, y :: x in side2 && y in Neighbors(g, x) && y != g.source && y != g.sink ==> y in side1) &&
    (forall x, y :: x in side1 + side2 && y in side1 + side2 && y in Neighbors(g, x) ==> x in Neighbors(g, y))
  }

  /**
   * StructureOk depends only on which vertices are neighbours of which, and holds with the
   * two sides exchanged.
   */
  lemma StructureOkTransfer(g: Graph, h: Graph, side1: set<int>, side2: set<int>)
    requires StructureOk(g, side1, side2) && g.source == h.source && g.sink == h.sink
    requires forall x, y :: y in Neighbors(g, x) <==> y in Neighbors(h, x)
    ensures StructureOk(h, side1, side2) && StructureOk(h, side2, side1)
  {
    assert side2 + side1 == side1 + side2;
  }

  /** The flow part of GraphOk: the flow between the sides is a matching along edges of the graph. */
  ghost predicate MatchingOk(g: Graph, side1: set<int>, side2: set<int>)
  {
    (forall x, y :: x in side1 + side2 && y in side1 + side2 && Matched(g, x, y) ==> y in Neighbors(g, x)) &&
    (forall x, y, z ::
       x in side1 + side2 && y in side1 + side2 && z in side1 + side2 && Matched(g, x, y) && Matched(g, x, z)
       ==> y == z)
  }

  ghost predicate HasMate(g: Graph, sides: set<int>, x: int)
  {
    exists y :: y in sides && Matched(g, x, y)
  }

  /** The set `matches` holds exactly the vertices of either side that have a mate. */
  ghost predicate MatchesOk(g: Graph, side1: set<int>, side2: set<int>, matches: set<int>)
  {
    forall x :: x in side1 + side2 ==> (x in matches <==> HasMate(g, side1 + side2, x))
  }

  /** K contains an endpoint of every edge from side1 to side2. */
  ghost predicate CoversEdges(g: Graph, side1: set<int>, side2: set<int>, K: set<int>)
  {
    forall x, y :: x in side1 && y in side2 && y in Neighbors(g, x) ==> x in K || y in K
  }

  /** König's cover: the reached vertices of side2 and the unreached vertices of side1. */
  function CoverFrom(side1: set<int>, side2: set<int>, T: set<int>): set<int>
  {
    (side2 * T) + (side1 - T)
  }

  /** The mate of a matched vertex (any vertex, for one without a mate). */
  ghost function Mate(g: Graph, sides: set<int>, x: int): int
  {
    if HasMate(g, sides, x) then var y :| y in sides && Matched(g, x, y); y else x
  }

  lemma GraphOkSymmetric(g: Graph, side1: set<int>, side2: set<int>)
    requires GraphOk(g, side1, side2)
    ensures GraphOk(g, side2, side1)
  {
    assert side1 + side2 == side2 + side1;
  }

  /** With adjacency recorded both ways, covering the edges from one side covers those from the other. */
  lemma CoversEdgesSymmetric(g: Graph, side1: set<int>, side2: set<int>, K: set<int>)
    requires GraphOk(g, side1, side2)
    ensures CoversEdges(g, side1, side2, K) <==> CoversEdges(g, side2, side1, K)
  {
    if CoversEdges(g, side1, side2, K) {
      forall x, y | x in side2 && y in side1 && y in Neighbors(g, x)
        ensures x in K || y in K
      {
        assert x in Neighbors(g, y);
      }
    }
    if CoversEdges(g, side2, side1, K) {
      forall x, y | x in side1 && y in side2 && y in Neighbors(g, x)
        ensures x in K || y in K
      {
        assert x in Neighbors(g, y);
      }
    }
  }

  /**
   * konigDFS: adds v and everything reachable from it by alternating steps that is not yet in
   * the set. Each vertex is added once; the result is the least superset of konigSet + {v}
   * closed under the steps, when konigSet was closed to begin with.
   */
  method KonigDfs(g: Graph, side1: set<int>, side2: set<int>, konigSet: set<int>, v: int, edgesInMatch: bool)
    returns (result: set<int>)
    requires StructureOk(g, side1, side2)
    requires v in side1 + side2 && konigSet <= side1 + side2
    requires edgesInMatch == (v in side2)
    ensures konigSet + {v} <= result <= side1 + side2
    ensures forall x :: x in result - konigSet ==> Done(g, side2, x, result)
    ensures forall W :: Closed(g, side2, W) && konigSet + {v} <= W ==> result <= W
    decreases |(side1 + side2) - konigSet|
  {
    result := konigSet;
    if v !in result {
      result := result + {v};
      var neighbors := Neighbors(g, v);
      for i := 0 to |neighbors|
        invariant konigSet + {v} <= result <= side1 + side2
        invariant forall x :: x in result - konigSet - {v} ==> Done(g, side2, x, result)
        invariant forall j :: 0 <= j < i && Eligible(g, side2, v, neighbors[j]) ==> neighbors[j] in result
        invariant forall W :: Closed(g, side2, W) && konigSet + {v} <= W ==> result <= W
      {
        var neighb := neighbors[i];
        if neighb != g.source && neighb != g.sink {
          if edgesInMatch == Matched(g, v, neighb) {
            assert Eligible(g, side2, v, neighb);
            assert neighb in side1 + side2;
            ProperSubsetCard((side1 + side2) - result, (side1 + side2) - konigSet);
            var before := result;
            result := KonigDfs(g, side1, side2, result, neighb, !edgesInMatch);
            forall x | x in before - konigSet - {v}
              ensures Done(g, side2, x, result)
            {
              DoneGrows(g, side2, x, before, result);
            }
          }
        }
      }
      assert Done(g, side2, v, result);
    }
  }

  lemma DoneGrows(g: Graph, side2: set<int>, x: int, W: set<int>, W': set<int>)
    requires Done(g, side2, x, W) && W <= W'
    ensures Done(g, side2, x, W')
  {
  }

  /**
   * computeMinVertexCover: runs konigDFS from every unmatched vertex of side1 and returns
   * (side2 ∩ T) ∪ (side1 \ T). The cover contains an endpoint of every edge; T is the set
   * reached by alternating paths, whatever the order the starting vertices are taken in.
   */
  method MinVertexCover(g: Graph, side1: set<int>, side2: set<int>, matches: set<int>)
    returns (cover: set<int>, konigSet: set<int>)
    requires StructureOk(g, side1, side2)
    ensures LeastClosed(g, side2, side1 - matches, konigSet) && konigSet <= side1 + side2
    ensures cover == CoverFrom(side1, side2, konigSet)
    ensures cover <= side1 + side2
    ensures MatchingOk(g, side1, side2) && MatchesOk(g, side1, side2, matches) ==>
              CoversEdges(g, side1, side2, cover) && CoversEdges(g, side2, side1, cover)
  {
    var unmatched := side1 - matches;
    konigSet := {};
    var todo := unmatched;
    while todo != {}
      invariant todo <= unmatched
      invariant unmatched - todo <= konigSet <= side1 + side2
      invariant Closed(g, side2, konigSet)
      invariant forall W :: Closed(g, side2, W) && unmatched - todo <= W ==> konigSet <= W
      decreases |todo|
    {
      NonEmptyHasElement(todo);
      var u :| u in todo;
      var before := konigSet;
      konigSet := KonigDfs(g, side1, side2, konigSet, u, false);
      forall x | x in before
        ensures Done(g, side2, x, konigSet)
      {
        DoneGrows(g, side2, x, before, konigSet);
      }
      todo := todo - {u};
    }
    cover := (side2 * konigSet) + (side1 - konigSet);
    if MatchingOk(g, side1, side2) && MatchesOk(g, side1, side2, matches) {
      CoverTouchesEveryEdge(g, side1, side2, matches, konigSet);
      CoversEdgesSymmetric(g, side1, side2, cover);
    }
  }

  /**
   * A matched vertex of side1 reached by the construction has its mate reached too: it can
   * only have been entered through its matched edge.
   */
  lemma MateInKonigSet(g: Graph, side1: set<int>, side2: set<int>, matches: set<int>, T: set<int>, x: int, y: int)
    requires GraphOk(g, side1, side2) && MatchesOk(g, side1, side2, matches)
    requires LeastClosed(g, side2, side1 - matches, T) && T <= side1 + side2
    requires x in side1 && x in T && y in side2 && Matched(g, x, y)
    ensures y in T
  {
    assert HasMate(g, side1 + side2, x);
    MateOutsideKonigSet(g, side1, side2, side1 - matches, T, x, y);
  }

  lemma MateOutsideKonigSet(g: Graph, side1: set<int>, side2: set<int>, starts: set<int>, T: set<int>, x: int, y: int)
    requires GraphOk(g, side1, side2)
    requires LeastClosed(g, side2, starts, T) && T <= side1 + side2
    requires x in side1 && x in T && x !in starts && y in side2 && Matched(g, x, y)
    ensures y in T
  {
    ClosedWithoutMatchedVertex(g, side1, side2, T, x, y);
    assert starts <= T - {x};
  }

  /** Unless the mate y of x is in T, removing x from T keeps T closed. */
  lemma ClosedWithoutMatchedVertex(g: Graph, side1: set<int>, side2: set<int>, T: set<int>, x: int, y: int)
    requires GraphOk(g, side1, side2)
    requires Closed(g, side2, T) && T <= side1 + side2
    requires x in side1 && y in side2 && Matched(g, x, y)
    ensures y in T || Closed(g, side2, T - {x})
  {
    if y !in T {
      forall a, b | a in T - {x} && Eligible(g, side2, a, b)
        ensures b in T - {x}
      {
        assert Done(g, side2, a, T);
        if b == x {
          assert a !in side1;
          assert Matched(g, x, a);
        }
      }
    }
  }

  /** The cover contains an endpoint of every edge between the sides. */
  lemma CoverTouchesEveryEdge(g: Graph, side1: set<int>, side2: set<int>, matches: set<int>, T: set<int>)
    requires GraphOk(g, side1, side2) && MatchesOk(g, side1, side2, matches)
    requires LeastClosed(g, side2, side1 - matches, T) && T <= side1 + side2
    ensures CoversEdges(g, side1, side2, CoverFrom(side1, side2, T))
  {
    forall x, y | x in side1 && y in side2 && y in Neighbors(g, x)
      ensures x in CoverFrom(side1, side2, T) || y in CoverFrom(side1, side2, T)
    {
      if x in T {
        if Matched(g, x, y) {
          MateInKonigSet(g, side1, side2, matches, T, x, y);
        } else {
          assert Eligible(g, side2, x, y);
        }
      }
    }
  }

  /** The mate of a matched vertex lies on the other side and has that vertex as its mate. */
  lemma MateFacts(g: Graph, side1: set<int>, side2: set<int>, x: int)
    requires GraphOk(g, side1, side2) && x in side1 + side2 && HasMate(g, side1 + side2, x)
    ensures Mate(g, side1 + side2, x) in side1 + side2
    ensures Matched(g, x, Mate(g, side1 + side2, x)) && Matched(g, Mate(g, side1 + side2, x), x)
    ensures Mate(g, side1 + side2, x) in Neighbors(g, x)
    ensures x in side1 <==> Mate(g, side1 + side2, x) in side2
    ensures HasMate(g, side1 + side2, Mate(g, side1 + side2, x))
    ensures Mate(g, side1 + side2, Mate(g, side1 + side2, x)) == x
  {
    var sides := side1 + side2;
    var m := Mate(g, sides, x);
    assert Matched(g, m, x);
    assert HasMate(g, sides, m);
    var mm := Mate(g, sides, m);
    assert Matched(g, m, mm);
  }

  ghost function MateImage(g: Graph, sides: set<int>, A: set<int>): set<int>
  {
    set x | x in A :: Mate(g, sides, x)
  }

  /** Distinct matched vertices have distinct mates. */
  lemma MateImageCard(g: Graph, side1: set<int>, side2: set<int>, A: set<int>)
    requires GraphOk(g, side1, side2)
    requires forall x :: x in A ==> x in side1 + side2 && HasMate(g, side1 + side2, x)
    ensures |MateImage(g, side1 + side2, A)| == |A|
  {
    var sides := side1 + side2;
    var mate := x => Mate(g, sides, x);
    forall x, y | x in A && y in A && mate(x) == mate(y)
      ensures x == y
    {
      MateFacts(g, side1, side2, x);
      MateFacts(g, side1, side2, y);
    }
    InjectiveImageCard(A, mate);
    assert (set x | x in A :: mate(x)) == MateImage(g, sides, A);
  }

  /** The mates of the reached vertices of side2 are the reached matched vertices of side1. */
  lemma ReachedMates(g: Graph, side1: set<int>, side2: set<int>, matches: set<int>, T: set<int>)
    requires GraphOk(g, side1, side2) && MatchesOk(g, side1, side2, matches)
    requires LeastClosed(g, side2, side1 - matches, T) && T <= side1 + side2
    requires side2 * T <= matches
    ensures MateImage(g, side1 + side2, side2 * T) == side1 * T * matches
  {
    var sides := side1 + side2;
    forall r | r in side2 * T
      ensures Mate(g, sides, r) in side1 * T * matches
    {
      assert HasMate(g, sides, r);
      MateFacts(g, side1, side2, r);
      assert Eligible(g, side2, r, Mate(g, sides, r));
      assert Done(g, side2, r, T);
    }
    forall l | l in side1 * T * matches
      ensures l in MateImage(g, sides, side2 * T)
    {
      MateFacts(g, side1, side2, l);
      MateInKonigSet(g, side1, side2, matches, T, l, Mate(g, sides, l));
    }
  }

  /**
   * König's theorem for the construction: when no reached vertex of side2 is free (the
   * matching is maximum; W witnesses it), the cover has one vertex per matched edge.
   */
  lemma CoverSize(g: Graph, side1: set<int>, side2: set<int>, matches: set<int>, T: set<int>, W: set<int>)
    requires GraphOk(g, side1, side2) && MatchesOk(g, side1, side2, matches)
    requires LeastClosed(g, side2, side1 - matches, T) && T <= side1 + side2
    requires Closed(g, side2, W) && side1 - matches <= W && side2 * W <= matches
    ensures |CoverFrom(side1, side2, T)| == |side1 * matches|
  {
    assert T <= W;
    ReachedMates(g, side1, side2, matches, T);
    MateImageCard(g, side1, side2, side2 * T);
    CoverCard(side1, side2, matches, T);
  }

  lemma CoverCard(side1: set<int>, side2: set<int>, matches: set<int>, T: set<int>)
    requires side1 !! side2 && side1 - T <= matches
    requires |side2 * T| == |side1 * T * matches|
    ensures |CoverFrom(side1, side2, T)| == |side1 * matches|
  {
    assert side1 * matches == (side1 - T) + side1 * T * matches;
    assert (side1 - T) !! side1 * T * matches;
    assert (side2 * T) !! (side1 - T);
  }

  /** Weak duality: any set covering the edges has at least one vertex per matched edge. */
  lemma CoverAtLeastMatching(g: Graph, side1: set<int>, side2: set<int>, matches: set<int>, K: set<int>)
    requires GraphOk(g, side1, side2) && MatchesOk(g, side1, side2, matches)
    requires CoversEdges(g, side1, side2, K)
    ensures |side1 * matches| <= |K|
  {
    var sides := side1 + side2;
    var pick := x => if x in K then x else Mate(g, sides, x);
    var matched1 := side1 * matches;
    forall x | x in matched1
      ensures pick(x) in K
    {
      MateFacts(g, side1, side2, x);
    }
    forall x, y | x in matched1 && y in matched1 && pick(x) == pick(y)
      ensures x == y
    {
      MateFacts(g, side1, side2, x);
      MateFacts(g, side1, side2, y);
    }
    InjectiveImageCard(matched1, pick);
    SubsetCard(set x | x in matched1 :: pick(x), K);
  }

  /** The mates of the matched vertices of side1 are the matched vertices of side2. */
  lemma MatchedMates(g: Graph, side1: set<int>, side2: set<int>, matches: set<int>)
    requires GraphOk(g, side1, side2) && MatchesOk(g, side1, side2, matches)
    ensures MateImage(g, side1 + side2, side1 * matches) == side2 * matches
  {
    var sides := side1 + side2;
    forall x | x in side1 * matches
      ensures Mate(g, sides, x) in side2 * matches
    {
      MateFacts(g, side1, side2, x);
    }
    forall y | y in side2 * matches
      ensures y in MateImage(g, sides, side1 * matches)
    {
      MateIsMateOf(g, side1, side2, matches, y);
    }
  }

  lemma MateIsMateOf(g: Graph, side1: set<int>, side2: set<int>, matches: set<int>, y: int)
    requires GraphOk(g, side1, side2) && MatchesOk(g, side1, side2, matches)
    requires y in side2 * matches
    ensures Mate(g, side1 + side2, y) in side1 * matches
    ensures Mate(g, side1 + side2, Mate(g, side1 + side2, y)) == y
  {
    MateFacts(g, side1, side2, y);
  }

  /** A matching pairs the matched vertices of side1 one to one with those of side2. */
  lemma MatchedSidesSameSize(g: Graph, side1: set<int>, side2: set<int>, matches: set<int>)
    requires GraphOk(g, side1, side2) && MatchesOk(g, side1, side2, matches)
    ensures |side1 * matches| == |side2 * matches|
  {
    MatchedMates(g, side1, side2, matches);
    forall x | x in side1 * matches
      ensures x in side1 + side2 && HasMate(g, side1 + side2, x)
    {
    }
    MateImageCard(g, side1, side2, side1 * matches);
  }

  /** konigDFS-independent choice of one cover vertex per matched edge of side1. */
  ghost function Pick(g: Graph, sides: set<int>, K: set<int>, x: int): int
  {
    if x in K then x else Mate(g, sides, x)
  }

  /**
   * A cover no larger than the matching consists of one vertex picked from each matched
   * edge, and nothing else.
   */
  lemma CoverIsPicked(g: Graph, side1: set<int>, side2: set<int>, matches: set<int>, K: set<int>)
    requires GraphOk(g, side1, side2) && MatchesOk(g, side1, side2, matches)
    requires CoversEdges(g, side1, side2, K) && |K| <= |side1 * matches|
    ensures forall x :: x in K ==> exists z :: z in side1 * matches && Pick(g, side1 + side2, K, z) == x
  {
    var sides := side1 + side2;
    var pick := x => Pick(g, sides, K, x);
    var matched1 := side1 * matches;
    forall x | x in matched1
      ensures pick(x) in K
    {
      MateFacts(g, side1, side2, x);
    }
    forall x, y | x in matched1 && y in matched1 && pick(x) == pick(y)
      ensures x == y
    {
      MateFacts(g, side1, side2, x);
      MateFacts(g, side1, side2, y);
    }
    InjectiveImageCard(matched1, pick);
    SubsetOfSameCard(set x | x in matched1 :: pick(x), K);
  }

  /**
   * A cover no larger than the matching is tight: it holds only matched vertices of the two
   * sides, and never both ends of a matched edge.
   */
  lemma MinimumCoverTight(g: Graph, side1: set<int>, side2: set<int>, matches: set<int>, K: set<int>)
    requires GraphOk(g, side1, side2) && MatchesOk(g, side1, side2, matches)
    requires CoversEdges(g, side1, side2, K) && |K| <= |side1 * matches|
    ensures K <= side1 + side2
    ensures forall x :: x in side1 && x in K ==> x in matches
    ensures forall x, y :: x in side2 && x in K && y in side1 && Matched(g, y, x) ==> y !in K
  {
    var sides := side1 + side2;
    CoverIsPicked(g, side1, side2, matches, K);
    forall x | x in K
      ensures x in sides && (x in side1 ==> x in matches)
    {
      var z :| z in side1 * matches && Pick(g, sides, K, z) == x;
      PickedVertex(g, side1, side2, matches, K, z);
    }
    forall x, y | x in side2 && x in K && y in side1 && Matched(g, y, x)
      ensures y !in K
    {
      var z :| z in side1 * matches && Pick(g, sides, K, z) == x;
      PickedVertex(g, side1, side2, matches, K, z);
      PickedMate(g, side1, side2, y, x, z);
    }
  }

  lemma PickedVertex(g: Graph, side1: set<int>, side2: set<int>, matches: set<int>, K: set<int>, z: int)
    requires GraphOk(g, side1, side2) && MatchesOk(g, side1, side2, matches)
    requires z in side1 * matches
    ensures Pick(g, side1 + side2, K, z) in side1 + side2
    ensures Pick(g, side1 + side2, K, z) in side1 ==> Pick(g, side1 + side2, K, z) == z && z in K
    ensures Pick(g, side1 + side2, K, z) in side2 ==> z !in K && Matched(g, z, Pick(g, side1 + side2, K, z))
  {
    MateFacts(g, side1, side2, z);
  }

  /** Two vertices of side1 matched to the same vertex are the same. */
  lemma PickedMate(g: Graph, side1: set<int>, side2: set<int>, y: int, x: int, z: int)
    requires GraphOk(g, side1, side2)
    requires y in side1 && z in side1 && x in side2 && Matched(g, y, x) && Matched(g, z, x)
    ensures y == z
  {
    assert Matched(g, x, y) && Matched(g, x, z);
  }

  /**
   * Every side1 vertex of a minimum cover lies in König's cover built from side1: the
   * construction leaves out of its side1 part only vertices no minimum cover can hold.
   */
  lemma MinimumCoverWithinKonig(g: Graph, side1: set<int>, side2: set<int>, matches: set<int>, T: set<int>, K: set<int>)
    requires GraphOk(g, side1, side2) && MatchesOk(g, side1, side2, matches)
    requires LeastClosed(g, side2, side1 - matches, T)
    requires CoversEdges(g, side1, side2, K) && |K| <= |side1 * matches|
    ensures side1 * K <= CoverFrom(side1, side2, T)
  {
    MinimumCoverTight(g, side1, side2, matches, K);
    var W := (side1 - K) + (side2 * K);
    forall x, y | x in W && Eligible(g, side2, x, y)
      ensures y in W
    {
      if x in side1 {
        assert y in side2;
      } else {
        assert y in side1 && Matched(g, y, x);
      }
    }
    assert Closed(g, side2, W);
    forall x | x in side1 - matches
      ensures x in W
    {
      assert x !in K;
    }
    assert T <= W;
  }
}
