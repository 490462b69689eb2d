/**
 * Sums over neighbour lists for the push-relabel solvers: the flow into a vertex and out of
 * it, the preflow condition that ties a vertex's excess to the two, and what a preflow with
 * no excess left on the employees says about the matching it carries.
 */
module FlowSums {
  import opened Params
  import opened EdgeTable
  import opened SetFacts
  import opened FlowNetwork
  import opened Konig

  /** The sum of w over the list ys. */
  function Sum(ys: seq<int>, w: int -> int): int
  {
    if ys == [] then 0 else w(ys[0]) + Sum(ys[1..], w)
  }

  /** The flow into x from each of ys. */
  function In(F: map<Key, int>, x: int, ys: seq<int>): int
  {
    Sum(ys, y => Flow(F, y, x))
  }

  /** The flow out of x to each of ys. */
  function Out(F: map<Key, int>, x: int, ys: seq<int>): int
  {
    Sum(ys, y => Flow(F, x, y))
  }

  /** The net inflow of x: what its neighbours ys send it less what it sends them. */
  function NetInflow(F: map<Key, int>, x: int, ys: seq<int>): int
  {
    In(F, x, ys) - Out(F, x, ys)
  }

  lemma DistinctTail(ys: seq<int>)
    requires Distinct(ys) && ys != []
    ensures Distinct(ys[1..]) && ys[0] !in ys[1..]
  {
    forall k | 0 <= k < |ys| - 1
      ensures ys[1..][k] == ys[k + 1] && ys[k + 1] != ys[0]
    {
    }
  }

  /** Changing w at the single point c by d changes the sum by d when c is listed, once. */
  lemma {:induction false} SumChange(ys: seq<int>, w: int -> int, w': int -> int, c: int, d: int)
    requires Distinct(ys)
    requires forall y :: y != c ==> w'(y) == w(y)
    requires w'(c) == w(c) + d
    ensures Sum(ys, w') == Sum(ys, w) + (if c in ys then d else 0)
    decreases |ys|
  {
    if ys != [] {
      DistinctTail(ys);
      SumChange(ys[1..], w, w', c, d);
      assert c in ys <==> c == ys[0] || c in ys[1..];
    }
  }

  /** Sums of two functions that agree on the listed points are equal. */
  lemma {:induction false} SumSame(ys: seq<int>, w: int -> int, w': int -> int)
    requires forall y :: y in ys ==> w(y) == w'(y)
    ensures Sum(ys, w) == Sum(ys, w')
    decreases |ys|
  {
    if ys != [] {
      var y0 := ys[0];
      assert y0 in ys;
      SumSame(ys[1..], w, w');
    }
  }

  /** A sum whose terms vanish everywhere but at c. */
  lemma {:induction false} SumSingle(ys: seq<int>, w: int -> int, c: int)
    requires Distinct(ys) && forall y :: y in ys && y != c ==> w(y) == 0
    ensures Sum(ys, w) == if c in ys then w(c) else 0
    decreases |ys|
  {
    if ys != [] {
      DistinctTail(ys);
      SumSingle(ys[1..], w, c);
      assert c in ys <==> c == ys[0] || c in ys[1..];
    }
  }

  /** A sum of ones is the length of the list. */
  lemma {:induction false} SumOnes(ys: seq<int>, w: int -> int)
    requires forall y :: y in ys ==> w(y) == 1
    ensures Sum(ys, w) == |ys|
    decreases |ys|
  {
    if ys != [] {
      var y0 := ys[0];
      assert y0 in ys;
      SumOnes(ys[1..], w);
    }
  }

  /** With no negative term, the sum is at least the term of any listed point. */
  lemma {:induction false} SumAtLeastOne(ys: seq<int>, w: int -> int, a: int)
    requires forall y :: y in ys ==> w(y) >= 0
    requires a in ys
    ensures Sum(ys, w) >= w(a)
    decreases |ys|
  {
    if ys[0] != a {
      SumAtLeastOne(ys[1..], w, a);
    } else if ys[1..] != [] {
      SumAtLeastOne(ys[1..], w, ys[1]);
    }
  }

  /** With no negative term, the sum is at least the terms of two different listed points. */
  lemma {:induction false} SumAtLeastTwo(ys: seq<int>, w: int -> int, a: int, b: int)
    requires forall y :: y in ys ==> w(y) >= 0
    requires a in ys && b in ys && a != b
    ensures Sum(ys, w) >= w(a) + w(b)
    decreases |ys|
  {
    if ys[0] == a {
      SumAtLeastOne(ys[1..], w, b);
    } else if ys[0] == b {
      SumAtLeastOne(ys[1..], w, a);
    } else {
      SumAtLeastTwo(ys[1..], w, a, b);
    }
  }

  /**
   * Changing the flow of the ordered pair (a, b) by d adds d to the net inflow of b when a is
   * one of its listed neighbours, takes d from that of a when b is one of a's, and leaves
   * every other vertex's alone.
   */
  lemma NetInflowChange(F: map<Key, int>, F': map<Key, int>, x: int, ys: seq<int>, a: int, b: int, d: int)
    requires Distinct(ys) && a != b
    requires forall p, q :: (p, q) != (a, b) ==> Flow(F', p, q) == Flow(F, p, q)
    requires Flow(F', a, b) == Flow(F, a, b) + d
    ensures NetInflow(F', x, ys) ==
      NetInflow(F, x, ys) + (if x == b && a in ys then d else 0) - (if x == a && b in ys then d else 0)
  {
    SumChange(ys, y => Flow(F, y, x), y => Flow(F', y, x), a, if x == b then d else 0);
    SumChange(ys, y => Flow(F, x, y), y => Flow(F', x, y), b, if x == a then d else 0);
  }

  /** The net inflow of a vertex whose only flow is from c, or to c. */
  lemma NetInflowSingle(F: map<Key, int>, x: int, ys: seq<int>, c: int)
    requires Distinct(ys)
    requires forall y :: y in ys && y != c ==> Flow(F, y, x) == 0 && Flow(F, x, y) == 0
    ensures NetInflow(F, x, ys) == if c in ys then Flow(F, c, x) - Flow(F, x, c) else 0
  {
    SumSingle(ys, y => Flow(F, y, x), c);
    SumSingle(ys, y => Flow(F, x, y), c);
  }

  /** The net inflow of a vertex that sends 1 to each neighbour and receives nothing. */
  lemma NetInflowAllOut(F: map<Key, int>, x: int, ys: seq<int>)
    requires Distinct(ys)
    requires forall y :: y in ys ==> Flow(F, y, x) == 0 && Flow(F, x, y) == 1
    ensures NetInflow(F, x, ys) == -|ys|
  {
    SumSingle(ys, y => Flow(F, y, x), x);
    SumOnes(ys, y => Flow(F, x, y));
  }

  // ---------------------------------------------------------------------------------------
  // Unit flows on the bipartite network

  /** A flow table push-relabel keeps: entries on exactly the network's edges, each within capacity 1. */
  ghost predicate WithinUnitCapacity(inst: Instance, F: map<Key, int>)
  {
    F.Keys == Keys(inst) && forall k :: k in F ==> 0 <= F[k] <= 1
  }

  /** Only the source sends flow into a left vertex, and a right vertex sends flow only to the sink. */
  lemma KeyEnds(inst: Instance, F: map<Key, int>, x: int, y: int)
    requires WellFormed(inst) && WithinUnitCapacity(inst, F)
    ensures x in inst.lv && y != SourceId ==> Flow(F, y, x) == 0
    ensures x in inst.rv && y != SinkId ==> Flow(F, x, y) == 0
  {
  }

  /** Flow between two employees runs along a team, from its left member to its right one. */
  lemma FlowIsTeam(inst: Instance, F: map<Key, int>, x: int, y: int)
    requires WellFormed(inst) && WithinUnitCapacity(inst, F)
    requires x in LSet(inst) + RSet(inst) && y in LSet(inst) + RSet(inst) && Flow(F, x, y) > 0
    ensures IsTeam(inst, x, y) && x in inst.lv && y in inst.rv
  {
    assert (x, y) in F;
    if (x, y) !in inst.teams {
      assert false;
    }
  }

  /** A left vertex with no net inflow sends flow to at most one right vertex. */
  lemma DrainedLeft(inst: Instance, F: map<Key, int>, l: int, r1: int, r2: int)
    requires WellFormed(inst) && WithinUnitCapacity(inst, F) && l in inst.lv
    requires NetInflow(F, l, NetNeighbors(inst, l)) == 0
    requires r1 in inst.rv && r2 in inst.rv && Flow(F, l, r1) > 0 && Flow(F, l, r2) > 0
    ensures r1 == r2
  {
    var ys := NetNeighbors(inst, l);
    NetNeighborsDistinct(inst, l);
    forall y | y in ys && y != SourceId
      ensures Flow(F, y, l) == 0
    {
      KeyEnds(inst, F, l, y);
    }
    SumSingle(ys, y => Flow(F, y, l), SourceId);
    assert In(F, l, ys) <= 1;
    if r1 != r2 {
      FlowIsTeam(inst, F, l, r1);
      FlowIsTeam(inst, F, l, r2);
      LeftNeighbors(inst, l, r1);
      LeftNeighbors(inst, l, r2);
      SumAtLeastTwo(ys, y => Flow(F, l, y), r1, r2);
      assert false;
    }
  }

  /** A right vertex with no net inflow receives flow from at most one left vertex. */
  lemma DrainedRight(inst: Instance, F: map<Key, int>, r: int, l1: int, l2: int)
    requires WellFormed(inst) && WithinUnitCapacity(inst, F) && r in inst.rv
    requires NetInflow(F, r, NetNeighbors(inst, r)) == 0
    requires l1 in inst.lv && l2 in inst.lv && Flow(F, l1, r) > 0 && Flow(F, l2, r) > 0
    ensures l1 == l2
  {
    var ys := NetNeighbors(inst, r);
    NetNeighborsDistinct(inst, r);
    forall y | y in ys && y != SinkId
      ensures Flow(F, r, y) == 0
    {
      KeyEnds(inst, F, r, y);
    }
    SumSingle(ys, y => Flow(F, r, y), SinkId);
    assert Out(F, r, ys) <= 1;
    if l1 != l2 {
      FlowIsTeam(inst, F, l1, r);
      FlowIsTeam(inst, F, l2, r);
      RightNeighbors(inst, r, l1);
      RightNeighbors(inst, r, l2);
      SumAtLeastTwo(ys, y => Flow(F, y, r), l1, l2);
      assert false;
    }
  }

  /**
   * Once no employee holds excess, the flow is a matching: flow runs only along teams, and
   * no employee has flow with two others.
   */
  lemma DrainedIsMatching(inst: Instance, F: map<Key, int>)
    requires WellFormed(inst) && WithinUnitCapacity(inst, F)
    requires forall x :: x in LSet(inst) + RSet(inst) ==> NetInflow(F, x, NetNeighbors(inst, x)) == 0
    ensures MatchingOk(NetGraph(inst, F), LSet(inst), RSet(inst))
  {
    var g, S := NetGraph(inst, F), LSet(inst) + RSet(inst);
    forall x, y | x in S && y in S && Matched(g, x, y)
      ensures y in Neighbors(g, x)
    {
      GraphNeighbors(inst, F, x);
      if Flow(F, x, y) > 0 {
        FlowIsTeam(inst, F, x, y);
        LeftNeighbors(inst, x, y);
      } else {
        FlowIsTeam(inst, F, y, x);
        RightNeighbors(inst, x, y);
      }
    }
    forall x, y, z | x in S && y in S && z in S && Matched(g, x, y) && Matched(g, x, z)
      ensures y == z
    {
      MatchedNeighbor(inst, F, x, y);
      MatchedNeighbor(inst, F, x, z);
      if x in inst.lv {
        DrainedLeft(inst, F, x, y, z);
      } else {
        DrainedRight(inst, F, x, y, z);
      }
    }
  }

  /** Which way the flow of a matched pair runs: out of a left vertex, into a right one. */
  lemma MatchedNeighbor(inst: Instance, F: map<Key, int>, x: int, y: int)
    requires WellFormed(inst) && WithinUnitCapacity(inst, F)
    requires x in LSet(inst) + RSet(inst) && y in LSet(inst) + RSet(inst) && Matched(NetGraph(inst, F), x, y)
    ensures x in inst.lv ==> y in inst.rv && Flow(F, x, y) > 0
    ensures x !in inst.lv ==> x in inst.rv && y in inst.lv && Flow(F, y, x) > 0
  {
    if Flow(F, x, y) > 0 {
      FlowIsTeam(inst, F, x, y);
    } else {
      FlowIsTeam(inst, F, y, x);
    }
  }

  // ---------------------------------------------------------------------------------------
  // computeMatchSet

  /** Both ends of every edge from a left vertex of D to a neighbour other than the source that carries flow. */
  ghost function EndsOf(inst: Instance, F: map<Key, int>, D: set<int>): set<int>
  {
    (set l, r | l in D && r in NetNeighbors(inst, l) && r != SourceId && Flow(F, l, r) > 0 :: l) +
    (set l, r | l in D && r in NetNeighbors(inst, l) && r != SourceId && Flow(F, l, r) > 0 :: r)
  }

  /** What computeMatchSet collects: the ends of the flow-carrying edges out of the left vertices. */
  ghost function FlowEnds(inst: Instance, F: map<Key, int>): set<int>
  {
    EndsOf(inst, F, LSet(inst))
  }

  /** One more left vertex adds its own ends. */
  lemma EndsOfAdd(inst: Instance, F: map<Key, int>, D: set<int>, l: int)
    ensures EndsOf(inst, F, D + {l}) == EndsOf(inst, F, D) + EndsOf(inst, F, {l})
  {
  }

  /** The ends of one left vertex: its partners with flow, and itself when there is one. */
  lemma EndsOfOne(inst: Instance, F: map<Key, int>, l: int, hits: set<int>)
    requires forall r :: r in hits <==> r in NetNeighbors(inst, l) && r != SourceId && Flow(F, l, r) > 0
    ensures EndsOf(inst, F, {l}) == hits + (if hits == {} then {} else {l})
  {
    if hits != {} {
      NonEmptyHasElement(hits);
      var r :| r in hits;
      assert l in (set l', r' | l' in {l} && r' in NetNeighbors(inst, l') && r' != SourceId && Flow(F, l', r') > 0 :: l');
    }
    forall r | r in hits
      ensures r in EndsOf(inst, F, {l})
    {
      assert r in (set l', r' | l' in {l} && r' in NetNeighbors(inst, l') && r' != SourceId && Flow(F, l', r') > 0 :: r');
    }
  }

  /** Every end of a flow-carrying edge is an employee with a mate. */
  lemma FlowEndsHaveMates(inst: Instance, F: map<Key, int>, x: int)
    requires WellFormed(inst) && WithinUnitCapacity(inst, F) && x in FlowEnds(inst, F)
    ensures x in LSet(inst) + RSet(inst) && HasMate(NetGraph(inst, F), LSet(inst) + RSet(inst), x)
  {
    var l, r :| l in inst.lv && r in NetNeighbors(inst, l) && r != SourceId && Flow(F, l, r) > 0 && (x == l || x == r);
    LeftNeighbors(inst, l, r);
    assert Matched(NetGraph(inst, F), l, r) && Matched(NetGraph(inst, F), r, l);
  }

  /** Both ends of a flow-carrying edge out of a left vertex are collected. */
  lemma EdgeEndsCollected(inst: Instance, F: map<Key, int>, l: int, r: int)
    requires l in inst.lv && r in NetNeighbors(inst, l) && r != SourceId && Flow(F, l, r) > 0
    ensures l in FlowEnds(inst, F) && r in FlowEnds(inst, F)
  {
    var D := LSet(inst);
    assert l in D;
    assert l in (set l', r' | l' in D && r' in NetNeighbors(inst, l') && r' != SourceId && Flow(F, l', r') > 0 :: l');
    assert r in (set l', r' | l' in D && r' in NetNeighbors(inst, l') && r' != SourceId && Flow(F, l', r') > 0 :: r');
  }

  /** Every employee with a mate is the end of a flow-carrying edge. */
  lemma MatedAreFlowEnds(inst: Instance, F: map<Key, int>, x: int)
    requires WellFormed(inst) && WithinUnitCapacity(inst, F)
    requires x in LSet(inst) + RSet(inst) && HasMate(NetGraph(inst, F), LSet(inst) + RSet(inst), x)
    ensures x in FlowEnds(inst, F)
  {
    var y :| y in LSet(inst) + RSet(inst) && Matched(NetGraph(inst, F), x, y);
    MatchedNeighbor(inst, F, x, y);
    if x in inst.lv {
      LeftNeighbors(inst, x, y);
      EdgeEndsCollected(inst, F, x, y);
    } else {
      LeftNeighbors(inst, y, x);
      EdgeEndsCollected(inst, F, y, x);
    }
  }

  /**
   * The set computeMatchSet collects is the one König's construction expects: an employee
   * is in it exactly when flow runs between it and another employee.
   */
  lemma FlowEndsAreMatched(inst: Instance, F: map<Key, int>)
    requires WellFormed(inst) && WithinUnitCapacity(inst, F)
    ensures FlowEnds(inst, F) <= LSet(inst) + RSet(inst)
    ensures MatchesOk(NetGraph(inst, F), LSet(inst), RSet(inst), FlowEnds(inst, F))
  {
    forall x | x in FlowEnds(inst, F)
      ensures x in LSet(inst) + RSet(inst) && HasMate(NetGraph(inst, F), LSet(inst) + RSet(inst), x)
    {
      FlowEndsHaveMates(inst, F, x);
    }
    forall x | x in LSet(inst) + RSet(inst) && HasMate(NetGraph(inst, F), LSet(inst) + RSet(inst), x)
      ensures x in FlowEnds(inst, F)
    {
      MatedAreFlowEnds(inst, F, x);
    }
  }

  /** No employee has net inflow: the state relabel-to-front ends in once it has run to completion. */
  ghost predicate Drained(inst: Instance, F: map<Key, int>)
  {
    forall x :: x in LSet(inst) + RSet(inst) ==> NetInflow(F, x, NetNeighbors(inst, x)) == 0
  }

  /**
   * Once no employee holds excess, König's construction may run from either side: the flow
   * is a matching in both orientations, and the ends computeMatchSet collects are the matched employees.
   */
  lemma DrainedKonigReady(inst: Instance, F: map<Key, int>)
    requires WellFormed(inst) && WithinUnitCapacity(inst, F) && Drained(inst, F)
    ensures MatchingOk(NetGraph(inst, F), LSet(inst), RSet(inst)) && MatchingOk(NetGraph(inst, F), RSet(inst), LSet(inst))
    ensures MatchesOk(NetGraph(inst, F), LSet(inst), RSet(inst), FlowEnds(inst, F))
    ensures MatchesOk(NetGraph(inst, F), RSet(inst), LSet(inst), FlowEnds(inst, F))
  {
    DrainedIsMatching(inst, F);
    FlowEndsAreMatched(inst, F);
    assert RSet(inst) + LSet(inst) == LSet(inst) + RSet(inst);
  }
}
