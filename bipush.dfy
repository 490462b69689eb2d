/**
 * The bipush variant of the relabel-to-front solver (BilateralBipush.java): Edge objects
 * shared by the edge lists of both of their ends (lines 464-558), Vertex objects found
 * through a static id registry (lines 561-626), and the Solver (lines 54-461). The Solver
 * puts the smaller location on the source side, pushes excess two hops at a time (from the
 * source side across a team edge and back), relabels a vertex above the lowest far end it
 * could push to, discharges the source side in relabel-to-front order, reads the matching
 * off the team edges and takes König's cover from one location or the other. The source
 * here is id 1 and the sink id 3000.
 */
module Bipush {
  import opened JavaText
  import opened ListOps
  import Params
  import SetFacts
  import FlowNetwork
  import PushRelabel
  import EdgeTable
  import Konig

  const SourceId: int := 1
  const SinkId: int := 3000
  /** Edge.capacity: every edge carries at most one unit. */
  const Capacity: int := 1

  // ---------------------------------------------------------------------------------------
  // Edge (lines 464-558)

  class Edge {
    const start: Vertex
    const finish: Vertex
    var flow: int
    var inMatch: bool

    /** What updateMatchStatus establishes: the edge is in the matching exactly when it carries flow. */
    ghost predicate MatchStatusOk()
      reads this`flow, this`inMatch
    {
      inMatch == (flow > 0)
    }

    constructor (start: Vertex, finish: Vertex, flow: int)
      ensures this.start == start && this.finish == finish && this.flow == flow
      ensures MatchStatusOk()
    {
      this.start := start;
      this.finish := finish;
      this.flow := flow;
      new;
      UpdateMatchStatus();
    }

    method UpdateMatchStatus()
      modifies this`inMatch
      ensures MatchStatusOk()
    {
      inMatch := flow > 0;
    }

    /**
     * getNeighbor: from one end, the other end. getNeighbor does not check that v is an end
     * (its assert is off by default); for any other v it answers start.
     */
    function GetNeighbor(v: Vertex): (r: Vertex)
      ensures r == start || r == finish
      ensures v == start || v == finish ==> {v, r} == {start, finish}
      ensures start != finish ==> r != v
    {
      if v == start then finish else start
    }

    /** flowsForward: u to v is the direction the edge was created in. */
    predicate FlowsForward(u: Vertex, v: Vertex)
    {
      u == start && v == finish
    }

    /** flowsInto: v is the end the edge points to. */
    predicate FlowsInto(v: Vertex)
    {
      v == finish
    }

    /** getResidualCapacity: what is left of the capacity forwards, the flow itself backwards. */
    function GetResidualCapacity(u: Vertex, v: Vertex): (r: int)
      reads this`flow
      ensures 0 <= flow <= Capacity ==> 0 <= r <= Capacity
    {
      if FlowsForward(u, v) then Capacity - flow else flow
    }

    /** isEligibleFrom: v stands one above the other end and can still send flow to it. */
    predicate IsEligibleFrom(v: Vertex)
      reads this`flow, v`height, start`height, finish`height
    {
      var neighb := GetNeighbor(v);
      v.height == Wrap(neighb.height as int + 1) && GetResidualCapacity(v, neighb) > 0
    }

    method SetFlow(flow: int)
      modifies this`flow, this`inMatch
      ensures this.flow == flow && MatchStatusOk()
    {
      this.flow := flow;
      UpdateMatchStatus();
    }

    method AddToFlow(flowInc: int)
      modifies this`flow, this`inMatch
      ensures flow == old(flow) + flowInc && MatchStatusOk()
    {
      flow := flow + flowInc;
      UpdateMatchStatus();
    }
  }

  // ---------------------------------------------------------------------------------------
  // Vertex and its registry (lines 561-626)

  class Vertex {
    const id: int
    var height: int32
    var excess: int
    var edges: seq<Edge>

    constructor (id: int)
      ensures this.id == id && height == 0 && excess == 0 && edges == []
    {
      this.id := id;
      height := 0;
      excess := 0;
      edges := [];
    }

    method AddToExcess(excessInc: int)
      modifies this`excess
      ensures excess == old(excess) + excessInc
    {
      excess := excess + excessInc;
    }

    method AddToEdges(e: Edge)
      modifies this`edges
      ensures edges == old(edges) + [e]
    {
      edges := edges + [e];
    }

    /** moveToFrontOfEdges: remove(e), then add(0, e). */
    method MoveToFrontOfEdges(e: Edge)
      modifies this`edges
      ensures edges == MoveToFront(old(edges), e)
      ensures forall f :: f in edges ==> f in old(edges) || f == e
    {
      MoveMembers(edges, e);
      edges := [e] + RemoveFirst(edges, e);
    }

    /** moveToBackOfEdges: remove(e), then add(e). */
    method MoveToBackOfEdges(e: Edge)
      modifies this`edges
      ensures edges == MoveToBack(old(edges), e)
      ensures forall f :: f in edges ==> f in old(edges) || f == e
    {
      MoveMembers(edges, e);
      edges := RemoveFirst(edges, e) + [e];
    }
  }

  /** The static idToVertex map: one Vertex per id. */
  class Registry {
    var idToVertex: map<int, Vertex>

    ghost predicate Valid()
      reads this`idToVertex
    {
      forall id :: id in idToVertex ==> idToVertex[id].id == id
    }

    constructor ()
      ensures idToVertex == map[] && Valid()
    {
      idToVertex := map[];
    }

    /** vertexFromId: the registered vertex of the id, or a new one, registered on the way. */
    method VertexFromId(id: int) returns (v: Vertex)
      requires Valid()
      modifies this`idToVertex
      ensures Valid() && v.id == id && id in idToVertex && idToVertex[id] == v
      ensures id in old(idToVertex) ==> v == old(idToVertex[id]) && idToVertex == old(idToVertex)
      ensures id !in old(idToVertex) ==>
        fresh(v) && v.height == 0 && v.excess == 0 && v.edges == [] && idToVertex == old(idToVertex)[id := v]
    {
      if id in idToVertex {
        v := idToVertex[id];
      } else {
        v := new Vertex(id);
        idToVertex := idToVertex[id := v];
      }
    }
  }

  function Ids(s: seq<Vertex>): (r: seq<int>)
    ensures |r| == |s| && forall k :: 0 <= k < |s| ==> r[k] == s[k].id
  {
    if |s| == 0 then [] else Ids(s[..|s| - 1]) + [s[|s| - 1].id]
  }

  lemma IdsAppend(s: seq<Vertex>, x: Vertex)
    ensures Ids(s + [x]) == Ids(s) + [x.id]
  {
    assert (s + [x])[..|s|] == s;
  }

  lemma IdsPrepend(s: seq<Vertex>, x: Vertex)
    ensures Ids([x] + s) == [x.id] + Ids(s)
  {
    assert forall k :: 0 <= k < |s| + 1 ==> Ids([x] + s)[k] == ([x.id] + Ids(s))[k];
  }

  lemma IdsHas(s: seq<Vertex>, id: int) returns (k: int)
    requires id in Ids(s)
    ensures 0 <= k < |s| && s[k].id == id
  {
    k :| 0 <= k < |s| && Ids(s)[k] == id;
  }

  lemma IdsMember(s: seq<Vertex>, x: Vertex)
    requires x in s
    ensures x.id in Ids(s)
  {
    var k :| 0 <= k < |s| && s[k] == x;
    assert Ids(s)[k] == x.id;
  }

  function Members<T>(s: seq<T>): set<T>
  {
    set x | x in s
  }

  // ---------------------------------------------------------------------------------------
  // Flow balance

  /** What an edge carrying f contributes to the balance of x: its flow in at the finish, out at the start. */
  function Into(e: Edge, x: Vertex, f: int): int
  {
    if x == e.finish then f else if x == e.start then -f else 0
  }

  /** The flows of the edges es, in order. */
  ghost function Flows(es: seq<Edge>): (r: seq<int>)
    reads es`flow
    ensures |r| == |es| && forall k :: 0 <= k < |es| ==> r[k] == es[k].flow
  {
    if |es| == 0 then [] else Flows(es[..|es| - 1]) + [es[|es| - 1].flow]
  }

  /** The net inflow at x of the edges es when they carry the flows fs. */
  function Balance(x: Vertex, es: seq<Edge>, fs: seq<int>): int
    requires |es| == |fs|
  {
    if |es| == 0 then 0 else Balance(x, es[..|es| - 1], fs[..|fs| - 1]) + Into(es[|es| - 1], x, fs[|fs| - 1])
  }

  lemma BalanceAppend(x: Vertex, es: seq<Edge>, fs: seq<int>, e: Edge, f: int)
    requires |es| == |fs|
    ensures Balance(x, es + [e], fs + [f]) == Balance(x, es, fs) + Into(e, x, f)
  {
    assert (es + [e])[..|es|] == es;
    assert (fs + [f])[..|fs|] == fs;
  }

  /** Changing the flow of one edge by d changes the balance of x by what d contributes there. */
  lemma {:induction false} BalanceUpdate(x: Vertex, es: seq<Edge>, fs: seq<int>, i: int, d: int)
    requires |es| == |fs| && 0 <= i < |es|
    ensures Balance(x, es, fs[i := fs[i] + d]) == Balance(x, es, fs) + Into(es[i], x, d)
  {
    var n := |es| - 1;
    var fs' := fs[i := fs[i] + d];
    if i < n {
      BalanceUpdate(x, es[..n], fs[..n], i, d);
      assert fs'[..n] == fs[..n][i := fs[i] + d];
    } else {
      assert fs'[..n] == fs[..n];
    }
  }

  /** A vertex that is an end of none of the edges has balance 0. */
  lemma {:induction false} BalanceUntouched(x: Vertex, es: seq<Edge>, fs: seq<int>)
    requires |es| == |fs| && forall e :: e in es ==> e.start != x && e.finish != x
    ensures Balance(x, es, fs) == 0
  {
    if |es| > 0 {
      BalanceUntouched(x, es[..|es| - 1], fs[..|fs| - 1]);
    }
  }

  // ---------------------------------------------------------------------------------------
  // The two-hop push

  /**
   * bipush's δ: Math.min of the two residual capacities, then the smaller of that and the
   * excess. It is the least of the three.
   */
  function PushAmount(excess: int, resid1: int, resid2: int): (d: int)
    ensures d <= excess && d <= resid1 && d <= resid2
    ensures d == excess || d == resid1 || d == resid2
  {
    var residualCapacity := if resid1 <= resid2 then resid1 else resid2;
    if excess < residualCapacity then excess else residualCapacity
  }

  /** addToFlow's argument in bipush: +d along the edge's direction, -d against it. */
  function Signed(forward: bool, d: int): int
  {
    if forward then d else -d
  }

  /**
   * The balance bookkeeping of one bipush from u through v to w, with uv an edge of u (u
   * one of its ends, v the other) and vw an edge of v's list: either v is one of vw's ends
   * and w the other, or v is not an end at all, w is vw's start and vw runs into the sink.
   * Moving d along both edges takes d from u's balance and gives it to w's; v's balance
   * changes only when v is not an end of vw, and the sink's only then too.
   */
  lemma HopBalance(uv: Edge, vw: Edge, u: Vertex, v: Vertex, w: Vertex, sink: Vertex, x: Vertex, d: int)
    requires uv.start != uv.finish && vw.start != vw.finish
    requires (u == uv.start || u == uv.finish) && v == uv.GetNeighbor(u) && w == vw.GetNeighbor(v)
    requires (v == vw.start || v == vw.finish) || vw.finish == sink
    requires u != w && u != sink
    requires x != sink && (x == v ==> v == vw.start || v == vw.finish)
    ensures Into(uv, x, Signed(uv.FlowsForward(u, v), d)) + Into(vw, x, Signed(vw.FlowsForward(v, w), d)) ==
      (if x == u then -d else 0) + (if x == w then d else 0)
  {
  }

  // ---------------------------------------------------------------------------------------
  // Relabelling

  /** An edge relabel(u, exclude) takes into account: not to the excluded vertex, and with residual capacity from u. */
  predicate Counted(u: Vertex, exclude: Vertex?, e: Edge)
    reads e`flow
  {
    (exclude == null || exclude != e.GetNeighbor(u)) && e.GetResidualCapacity(u, e.GetNeighbor(u)) > 0
  }

  /** The least height at the far end of a counted edge among es, or Integer.MAX_VALUE when none is counted. */
  ghost function MinHeight(u: Vertex, exclude: Vertex?, es: seq<Edge>): int32
    reads es`flow, (set e | e in es :: e.GetNeighbor(u))`height
  {
    if |es| == 0 then IntMax as int32
    else
      var m := MinHeight(u, exclude, es[..|es| - 1]);
      var e := es[|es| - 1];
      if Counted(u, exclude, e) && e.GetNeighbor(u).height < m then e.GetNeighbor(u).height else m
  }

  /** MinHeight is the minimum it is named for: below every counted neighbour, and one of them unless none is counted. */
  lemma {:induction false} MinHeightIsLeast(u: Vertex, exclude: Vertex?, es: seq<Edge>)
    ensures forall k :: 0 <= k < |es| && Counted(u, exclude, es[k]) ==>
      MinHeight(u, exclude, es) <= es[k].GetNeighbor(u).height
    ensures MinHeight(u, exclude, es) as int == IntMax ||
      exists k :: 0 <= k < |es| && Counted(u, exclude, es[k]) &&
        es[k].GetNeighbor(u).height == MinHeight(u, exclude, es)
  {
    if |es| > 0 {
      var front := es[..|es| - 1];
      MinHeightIsLeast(u, exclude, front);
      assert forall k :: 0 <= k < |front| ==> front[k] == es[k];
    }
  }

  // ---------------------------------------------------------------------------------------
  // The matching

  /** computeMatchSet's additions: the start and the finish of every edge of es that carries flow, in order. */
  ghost function MatchedEnds(es: seq<Edge>): seq<Vertex>
    reads es`flow
  {
    if |es| == 0 then []
    else
      var e := es[|es| - 1];
      MatchedEnds(es[..|es| - 1]) + (if e.flow > 0 then [e.start, e.finish] else [])
  }

  /** A vertex is among the matched ends exactly when it is an end of an edge of es that carries flow. */
  lemma {:induction false} MatchedEndsMembers(es: seq<Edge>, x: Vertex)
    ensures x in MatchedEnds(es) <==> exists e :: e in es && e.flow > 0 && (x == e.start || x == e.finish)
  {
    if |es| > 0 {
      var front := es[..|es| - 1];
      MatchedEndsMembers(front, x);
      assert es == front + [es[|es| - 1]];
    }
  }

  // ---------------------------------------------------------------------------------------
  // The friend's bias

  /** Moving e to either end of a list keeps the list's members, and adds e when it was missing. */
  lemma MoveMembers(s: seq<Edge>, e: Edge)
    ensures forall y: Edge :: y in MoveToFront(s, e) <==> y in s || y == e
    ensures forall y: Edge :: y in MoveToBack(s, e) <==> y in s || y == e
  {
    forall y
      ensures y in RemoveFirst(s, e) <==> y in s && (y != e || multiset(s)[e] > 1)
    {
      assert y in s <==> y in multiset(s);
      assert y in RemoveFirst(s, e) <==> y in multiset(RemoveFirst(s, e));
    }
  }

  /**
   * The edge list s of vertex y after biasForFriend has gone through the friend's edges fes:
   * each edge whose far end is y is moved to the front of y's list when it runs into the
   * friend, and to the back otherwise.
   */
  function BiasedList(friend: Vertex, y: Vertex, fes: seq<Edge>, s: seq<Edge>): seq<Edge>
  {
    if |fes| == 0 then s
    else
      var e := fes[|fes| - 1];
      var t := BiasedList(friend, y, fes[..|fes| - 1], s);
      if e.GetNeighbor(friend) != y then t
      else if e.FlowsInto(friend) then MoveToFront(t, e)
      else MoveToBack(t, e)
  }

  /** A biased list holds the edges it started with and the friend's edges whose far end is y. */
  lemma {:induction false} BiasedListMembers(friend: Vertex, y: Vertex, fes: seq<Edge>, s: seq<Edge>)
    ensures forall f: Edge :: f in BiasedList(friend, y, fes, s) ==> f in s || (f in fes && f.GetNeighbor(friend) == y)
  {
    forall f: Edge | f in BiasedList(friend, y, fes, s)
      ensures f in s || (f in fes && f.GetNeighbor(friend) == y)
    {
      BiasedListMember(friend, y, fes, s, f);
    }
  }

  /** BiasedList over one more of the friend's edges. */
  lemma BiasedListStep(friend: Vertex, y: Vertex, fes: seq<Edge>, i: int, s: seq<Edge>)
    requires 0 <= i < |fes|
    ensures var t := BiasedList(friend, y, fes[..i], s);
      BiasedList(friend, y, fes[..i + 1], s) ==
        if fes[i].GetNeighbor(friend) != y then t
        else if fes[i].FlowsInto(friend) then MoveToFront(t, fes[i])
        else MoveToBack(t, fes[i])
  {
    assert fes[..i + 1][..i] == fes[..i];
  }

  /** BiasedListMembers, for one edge. */
  lemma {:induction false} BiasedListMember(friend: Vertex, y: Vertex, fes: seq<Edge>, s: seq<Edge>, f: Edge)
    requires f in BiasedList(friend, y, fes, s)
    ensures f in s || (f in fes && f.GetNeighbor(friend) == y)
  {
    if |fes| > 0 {
      var front, e := fes[..|fes| - 1], fes[|fes| - 1];
      var t := BiasedList(friend, y, front, s);
      MoveMembers(t, e);
      assert fes == front + [e];
      if f in t {
        BiasedListMember(friend, y, front, s, f);
      }
    }
  }

  // ---------------------------------------------------------------------------------------
  // The side choice (lines 93-101, 162-181)

  /**
   * What the solver relies on its input for: each location's ids listed once (they come from
   * a Set), the first location's ids in 1000..1999 and the second's in 2000..2999, and every
   * team joining an id of the first location to one of the second.
   */
  ghost predicate InputOk(inst: FlowNetwork.Instance)
  {
    SetFacts.Distinct(inst.lv) && SetFacts.Distinct(inst.rv) &&
    (forall l :: l in inst.lv ==> Params.IdIdxDifference <= l <= Params.MaxNyId) &&
    (forall r :: r in inst.rv ==> Params.MaxNyId < r <= Params.MaxNormalId) &&
    (forall t :: t in inst.teams ==> t.0 in inst.lv && t.1 in inst.rv)
  }

  /** flippedSides: the second location is the smaller one. */
  predicate Flipped(inst: FlowNetwork.Instance)
  {
    |inst.lv| > |inst.rv|
  }

  /** minSet and maxSet. */
  function MinSide(inst: FlowNetwork.Instance): seq<int>
  {
    if Flipped(inst) then inst.rv else inst.lv
  }

  function MaxSide(inst: FlowNetwork.Instance): seq<int>
  {
    if Flipped(inst) then inst.lv else inst.rv
  }

  /** The ends setupNeighbors gives a team's edge: from its minSet member to its maxSet member. */
  function Oriented(inst: FlowNetwork.Instance, t: FlowNetwork.Team): FlowNetwork.Team
  {
    if Flipped(inst) then (t.1, t.0) else t
  }

  /**
   * The source side is the smaller location (the first one on a tie), the sink side the
   * other, and every team edge starts on the source side and ends on the sink side.
   */
  lemma SideChoice(inst: FlowNetwork.Instance)
    requires InputOk(inst)
    ensures |MinSide(inst)| <= |MaxSide(inst)|
    ensures {MinSide(inst), MaxSide(inst)} == {inst.lv, inst.rv}
    ensures Members(MinSide(inst)) !! Members(MaxSide(inst))
    ensures forall t :: t in inst.teams ==>
      Oriented(inst, t).0 in MinSide(inst) && Oriented(inst, t).1 in MaxSide(inst)
  {
    forall x | x in Members(inst.lv)
      ensures x !in Members(inst.rv)
    {
      assert x in inst.lv;
    }
  }

  /** List.retainAll: the elements of s that c contains, in order. */
  function Retain(s: seq<Vertex>, c: set<Vertex>): (r: seq<Vertex>)
    ensures forall x :: x in r ==> x in s && x in c
    ensures forall x :: x in s && x in c ==> x in r
  {
    if |s| == 0 then []
    else Retain(s[..|s| - 1], c) + (if s[|s| - 1] in c then [s[|s| - 1]] else [])
  }

  /** List.removeAll: the elements of s that c does not contain, in order. */
  function RemoveAll(s: seq<Vertex>, c: set<Vertex>): (r: seq<Vertex>)
    ensures forall x :: x in r ==> x in s && x !in c
    ensures forall x :: x in s && x !in c ==> x in r
  {
    if |s| == 0 then []
    else RemoveAll(s[..|s| - 1], c) + (if s[|s| - 1] !in c then [s[|s| - 1]] else [])
  }
  /** Moving d1 along the i-th edge and d2 along the j-th changes each balance by what the two moves bring it. */
  lemma HopUpdate(x: Vertex, es: seq<Edge>, fs: seq<int>, i: int, j: int, d1: int, d2: int)
    requires |es| == |fs| && 0 <= i < |es| && 0 <= j < |es| && i != j
    ensures Balance(x, es, fs[i := fs[i] + d1][j := fs[j] + d2]) ==
      Balance(x, es, fs) + Into(es[i], x, d1) + Into(es[j], x, d2)
  {
    BalanceUpdate(x, es, fs, i, d1);
    BalanceUpdate(x, es, fs[i := fs[i] + d1], j, d2);
  }

  // ---------------------------------------------------------------------------------------
  // The second hop (lines 248-256)

  /** What bipushRelabel asks of an edge of v's list: eligible from v, and not leading back to u. */
  predicate Onward(u: Vertex, v: Vertex, vw: Edge)
    reads vw`flow, v`height, vw.start`height, vw.finish`height
  {
    u != vw.GetNeighbor(v) && vw.IsEligibleFrom(v)
  }

  // ---------------------------------------------------------------------------------------
  // König's construction (lines 385-442), on the ids of the vertices

  /**
   * The flows of the team edges es under the ids of their ends, start first, as König's
   * construction reads them; a later edge between the same two ids would replace an earlier.
   */
  function TeamFlows(es: seq<Edge>): (f: map<EdgeTable.Key, int>)
    reads es`flow
    ensures forall e :: e in es ==> (e.start.id, e.finish.id) in f
    ensures forall k :: k in f ==> exists e :: e in es && k == (e.start.id, e.finish.id)
  {
    if |es| == 0 then map[]
    else
      var e := es[|es| - 1];
      TeamFlows(es[..|es| - 1])[(e.start.id, e.finish.id) := e.flow]
  }

  /** The vertices of sides whose ids the construction reached: konigSet as a set of vertices. */
  function Reached(sides: seq<Vertex>, konigSet: set<int>): set<Vertex>
  {
    set x | x in sides && x.id in konigSet
  }

  /**
   * computeMinVertexCover's list: side2 with what is not reached removed (retainAll), then
   * side1 with what is reached removed (removeAll).
   */
  function CoverList(side1: seq<Vertex>, side2: seq<Vertex>, konigSet: set<int>): seq<Vertex>
  {
    var reached := Reached(side1 + side2, konigSet);
    Retain(side2, reached) + RemoveAll(side1, reached)
  }

  /** The ids in the cover list are König's cover of the two sides' ids. */
  lemma CoverListIds(side1: seq<Vertex>, side2: seq<Vertex>, konigSet: set<int>)
    ensures Members(Ids(CoverList(side1, side2, konigSet))) ==
      Konig.CoverFrom(Members(Ids(side1)), Members(Ids(side2)), konigSet)
  {
    var r := CoverList(side1, side2, konigSet);
    var reached := Reached(side1 + side2, konigSet);
    forall y | y in Members(Ids(r))
      ensures y in Konig.CoverFrom(Members(Ids(side1)), Members(Ids(side2)), konigSet)
    {
      var k := IdsHas(r, y);
      var x := r[k];
      if x in Retain(side2, reached) {
        IdsMember(side2, x);
      } else {
        IdsMember(side1, x);
      }
    }
    forall y | y in Konig.CoverFrom(Members(Ids(side1)), Members(Ids(side2)), konigSet)
      ensures y in Members(Ids(r))
    {
      if y in Ids(side2) && y in konigSet {
        var k := IdsHas(side2, y);
        assert side2[k] in reached;
        IdsMember(r, side2[k]);
      } else {
        var k := IdsHas(side1, y);
        assert side1[k] !in reached;
        IdsMember(r, side1[k]);
      }
    }
  }

  /** es holds one edge per team, in the order of the teams, each from its source-side member to its sink-side member. */
  ghost predicate Laid(inst: FlowNetwork.Instance, es: seq<Edge>)
  {
    |es| == |inst.teams| && forall k :: 0 <= k < |es| ==> (es[k].start.id, es[k].finish.id) == Oriented(inst, inst.teams[k])
  }

  /** With no two edges of es between the same ids, each edge's key holds that edge's flow. */
  lemma {:induction false} TeamFlowsAt(es: seq<Edge>, e: Edge)
    requires e in es
    requires forall i, j :: 0 <= i < j < |es| ==> (es[i].start.id, es[i].finish.id) != (es[j].start.id, es[j].finish.id)
    ensures TeamFlows(es)[(e.start.id, e.finish.id)] == e.flow
    decreases |es|
  {
    if e != es[|es| - 1] {
      var front := es[..|es| - 1];
      var i :| 0 <= i < |es| && es[i] == e;
      assert front[i] == e;
      TeamFlowsAt(front, e);
    }
  }

  /** Team edges laid out as setupNeighbors lays them out join different pairs of ids, when no team is listed twice. */
  lemma DistinctKeys(inst: FlowNetwork.Instance, es: seq<Edge>)
    requires FlowNetwork.DistinctTeams(inst.teams)
    requires Laid(inst, es)
    ensures forall i, j :: 0 <= i < j < |es| ==> (es[i].start.id, es[i].finish.id) != (es[j].start.id, es[j].finish.id)
  {
    forall i, j | 0 <= i < j < |es|
      ensures (es[i].start.id, es[i].finish.id) != (es[j].start.id, es[j].finish.id)
    {
      assert inst.teams[i] != inst.teams[j];
    }
  }

  /**
   * computeMatchSet's list holds exactly the matched employees: with every team once and no
   * negative flow, an id is among the ids of the matched ends just when König's
   * construction finds it a mate among the employees.
   */
  lemma MatchedEndsMated(inst: FlowNetwork.Instance, es: seq<Edge>)
    requires FlowNetwork.WellFormed(inst)
    requires Laid(inst, es)
    requires forall e :: e in es ==> 0 <= e.flow
    ensures Konig.MatchesOk(FlowNetwork.NetGraph(inst, TeamFlows(es)), FlowNetwork.LSet(inst), FlowNetwork.RSet(inst), Members(Ids(MatchedEnds(es))))
  {
    DistinctKeys(inst, es);
    forall x | x in FlowNetwork.LSet(inst) + FlowNetwork.RSet(inst)
      ensures x in Members(Ids(MatchedEnds(es))) <==>
        Konig.HasMate(FlowNetwork.NetGraph(inst, TeamFlows(es)), FlowNetwork.LSet(inst) + FlowNetwork.RSet(inst), x)
    {
      if x in Members(Ids(MatchedEnds(es))) {
        EndIsMated(inst, es, x);
      }
      if Konig.HasMate(FlowNetwork.NetGraph(inst, TeamFlows(es)), FlowNetwork.LSet(inst) + FlowNetwork.RSet(inst), x) {
        MatedIsEnd(inst, es, x);
      }
    }
  }

  /** An end of a team edge carrying flow has the other end for a mate. */
  lemma EndIsMated(inst: FlowNetwork.Instance, es: seq<Edge>, x: int)
    requires FlowNetwork.WellFormed(inst)
    requires Laid(inst, es)
    requires forall i, j :: 0 <= i < j < |es| ==> (es[i].start.id, es[i].finish.id) != (es[j].start.id, es[j].finish.id)
    requires x in Ids(MatchedEnds(es))
    ensures Konig.HasMate(FlowNetwork.NetGraph(inst, TeamFlows(es)), FlowNetwork.LSet(inst) + FlowNetwork.RSet(inst), x)
  {
    var k := IdsHas(MatchedEnds(es), x);
    var w := MatchedEnds(es)[k];
    MatchedEndsMembers(es, w);
    var e :| e in es && e.flow > 0 && (w == e.start || w == e.finish);
    TeamFlowsAt(es, e);
    var i :| 0 <= i < |es| && es[i] == e;
    assert inst.teams[i] in inst.teams;
    var y := if w == e.start then e.finish.id else e.start.id;
    assert y in FlowNetwork.LSet(inst) + FlowNetwork.RSet(inst);
    assert Konig.Matched(FlowNetwork.NetGraph(inst, TeamFlows(es)), x, y);
  }

  /** A vertex with a mate is an end of a team edge carrying flow, when no flow is negative. */
  lemma MatedIsEnd(inst: FlowNetwork.Instance, es: seq<Edge>, x: int)
    requires forall i, j :: 0 <= i < j < |es| ==> (es[i].start.id, es[i].finish.id) != (es[j].start.id, es[j].finish.id)
    requires forall e :: e in es ==> 0 <= e.flow
    requires Konig.HasMate(FlowNetwork.NetGraph(inst, TeamFlows(es)), FlowNetwork.LSet(inst) + FlowNetwork.RSet(inst), x)
    ensures x in Ids(MatchedEnds(es))
  {
    var y :| y in FlowNetwork.LSet(inst) + FlowNetwork.RSet(inst) && Konig.Matched(FlowNetwork.NetGraph(inst, TeamFlows(es)), x, y);
    var key := if EdgeTable.Flow(TeamFlows(es), x, y) > 0 then (x, y) else (y, x);
    assert key in TeamFlows(es);
    var e :| e in es && key == (e.start.id, e.finish.id);
    TeamFlowsAt(es, e);
    var w := if key.0 == x then e.start else e.finish;
    MatchedEndsMembers(es, w);
    IdsMember(MatchedEnds(es), w);
  }

  /** The team graph has the shape König's construction needs, with either location as side1. */
  lemma TeamStructure(inst: FlowNetwork.Instance, f: map<EdgeTable.Key, int>)
    requires FlowNetwork.WellFormed(inst)
    ensures Konig.StructureOk(FlowNetwork.NetGraph(inst, f), FlowNetwork.LSet(inst), FlowNetwork.RSet(inst))
    ensures Konig.StructureOk(FlowNetwork.NetGraph(inst, f), FlowNetwork.RSet(inst), FlowNetwork.LSet(inst))
  {
    var g := FlowNetwork.NetGraph(inst, f);
    FlowNetwork.NetSidesApart(inst, f);
    FlowNetwork.NetEdgesCross(inst, f);
    Konig.StructureOkTransfer(g, g, FlowNetwork.LSet(inst), FlowNetwork.RSet(inst));
  }

  /**
   * A cover König's construction gives from either location covers every team, when the
   * flow is a matching and the matches are its ends.
   */
  lemma CoverFromEitherSide(inst: FlowNetwork.Instance, f: map<EdgeTable.Key, int>, side1: set<int>, side2: set<int>, M: set<int>, K: set<int>)
    requires FlowNetwork.WellFormed(inst)
    requires (side1 == FlowNetwork.LSet(inst) && side2 == FlowNetwork.RSet(inst)) ||
             (side1 == FlowNetwork.RSet(inst) && side2 == FlowNetwork.LSet(inst))
    requires Konig.MatchingOk(FlowNetwork.NetGraph(inst, f), FlowNetwork.LSet(inst), FlowNetwork.RSet(inst))
    requires Konig.MatchesOk(FlowNetwork.NetGraph(inst, f), FlowNetwork.LSet(inst), FlowNetwork.RSet(inst), M)
    requires Konig.MatchingOk(FlowNetwork.NetGraph(inst, f), side1, side2) && Konig.MatchesOk(FlowNetwork.NetGraph(inst, f), side1, side2, M) ==>
               Konig.CoversEdges(FlowNetwork.NetGraph(inst, f), side1, side2, K) && Konig.CoversEdges(FlowNetwork.NetGraph(inst, f), side2, side1, K)
    ensures FlowNetwork.CoversTeams(inst, K)
  {
    assert side2 + side1 == side1 + side2;
    FlowNetwork.CoversTeamsIsCoversEdges(inst, f, K);
  }

  /** A bipush's three vertices and two edges, with the places of the edges among all edges. */
  datatype Hop = Hop(u: Vertex, v: Vertex, w: Vertex, uv: Edge, vw: Edge, i: int, j: int)

  /**
   * A bipush along h, with its edges at places i and j of es, moves d out of u's balance
   * and into w's, and leaves every other balance but the sink's as it was.
   */
  lemma HopMoves(x: Vertex, es: seq<Edge>, fs: seq<int>, h: Hop, sink: Vertex, d: int, d1: int, d2: int)
    requires |es| == |fs| && 0 <= h.i < |es| && 0 <= h.j < |es| && es[h.i] == h.uv && es[h.j] == h.vw && h.uv != h.vw
    requires h.uv.start != h.uv.finish && h.vw.start != h.vw.finish
    requires (h.u == h.uv.start || h.u == h.uv.finish) && h.v == h.uv.GetNeighbor(h.u) && h.w == h.vw.GetNeighbor(h.v)
    requires (h.v == h.vw.start || h.v == h.vw.finish) || h.vw.finish == sink
    requires h.u != h.w && h.u != sink
    requires x != sink && (x == h.v ==> h.v == h.vw.start || h.v == h.vw.finish)
    requires d1 == Signed(h.uv.FlowsForward(h.u, h.v), d) && d2 == Signed(h.vw.FlowsForward(h.v, h.w), d)
    ensures Balance(x, es, fs[h.i := fs[h.i] + d1][h.j := fs[h.j] + d2]) ==
      Balance(x, es, fs) + (if x == h.u then -d else 0) + (if x == h.w then d else 0)
  {
    HopUpdate(x, es, fs, h.i, h.j, d1, d2);
    HopBalance(h.uv, h.vw, h.u, h.v, h.w, sink, x, d);
  }

  /** The field initialisers of the Solver (lines 67-69): the source, the sink and the friend, registered. */
  method StartRegistry() returns (reg: Registry, s: Vertex, t: Vertex, f: Vertex)
    ensures fresh(reg) && fresh(s) && fresh(t) && fresh(f) && reg.Valid()
    ensures s.id == SourceId && t.id == SinkId && f.id == Params.FriendId
    ensures reg.idToVertex == map[SourceId := s][SinkId := t][Params.FriendId := f]
    ensures s.edges == [] && t.edges == [] && f.edges == []
    ensures s.excess == 0 && t.excess == 0 && f.excess == 0
    ensures s.height == 0 && t.height == 0 && f.height == 0
  {
    reg := new Registry();
    s := reg.VertexFromId(SourceId);
    t := reg.VertexFromId(SinkId);
    f := reg.VertexFromId(Params.FriendId);
  }

  // ---------------------------------------------------------------------------------------
  // Solver (lines 54-461)

  class Solver {
    const inst: FlowNetwork.Instance
    const registry: Registry
    const source: Vertex
    const sink: Vertex
    const friend: Vertex

    /** The vertices discharged by relabel-to-front: the source side, with the friend first. */
    var V: seq<Vertex>
    /** The team edges, in input order. */
    var E: seq<Edge>
    var LV: seq<Vertex>
    var RV: seq<Vertex>
    var matches: seq<Vertex>
    var invitees: seq<int>

    /** The vertices registered so far. */
    ghost var nodes: set<Vertex>
    /** Every edge created so far, in order of creation. */
    ghost var allEdges: seq<Edge>
    /** Where each edge stands in allEdges. */
    ghost var position: map<Edge, int>

    /** The registry holds the vertices of nodes, each under its own id, among them the source, the sink and the friend. */
    ghost predicate Registered()
      reads this`nodes, registry`idToVertex
    {
      registry.Valid() &&
      source.id == SourceId && sink.id == SinkId && friend.id == Params.FriendId &&
      source in nodes && sink in nodes && friend in nodes &&
      (forall id :: id in registry.idToVertex ==> registry.idToVertex[id] in nodes) &&
      (forall x :: x in nodes ==> x.id in registry.idToVertex && registry.idToVertex[x.id] == x)
    }

    /**
     * x's list: every edge in it is one of the edges created, with x as an end, except in
     * the source's list, which (line 154) also receives the edges into the sink.
     */
    ghost predicate Listed(x: Vertex)
      reads x`edges, this`allEdges
    {
      forall e :: e in x.edges ==> e in allEdges && (x == source || x == e.start || x == e.finish)
    }

    /**
     * The shape of the network: every edge joins two different registered vertices, none
     * runs into the source, each is created once (position says where), every list is
     * Listed, and the source's list holds edges out of it or into the sink.
     */
    ghost predicate Shape()
      reads this`nodes, this`allEdges, this`position, this`E, nodes`edges
    {
      source in nodes && source != sink &&
      (forall e :: e in allEdges ==> e.start in nodes && e.finish in nodes && e.start != e.finish && e.finish != source) &&
      (forall k :: 0 <= k < |allEdges| ==> allEdges[k] in position && position[allEdges[k]] == k) &&
      (forall e :: e in E ==> e in allEdges) &&
      (forall x :: x in nodes ==> Listed(x)) &&
      (forall e :: e in source.edges ==> e.start == source || e.finish == sink)
    }

    /** The vertices to discharge are registered and are neither the source nor the sink. */
    ghost predicate Queue()
      reads this`nodes, this`V
    {
      forall x :: x in V ==> x in nodes && x != source && x != sink
    }

    /** Unit capacities: every flow is 0 or 1, and inMatch says which. */
    ghost predicate FlowsOk()
      reads this`allEdges, allEdges`flow, allEdges`inMatch
    {
      forall e :: e in allEdges ==> e.MatchStatusOk() && 0 <= e.flow <= Capacity
    }

    /**
     * The preflow: no excess below 0 except at the source, and each other vertex's excess is
     * its net inflow. The sink is left out: an edge into it sits in the source's list, not
     * the sink's, so a push back along it from the source takes flow off the sink without
     * changing the sink's excess.
     */
    ghost predicate ExcessOk()
      reads this`nodes, (nodes - {source})`excess, this`allEdges, allEdges`flow
    {
      (forall x :: x in nodes && x != source ==> x.excess >= 0) &&
      forall x :: x in nodes && x != source && x != sink ==> x.excess == Balance(x, allEdges, Flows(allEdges))
    }

    ghost predicate Valid()
      reads this`nodes, this`allEdges, this`position, this`E, this`V, registry`idToVertex
      reads nodes`edges, (nodes - {source})`excess, allEdges`flow, allEdges`inMatch
    {
      Registered() && Shape() && Queue() && FlowsOk() && ExcessOk()
    }

    /** In a valid network, a registered vertex's edge joins two different registered vertices. */
    lemma EdgeEnds(x: Vertex, e: Edge)
      requires Valid() && (x in nodes || x in V) && e in x.edges
      ensures x in nodes && e in allEdges && e.start in nodes && e.finish in nodes && e.start != e.finish
    {
    }

    /** The vertices V lists are registered. */
    lemma Member(x: Vertex)
      requires Valid() && x in V
      ensures x in nodes
    {
    }

    lemma ValidParts()
      ensures Valid() <==> Registered() && Shape() && Queue() && FlowsOk() && ExcessOk()
    {
    }

    // -------------------------------------------------------------------------------------
    // Push-relabel

    /**
     * bipush (lines 269-294): moves δ = min(excess(u), residual(u, v), residual(v, w)) from
     * u's excess to w's, along uv and then vw, each edge's flow going up when it is crossed
     * forwards and down when backwards. v's excess does not change. The source's asserts are
     * its preconditions.
     */
    method Bipush(u: Vertex, v: Vertex, w: Vertex, uv: Edge, vw: Edge)
      requires u.excess > 0
      requires uv.GetResidualCapacity(u, v) > 0 && vw.GetResidualCapacity(v, w) > 0
      requires u.height == Wrap(v.height as int + 1) && v.height == Wrap(w.height as int + 1)
      modifies u`excess, w`excess, uv`flow, uv`inMatch, vw`flow, vw`inMatch
      ensures var d := PushAmount(old(u.excess), old(uv.GetResidualCapacity(u, v)), old(vw.GetResidualCapacity(v, w)));
        0 < d &&
        (u != w ==> u.excess == old(u.excess) - d && w.excess == old(w.excess) + d) &&
        (u == w ==> u.excess == old(u.excess)) &&
        (v != u && v != w ==> v.excess == old(v.excess)) &&
        (uv != vw ==> uv.flow == old(uv.flow) + Signed(uv.FlowsForward(u, v), d) &&
                      vw.flow == old(vw.flow) + Signed(vw.FlowsForward(v, w), d)) &&
        (uv == vw ==> uv.flow == old(uv.flow) + Signed(uv.FlowsForward(u, v), d) + Signed(vw.FlowsForward(v, w), d))
      ensures uv.MatchStatusOk() && vw.MatchStatusOk()
    {
      var resid1 := uv.GetResidualCapacity(u, v);
      var resid2 := vw.GetResidualCapacity(v, w);
      var residualCapacity := if resid1 <= resid2 then resid1 else resid2;
      var excess := u.excess;
      var changeInFlow := if excess < residualCapacity then excess else residualCapacity;
      u.AddToExcess(-changeInFlow);
      w.AddToExcess(changeInFlow);
      if uv.FlowsForward(u, v) {
        uv.AddToFlow(changeInFlow);
      } else {
        uv.AddToFlow(-changeInFlow);
      }
      if vw.FlowsForward(v, w) {
        vw.AddToFlow(changeInFlow);
      } else {
        vw.AddToFlow(-changeInFlow);
      }
    }
  
    /**
     * One bipush as bipushRelabel makes it: from a vertex to discharge, along an edge eligible
     * from it, then along an edge of the middle vertex's list eligible from there and not
     * leading back. The preflow is kept and u gives up some of its excess.
     */
    method HopPush(u: Vertex, v: Vertex, w: Vertex, uv: Edge, vw: Edge)
      requires Valid() && u in V && uv in u.edges && v == uv.GetNeighbor(u) && vw in v.edges && w == vw.GetNeighbor(v)
      requires u != w && u.excess > 0 && uv.IsEligibleFrom(u) && vw.IsEligibleFrom(v)
      modifies u`excess, w`excess, uv`flow, uv`inMatch, vw`flow, vw`inMatch
      ensures Valid() && 0 <= u.excess < old(u.excess)
    {
      hide Valid, Registered, Shape, Queue, FlowsOk, ExcessOk, HopReady;
      ValidParts();
      ghost var i, j := HopFound(u, v, w, uv, vw);
      PushAlongHop(u, v, w, uv, vw, i, j);
      ValidParts();
    }

    /**
     * What a bipush along h needs to keep the preflow: u is to be discharged, the two edges
     * are different edges of the network at places i and j, u is an end of uv and v the
     * other, w is vw's other end from v (or v is the source and vw runs into the sink), both
     * edges are eligible, and the flows and excesses are a preflow.
     */
    ghost predicate HopReady(h: Hop)
      reads this`nodes, this`allEdges, allEdges`flow, allEdges`inMatch, (nodes - {source})`excess
      reads h.u`excess, h.u`height, h.v`height, h.w`height, h.uv`flow, h.vw`flow
    {
      h.u in nodes && h.w in nodes && h.u != source && h.u != sink && h.u != h.w && h.uv != h.vw &&
      0 <= h.i < |allEdges| && allEdges[h.i] == h.uv && 0 <= h.j < |allEdges| && allEdges[h.j] == h.vw &&
      (forall k :: 0 <= k < |allEdges| && allEdges[k] == h.uv ==> k == h.i) &&
      (forall k :: 0 <= k < |allEdges| && allEdges[k] == h.vw ==> k == h.j) &&
      h.uv.start != h.uv.finish && h.vw.start != h.vw.finish &&
      (h.u == h.uv.start || h.u == h.uv.finish) && h.v == h.uv.GetNeighbor(h.u) && h.w == h.vw.GetNeighbor(h.v) &&
      (h.v == h.vw.start || h.v == h.vw.finish || (h.v == source && h.vw.finish == sink)) &&
      h.u.excess > 0 && h.uv.GetResidualCapacity(h.u, h.v) > 0 && h.vw.GetResidualCapacity(h.v, h.w) > 0 &&
      h.u.height == Wrap(h.v.height as int + 1) && h.v.height == Wrap(h.w.height as int + 1) &&
      FlowsOk() && ExcessOk()
    }

    /** The hop bipushRelabel has found, with the places of its edges, is ready. */
    lemma HopFound(u: Vertex, v: Vertex, w: Vertex, uv: Edge, vw: Edge) returns (i: int, j: int)
      requires Valid() && u in V && uv in u.edges && v == uv.GetNeighbor(u) && vw in v.edges && w == vw.GetNeighbor(v)
      requires u != w && u.excess > 0 && uv.IsEligibleFrom(u) && vw.IsEligibleFrom(v)
      ensures HopReady(Hop(u, v, w, uv, vw, i, j))
    {
      assert u in nodes && Listed(u);
      assert uv in allEdges && v in nodes && Listed(v);
      assert uv.GetNeighbor(v) == u;
      i, j := position[uv], position[vw];
    }

    /** bipush along a ready hop keeps the preflow, and u gives up some of its excess. */
    method PushAlongHop(u: Vertex, v: Vertex, w: Vertex, uv: Edge, vw: Edge, ghost i: int, ghost j: int)
      requires HopReady(Hop(u, v, w, uv, vw, i, j))
      modifies u`excess, w`excess, uv`flow, uv`inMatch, vw`flow, vw`inMatch
      ensures FlowsOk() && ExcessOk() && 0 <= u.excess < old(u.excess)
    {
      Bipush(u, v, w, uv, vw);
      ghost var h := Hop(u, v, w, uv, vw, i, j);
      assert Pushed(h);
      HopKept(h);
    }

    /**
     * What bipush along h did: d, the least of u's excess and the two residual capacities,
     * moved from u's excess to w's and along both edges, and nothing else changed.
     */
    twostate predicate Pushed(h: Hop)
      reads this`nodes, this`allEdges, nodes`excess, allEdges`flow, allEdges`inMatch, h.u`excess, h.w`excess
      reads h.uv`flow, h.uv`inMatch, h.vw`flow, h.vw`inMatch
    {
      var d := PushAmount(old(h.u.excess), old(h.uv.GetResidualCapacity(h.u, h.v)), old(h.vw.GetResidualCapacity(h.v, h.w)));
      0 < d && h.u.excess == old(h.u.excess) - d && h.w.excess == old(h.w.excess) + d &&
      h.uv.flow == old(h.uv.flow) + Signed(h.uv.FlowsForward(h.u, h.v), d) &&
      h.vw.flow == old(h.vw.flow) + Signed(h.vw.FlowsForward(h.v, h.w), d) &&
      h.uv.MatchStatusOk() && h.vw.MatchStatusOk() &&
      nodes == old(nodes) && allEdges == old(allEdges) &&
      (forall x :: x in nodes && x != h.u && x != h.w ==> x.excess == old(x.excess)) &&
      (forall e :: e in allEdges && e != h.uv && e != h.vw ==> e.flow == old(e.flow) && e.inMatch == old(e.inMatch))
    }

    /** A bipush along a ready hop leaves a preflow. */
    twostate lemma HopKept(h: Hop)
      requires old(HopReady(h)) && Pushed(h)
      ensures FlowsOk() && ExcessOk() && 0 <= h.u.excess < old(h.u.excess)
    {
      var d := PushAmount(old(h.u.excess), old(h.uv.GetResidualCapacity(h.u, h.v)), old(h.vw.GetResidualCapacity(h.v, h.w)));
      var d1, d2 := Signed(h.uv.FlowsForward(h.u, h.v), d), Signed(h.vw.FlowsForward(h.v, h.w), d);
      var fs := old(Flows(allEdges));
      forall e | e in allEdges
        ensures e.MatchStatusOk() && 0 <= e.flow <= Capacity
      {
        if e != h.uv && e != h.vw {
          assert e.flow == old(e.flow) && e.inMatch == old(e.inMatch);
        }
      }
      var fs' := Flows(allEdges);
      var moved := fs[h.i := fs[h.i] + d1][h.j := fs[h.j] + d2];
      forall k | 0 <= k < |allEdges|
        ensures fs'[k] == moved[k]
      {
        if k != h.i && k != h.j {
          assert allEdges[k] != h.uv && allEdges[k] != h.vw;
        }
      }
      assert fs' == moved;
      forall x | x in nodes && x != source
        ensures x.excess >= 0
      {
        if x != h.u && x != h.w {
          assert x.excess == old(x.excess);
        }
      }
      forall x | x in nodes && x != source && x != sink
        ensures x.excess == Balance(x, allEdges, fs')
      {
        HopMoves(x, allEdges, fs, h, sink, d, d1, d2);
        var before := Balance(x, allEdges, fs);
        assert old(x.excess) == before;
        var change := (if x == h.u then -d else 0) + (if x == h.w then d else 0);
        assert Balance(x, allEdges, moved) == before + change;
        if x == h.u {
          assert x.excess == old(x.excess) - d;
        } else if x == h.w {
          assert x.excess == old(x.excess) + d;
        } else {
          assert x.excess == old(x.excess);
        }
        assert x.excess == before + change;
      }
    }

    /**
     * relabel(u, exclude) (lines 332-353): u's height becomes one above the lowest far end,
     * exclude aside, of an edge u can still send flow along; Integer.MAX_VALUE + 1 wraps when
     * there is none. The source's assert is off by default and is not modelled.
     */
    method Relabel(u: Vertex, exclude: Vertex?)
      modifies u`height
      ensures Relabelled(u, exclude)
    {
      var edges := u.edges;
      var minHeight: int32 := IntMax as int32;
      for i := 0 to |edges|
        invariant minHeight == MinHeight(u, exclude, edges[..i])
      {
        assert edges[..i + 1][..i] == edges[..i];
        var e := edges[i];
        var v := e.GetNeighbor(u);
        if exclude == null || exclude != v {
          var residCapacity := e.GetResidualCapacity(u, v);
          if residCapacity > 0 {
            var partnerHeight := v.height;
            minHeight := if partnerHeight < minHeight then partnerHeight else minHeight;
          }
        }
      }
      assert edges[..|edges|] == edges;
      u.height := Wrap(1 + minHeight as int);
    }

    /** What relabel(u, exclude) does to u: one above the lowest far end it counted, in the state before. */
    twostate predicate Relabelled(u: Vertex, exclude: Vertex?)
      reads u`height
    {
      u.height == Wrap(1 + old(MinHeight(u, exclude, u.edges)) as int)
    }

    /**
     * bipushRelabel (lines 239-266): the first edge eligible from u whose far end v has an
     * edge Onward carries a bipush, and that ends the call; an eligible edge whose far end
     * has none gets that end relabelled, u excluded, and the scan goes on; with no eligible
     * edge at all u is relabelled. The scan is written here as a search for the first
     * eligible edge followed by ScanForHop from it: the edges before it are not eligible and
     * the source does nothing with them. The preflow is kept; either u gave up excess or no
     * flow moved; an eligible edge leaves u's height alone, and when nothing was eligible,
     * only u's height changed, to one above its lowest neighbour with residual capacity.
     */
    method BipushRelabel(u: Vertex)
      requires Valid() && u in V && u.excess > 0
      modifies nodes`height, nodes`excess, allEdges`flow, allEdges`inMatch
      ensures Valid() && u.excess <= old(u.excess)
      ensures u.excess < old(u.excess) || unchanged(nodes`excess, allEdges`flow, allEdges`inMatch)
      ensures old(exists e :: e in u.edges && e.IsEligibleFrom(u)) ==> u.height == old(u.height)
      ensures old(forall e :: e in u.edges ==> !e.IsEligibleFrom(u)) ==>
        u.height == Wrap(1 + old(MinHeight(u, null, u.edges)) as int) &&
        unchanged(nodes`excess, allEdges`flow, allEdges`inMatch) &&
        forall x :: x in nodes && x != u ==> x.height == old(x.height)
    {
      hide Valid, Registered, Shape, Queue, FlowsOk, ExcessOk;
      Member(u);
      var first := 0;
      while first < |u.edges| && !u.edges[first].IsEligibleFrom(u)
        invariant 0 <= first <= |u.edges|
        invariant forall j :: 0 <= j < first ==> !u.edges[j].IsEligibleFrom(u)
      {
        first := first + 1;
      }
      if first == |u.edges| {
        Relabel(u, null);
      } else {
        ScanForHop(u, first);
      }
    }

    /**
     * The loop of bipushRelabel (lines 243-261) from the first eligible edge on, returning
     * as soon as a bipush is made. u's height stays; u's excess drops with the bipush, and
     * when there is none, no flow has moved.
     */
    method ScanForHop(u: Vertex, first: int)
      requires Valid() && u in V && u.excess > 0 && 0 <= first < |u.edges|
      modifies nodes`height, nodes`excess, allEdges`flow, allEdges`inMatch
      ensures Valid() && u.excess <= old(u.excess) && u.height == old(u.height)
      ensures u.excess < old(u.excess) || unchanged(nodes`excess, allEdges`flow, allEdges`inMatch)
    {
      hide Valid, Registered, Shape, Queue, FlowsOk, ExcessOk;
      Member(u);
      var edges := u.edges;
      for i := first to |edges|
        invariant Valid() && u.excess == old(u.excess) && u.height == old(u.height)
        invariant unchanged(nodes`excess, allEdges`flow, allEdges`inMatch)
      {
        var uv := edges[i];
        if uv.IsEligibleFrom(u) {
          var pushed := TryHop(u, uv);
          if pushed {
            return;
          }
        }
      }
    }

    /**
     * One eligible edge uv of bipushRelabel (lines 245-258): the first edge of v, the far
     * end, that is Onward carries a bipush; when there is none, v is relabelled with u
     * excluded. pushed says which, and is whether v had such an edge; u's height stays.
     */
    method TryHop(u: Vertex, uv: Edge) returns (pushed: bool)
      requires Valid() && u in V && uv in u.edges && u.excess > 0 && uv.IsEligibleFrom(u)
      modifies nodes`height, nodes`excess, allEdges`flow, allEdges`inMatch
      ensures Valid() && u.height == old(u.height)
      ensures pushed <==> old(exists vw :: vw in uv.GetNeighbor(u).edges && Onward(u, uv.GetNeighbor(u), vw))
      ensures pushed ==> u.excess < old(u.excess)
      ensures !pushed ==>
        unchanged(nodes`excess, allEdges`flow, allEdges`inMatch) && Relabelled(uv.GetNeighbor(u), u) &&
        forall x :: x in nodes && x != uv.GetNeighbor(u) ==> x.height == old(x.height)
    {
      hide Valid, Registered, Shape, Queue, FlowsOk, ExcessOk;
      EdgeEnds(u, uv);
      var v := uv.GetNeighbor(u);
      var k := 0;
      while k < |v.edges| && !Onward(u, v, v.edges[k])
        invariant 0 <= k <= |v.edges|
        invariant forall j :: 0 <= j < k ==> !Onward(u, v, v.edges[j])
      {
        k := k + 1;
      }
      if k < |v.edges| {
        var vw := v.edges[k];
        EdgeEnds(v, vw);
        HopPush(u, v, vw.GetNeighbor(v), uv, vw);
        return true;
      }
      Relabel(v, u);
      return false;
    }

    /**
     * bipushDischarge (lines 299-304): bipushRelabel until u has no excess left, at most fuel
     * times. The preflow is kept, and drained says whether u ended without excess.
     */
    method BipushDischarge(u: Vertex, fuel: nat) returns (drained: bool)
      requires Valid() && u in V
      modifies nodes`height, nodes`excess, allEdges`flow, allEdges`inMatch
      ensures Valid() && (drained <==> u.excess == 0)
    {
      var steps := fuel;
      while u.excess > 0 && steps > 0
        invariant Valid()
        decreases steps
      {
        BipushRelabel(u);
        steps := steps - 1;
      }
      assert u in nodes && u != source;
      drained := u.excess <= 0;
    }

    /** iter.remove() and V.add(0, v) of relabelToFront (lines 230-231): V[i] moves to the front, and the network stays valid. */
    method RequeueAtFront(i: nat)
      requires Valid() && i < |V|
      modifies this`V
      ensures Valid() && V == MoveAtToFront(old(V), i)
    {
      V := MoveAtToFront(V, i);
      QueueMoved();
    }

    /** Reordering V keeps the network valid. */
    twostate lemma QueueMoved()
      requires old(Valid()) && multiset(V) == old(multiset(V))
      requires unchanged(this`nodes, this`allEdges, this`position, this`E, registry`idToVertex)
      requires unchanged(nodes`edges, nodes`excess, allEdges`flow, allEdges`inMatch)
      ensures Valid()
    {
      assert forall x :: x in V ==> x in multiset(old(V));
    }

    /**
     * One turn of relabelToFront's loop (lines 223-233): V[i] is discharged; drained says
     * whether it ended without excess, and then it moves to the front when its height rose,
     * the walk going on at place 1, and otherwise the walk goes on at place i + 1.
     */
    method DischargeAt(i: nat, fuel: nat) returns (drained: bool, next: nat)
      requires Valid() && i < |V|
      modifies this`V, nodes`height, nodes`excess, allEdges`flow, allEdges`inMatch
      ensures Valid() && multiset(V) == old(multiset(V))
      ensures drained <==> old(V[i]).excess == 0
      ensures drained ==> 0 < next <= |V| && V[next - 1].excess == 0
      ensures !drained ==> V == old(V)
      ensures drained && old(V[i]).height > old(V[i].height) ==> V == MoveAtToFront(old(V), i) && next == 1
      ensures drained && old(V[i]).height <= old(V[i].height) ==> V == old(V) && next == i + 1
    {
      hide Valid, Registered, Shape, Queue, FlowsOk, ExcessOk;
      var v := V[i];
      var oldHeight := v.height;
      drained := BipushDischarge(v, fuel);
      next := i;
      if drained {
        if v.height > oldHeight {
          RequeueAtFront(i);
          next := 1;
        } else {
          next := i + 1;
        }
      }
    }

    /**
     * relabelToFront (lines 218-235): V is walked from the front; each vertex is discharged,
     * and one whose height rose moves to the front, the walk going on from the second place.
     * Each discharge and the walk itself get fuel steps. The preflow is kept, V is rearranged
     * and nothing else, and when the walk gets to the end, the vertex it discharged last is
     * drained; finished says whether it got there.
     */
    method RelabelToFront(fuel: nat) returns (finished: bool)
      requires Valid()
      modifies this`V, nodes`height, nodes`excess, allEdges`flow, allEdges`inMatch
      ensures Valid() && multiset(V) == old(multiset(V))
      ensures finished && |V| > 0 ==> V[|V| - 1].excess == 0
    {
      hide Valid, Registered, Shape, Queue, FlowsOk, ExcessOk;
      var i := 0;
      var steps := fuel;
      while i < |V| && steps > 0
        invariant Valid() && multiset(V) == old(multiset(V)) && 0 <= i <= |V|
        invariant 0 < i ==> V[i - 1].excess == 0
        decreases steps
      {
        steps := steps - 1;
        var drained;
        drained, i := DischargeAt(i, fuel);
        if !drained {
          return false;
        }
      }
      finished := i >= |V|;
    }

    // -------------------------------------------------------------------------------------
    // Reading the result (lines 79-85, 355-442)

    /** The sides and the team edges as initialize left them: LV the smaller location, RV the other, E one edge per team. */
    ghost predicate Sided()
      reads this`LV, this`RV, this`E
    {
      Ids(LV) == MinSide(inst) && Ids(RV) == MaxSide(inst) && Laid(inst, E)
    }

    /** The team graph König's construction walks: the teams, with the flows of E's edges. */
    function TeamGraph(): Konig.Graph
      reads this`E, E`flow
    {
      FlowNetwork.NetGraph(inst, TeamFlows(E))
    }

    /** The ids of LV and RV are the two locations, LV's the first one unless the sides were flipped. */
    lemma SideSets()
      requires Sided()
      ensures Members(Ids(LV)) == if Flipped(inst) then FlowNetwork.RSet(inst) else FlowNetwork.LSet(inst)
      ensures Members(Ids(RV)) == if Flipped(inst) then FlowNetwork.LSet(inst) else FlowNetwork.RSet(inst)
    {
    }

    /** No team edge carries negative flow in a valid network. */
    lemma TeamFlowsNonNegative()
      requires Valid()
      ensures forall e :: e in E ==> 0 <= e.flow
    {
    }

    /**
     * computeMatchSet (lines 358-376): the start and then the finish of every team edge with
     * flow join the matches, in the order of the teams.
     */
    method ComputeMatchSet()
      modifies this`matches
      ensures matches == old(matches) + MatchedEnds(E)
    {
      for k := 0 to |E|
        invariant matches == old(matches) + MatchedEnds(E[..k])
      {
        var e := E[k];
        assert E[..k + 1][..k] == E[..k];
        if e.flow > 0 {
          matches := matches + [e.start];
          matches := matches + [e.finish];
        }
      }
      assert E[..|E|] == E;
    }

    /**
     * computeMinVertexCover (lines 407-425): König's construction from the vertices of side1
     * that are not among the matches, over the team graph. The reached set is the least
     * closed one, the result lists the reached vertices of side2 and then the unreached ones
     * of side1, and when the flow on the team edges is a matching and the matches are its
     * ends, the result covers every team edge.
     */
    method ComputeMinVertexCover(side1: seq<Vertex>, side2: seq<Vertex>) returns (result: seq<Vertex>, ghost konigSet: set<int>)
      requires FlowNetwork.WellFormed(inst) && Sided()
      requires (side1 == LV && side2 == RV) || (side1 == RV && side2 == LV)
      ensures Konig.LeastClosed(TeamGraph(), Members(Ids(side2)), Members(Ids(side1)) - Members(Ids(matches)), konigSet)
      ensures result == CoverList(side1, side2, konigSet)
      ensures Members(Ids(result)) == Konig.CoverFrom(Members(Ids(side1)), Members(Ids(side2)), konigSet)
      ensures Konig.MatchingOk(TeamGraph(), Members(Ids(side1)), Members(Ids(side2))) &&
              Konig.MatchesOk(TeamGraph(), Members(Ids(side1)), Members(Ids(side2)), Members(Ids(matches))) ==>
                Konig.CoversEdges(TeamGraph(), Members(Ids(side1)), Members(Ids(side2)), Members(Ids(result))) &&
                Konig.CoversEdges(TeamGraph(), Members(Ids(side2)), Members(Ids(side1)), Members(Ids(result)))
    {
      hide Konig.StructureOk, Konig.LeastClosed, Konig.MatchingOk, Konig.MatchesOk, Konig.CoversEdges;
      var g := TeamGraph();
      var ids1, ids2 := Members(Ids(side1)), Members(Ids(side2));
      SideSets();
      TeamStructure(inst, g.flow);
      var cover, konig := Konig.MinVertexCover(g, ids1, ids2, Members(Ids(matches)));
      konigSet := konig;
      var reached := Reached(side1 + side2, konig);
      result := Retain(side2, reached) + RemoveAll(side1, reached);
      CoverListIds(side1, side2, konigSet);
    }

    /**
     * computeInvitees (lines 385-404): the cover from LV if it holds the friend, the cover from
     * RV otherwise; its ids join the invitees in its order. When the flow on the team edges
     * is a matching and the matches are its ends, the chosen ids cover every team.
     */
    method ComputeInvitees() returns (ghost chosen: seq<Vertex>, ghost konig1: set<int>, ghost konig2: set<int>)
      requires FlowNetwork.WellFormed(inst) && Sided()
      modifies this`invitees
      ensures invitees == old(invitees) + Ids(chosen)
      ensures Konig.LeastClosed(TeamGraph(), Members(Ids(RV)), Members(Ids(LV)) - Members(Ids(matches)), konig1)
      ensures Konig.LeastClosed(TeamGraph(), Members(Ids(LV)), Members(Ids(RV)) - Members(Ids(matches)), konig2)
      ensures chosen == if friend in CoverList(LV, RV, konig1) then CoverList(LV, RV, konig1) else CoverList(RV, LV, konig2)
      ensures Konig.MatchingOk(TeamGraph(), FlowNetwork.LSet(inst), FlowNetwork.RSet(inst)) &&
              Konig.MatchesOk(TeamGraph(), FlowNetwork.LSet(inst), FlowNetwork.RSet(inst), Members(Ids(matches))) ==>
                FlowNetwork.CoversTeams(inst, Members(Ids(chosen)))
    {
      hide Konig.LeastClosed, Konig.MatchingOk, Konig.MatchesOk, Konig.CoversEdges, Konig.CoverFrom, CoverList, FlowNetwork.NetGraph, TeamFlows;
      var minVertexCovers1, minVertexCovers2;
      minVertexCovers1, konig1 := ComputeMinVertexCover(LV, RV);
      minVertexCovers2, konig2 := ComputeMinVertexCover(RV, LV);
      var result;
      if friend in minVertexCovers1 {
        result := minVertexCovers1;
      } else {
        result := minVertexCovers2;
      }
      chosen := result;
      AddInvitees(result);
      if Konig.MatchingOk(TeamGraph(), FlowNetwork.LSet(inst), FlowNetwork.RSet(inst)) &&
         Konig.MatchesOk(TeamGraph(), FlowNetwork.LSet(inst), FlowNetwork.RSet(inst), Members(Ids(matches))) {
        SideSets();
        if friend in minVertexCovers1 {
          CoverFromEitherSide(inst, TeamFlows(E), Members(Ids(LV)), Members(Ids(RV)), Members(Ids(matches)), Members(Ids(chosen)));
        } else {
          CoverFromEitherSide(inst, TeamFlows(E), Members(Ids(RV)), Members(Ids(LV)), Members(Ids(matches)), Members(Ids(chosen)));
        }
      }
    }

    /** The loop at lines 397-399: the ids of result join the invitees, in order. */
    method AddInvitees(result: seq<Vertex>)
      modifies this`invitees
      ensures invitees == old(invitees) + Ids(result)
    {
      hide Ids;
      for k := 0 to |result|
        invariant invitees == old(invitees) + Ids(result[..k])
      {
        IdsAppend(result[..k], result[k]);
        assert result[..k + 1] == result[..k] + [result[k]];
        invitees := invitees + [result[k].id];
      }
      assert result[..|result|] == result;
    }

    /**
     * computeMatchSet then computeInvitees, on a solver whose matches and invitees are still
     * empty and whose team edges carry no negative flow: the matches are exactly the
     * employees with a mate, and when the flow on the team edges is a matching the invitees
     * cover every team.
     */
    method ReadResult()
      requires FlowNetwork.WellFormed(inst) && Sided() && matches == [] && invitees == []
      requires forall e :: e in E ==> 0 <= e.flow
      modifies this`matches, this`invitees
      ensures matches == MatchedEnds(E)
      ensures Konig.MatchesOk(TeamGraph(), FlowNetwork.LSet(inst), FlowNetwork.RSet(inst), Members(Ids(matches)))
      ensures Konig.MatchingOk(TeamGraph(), FlowNetwork.LSet(inst), FlowNetwork.RSet(inst)) ==>
                FlowNetwork.CoversTeams(inst, Members(invitees))
    {
      hide Konig.MatchingOk, Konig.MatchesOk, Konig.LeastClosed, Konig.CoverFrom, FlowNetwork.CoversTeams, FlowNetwork.NetGraph, TeamFlows, CoverList;
      hide Laid, FlowNetwork.WellFormed, MatchedEnds, Ids, Members;
      MatchedEndsMated(inst, E);
      ComputeMatchSet();
      ghost var chosen, konig1, konig2 := ComputeInvitees();
      assert invitees == Ids(chosen);
    }

    /**
     * solve (lines 79-85): relabel-to-front, then the matches read off the team edges, then
     * the invitees. The network stays valid, the matches are exactly the employees with a
     * mate, and when the flow on the team edges is a matching the invitees cover every team.
     */
    method Solve(fuel: nat)
      requires Valid() && Sided() && FlowNetwork.WellFormed(inst) && matches == [] && invitees == []
      modifies this`V, nodes`height, nodes`excess, allEdges`flow, allEdges`inMatch, this`matches, this`invitees
      ensures Valid() && Sided()
      ensures matches == MatchedEnds(E)
      ensures Konig.MatchesOk(TeamGraph(), FlowNetwork.LSet(inst), FlowNetwork.RSet(inst), Members(Ids(matches)))
      ensures Konig.MatchingOk(TeamGraph(), FlowNetwork.LSet(inst), FlowNetwork.RSet(inst)) ==>
                FlowNetwork.CoversTeams(inst, Members(invitees))
    {
      hide Valid, Konig.MatchingOk, Konig.MatchesOk, TeamGraph, MatchedEnds;
      var finished := RelabelToFront(fuel);
      TeamFlowsNonNegative();
      ReadResult();
    }

    // -------------------------------------------------------------------------------------
    // Setup (lines 71-198)

    /**
     * The vertices setup has registered after the source side of lvDone and the sink side
     * of rvDone: the sides and V in the order of the ids, and nothing else but the source,
     * the sink and the friend.
     */
    ghost predicate BuiltNodes(lvDone: seq<int>, rvDone: seq<int>)
      reads this`nodes, this`LV, this`RV, this`V, registry`idToVertex
    {
      Registered() && Queue() &&
      Ids(LV) == lvDone && Ids(RV) == rvDone && Ids(V) == PushRelabel.SourceSideOrder(lvDone) &&
      (forall x :: x in LV ==> x in nodes && x.id != SourceId && x.id != SinkId) &&
      (forall x :: x in RV ==> x in nodes && x.id != SourceId && x.id != SinkId) &&
      (forall x :: x in nodes ==> x == source || x == sink || x == friend || x in LV || x in RV)
    }

    /** The values setup gives: excess 1 on the source side and 0 elsewhere, heights 0, flow 1 exactly out of the source. */
    ghost predicate BuiltValues()
      reads this`nodes, this`LV, this`allEdges, (nodes - {source})`excess, nodes`height, allEdges`flow
    {
      (forall x :: x in nodes && x != source ==> x.excess == if x in LV then 1 else 0) &&
      (forall x :: x in nodes ==> x.height == 0) &&
      (forall e :: e in allEdges ==> (e.flow == 1 <==> e.start == source))
    }

    /** The team edges of teamsDone, each from its source-side member to its sink-side member. */
    ghost predicate TeamsBuilt(teamsDone: seq<FlowNetwork.Team>)
      reads this`E
    {
      |E| == |teamsDone| && forall k :: 0 <= k < |E| ==> (E[k].start.id, E[k].finish.id) == Oriented(inst, teamsDone[k])
    }

    /** The state setup has reached after the source side of lvDone and the sink side of rvDone, team edges aside. */
    ghost predicate Grown(lvDone: seq<int>, rvDone: seq<int>)
      reads this`nodes, this`allEdges, this`position, this`E, this`V, this`LV, this`RV, registry`idToVertex
      reads nodes`edges, (nodes - {source})`excess, nodes`height, allEdges`flow, allEdges`inMatch
    {
      BuiltNodes(lvDone, rvDone) && Shape() && FlowsOk() && ExcessOk() && BuiltValues()
    }

    /** The state setup has reached after the source side of lvDone, the sink side of rvDone and the edges of teamsDone. */
    ghost predicate Built(lvDone: seq<int>, rvDone: seq<int>, teamsDone: seq<FlowNetwork.Team>)
      reads this`nodes, this`allEdges, this`position, this`E, this`V, this`LV, this`RV, registry`idToVertex
      reads nodes`edges, (nodes - {source})`excess, nodes`height, allEdges`flow, allEdges`inMatch
    {
      Grown(lvDone, rvDone) && TeamsBuilt(teamsDone)
    }

    /**
     * The constructor: the registry with the source, the sink and the friend in it (the
     * field initialisers, lines 67-69), then initialize.
     */
    constructor (inst: FlowNetwork.Instance)
      requires InputOk(inst)
      ensures Valid() && Prepared() && Sided() && source.height == Wrap(2 * |LV|)
      ensures this.inst == inst && matches == [] && invitees == []
    {
      hide Built, Valid, Prepared;
      this.inst := inst;
      var reg, s, t, f := StartRegistry();
      registry := reg;
      source := s;
      sink := t;
      friend := f;
      V := [];
      E := [];
      LV := [];
      RV := [];
      nodes := {s, t, f};
      allEdges := [];
      position := map[];
      new;
      StartBuilt();
      Initialize();
      matches := [];
      invitees := [];
      PreparedSided();
    }

    /** The state the field initialisers leave: the three vertices registered, nothing linked, everything 0. */
    lemma StartBuilt()
      ensures nodes == {source, sink, friend} && source.id == SourceId && sink.id == SinkId && friend.id == Params.FriendId &&
        registry.idToVertex == map[SourceId := source][SinkId := sink][Params.FriendId := friend] &&
        V == [] && E == [] && LV == [] && RV == [] && allEdges == [] && position == map[] &&
        source.edges == [] && sink.edges == [] && friend.edges == [] &&
        source.excess == 0 && sink.excess == 0 && friend.excess == 0 &&
        source.height == 0 && sink.height == 0 && friend.height == 0
        ==> Built([], [], []) && source.excess == 0 && |source.edges| == 0
    {
    }

    /**
     * The state initialize leaves, heights and edge lists aside: the smaller location is the
     * source side, V lists its vertices (the friend first), E holds the team edges in the
     * order of the teams, from the source side to the sink side and without flow; every
     * vertex but the source is at height 0, the source side has excess 1, the sink side 0,
     * and the source -|LV|.
     */
    ghost predicate Prepared()
      reads this`LV, this`RV, this`V, this`E, this`nodes, E`flow, source`excess, nodes`excess, (nodes - {source})`height
    {
      Ids(LV) == MinSide(inst) && Ids(RV) == MaxSide(inst) &&
      Ids(V) == PushRelabel.SourceSideOrder(MinSide(inst)) &&
      |E| == |inst.teams| &&
      (forall k :: 0 <= k < |E| ==> (E[k].start.id, E[k].finish.id) == Oriented(inst, inst.teams[k]) && E[k].flow == 0) &&
      (forall x :: x in nodes && x != source ==> x.height == 0) &&
      source.excess == -|LV| &&
      (forall x :: x in nodes && x != source ==> x.excess == (if x in LV then 1 else 0))
    }

    /** The state initialize leaves has the sides and the team edges reading the result needs. */
    lemma PreparedSided()
      requires Prepared()
      ensures Sided()
    {
      hide Oriented, MinSide, MaxSide;
    }

    /**
     * initialize (lines 88-118): the smaller location becomes the source side (the first on
     * a tie), then the two sides, the team edges and the friend's bias are set up and the
     * source is raised to twice the size of its side.
     */
    method Initialize()
      requires InputOk(inst) && Built([], [], []) && source.excess == 0 && |source.edges| == 0
      modifies this`nodes, this`allEdges, this`position, this`E, this`V, this`LV, this`RV, registry`idToVertex
      modifies source`edges, source`excess, source`height, friend`edges, friend`excess, nodes`edges
      ensures Valid() && Prepared() && source.height == Wrap(2 * |LV|)
    {
      hide Built, Valid, Prepared;
      var minSet, maxSet;
      var flippedSides := false;
      if |inst.lv| <= |inst.rv| {
        minSet := inst.lv;
        maxSet := inst.rv;
      } else {
        minSet := inst.rv;
        maxSet := inst.lv;
        flippedSides := true;
      }
      SetupGraph(minSet, maxSet, flippedSides);
      SetupFacts(inst.teams);
      BiasForFriend();
      source.height := Wrap(2 * |LV|);
    }

    /** The three setup loops of initialize: the source side, the sink side and the team edges. */
    method SetupGraph(minSet: seq<int>, maxSet: seq<int>, flippedSides: bool)
      requires InputOk(inst) && Built([], [], []) && source.excess == 0 && |source.edges| == 0
      requires minSet == MinSide(inst) && maxSet == MaxSide(inst) && flippedSides == Flipped(inst)
      modifies this`nodes, this`allEdges, this`position, this`E, this`V, this`LV, this`RV, registry`idToVertex
      modifies source`edges, source`excess, friend`edges, friend`excess, nodes`edges
      ensures Built(MinSide(inst), MaxSide(inst), inst.teams) && source.excess == -|LV|
      ensures fresh(nodes - old(nodes))
    {
      hide Built;
      SideChoice(inst);
      SetupSourceSide(minSet);
      SetupSinkSide(minSet, maxSet);
      SetupNeighbors(flippedSides);
      LengthOfBuilt(MinSide(inst), MaxSide(inst), inst.teams);
    }

    /** Built, LV has one vertex per id of the source side. */
    lemma LengthOfBuilt(lvDone: seq<int>, rvDone: seq<int>, teamsDone: seq<FlowNetwork.Team>)
      ensures Built(lvDone, rvDone, teamsDone) ==> |LV| == |lvDone|
    {
    }

    /**
     * What the three setup loops leave: a valid network whose team edges carry no flow (none
     * starts at the source), with every height 0 and excess 1 exactly on the source side.
     */
    lemma SetupFacts(teamsDone: seq<FlowNetwork.Team>)
      requires InputOk(inst) && teamsDone == inst.teams
      ensures Built(MinSide(inst), MaxSide(inst), teamsDone) && source.excess == -|LV| ==>
        Valid() && Prepared() &&
        (forall e :: e in friend.edges ==> e.GetNeighbor(friend) in nodes && e.GetNeighbor(friend) != friend)
    {
      if !(Built(MinSide(inst), MaxSide(inst), teamsDone) && source.excess == -|LV|) {
        return;
      }
      assert Listed(friend) && friend != source;
      forall k | 0 <= k < |E|
        ensures E[k].flow == 0
      {
        var t := teamsDone[k];
        assert t in inst.teams;
        assert E[k].start.id == Oriented(inst, t).0 != SourceId;
        assert E[k].start != source;
        assert E[k] in allEdges;
      }
    }

    /** setupSourceSide (lines 123-144): the loop, then the source's excess lowered by its number of edges. */
    method SetupSourceSide(ids: seq<int>)
      requires Built([], [], []) && source.excess == 0 && |source.edges| == 0
      requires SetFacts.Distinct(ids) && SourceId !in ids && SinkId !in ids
      modifies this`nodes, this`allEdges, this`position, this`LV, this`V, registry`idToVertex, source`edges, source`excess
      modifies friend`edges, friend`excess
      ensures Built(ids, [], []) && source.excess == -|ids|
      ensures fresh(nodes - old(nodes))
    {
      hide Built;
      for i := 0 to |ids|
        invariant Built(ids[..i], [], []) && source.excess == 0 && |source.edges| == i
        invariant fresh(nodes - old(nodes))
      {
        assert ids[..i + 1] == ids[..i] + [ids[i]];
        AddToSourceSide(ids[..i], ids[i]);
      }
      assert ids[..|ids|] == ids;
      LowerSourceExcess();
    }

    /** The last line of setupSourceSide: the source's excess goes down by its number of edges. */
    method LowerSourceExcess()
      modifies source`excess
      ensures source.excess == old(source.excess) - |source.edges|
    {
      source.excess := source.excess - |source.edges|;
    }

    /**
     * The vertex registered under an id that setup has not met yet is the friend, when it is
     * registered at all: the source, the sink and the two sides' vertices have other ids.
     */
    lemma FreeOrFriend(lvDone: seq<int>, rvDone: seq<int>, id: int)
      requires id !in lvDone && id !in rvDone && id != SourceId && id != SinkId
      ensures Built(lvDone, rvDone, []) ==>
        registry.Valid() && Ids(LV) == lvDone && Ids(RV) == rvDone &&
        source.id == SourceId && sink.id == SinkId && friend.id == Params.FriendId &&
        friend in nodes && (id == Params.FriendId ==> friend !in LV && friend !in RV) &&
        (id in registry.idToVertex <==> id == Params.FriendId) &&
        (id in registry.idToVertex ==> registry.idToVertex[id] == friend) &&
        (forall x :: x in nodes && x.id == id ==> x == friend)
    {
      if Built(lvDone, rvDone, []) {
        FreeIds(lvDone, rvDone, id);
      }
    }

    /** FreeOrFriend, from the registered vertices alone. */
    lemma FreeIds(lvDone: seq<int>, rvDone: seq<int>, id: int)
      requires BuiltNodes(lvDone, rvDone) && id !in lvDone && id !in rvDone && id != SourceId && id != SinkId
      ensures friend in nodes && (id == Params.FriendId ==> friend !in LV && friend !in RV)
      ensures id in registry.idToVertex <==> id == Params.FriendId
      ensures id in registry.idToVertex ==> registry.idToVertex[id] == friend
      ensures forall x :: x in nodes && x.id == id ==> x == friend
    {
      forall x | x in nodes && x.id == id
        ensures x == friend
      {
        if x in LV {
          IdsMember(LV, x);
        }
        if x in RV {
          IdsMember(RV, x);
        }
      }
      if id in registry.idToVertex {
        assert registry.idToVertex[id] in nodes;
      }
      if friend in LV {
        IdsMember(LV, friend);
      }
      if friend in RV {
        IdsMember(RV, friend);
      }
    }

    /**
     * One pass of setupSourceSide's loop: the vertex of id joins LV and V (at the front when
     * it is the friend), gets excess 1, and the edge from the source to it, with flow 1,
     * goes into both edge lists.
     */
    method AddToSourceSide(ghost lvDone: seq<int>, id: int)
      requires Built(lvDone, [], []) && source.excess == 0
      requires id !in lvDone && id != SourceId && id != SinkId
      modifies this`nodes, this`allEdges, this`position, this`LV, this`V, registry`idToVertex, source`edges
      modifies friend`edges, friend`excess
      ensures Built(lvDone + [id], [], []) && source.excess == 0 && |source.edges| == old(|source.edges|) + 1
      ensures fresh(nodes - old(nodes))
    {
      hide Built;
      FreeOrFriend(lvDone, [], id);
      var vert := registry.VertexFromId(id);
      var e := LinkToSource(vert);
      SourceStep(e);
    }

    /** The body of setupSourceSide's loop once the vertex is found: the edge from the source, the lists, the excess and V. */
    method LinkToSource(vert: Vertex) returns (e: Edge)
      requires vert != source
      modifies this`nodes, this`allEdges, this`position, this`LV, this`V, source`edges, vert`edges, vert`excess
      ensures fresh(e) && e.start == source && e.finish == vert && e.flow == 1 && e.inMatch
      ensures LV == old(LV) + [vert] && nodes == old(nodes) + {vert}
      ensures allEdges == old(allEdges) + [e] && position == old(position)[e := |old(allEdges)|]
      ensures V == if vert.id == Params.FriendId then [vert] + old(V) else old(V) + [vert]
      ensures source.edges == old(source.edges) + [e] && vert.edges == old(vert.edges) + [e] && vert.excess == 1
    {
      LV := LV + [vert];
      nodes := nodes + {vert};
      e := new Edge(source, vert, 1);
      position := position[e := |allEdges|];
      allEdges := allEdges + [e];
      source.AddToEdges(e);
      vert.AddToEdges(e);
      vert.excess := 1;
      if vert.id == Params.FriendId {
        V := [vert] + V;
      } else {
        V := V + [vert];
      }
    }

    /**
     * What one pass of setupSourceSide's loop changes: e is new, from the source to a vertex
     * new to the sides (the friend, or a fresh vertex); the vertex is registered under its id
     * and joins LV, nodes and V; e joins the edges and the two lists with flow 1; the
     * vertex's excess is 1; nothing else changes.
     */
    twostate predicate SourceLinked(new e: Edge)
      reads *
    {
      SourceRegistered(e) && SourceListed(e) && SourceValued(e)
    }

    /** SourceLinked's part on the vertices: the registry, nodes and the sides. */
    twostate predicate SourceRegistered(new e: Edge)
      reads *
    {
      fresh(e) && e.start == source &&
      e.finish.id !in old(Ids(LV)) && e.finish.id != SourceId && e.finish.id != SinkId &&
      (e.finish == friend || fresh(e.finish)) &&
      (e.finish.id in old(registry.idToVertex) ==> old(registry.idToVertex)[e.finish.id] == e.finish) &&
      registry.idToVertex == old(registry.idToVertex)[e.finish.id := e.finish] &&
      LV == old(LV) + [e.finish] && nodes == old(nodes) + {e.finish} && RV == old(RV) &&
      V == (if e.finish.id == Params.FriendId then [e.finish] + old(V) else old(V) + [e.finish])
    }

    /** SourceLinked's part on the edges and the lists. */
    twostate predicate SourceListed(new e: Edge)
      reads *
    {
      allEdges == old(allEdges) + [e] && position == old(position)[e := |old(allEdges)|] &&
      source.edges == old(source.edges) + [e] &&
      (e.finish == friend ==> friend.edges == old(friend.edges) + [e]) &&
      (e.finish != friend ==> e.finish.edges == [e]) &&
      unchanged((old(nodes) - {source, e.finish})`edges)
    }

    /** SourceLinked's part on flows, excesses and heights. */
    twostate predicate SourceValued(new e: Edge)
      reads *
    {
      e.flow == 1 && e.inMatch && e.finish.excess == 1 && (e.finish != friend ==> e.finish.height == 0) &&
      unchanged((old(nodes) - {e.finish})`excess, old(nodes)`height) &&
      unchanged(old(allEdges)`flow, old(allEdges)`inMatch)
    }

    /** What one pass of setupSourceSide's loop changes keeps Built, with the new vertex's id added to the source side. */
    twostate lemma SourceStep(new e: Edge)
      ensures old(Built(Ids(LV), [], [])) && SourceLinked(e) && unchanged(this`E) ==>
        Built(old(Ids(LV)) + [e.finish.id], [], [])
    {
      if !(old(Built(Ids(LV), [], [])) && SourceLinked(e) && unchanged(this`E)) {
        return;
      }
      NewVertexBalance(e);
      SourceNodesStep(e);
      SourceShapeStep(e);
      SourceFlowsStep(e);
      SourceExcessStep(e);
      SourceValuesStep(e);
    }

    /** Registering vert under its id, when the id is free or already vert's, keeps Registered with vert among the nodes. */
    twostate lemma RegisterStep(new vert: Vertex)
      requires old(Registered())
      requires vert.id in old(registry.idToVertex) ==> old(registry.idToVertex)[vert.id] == vert
      requires registry.idToVertex == old(registry.idToVertex)[vert.id := vert] && nodes == old(nodes) + {vert}
      ensures Registered()
    {
      forall x | x in nodes
        ensures x.id in registry.idToVertex && registry.idToVertex[x.id] == x
      {
        if x != vert {
          assert x in old(nodes);
        }
      }
    }

    /** The registered vertices and the sides after one pass of setupSourceSide. */
    twostate lemma SourceNodesStep(new e: Edge)
      requires old(BuiltNodes(Ids(LV), [])) && SourceRegistered(e)
      ensures BuiltNodes(old(Ids(LV)) + [e.finish.id], [])
    {
      var vert := e.finish;
      var lvDone := old(Ids(LV));
      assert vert != source && vert != sink;
      RegisterStep(vert);
      IdsAppend(old(LV), vert);
      IdsAppend(old(V), vert);
      IdsPrepend(old(V), vert);
      PushRelabel.SourceStepOrder(lvDone, vert.id);
    }

    /** Before one pass of setupSourceSide, the vertex it adds has balance 0: no edge reaches it yet. */
    twostate lemma NewVertexBalance(new e: Edge)
      requires old(Shape()) && old(ExcessOk()) && old(BuiltValues()) && old(BuiltNodes(Ids(LV), []))
      requires SourceRegistered(e)
      ensures Balance(e.finish, old(allEdges), old(Flows(allEdges))) == 0
    {
      var vert := e.finish;
      if vert == friend {
        assert vert !in old(LV) by {
          if vert in old(LV) {
            IdsMember(old(LV), vert);
          }
        }
      } else {
        BalanceUntouched(vert, old(allEdges), old(Flows(allEdges)));
      }
    }

    /** The shape of the network after one pass of setupSourceSide. */
    twostate lemma SourceShapeStep(new e: Edge)
      requires old(Shape()) && source.id == SourceId && old(friend in nodes)
      requires SourceRegistered(e) && SourceListed(e) && unchanged(this`E)
      ensures Shape()
    {
      var vert := e.finish;
      assert vert != source;
      assert e !in old(allEdges);
      forall x | x in nodes
        ensures Listed(x)
      {
        if x in old(nodes) {
          assert old(Listed(x));
        }
      }
    }

    /** The flows after one pass of setupSourceSide. */
    twostate lemma SourceFlowsStep(new e: Edge)
      requires old(FlowsOk()) && SourceListed(e) && SourceValued(e)
      ensures FlowsOk()
    {
    }

    /** The excesses after one pass of setupSourceSide: the new vertex's 1 is the flow on e. */
    twostate lemma SourceExcessStep(new e: Edge)
      requires old(ExcessOk()) && source.id == SourceId && sink.id == SinkId
      requires SourceRegistered(e) && SourceListed(e) && SourceValued(e)
      requires Balance(e.finish, old(allEdges), old(Flows(allEdges))) == 0
      ensures ExcessOk()
    {
      var vert := e.finish;
      assert vert != source && vert != sink;
      ghost var fs := old(Flows(allEdges));
      assert Flows(allEdges) == fs + [1] by {
        assert allEdges[..|allEdges| - 1] == old(allEdges);
      }
      forall x | x in nodes && x != source && x != sink
        ensures x.excess == Balance(x, allEdges, Flows(allEdges))
      {
        BalanceAppend(x, old(allEdges), fs, e, 1);
        if x != vert {
          assert x in old(nodes) && x.excess == old(x.excess);
          assert old(x.excess) == Balance(x, old(allEdges), fs);
        }
      }
    }

    /** The values setup gives after one pass of setupSourceSide. */
    twostate lemma SourceValuesStep(new e: Edge)
      requires old(BuiltValues()) && source.id == SourceId && old(friend in nodes)
      requires SourceRegistered(e) && SourceListed(e) && SourceValued(e)
      ensures BuiltValues()
    {
      var vert := e.finish;
      assert vert != source;
      assert e !in old(allEdges);
      forall x | x in nodes
        ensures x.height == 0
      {
        if x in old(nodes) {
          assert old(x.height) == 0;
        }
      }
    }
    /** setupSinkSide (lines 148-159): as the source writes it, the edge into the sink goes into the source's list, not the sink's. */
    method SetupSinkSide(ghost lvDone: seq<int>, ids: seq<int>)
      requires Built(lvDone, [], [])
      requires SetFacts.Distinct(ids) && SourceId !in ids && SinkId !in ids && forall id :: id in ids ==> id !in lvDone
      modifies this`nodes, this`allEdges, this`position, this`RV, registry`idToVertex, source`edges, friend`edges
      ensures Built(lvDone, ids, []) && unchanged(source`excess)
      ensures fresh(nodes - old(nodes))
    {
      hide Built;
      for i := 0 to |ids|
        invariant Built(lvDone, ids[..i], []) && unchanged(source`excess)
        invariant fresh(nodes - old(nodes))
      {
        assert ids[..i + 1] == ids[..i] + [ids[i]];
        AddToSinkSide(lvDone, ids[..i], ids[i]);
      }
      assert ids[..|ids|] == ids;
    }

    /** One pass of setupSinkSide's loop: the vertex of id joins RV, and the edge from it to the sink, with flow 0, goes into its list and the source's. */
    method AddToSinkSide(ghost lvDone: seq<int>, ghost rvDone: seq<int>, id: int)
      requires Built(lvDone, rvDone, [])
      requires id !in lvDone && id !in rvDone && id != SourceId && id != SinkId
      modifies this`nodes, this`allEdges, this`position, this`RV, registry`idToVertex, source`edges, friend`edges
      ensures Built(lvDone, rvDone + [id], []) && unchanged(source`excess)
      ensures fresh(nodes - old(nodes))
    {
      hide Built;
      FreeOrFriend(lvDone, rvDone, id);
      var vert := registry.VertexFromId(id);
      var e := LinkToSink(vert);
      SinkStep(e);
    }

    /** The body of setupSinkSide's loop once the vertex is found: the edge to the sink, in the source's list and the vertex's. */
    method LinkToSink(vert: Vertex) returns (e: Edge)
      requires vert != source
      modifies this`nodes, this`allEdges, this`position, this`RV, source`edges, vert`edges
      ensures fresh(e) && e.start == vert && e.finish == sink && e.flow == 0 && !e.inMatch
      ensures RV == old(RV) + [vert] && nodes == old(nodes) + {vert}
      ensures allEdges == old(allEdges) + [e] && position == old(position)[e := |old(allEdges)|]
      ensures source.edges == old(source.edges) + [e] && vert.edges == old(vert.edges) + [e]
    {
      RV := RV + [vert];
      nodes := nodes + {vert};
      e := new Edge(vert, sink, 0);
      position := position[e := |allEdges|];
      allEdges := allEdges + [e];
      source.AddToEdges(e);
      vert.AddToEdges(e);
    }

    /**
     * What one pass of setupSinkSide's loop changes: e is new, from a vertex new to the sides
     * (the friend, or a fresh vertex) to the sink, with flow 0; the vertex is registered
     * under its id and joins RV and nodes; e joins the edges, the source's list and the
     * vertex's; nothing else changes.
     */
    twostate predicate SinkLinked(new e: Edge)
      reads *
    {
      SinkRegistered(e) && SinkListed(e) && SinkValued(e)
    }

    /** SinkLinked's part on the vertices: the registry, nodes and the sides. */
    twostate predicate SinkRegistered(new e: Edge)
      reads *
    {
      fresh(e) && e.finish == sink &&
      e.start.id !in old(Ids(LV)) && e.start.id !in old(Ids(RV)) && e.start.id != SourceId && e.start.id != SinkId &&
      (e.start == friend || fresh(e.start)) &&
      (e.start.id in old(registry.idToVertex) ==> old(registry.idToVertex)[e.start.id] == e.start) &&
      registry.idToVertex == old(registry.idToVertex)[e.start.id := e.start] &&
      RV == old(RV) + [e.start] && nodes == old(nodes) + {e.start} && LV == old(LV) && V == old(V)
    }

    /** SinkLinked's part on the edges and the lists. */
    twostate predicate SinkListed(new e: Edge)
      reads *
    {
      allEdges == old(allEdges) + [e] && position == old(position)[e := |old(allEdges)|] &&
      source.edges == old(source.edges) + [e] &&
      (e.start == friend ==> friend.edges == old(friend.edges) + [e]) &&
      (e.start != friend ==> e.start.edges == [e]) &&
      unchanged((old(nodes) - {source, e.start})`edges)
    }

    /** SinkLinked's part on flows, excesses and heights. */
    twostate predicate SinkValued(new e: Edge)
      reads *
    {
      e.flow == 0 && !e.inMatch && (e.start != friend ==> e.start.excess == 0 && e.start.height == 0) &&
      unchanged(old(nodes)`excess, old(nodes)`height) &&
      unchanged(old(allEdges)`flow, old(allEdges)`inMatch)
    }

    /** What one pass of setupSinkSide's loop changes keeps Built, with the new vertex's id added to the sink side. */
    twostate lemma SinkStep(new e: Edge)
      ensures old(Built(Ids(LV), Ids(RV), [])) && SinkLinked(e) && unchanged(this`E) ==>
        Built(old(Ids(LV)), old(Ids(RV)) + [e.start.id], [])
    {
      if !(old(Built(Ids(LV), Ids(RV), [])) && SinkLinked(e) && unchanged(this`E)) {
        return;
      }
      SinkNodesStep(e);
      SinkShapeStep(e);
      SinkFlowsStep(e);
      SinkExcessStep(e);
      SinkValuesStep(e);
    }

    /** The registered vertices and the sides after one pass of setupSinkSide. */
    twostate lemma SinkNodesStep(new e: Edge)
      requires old(BuiltNodes(Ids(LV), Ids(RV))) && SinkRegistered(e)
      ensures BuiltNodes(old(Ids(LV)), old(Ids(RV)) + [e.start.id])
    {
      var vert := e.start;
      assert vert != source && vert != sink;
      RegisterStep(vert);
      IdsAppend(old(RV), vert);
    }

    /** The shape of the network after one pass of setupSinkSide. */
    twostate lemma SinkShapeStep(new e: Edge)
      requires old(Shape()) && source.id == SourceId && sink.id == SinkId && old(friend in nodes) && old(sink in nodes)
      requires SinkRegistered(e) && SinkListed(e) && unchanged(this`E)
      ensures Shape()
    {
      var vert := e.start;
      assert vert != source && vert != sink;
      assert e !in old(allEdges);
      forall x | x in nodes
        ensures Listed(x)
      {
        if x in old(nodes) {
          assert old(Listed(x));
        }
      }
    }

    /** The flows after one pass of setupSinkSide. */
    twostate lemma SinkFlowsStep(new e: Edge)
      requires old(FlowsOk()) && SinkListed(e) && SinkValued(e)
      ensures FlowsOk()
    {
    }

    /** The excesses after one pass of setupSinkSide: e carries nothing, so no balance moves. */
    twostate lemma SinkExcessStep(new e: Edge)
      requires old(ExcessOk()) && old(Shape()) && source.id == SourceId && sink.id == SinkId && old(friend in nodes)
      requires SinkRegistered(e) && SinkListed(e) && SinkValued(e)
      ensures ExcessOk()
    {
      var vert := e.start;
      assert vert != source && vert != sink;
      ghost var fs := old(Flows(allEdges));
      assert Flows(allEdges) == fs + [0] by {
        assert allEdges[..|allEdges| - 1] == old(allEdges);
      }
      if vert != friend {
        BalanceUntouched(vert, old(allEdges), fs);
      }
      forall x | x in nodes && x != source && x != sink
        ensures x.excess == Balance(x, allEdges, Flows(allEdges))
      {
        BalanceAppend(x, old(allEdges), fs, e, 0);
      }
    }

    /** The values setup gives after one pass of setupSinkSide. */
    twostate lemma SinkValuesStep(new e: Edge)
      requires old(BuiltValues()) && source.id == SourceId && old(friend in nodes)
      requires SinkRegistered(e) && SinkListed(e) && SinkValued(e)
      ensures BuiltValues()
    {
      var vert := e.start;
      assert vert != source;
      assert e !in old(allEdges);
      assert vert !in LV by {
        if vert in LV {
          IdsMember(LV, vert);
        }
      }
    }
    /** setupNeighbors (lines 162-182): one edge per team, from its source-side member to its sink-side member, in both lists. */
    method SetupNeighbors(flippedSides: bool)
      requires InputOk(inst) && flippedSides == Flipped(inst)
      requires Built(MinSide(inst), MaxSide(inst), [])
      modifies this`E, this`allEdges, this`position, registry`idToVertex, nodes`edges
      ensures Built(MinSide(inst), MaxSide(inst), inst.teams) && unchanged(source`excess)
    {
      hide Built;
      SideChoice(inst);
      var teams := inst.teams;
      for i := 0 to |teams|
        invariant Built(MinSide(inst), MaxSide(inst), teams[..i]) && unchanged(source`excess)
      {
        assert teams[..i + 1] == teams[..i] + [teams[i]];
        assert Oriented(inst, teams[i]).0 in Members(MinSide(inst));
        AddTeam(MinSide(inst), MaxSide(inst), teams[..i], teams[i], flippedSides);
      }
      assert teams[..|teams|] == teams;
    }

    /** The two vertices of a team whose ids setup has entered: registered, one on each side. */
    lemma TeamEnds(lvDone: seq<int>, rvDone: seq<int>, teamsDone: seq<FlowNetwork.Team>, t: FlowNetwork.Team)
      requires Oriented(inst, t).0 in lvDone && Oriented(inst, t).1 in rvDone
      ensures Built(lvDone, rvDone, teamsDone) ==>
        registry.Valid() && Ids(LV) == lvDone && Ids(RV) == rvDone &&
        Oriented(inst, t).0 in registry.idToVertex && registry.idToVertex[Oriented(inst, t).0] in LV &&
        Oriented(inst, t).1 in registry.idToVertex && registry.idToVertex[Oriented(inst, t).1] in RV &&
        registry.idToVertex[Oriented(inst, t).0] in nodes && registry.idToVertex[Oriented(inst, t).1] in nodes
    {
      if !Built(lvDone, rvDone, teamsDone) {
        return;
      }
      var a := IdsHas(LV, Oriented(inst, t).0);
      var b := IdsHas(RV, Oriented(inst, t).1);
      assert LV[a] in nodes && RV[b] in nodes;
    }

    /** One pass of setupNeighbors' loop: the team's two vertices, found by id, share a new edge with no flow. */
    method AddTeam(ghost lvDone: seq<int>, ghost rvDone: seq<int>, ghost teamsDone: seq<FlowNetwork.Team>,
                   t: FlowNetwork.Team, flippedSides: bool)
      requires Built(lvDone, rvDone, teamsDone) && flippedSides == Flipped(inst)
      requires Oriented(inst, t).0 in lvDone && Oriented(inst, t).1 in rvDone && Oriented(inst, t).0 != Oriented(inst, t).1
      modifies this`E, this`allEdges, this`position, registry`idToVertex, nodes`edges
      ensures Built(lvDone, rvDone, teamsDone + [t]) && unchanged(source`excess)
    {
      hide Grown;
      TeamEnds(lvDone, rvDone, teamsDone, t);
      var (a, b) := if flippedSides then (t.1, t.0) else t;
      var u := registry.VertexFromId(a);
      var v := registry.VertexFromId(b);
      var e := LinkTeam(u, v, teamsDone, t);
    }

    /** The edge of a team with no flow yet, appended to E and to both ends' lists. */
    method LinkTeam(u: Vertex, v: Vertex, ghost teamsDone: seq<FlowNetwork.Team>, ghost t: FlowNetwork.Team)
      returns (e: Edge)
      requires u != v && u in LV && v in RV && (u.id, v.id) == Oriented(inst, t)
      modifies this`E, this`allEdges, this`position, u`edges, v`edges
      ensures fresh(e) && e.start == u && e.finish == v && e.flow == 0 && !e.inMatch
      ensures E == old(E) + [e] && allEdges == old(allEdges) + [e] && position == old(position)[e := |old(allEdges)|]
      ensures u.edges == old(u.edges) + [e] && v.edges == old(v.edges) + [e]
      ensures old(Grown(Ids(LV), Ids(RV))) ==> Grown(old(Ids(LV)), old(Ids(RV)))
      ensures old(TeamsBuilt(teamsDone)) ==> TeamsBuilt(teamsDone + [t])
    {
      hide Grown;
      e := new Edge(u, v, 0);
      E := E + [e];
      position := position[e := |allEdges|];
      allEdges := allEdges + [e];
      u.AddToEdges(e);
      v.AddToEdges(e);
      TeamStep(e);
    }

    /**
     * What one pass of setupNeighbors' loop changes: e is new, with no flow, from a vertex of
     * LV to a vertex of RV; it joins E, the edges and both ends' lists; nothing else changes.
     */
    twostate predicate TeamLinked(new e: Edge)
      reads *
    {
      var u, v := e.start, e.finish;
      fresh(e) && e.flow == 0 && !e.inMatch && u != v &&
      old(allocated(u)) && old(allocated(v)) && u in old(LV) && v in old(RV) &&
      E == old(E) + [e] && allEdges == old(allEdges) + [e] && position == old(position)[e := |old(allEdges)|] &&
      u.edges == old(u.edges) + [e] && v.edges == old(v.edges) + [e] &&
      nodes == old(nodes) && LV == old(LV) && RV == old(RV) && V == old(V) &&
      registry.idToVertex == old(registry.idToVertex) &&
      unchanged((old(nodes) - {e.start, e.finish})`edges, old(nodes)`excess, old(nodes)`height) &&
      unchanged(old(allEdges)`flow, old(allEdges)`inMatch)
    }

    /** What one pass of setupNeighbors' loop changes keeps the rest of Built. */
    twostate lemma TeamStep(new e: Edge)
      ensures old(Grown(Ids(LV), Ids(RV))) && TeamLinked(e) ==> Grown(old(Ids(LV)), old(Ids(RV)))
    {
      if !(old(Grown(Ids(LV), Ids(RV))) && TeamLinked(e)) {
        return;
      }
      TeamNodesStep(e);
      TeamShapeStep(e);
      TeamExcessStep(e);
      TeamValuesStep(e);
    }

    /** The vertices after one pass of setupNeighbors: none is added or moved. */
    twostate lemma TeamNodesStep(new e: Edge)
      requires old(BuiltNodes(Ids(LV), Ids(RV))) && TeamLinked(e)
      ensures BuiltNodes(old(Ids(LV)), old(Ids(RV)))
    {
    }

    /** The shape of the network after one pass of setupNeighbors. */
    twostate lemma TeamShapeStep(new e: Edge)
      requires old(Shape()) && old(BuiltNodes(Ids(LV), Ids(RV))) && TeamLinked(e)
      ensures Shape()
    {
      assert e !in old(allEdges);
      assert e.start != source && e.finish != source;
      forall x | x in nodes
        ensures Listed(x)
      {
        assert old(Listed(x));
      }
    }

    /** The excesses after one pass of setupNeighbors: e carries nothing, so no balance moves. */
    twostate lemma TeamExcessStep(new e: Edge)
      requires old(ExcessOk()) && TeamLinked(e)
      ensures ExcessOk()
    {
      ghost var fs := old(Flows(allEdges));
      assert Flows(allEdges) == fs + [0] by {
        assert allEdges[..|allEdges| - 1] == old(allEdges);
      }
      forall x | x in nodes && x != source && x != sink
        ensures x.excess == Balance(x, allEdges, Flows(allEdges))
      {
        BalanceAppend(x, old(allEdges), fs, e, 0);
      }
    }

    /** The values setup gives after one pass of setupNeighbors. */
    twostate lemma TeamValuesStep(new e: Edge)
      requires old(BuiltValues()) && old(BuiltNodes(Ids(LV), Ids(RV))) && TeamLinked(e)
      ensures BuiltValues()
    {
      assert e.start != source;
    }
    /**
     * biasForFriend (lines 184-196): for each edge of the friend, the vertex at its other end
     * moves it to the front of its own list when the edge runs into the friend, and to the
     * back otherwise.
     */
    method BiasForFriend()
      requires forall e :: e in friend.edges ==> e.GetNeighbor(friend) in nodes && e.GetNeighbor(friend) != friend
      modifies nodes`edges
      ensures forall x :: x in nodes ==> x.edges == BiasedList(friend, x, old(friend.edges), old(x.edges))
      ensures old(Valid()) ==> Valid()
    {
      Reorder();
      BiasedKept();
    }

    /** The loop of biasForFriend, which only reorders lists. */
    method Reorder()
      requires forall e :: e in friend.edges ==> e.GetNeighbor(friend) in nodes && e.GetNeighbor(friend) != friend
      modifies nodes`edges
      ensures forall x :: x in nodes ==> x.edges == BiasedList(friend, x, old(friend.edges), old(x.edges))
    {
      var edges := friend.edges;
      for i := 0 to |edges|
        invariant friend.edges == edges
        invariant forall x :: x in nodes ==> x.edges == BiasedList(friend, x, edges[..i], old(x.edges))
      {
        var e := edges[i];
        var v := e.GetNeighbor(friend);
        BiasOne(e, v);
        forall x | x in nodes
          ensures x.edges == BiasedList(friend, x, edges[..i + 1], old(x.edges))
        {
          BiasedListStep(friend, x, edges, i, old(x.edges));
        }
      }
      assert edges[..|edges|] == edges;
    }

    /** One pass of biasForFriend's loop. */
    method BiasOne(e: Edge, v: Vertex)
      modifies v`edges
      ensures v.edges == if e.FlowsInto(friend) then MoveToFront(old(v.edges), e) else MoveToBack(old(v.edges), e)
    {
      if e.FlowsInto(friend) {
        v.MoveToFrontOfEdges(e);
      } else {
        v.MoveToBackOfEdges(e);
      }
    }

    /** biasForFriend only reorders lists, and moves the friend's edges within the lists of their other ends: the invariant holds on. */
    twostate lemma BiasedKept()
      requires unchanged(this, registry)
      requires unchanged(nodes`excess, allEdges`flow, allEdges`inMatch)
      requires forall x :: x in nodes ==> x.edges == BiasedList(friend, x, old(friend.edges), old(x.edges))
      ensures old(Valid()) ==> Valid()
    {
      if !old(Valid()) {
        return;
      }
      assert old(Listed(friend)) && friend != source;
      forall x | x in nodes
        ensures Listed(x)
      {
        BiasedListMembers(friend, x, old(friend.edges), old(x.edges));
        assert old(Listed(x));
      }
      forall f | f in source.edges
        ensures f.start == source || f.finish == sink
      {
        BiasedListMembers(friend, source, old(friend.edges), old(source.edges));
      }
    }
  }
}
