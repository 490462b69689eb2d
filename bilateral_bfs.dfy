/**
 * The C++ solver (BilateralBFS.h, BilateralBFS.cpp): it builds the unit-capacity network,
 * seeds a greedy matching, augments along breadth-first paths until none is left, and turns
 * the maximum matching into the invitation list with König's construction from both sides.
 */
module BfsSolver {
  import opened Params
  import opened FlowEdge
  import opened EdgeTable
  import opened Vertices
  import opened Konig
  import opened SetFacts
  import opened FlowNetwork

  /** A table holding flow 0 on each of the given keys. */
  function ZeroFlows(K: set<Key>): (f: map<Key, int>)
    ensures f.Keys == K && forall k :: k in f ==> f[k] == 0
  {
    map k | k in K :: 0
  }

  lemma ZeroFlowsGrow(K: set<Key>, k: Key)
    ensures ZeroFlows(K + {k}) == ZeroFlows(K)[k := 0]
  {
  }

  /**
   * The seed loop's invariant once the left vertices in done are handled: the flow is a
   * matching whose left vertices are among those handled, a slot is marked exactly when its
   * vertex is matched, and every team of a handled left vertex has a matched member.
   */
  ghost predicate SeedInv(inst: Instance, f: map<Key, int>, marks: seq<bool>, done: seq<int>)
  {
    Inv(inst, f) && |marks| == MaxNumVertices &&
    (forall l :: l in MatchedL(inst, f) ==> l in done) &&
    (forall k :: 0 <= k < |marks| ==> (marks[k] <==> k + IdIdxDifference in Matches(inst, f))) &&
    (forall t :: t in inst.teams && t.0 in done ==> t.0 in MatchedL(inst, f) || t.1 in MatchedR(inst, f))
  }

  /** The seed loop passes over neighbour x of u: x is the source, already matched, or joined to u by flow. */
  ghost predicate Taken(inst: Instance, f: map<Key, int>, u: int, x: int)
  {
    x == SourceId || x in MatchedR(inst, f) || Flow(f, u, x) != 0
  }

  /** Before the seed matches them, a handled-next left vertex and an unmarked partner are free. */
  lemma MarkedIsMatchedSlot(inst: Instance, f: map<Key, int>, marks: seq<bool>, done: seq<int>, u: int, v: int)
    requires WellFormed(inst) && SeedInv(inst, f, marks, done) && u in inst.lv && u !in done && IsTeam(inst, u, v)
    requires 0 <= IdxOf(v) < |marks| && !marks[IdxOf(v)]
    ensures u !in MatchedL(inst, f) && v !in MatchedR(inst, f) && 0 <= IdxOf(u) < |marks|
  {
    assert IdxOf(v) + IdIdxDifference == v;
  }

  /** The seed loop skips a neighbour only when it is taken. */
  lemma SkippedIsTaken(inst: Instance, f: map<Key, int>, marks: seq<bool>, done: seq<int>, u: int, v: int)
    requires WellFormed(inst) && SeedInv(inst, f, marks, done) && u in inst.lv && v in NetNeighbors(inst, u)
    requires v != SourceId ==> 0 <= IdxOf(v) < |marks|
    requires !(v != SourceId && !marks[IdxOf(v)] && Flow(f, u, v) == 0)
    ensures Taken(inst, f, u, v)
  {
    LeftNeighbors(inst, u, v);
    if v != SourceId && marks[IdxOf(v)] {
      MarkedRightIsMatched(inst, f, marks, done, v);
    }
  }

  /** A marked right vertex is matched. */
  lemma MarkedRightIsMatched(inst: Instance, f: map<Key, int>, marks: seq<bool>, done: seq<int>, v: int)
    requires WellFormed(inst) && SeedInv(inst, f, marks, done) && v in inst.rv
    requires 0 <= IdxOf(v) < |marks| && marks[IdxOf(v)]
    ensures v in MatchedR(inst, f)
  {
    assert IdxOf(v) + IdIdxDifference == v;
    assert v !in inst.lv;
  }

  /**
   * One greedy match keeps the seed loop's invariant: the matched left vertices are among
   * those handled, a slot is marked exactly when its vertex is matched, and every team of a
   * handled left vertex has a matched member.
   */
  lemma GreedyInvariant(inst: Instance, f0: map<Key, int>, f1: map<Key, int>, seen: seq<bool>, now: seq<bool>,
                        done: seq<int>, u: int, v: int)
    requires SeedInv(inst, f0, seen, done) && Inv(inst, f1)
    requires 0 <= IdxOf(u) < |seen| && 0 <= IdxOf(v) < |seen|
    requires now == seen[IdxOf(u) := true][IdxOf(v) := true]
    requires MatchedL(inst, f1) == MatchedL(inst, f0) + {u} && MatchedR(inst, f1) == MatchedR(inst, f0) + {v}
    ensures SeedInv(inst, f1, now, done + [u])
  {
    MarksStep(seen, now, Matches(inst, f0), Matches(inst, f1), u, v);
  }

  /** Marking the slots of two newly matched vertices keeps the marks in step with the matched set. */
  lemma MarksStep(seen: seq<bool>, now: seq<bool>, M0: set<int>, M1: set<int>, u: int, v: int)
    requires forall k :: 0 <= k < |seen| ==> (seen[k] <==> k + IdIdxDifference in M0)
    requires 0 <= IdxOf(u) < |seen| && 0 <= IdxOf(v) < |seen|
    requires now == seen[IdxOf(u) := true][IdxOf(v) := true] && M1 == M0 + {u, v}
    ensures forall k :: 0 <= k < |now| ==> (now[k] <==> k + IdIdxDifference in M1)
  {
    forall k | 0 <= k < |now|
      ensures now[k] <==> k + IdIdxDifference in M1
    {
      if k == IdxOf(u) || k == IdxOf(v) {
      } else {
        assert now[k] == seen[k];
      }
    }
  }

  /** isSpecialVertexId: only the source and the sink have ids above the employee range. */
  predicate IsSpecialVertexId(id: int)
  {
    id > MaxNormalId
  }

  // ---------------------------------------------------------------------------------------
  // The breadth-first search tree

  /** Following prev from each vertex after the first steps back to the one before it. */
  ghost predicate PrevFollows(prevs: seq<int>, p: seq<int>)
  {
    forall i :: 0 < i < |p| ==> 0 <= IdxOf(p[i]) < |prevs| && prevs[IdxOf(p[i])] == IdxOf(p[i - 1])
  }

  /**
   * The vertices the search has reached, in the order it queued them, form a tree rooted at
   * the source: each later vertex was reached from an earlier one (its parent) along a
   * residual edge, and prev records that parent's slot.
   */
  ghost predicate TreeOk(inst: Instance, f: map<Key, int>, order: seq<int>, parent: seq<int>, prevs: seq<int>)
  {
    |order| == |parent| >= 1 && order[0] == SourceId && Distinct(order) &&
    forall m {:trigger parent[m]} :: 0 < m < |order| ==>
      0 <= parent[m] < m && order[m] in NetNeighbors(inst, order[parent[m]]) &&
      ResidualCapacity(f, order[parent[m]], order[m]) > 0 &&
      0 <= IdxOf(order[m]) < |prevs| && prevs[IdxOf(order[m])] == IdxOf(order[parent[m]])
  }

  /**
   * The queue positions on the tree path to position m: they start at the source's position 0,
   * each is the parent of the next, and they increase along the path.
   */
  lemma {:induction false} TreePositions(parent: seq<int>, m: int) returns (pos: seq<int>)
    requires forall k {:trigger parent[k]} :: 0 < k < |parent| ==> 0 <= parent[k] < k
    requires 0 <= m < |parent|
    ensures |pos| >= 1 && pos[0] == 0 && pos[|pos| - 1] == m
    ensures forall i :: 0 <= i < |pos| ==> 0 <= pos[i] < |parent|
    ensures forall i {:trigger pos[i]} :: 0 < i < |pos| ==> 0 < pos[i] && pos[i - 1] == parent[pos[i]]
    ensures forall i, j :: 0 <= i < j < |pos| ==> pos[i] < pos[j]
    decreases m
  {
    if m == 0 {
      pos := [0];
    } else {
      var q := TreePositions(parent, parent[m]);
      pos := q + [m];
      forall i | 0 <= i < |q|
        ensures pos[i] == q[i] && pos[i] <= parent[m]
      {
        if i < |q| - 1 {
          assert q[i] < q[|q| - 1];
        }
      }
    }
  }

  /**
   * The tree path to the m-th queued vertex: it starts at the source, follows residual edges
   * that prev records, and visits queued vertices at increasing queue positions.
   */
  lemma TreePathTo(inst: Instance, f: map<Key, int>, order: seq<int>, parent: seq<int>, prevs: seq<int>, m: int)
      returns (p: seq<int>, pos: seq<int>)
    requires TreeOk(inst, f, order, parent, prevs) && 0 <= m < |order|
    ensures |p| == |pos| >= 1 && p[0] == SourceId && p[|p| - 1] == order[m] && pos[|pos| - 1] == m
    ensures forall i :: 0 <= i < |p| ==> 0 <= pos[i] < |order| && p[i] == order[pos[i]]
    ensures forall i, j :: 0 <= i < j < |pos| ==> pos[i] < pos[j]
    ensures forall i :: 0 <= i < |p| - 1 ==>
      p[i + 1] in NetNeighbors(inst, p[i]) && ResidualCapacity(f, p[i], p[i + 1]) > 0
    ensures PrevFollows(prevs, p)
  {
    pos := TreePositions(parent, m);
    p := Pick(order, pos);
    TreeHops(inst, f, order, parent, prevs, pos, p);
    TreePrevs(inst, f, order, parent, prevs, pos, p);
  }

  /** The entries of s at the given positions. */
  function Pick(s: seq<int>, pos: seq<int>): (r: seq<int>)
    requires forall i :: 0 <= i < |pos| ==> 0 <= pos[i] < |s|
    ensures |r| == |pos| && forall i :: 0 <= i < |pos| ==> r[i] == s[pos[i]]
  {
    if pos == [] then [] else [s[pos[0]]] + Pick(s, pos[1..])
  }

  /** Each step of a tree path runs along a residual edge of the network. */
  lemma TreeHops(inst: Instance, f: map<Key, int>, order: seq<int>, parent: seq<int>, prevs: seq<int>,
                 pos: seq<int>, p: seq<int>)
    requires TreeOk(inst, f, order, parent, prevs)
    requires |p| == |pos| && forall i :: 0 <= i < |pos| ==> 0 <= pos[i] < |order| && p[i] == order[pos[i]]
    requires forall i {:trigger pos[i]} :: 0 < i < |pos| ==> 0 < pos[i] && pos[i - 1] == parent[pos[i]]
    ensures forall i :: 0 <= i < |p| - 1 ==>
      p[i + 1] in NetNeighbors(inst, p[i]) && ResidualCapacity(f, p[i], p[i + 1]) > 0
  {
    forall i | 0 <= i < |p| - 1
      ensures p[i + 1] in NetNeighbors(inst, p[i]) && ResidualCapacity(f, p[i], p[i + 1]) > 0
    {
      var m := pos[i + 1];
      assert p[i] == order[parent[m]] && p[i + 1] == order[m];
    }
  }

  /** Each step of a tree path is recorded in prev. */
  lemma TreePrevs(inst: Instance, f: map<Key, int>, order: seq<int>, parent: seq<int>, prevs: seq<int>,
                  pos: seq<int>, p: seq<int>)
    requires TreeOk(inst, f, order, parent, prevs)
    requires |p| == |pos| && forall i :: 0 <= i < |pos| ==> 0 <= pos[i] < |order| && p[i] == order[pos[i]]
    requires forall i {:trigger pos[i]} :: 0 < i < |pos| ==> 0 < pos[i] && pos[i - 1] == parent[pos[i]]
    ensures PrevFollows(prevs, p)
  {
    forall i | 0 < i < |p|
      ensures 0 <= IdxOf(p[i]) < |prevs| && prevs[IdxOf(p[i])] == IdxOf(p[i - 1])
    {
      var m := pos[i];
      assert p[i - 1] == order[parent[m]] && p[i] == order[m];
    }
  }

  /** The tree path to the sink is a residual path that prev records. */
  lemma TreePathToSink(inst: Instance, f: map<Key, int>, order: seq<int>, parent: seq<int>, prevs: seq<int>)
      returns (p: seq<int>)
    requires TreeOk(inst, f, order, parent, prevs) && order[|order| - 1] == SinkId
    ensures ResidualPath(inst, f, p) && PrevFollows(prevs, p)
  {
    var pos;
    p, pos := TreePathTo(inst, f, order, parent, prevs, |order| - 1);
    forall i, j | 0 <= i < j < |p|
      ensures p[i] != p[j]
    {
      assert pos[i] < pos[j];
    }
  }

  /**
   * The search's state with head vertices dequeued: a tree of queued network vertices, a slot
   * marked exactly when its vertex is queued, and every residual edge out of a dequeued vertex
   * leading to a queued one.
   */
  ghost predicate Searching(inst: Instance, f: map<Key, int>, order: seq<int>, parent: seq<int>, prevs: seq<int>,
                            marks: seq<bool>, head: int)
  {
    0 <= head <= |order| && TreeOk(inst, f, order, parent, prevs) && |marks| == MaxNumVertices &&
    (forall m :: 0 <= m < |order| ==> order[m] in NetIds(inst)) &&
    (forall k :: 0 <= k < |marks| ==> (marks[k] <==> k + IdIdxDifference in order)) &&
    (forall m, y :: 0 <= m < head && y in NetNeighbors(inst, order[m]) && ResidualCapacity(f, order[m], y) > 0
       ==> y in order)
  }

  /** The search starts with only the source queued and marked. */
  lemma SearchStarts(inst: Instance, f: map<Key, int>, prevs: seq<int>, marks: seq<bool>)
    requires |marks| == MaxNumVertices && forall k :: 0 <= k < |marks| ==> (marks[k] <==> k == IdxOf(SourceId))
    ensures Searching(inst, f, [SourceId], [0], prevs, marks, 0)
  {
  }

  /** Queueing an unmarked residual neighbour of the vertex at the head grows the tree. */
  lemma Enqueue(inst: Instance, f: map<Key, int>, order: seq<int>, parent: seq<int>, prevs: seq<int>,
                marks: seq<bool>, head: int, v: int)
    requires WellFormed(inst) && Searching(inst, f, order, parent, prevs, marks, head) && head < |order|
    requires v in NetNeighbors(inst, order[head]) && ResidualCapacity(f, order[head], v) > 0
    requires 0 <= IdxOf(v) < |marks| && !marks[IdxOf(v)] && |prevs| == |marks|
    ensures v !in order
    ensures Searching(inst, f, order + [v], parent + [head], prevs[IdxOf(v) := IdxOf(order[head])],
                      marks[IdxOf(v) := true], head)
  {
    NeighborsAreVertices(inst, order[head], v);
    assert IdxOf(v) + IdIdxDifference == v;
    TreeGrows(inst, f, order, parent, prevs, head, v);
    var order', marks' := order + [v], marks[IdxOf(v) := true];
    forall k | 0 <= k < |marks'|
      ensures marks'[k] <==> k + IdIdxDifference in order'
    {
      if k != IdxOf(v) {
        assert marks'[k] == marks[k];
      }
    }
  }

  /** Adding a vertex not yet in the tree, reached from a tree vertex along a residual edge. */
  lemma TreeGrows(inst: Instance, f: map<Key, int>, order: seq<int>, parent: seq<int>, prevs: seq<int>, h: int, v: int)
    requires TreeOk(inst, f, order, parent, prevs) && 0 <= h < |order| && v !in order
    requires v in NetNeighbors(inst, order[h]) && ResidualCapacity(f, order[h], v) > 0 && 0 <= IdxOf(v) < |prevs|
    ensures TreeOk(inst, f, order + [v], parent + [h], prevs[IdxOf(v) := IdxOf(order[h])])
  {
    var order', parent', prevs' := order + [v], parent + [h], prevs[IdxOf(v) := IdxOf(order[h])];
    forall m | 0 < m < |order'|
      ensures 0 <= parent'[m] < m && order'[m] in NetNeighbors(inst, order'[parent'[m]])
      ensures ResidualCapacity(f, order'[parent'[m]], order'[m]) > 0
      ensures 0 <= IdxOf(order'[m]) < |prevs'| && prevs'[IdxOf(order'[m])] == IdxOf(order'[parent'[m]])
    {
      if m < |order| {
        assert order[m] != v;
        assert order'[m] == order[m] && parent'[m] == parent[m] && order'[parent[m]] == order[parent[m]];
      }
    }
  }

  /** A marked vertex is queued. */
  lemma MarkedIsQueued(inst: Instance, f: map<Key, int>, order: seq<int>, parent: seq<int>, prevs: seq<int>,
                       marks: seq<bool>, head: int, v: int)
    requires Searching(inst, f, order, parent, prevs, marks, head)
    requires 0 <= IdxOf(v) < |marks| && marks[IdxOf(v)]
    ensures v in order
  {
    assert IdxOf(v) + IdIdxDifference == v;
  }

  /** The queue is the part of order not yet dequeued; pushing and popping keep it so. */
  lemma QueueGrows(order: seq<int>, head: int, v: int)
    requires 0 <= head <= |order|
    ensures (order + [v])[head..] == order[head..] + [v]
  {
  }

  lemma QueueShrinks(order: seq<int>, head: int)
    requires 0 <= head < |order|
    ensures order[head..][1..] == order[head + 1..] && order[head..][0] == order[head]
  {
  }

  lemma PrefixStep(s: seq<int>, j: int)
    requires 0 <= j <= |s|
    ensures j < |s| ==> s[..j + 1] == s[..j] + [s[j]]
    ensures j == |s| ==> s[..j] == s
  {
  }

  lemma NotInAppend(s: seq<int>, v: int, x: int)
    requires x !in s && x != v
    ensures x !in s + [v]
  {
  }

  /** Each residual edge from u to one of ns leads to a queued vertex. */
  ghost predicate HeadDone(inst: Instance, f: map<Key, int>, u: int, ns: seq<int>, order: seq<int>)
  {
    forall y :: y in ns && ResidualCapacity(f, u, y) > 0 ==> y in order
  }

  lemma HeadDoneStep(inst: Instance, f: map<Key, int>, u: int, ns: seq<int>, v: int, order: seq<int>, order': seq<int>)
    requires HeadDone(inst, f, u, ns, order) && |order| <= |order'| && order'[..|order|] == order
    requires ResidualCapacity(f, u, v) > 0 ==> v in order'
    ensures HeadDone(inst, f, u, ns + [v], order')
  {
    forall y | y in ns + [v] && ResidualCapacity(f, u, y) > 0
      ensures y in order'
    {
      if y != v {
        assert y in order;
        var m :| 0 <= m < |order| && order[m] == y;
        assert order'[m] == y;
      }
    }
  }

  /** Once every residual neighbour of the head is queued, the head can be dequeued. */
  lemma SearchMoves(inst: Instance, f: map<Key, int>, order: seq<int>, parent: seq<int>, prevs: seq<int>,
                    marks: seq<bool>, head: int)
    requires WellFormed(inst) && Searching(inst, f, order, parent, prevs, marks, head) && head < |order|
    requires HeadDone(inst, f, order[head], NetNeighbors(inst, order[head]), order)
    ensures Searching(inst, f, order, parent, prevs, marks, head + 1)
  {
  }

  /** With the queue empty, the queued vertices are closed under residual edges. */
  lemma SearchEnds(inst: Instance, f: map<Key, int>, order: seq<int>, parent: seq<int>, prevs: seq<int>, marks: seq<bool>)
    requires Searching(inst, f, order, parent, prevs, marks, |order|) && SinkId !in order
    ensures ResidualClosed(inst, f, set x | x in order)
  {
  }

  // ---------------------------------------------------------------------------------------
  // Walking the path back from the sink

  /** Every vertex of a residual path is a vertex of the network, with a slot in the arrays. */
  lemma PathInNetwork(inst: Instance, f: map<Key, int>, p: seq<int>)
    requires WellFormed(inst) && ResidualPath(inst, f, p)
    ensures forall i :: 0 <= i < |p| ==> p[i] in NetIds(inst) && 0 <= IdxOf(p[i]) < MaxNumVertices
  {
    forall i | 0 <= i < |p|
      ensures p[i] in NetIds(inst) && 0 <= IdxOf(p[i]) < MaxNumVertices
    {
      if i > 0 {
        NeighborsAreVertices(inst, p[i - 1], p[i]);
      }
    }
  }

  /** Before any hop is flipped, the table is as the search left it. */
  lemma NoHopsFlipped(f: map<Key, int>, p: seq<int>)
    requires |p| >= 1
    ensures FlipKeys(f, HopKeys(p[|p| - 1..])) == f
  {
    assert HopKeys(p[|p| - 1..]) == {};
  }

  /**
   * Flipping the stored edge of the hop into position j (with the hops after it already
   * flipped) flips one more key of the path.
   */
  lemma FlipHop(f: map<Key, int>, p: seq<int>, j: int)
    requires Distinct(p) && 1 <= j < |p| && HopKeys(p) <= f.Keys
    ensures Hop(p, j - 1) in FlipKeys(f, HopKeys(p[j..]))
    ensures FlipKeys(f, HopKeys(p[j..]))[Hop(p, j - 1) := Flipped(FlipKeys(f, HopKeys(p[j..]))[Hop(p, j - 1)])] ==
      FlipKeys(f, HopKeys(p[j - 1..]))
  {
    HopKeysStep(p, j);
    assert Hop(p, j - 1) in HopKeys(p);
    FlipOneMore(f, HopKeys(p[j..]), Hop(p, j - 1));
  }

  // ---------------------------------------------------------------------------------------
  // Reading the matching off the flow (computeMatchset)

  /** The right vertices matched to u. */
  ghost function Mates(inst: Instance, f: map<Key, int>, u: int): set<int>
  {
    set r | r in inst.rv && MatchedPair(inst, f, u, r)
  }

  /** The matched left vertices among those in done. */
  ghost function MatchedAmong(inst: Instance, f: map<Key, int>, done: seq<int>): set<int>
  {
    set l | l in done && l in MatchedL(inst, f)
  }

  /** A matched left vertex has exactly one mate, a free one none. */
  lemma MatesOfLeft(inst: Instance, f: map<Key, int>, u: int)
    requires WellFormed(inst) && Inv(inst, f) && u in inst.lv
    ensures u in MatchedL(inst, f) ==> |Mates(inst, f, u)| == 1
    ensures u !in MatchedL(inst, f) ==> Mates(inst, f, u) == {}
  {
    if u in MatchedL(inst, f) {
      var r :| MatchedPair(inst, f, u, r);
      assert r in inst.rv;
      assert Mates(inst, f, u) == {r};
    } else {
      forall r | r in inst.rv
        ensures !MatchedPair(inst, f, u, r)
      {
      }
    }
  }

  /** The neighbours of a left vertex with flow on their edge are its mates. */
  lemma HitsAreMates(inst: Instance, f: map<Key, int>, u: int, hits: set<int>)
    requires WellFormed(inst) && Inv(inst, f) && u in inst.lv
    requires forall r :: r in hits <==> r in NetNeighbors(inst, u) && r != SourceId && Flow(f, u, r) > 0
    ensures hits == Mates(inst, f, u)
  {
    KeyFacts(inst, f);
    forall r | r in hits
      ensures r in Mates(inst, f, u)
    {
      LeftNeighbors(inst, u, r);
      assert KeyVal(u, r) in f;
    }
    forall r | r in Mates(inst, f, u)
      ensures r in hits
    {
      LeftNeighbors(inst, u, r);
    }
  }

  /** Handling one more left vertex adds one to the count exactly when it is matched. */
  lemma MatchedAmongStep(inst: Instance, f: map<Key, int>, done: seq<int>, u: int)
    requires WellFormed(inst) && Inv(inst, f) && u in inst.lv && u !in done
    ensures |MatchedAmong(inst, f, done + [u])| == |MatchedAmong(inst, f, done)| + |Mates(inst, f, u)|
  {
    MatesOfLeft(inst, f, u);
    if u in MatchedL(inst, f) {
      assert MatchedAmong(inst, f, done + [u]) == MatchedAmong(inst, f, done) + {u};
    } else {
      assert MatchedAmong(inst, f, done + [u]) == MatchedAmong(inst, f, done);
    }
  }

  /** Flow on the edge from a left vertex to a partner means the two are matched to each other. */
  lemma TeamFlowMatches(inst: Instance, f: map<Key, int>, u: int, r: int)
    requires WellFormed(inst) && Inv(inst, f) && u in inst.lv
    requires r in NetNeighbors(inst, u) && r != SourceId && Flow(f, u, r) > 0
    ensures MatchedPair(inst, f, u, r) && u in MatchedL(inst, f) && r in MatchedR(inst, f)
  {
    LeftNeighbors(inst, u, r);
    assert (u, r) in inst.teams;
    assert KeyVal(u, r) in Keys(inst);
    assert MatchedPair(inst, f, u, r);
    assert r in inst.rv;
  }

  /** What computeMatchset has gathered after the left vertices in done: m and the count n. */
  ghost predicate Collected(inst: Instance, f: map<Key, int>, m0: set<int>, done: seq<int>, m: set<int>, n: int)
  {
    m0 <= m <= m0 + Matches(inst, f) &&
    MatchedAmong(inst, f, done) <= m &&
    (forall l, r :: l in done && MatchedPair(inst, f, l, r) ==> r in m) &&
    n == |MatchedAmong(inst, f, done)|
  }

  /** Adding the mates of one more left vertex u, and u itself when it has one, extends what is gathered. */
  lemma CollectedStep(inst: Instance, f: map<Key, int>, m0: set<int>, done: seq<int>, u: int,
                      m: set<int>, m': set<int>, n: int, count: int)
    requires WellFormed(inst) && Inv(inst, f) && u in inst.lv && u !in done
    requires Collected(inst, f, m0, done, m, n)
    requires m <= m' <= m0 + Matches(inst, f)
    requires Mates(inst, f, u) <= m' && (Mates(inst, f, u) != {} ==> u in m')
    requires count == |Mates(inst, f, u)|
    ensures Collected(inst, f, m0, done + [u], m', n + count)
  {
    MatchedAmongStep(inst, f, done, u);
    MatesOfLeft(inst, f, u);
    forall l, r | l in done + [u] && MatchedPair(inst, f, l, r)
      ensures r in m'
    {
      if l == u {
        assert r in Mates(inst, f, u);
      }
    }
  }

  /** After every left vertex is handled, the collected vertices are the matched ones. */
  lemma MatchsetComplete(inst: Instance, f: map<Key, int>, m0: set<int>, m: set<int>)
    requires WellFormed(inst) && Inv(inst, f)
    requires m0 <= m <= m0 + Matches(inst, f)
    requires MatchedAmong(inst, f, inst.lv) <= m
    requires forall l, r :: l in inst.lv && MatchedPair(inst, f, l, r) ==> r in m
    ensures m == m0 + Matches(inst, f)
    ensures MatchedAmong(inst, f, inst.lv) == MatchedL(inst, f)
  {
    forall r | r in MatchedR(inst, f)
      ensures r in m
    {
      var l :| MatchedPair(inst, f, l, r);
    }
  }

  // ---------------------------------------------------------------------------------------
  // The registry during setup

  function PhaseSlots(lvDone: seq<int>, rvDone: seq<int>): set<int>
  {
    set x | x in PhaseIds(lvDone, rvDone) :: IdxOf(x)
  }

  /** The registry's records once setup has handled lvDone, rvDone and teamsDone. */
  function PhasePool(lvDone: seq<int>, rvDone: seq<int>, teamsDone: seq<Team>): map<int, Vertex>
  {
    map idx | idx in PhaseSlots(lvDone, rvDone) ::
      Vertex(idx + IdIdxDifference, PhaseNeighbors(lvDone, rvDone, teamsDone, idx + IdIdxDifference))
  }

  lemma PhasePoolFacts(lvDone: seq<int>, rvDone: seq<int>, teamsDone: seq<Team>)
    ensures forall x :: IdxOf(x) in PhasePool(lvDone, rvDone, teamsDone) <==> x in PhaseIds(lvDone, rvDone)
    ensures forall x :: x in PhaseIds(lvDone, rvDone) ==>
      PhasePool(lvDone, rvDone, teamsDone)[IdxOf(x)] == Vertex(x, PhaseNeighbors(lvDone, rvDone, teamsDone, x))
    ensures forall idx :: idx in PhasePool(lvDone, rvDone, teamsDone) ==> PhasePool(lvDone, rvDone, teamsDone)[idx].GetIdx() == idx
  {
    forall x | x in PhaseIds(lvDone, rvDone)
      ensures IdxOf(x) in PhaseSlots(lvDone, rvDone)
    {
    }
  }

  /** Before setup the registry holds the source, the sink and the friend, with no neighbours. */
  lemma InitialPool()
    ensures PhasePool([], [], []) ==
      map[IdxOf(SourceId) := Vertex(SourceId, []), IdxOf(SinkId) := Vertex(SinkId, []), IdxOf(FriendId) := Vertex(FriendId, [])]
  {
    PhasePoolFacts([], [], []);
    assert PhaseIds([], []) == {SourceId, SinkId, FriendId};
    assert PhaseSlots([], []) == {IdxOf(SourceId), IdxOf(SinkId), IdxOf(FriendId)};
  }

  /** Registering a left id: it gets the source as its neighbour, and the source gets it. */
  lemma SourceStepPool(lvDone: seq<int>, id: int)
    requires id !in lvDone && id != SourceId && id != SinkId
    ensures PhasePool(lvDone + [id], [], []) ==
      PhasePool(lvDone, [], [])[IdxOf(id) := Vertex(id, [])][IdxOf(SourceId) := Vertex(SourceId, lvDone + [id])]
        [IdxOf(id) := Vertex(id, [SourceId])]
  {
    var A, P := PhasePool(lvDone + [id], [], []), PhasePool(lvDone, [], []);
    var B := P[IdxOf(id) := Vertex(id, [])][IdxOf(SourceId) := Vertex(SourceId, lvDone + [id])][IdxOf(id) := Vertex(id, [SourceId])];
    PhasePoolFacts(lvDone, [], []);
    PhasePoolFacts(lvDone + [id], [], []);
    assert PhaseIds(lvDone + [id], []) == PhaseIds(lvDone, []) + {id};
    forall idx | idx in A
      ensures idx in B && A[idx] == B[idx]
    {
      var x := idx + IdIdxDifference;
      assert IdxOf(x) == idx;
      if x == id {
        assert A[idx] == Vertex(id, PhaseNeighbors(lvDone + [id], [], [], id));
        assert PhaseNeighbors(lvDone + [id], [], [], id) == [SourceId];
      } else if x == SourceId {
        assert A[idx] == Vertex(SourceId, lvDone + [id]);
      } else {
        assert A[idx] == Vertex(x, PhaseNeighbors(lvDone + [id], [], [], x));
        assert P[idx] == Vertex(x, PhaseNeighbors(lvDone, [], [], x));
        assert x in lvDone + [id] <==> x in lvDone;
      }
    }
    forall idx | idx in B
      ensures idx in A
    {
      var x := idx + IdIdxDifference;
      assert IdxOf(x) == idx;
    }
  }

  /** Registering a right id: it gets the sink as its neighbour, and the sink gets it. */
  lemma SinkStepPool(lvDone: seq<int>, rvDone: seq<int>, id: int)
    requires id !in lvDone && id !in rvDone && id != SourceId && id != SinkId && id != FriendId
    ensures PhasePool(lvDone, rvDone + [id], []) ==
      PhasePool(lvDone, rvDone, [])[IdxOf(id) := Vertex(id, [])][IdxOf(SinkId) := Vertex(SinkId, rvDone + [id])]
        [IdxOf(id) := Vertex(id, [SinkId])]
  {
    var A, P := PhasePool(lvDone, rvDone + [id], []), PhasePool(lvDone, rvDone, []);
    var B := P[IdxOf(id) := Vertex(id, [])][IdxOf(SinkId) := Vertex(SinkId, rvDone + [id])][IdxOf(id) := Vertex(id, [SinkId])];
    PhasePoolFacts(lvDone, rvDone, []);
    PhasePoolFacts(lvDone, rvDone + [id], []);
    assert PhaseIds(lvDone, rvDone + [id]) == PhaseIds(lvDone, rvDone) + {id};
    forall idx | idx in A
      ensures idx in B && A[idx] == B[idx]
    {
      var x := idx + IdIdxDifference;
      assert IdxOf(x) == idx;
      if x == id {
        assert A[idx] == Vertex(id, PhaseNeighbors(lvDone, rvDone + [id], [], id));
        assert PhaseNeighbors(lvDone, rvDone + [id], [], id) == [SinkId];
      } else if x == SinkId {
        assert A[idx] == Vertex(SinkId, rvDone + [id]);
      } else {
        assert A[idx] == Vertex(x, PhaseNeighbors(lvDone, rvDone + [id], [], x));
        assert P[idx] == Vertex(x, PhaseNeighbors(lvDone, rvDone, [], x));
        assert x in rvDone + [id] <==> x in rvDone;
      }
    }
    forall idx | idx in B
      ensures idx in A
    {
      var x := idx + IdIdxDifference;
      assert IdxOf(x) == idx;
    }
  }

  /** Registering a team: each member gets the other appended to its neighbours. */
  lemma TeamStepPool(lvDone: seq<int>, rvDone: seq<int>, teamsDone: seq<Team>, t: Team)
    requires t.0 != t.1 && t.0 in PhaseIds(lvDone, rvDone) && t.1 in PhaseIds(lvDone, rvDone)
    requires t.0 !in {SourceId, SinkId} && t.1 !in {SourceId, SinkId}
    ensures PhasePool(lvDone, rvDone, teamsDone + [t]) ==
      PhasePool(lvDone, rvDone, teamsDone)
        [IdxOf(t.0) := Vertex(t.0, PhaseNeighbors(lvDone, rvDone, teamsDone, t.0) + [t.1])]
        [IdxOf(t.1) := Vertex(t.1, PhaseNeighbors(lvDone, rvDone, teamsDone, t.1) + [t.0])]
  {
    var A, P := PhasePool(lvDone, rvDone, teamsDone + [t]), PhasePool(lvDone, rvDone, teamsDone);
    var B := P[IdxOf(t.0) := Vertex(t.0, PhaseNeighbors(lvDone, rvDone, teamsDone, t.0) + [t.1])]
      [IdxOf(t.1) := Vertex(t.1, PhaseNeighbors(lvDone, rvDone, teamsDone, t.1) + [t.0])];
    PhasePoolFacts(lvDone, rvDone, teamsDone);
    PhasePoolFacts(lvDone, rvDone, teamsDone + [t]);
    assert A.Keys == P.Keys == B.Keys;
    forall idx | idx in A
      ensures A[idx] == B[idx]
    {
      var x := idx + IdIdxDifference;
      assert IdxOf(x) == idx && x in PhaseIds(lvDone, rvDone);
      if x == SourceId || x == SinkId {
      } else {
        TeamStepNeighbors(lvDone, rvDone, teamsDone, t, x);
      }
    }
  }

  /**
   * computeInvitees' choice between König's two covers: either one covers every team with
   * one member per matched pair, and the left one holds the friend whenever some cover that
   * small does.
   */
  lemma KonigChoice(inst: Instance, f: map<Key, int>, V: set<int>, T1: set<int>, T2: set<int>)
    requires WellFormed(inst) && Inv(inst, f) && ResidualClosed(inst, f, V)
    requires LeastClosed(NetGraph(inst, f), RSet(inst), LSet(inst) - Matches(inst, f), T1)
    requires LeastClosed(NetGraph(inst, f), LSet(inst), RSet(inst) - Matches(inst, f), T2)
    requires T1 <= LSet(inst) + RSet(inst) && T2 <= RSet(inst) + LSet(inst)
    requires CoversEdges(NetGraph(inst, f), LSet(inst), RSet(inst), CoverFrom(LSet(inst), RSet(inst), T1))
    requires CoversEdges(NetGraph(inst, f), LSet(inst), RSet(inst), CoverFrom(RSet(inst), LSet(inst), T2))
    ensures var c := if FriendId in CoverFrom(LSet(inst), RSet(inst), T1) then CoverFrom(LSet(inst), RSet(inst), T1)
                     else CoverFrom(RSet(inst), LSet(inst), T2);
      CoversTeams(inst, c) && |c| == |MatchedL(inst, f)| &&
      ((exists K :: CoversTeams(inst, K) && |K| <= |MatchedL(inst, f)| && FriendId in K) ==> FriendId in c)
  {
    var c1, c2 := CoverFrom(LSet(inst), RSet(inst), T1), CoverFrom(RSet(inst), LSet(inst), T2);
    CoversTeamsIsCoversEdges(inst, f, c1);
    CoversTeamsIsCoversEdges(inst, f, c2);
    KonigCoverFromLeft(inst, f, V, T1);
    KonigCoverFromRight(inst, f, V, T2);
    if exists K :: CoversTeams(inst, K) && |K| <= |MatchedL(inst, f)| && FriendId in K {
      var K :| CoversTeams(inst, K) && |K| <= |MatchedL(inst, f)| && FriendId in K;
      FriendInLeftCover(inst, f, T1, K);
    }
  }

  /**
   * The choice computeInvitees makes: König's cover from the left side when it holds the
   * friend, the one from the right side otherwise.
   */
  method ChooseCover(ghost inst: Instance, ghost f: map<Key, int>, ghost V: set<int>,
                     g: Graph, side1: set<int>, side2: set<int>, matches: set<int>) returns (result: set<int>)
    requires WellFormed(inst) && Inv(inst, f) && ResidualClosed(inst, f, V)
    requires g == NetGraph(inst, f) && side1 == LSet(inst) && side2 == RSet(inst) && matches == Matches(inst, f)
    ensures CoversTeams(inst, result) && |result| == |MatchedL(inst, f)|
    ensures (exists K :: CoversTeams(inst, K) && |K| <= |MatchedL(inst, f)| && FriendId in K) ==> FriendId in result
  {
    assert GraphOk(g, side1, side2) && MatchesOk(g, side1, side2, matches) by {
      NetGraphOk(inst, f);
    }
    assert GraphOk(g, side2, side1) && MatchesOk(g, side2, side1, matches) by {
      assert side2 + side1 == side1 + side2;
      GraphOkSymmetric(g, side1, side2);
    }
    var cover1, konig1 := MinVertexCover(g, side1, side2, matches);
    var cover2, konig2 := MinVertexCover(g, side2, side1, matches);
    result := if FriendId in cover1 then cover1 else cover2;
    KonigChoice(inst, f, V, konig1, konig2);
  }

  class BilateralBfs {
    const pool: VertexPool
    const edges: Edges
    /** Search marks and predecessors, indexed by vertex slot (id - 1000). */
    const visited: array<bool>
    const prev: array<int>
    /** LV and RV: the ids of the two locations, in input order. */
    var lv: seq<int>
    var rv: seq<int>
    /** The matched employees, and the chosen invitees. */
    var matches: set<int>
    var invitees: set<int>
    /** The input the solver was built from. */
    ghost const inst: Instance

    /** The registry holds the network's vertices with the neighbour lists setup gives them. */
    ghost predicate PoolBuilt(lvDone: seq<int>, rvDone: seq<int>, teamsDone: seq<Team>)
      reads pool
    {
      pool.Valid() && pool.vertices == PhasePool(lvDone, rvDone, teamsDone)
    }

    /** The registry's record of one vertex of the network. */
    lemma PoolHoldsAt(x: int)
      requires WellFormed(inst) && PoolBuilt(inst.lv, inst.rv, inst.teams) && x in NetIds(inst)
      ensures pool.Has(x) && pool.Get(x).neighbors == NetNeighbors(inst, x)
    {
      PhasePoolFacts(inst.lv, inst.rv, inst.teams);
    }

    /** Every vertex of the network is registered with its neighbour list. */
    ghost predicate PoolNeighbors()
      reads pool
    {
      forall x :: x in NetIds(inst) ==> pool.Has(x) && pool.Get(x).neighbors == NetNeighbors(inst, x)
    }

    lemma PoolHolds()
      requires WellFormed(inst) && PoolBuilt(inst.lv, inst.rv, inst.teams)
      ensures forall x :: pool.Has(x) <==> x in NetIds(inst)
      ensures forall x :: x in NetIds(inst) ==> pool.Get(x).neighbors == NetNeighbors(inst, x)
    {
      PhasePoolFacts(inst.lv, inst.rv, inst.teams);
    }

    lemma PoolNeighborsHold()
      requires WellFormed(inst) && PoolBuilt(inst.lv, inst.rv, inst.teams)
      ensures PoolNeighbors()
    {
      PoolHolds();
    }

    /** The state part way through setup. */
    ghost predicate Built(lvDone: seq<int>, rvDone: seq<int>, teamsDone: seq<Team>)
      reads this`lv, this`rv, pool, edges
    {
      PoolBuilt(lvDone, rvDone, teamsDone) && lv == lvDone && rv == rvDone &&
      edges.edgeInfo == ZeroFlows(PhaseKeys(lvDone, rvDone, teamsDone))
    }

    /** The solver's invariant after setup: the whole network, with a flow that is a matching. */
    ghost predicate Valid()
      reads this`lv, this`rv, pool, edges
    {
      WellFormed(inst) && PoolBuilt(inst.lv, inst.rv, inst.teams) && lv == inst.lv && rv == inst.rv &&
      Inv(inst, edges.edgeInfo) &&
      visited.Length == MaxNumVertices && prev.Length == MaxNumVertices
    }

    /** The registry's vertices and neighbour lists are the network's graph. */
    lemma PoolIsNetwork()
      requires Valid()
      ensures Graph(pool.Adjacency(), edges.edgeInfo, SourceId, SinkId) == NetGraph(inst, edges.edgeInfo)
    {
      PoolHolds();
      assert pool.Adjacency() == NetAdj(inst);
    }

    ghost predicate Cleared()
      reads visited, prev
    {
      (forall k :: 0 <= k < visited.Length ==> !visited[k]) &&
      (forall k :: 0 <= k < prev.Length ==> prev[k] == -1)
    }

    /** The constructor registers the source, the sink and the friend, then builds the network. */
    constructor (lvIds: seq<int>, rvIds: seq<int>, teams: seq<Team>)
      requires WellFormed(Instance(lvIds, rvIds, teams))
      ensures Valid() && inst == Instance(lvIds, rvIds, teams)
      ensures CoversTeams(inst, Matches(inst, edges.edgeInfo))
      ensures matches == {} && invitees == {}
      ensures Cleared()
    {
      edges := new Edges(MaxNumVertices);
      pool := new VertexPool();
      visited := new bool[MaxNumVertices](_ => false);
      prev := new int[MaxNumVertices](_ => -1);
      lv, rv := [], [];
      matches, invitees := {}, {};
      inst := Instance(lvIds, rvIds, teams);
      new;
      RegisterSpecial();
      assert PhaseKeys([], [], []) == {};
      Initialize(lvIds, rvIds, teams);
    }

    /** The constructor's first step: the source, the sink and the friend are registered, with no neighbours. */
    method RegisterSpecial()
      requires pool.Valid() && pool.vertices == map[]
      modifies pool
      ensures pool.Valid() && pool.vertices == PhasePool([], [], [])
    {
      var source := pool.VertexFromId(SourceId);
      var sink := pool.VertexFromId(SinkId);
      var friend := pool.VertexFromId(FriendId);
      InitialPool();
    }

    /** initialize: the two sides, the teams, the greedy seed, and cleared predecessors. */
    method Initialize(lvIds: seq<int>, rvIds: seq<int>, teams: seq<Team>)
      requires inst == Instance(lvIds, rvIds, teams) && WellFormed(inst)
      requires Built([], [], []) && visited.Length == MaxNumVertices && prev.Length == MaxNumVertices
      requires forall k :: 0 <= k < visited.Length ==> !visited[k]
      modifies this`lv, this`rv, pool, edges, visited, prev
      ensures Valid() && Cleared()
      ensures CoversTeams(inst, Matches(inst, edges.edgeInfo))
    {
      SetupSourceSide(lvIds);
      SetupSinkSide(rvIds);
      SetupNeighbors(teams);
      SetupInitialMatching();
      forall k | 0 <= k < prev.Length {
        prev[k] := -1;
      }
    }

    /**
     * setupInitialMatching: each left vertex in turn is matched to the first partner in its
     * neighbour list that is still free. The result is a matching that no team can be added
     * to: every team has a matched member.
     */
    method SetupInitialMatching()
      requires WellFormed(inst) && PoolBuilt(inst.lv, inst.rv, inst.teams) && lv == inst.lv
      requires edges.edgeInfo == ZeroFlows(Keys(inst))
      requires visited.Length == MaxNumVertices && forall k :: 0 <= k < visited.Length ==> !visited[k]
      modifies edges, visited
      ensures Inv(inst, edges.edgeInfo)
      ensures CoversTeams(inst, Matches(inst, edges.edgeInfo))
      ensures forall k :: 0 <= k < visited.Length ==> !visited[k]
    {
      ZeroFlowIsEmptyMatching(inst);
      for i := 0 to |lv|
        invariant SeedInv(inst, edges.edgeInfo, visited[..], lv[..i])
      {
        assert lv[..i + 1] == lv[..i] + [lv[i]];
        assert lv[i] !in lv[..i];
        PoolHoldsAt(lv[i]);
        SeedOne(lv[i], pool.Get(lv[i]).neighbors, lv[..i]);
      }
      assert lv[..|lv|] == lv;
      forall k | 0 <= k < visited.Length {
        visited[k] := false;
      }
    }

    /** One pass of the seed loop: u takes its first free partner, if it has one. */
    method SeedOne(u: int, neighbors: seq<int>, ghost done: seq<int>)
      requires WellFormed(inst) && neighbors == NetNeighbors(inst, u)
      requires u in inst.lv && u !in done && SeedInv(inst, edges.edgeInfo, visited[..], done)
      requires visited.Length == MaxNumVertices
      modifies edges, visited
      ensures SeedInv(inst, edges.edgeInfo, visited[..], done + [u])
    {
      ghost var f0 := edges.edgeInfo;
      ghost var seen := visited[..];
      for j := 0 to |neighbors|
        invariant edges.edgeInfo == f0 && visited[..] == seen
        invariant forall k :: 0 <= k < j ==> Taken(inst, f0, u, neighbors[k])
      {
        var v := neighbors[j];
        LeftNeighbors(inst, u, v);
        NeighborsAreVertices(inst, u, v);
        SlotInRange(inst, v);
        if v != SourceId && !visited[IdxOf(v)] && Flow(edges.edgeInfo, u, v) == 0 {
          MatchPair(u, v, done);
          return;
        }
        SkippedIsTaken(inst, f0, seen, done, u, v);
        forall k | 0 <= k < j + 1
          ensures Taken(inst, f0, u, neighbors[k])
        {
          if k == j {
            assert neighbors[k] == v;
          }
        }
      }
      forall t | t in inst.teams && t.0 == u
        ensures t.1 in MatchedR(inst, f0)
      {
        LeftNeighbors(inst, u, t.1);
        assert Taken(inst, f0, u, t.1);
        FreeLeftCarriesNoFlow(inst, f0, u, t.1);
      }
    }

    /** The body of the seed loop's test: u and v are matched, and both are marked. */
    method MatchPair(u: int, v: int, ghost done: seq<int>)
      requires WellFormed(inst) && u in inst.lv && IsTeam(inst, u, v) && u !in done
      requires SeedInv(inst, edges.edgeInfo, visited[..], done)
      requires visited.Length == MaxNumVertices && 0 <= IdxOf(v) < MaxNumVertices && !visited[IdxOf(v)]
      modifies edges, visited
      ensures SeedInv(inst, edges.edgeInfo, visited[..], done + [u])
    {
      ghost var f0 := edges.edgeInfo;
      ghost var seen := visited[..];
      MarkedIsMatchedSlot(inst, f0, seen, done, u, v);
      GreedyStep(inst, f0, u, v);
      edges.SetFlow(SourceId, u, 1);
      edges.SetFlow(u, v, 1);
      edges.SetFlow(v, SinkId, 1);
      visited[IdxOf(u)] := true;
      visited[IdxOf(v)] := true;
      GreedyInvariant(inst, f0, edges.edgeInfo, seen, visited[..], done, u, v);
    }

    /**
     * findAugmentingPath: breadth-first search from the source along edges with residual
     * capacity, recording each reached vertex's predecessor in prev and stopping as soon as the
     * sink is reached. When it reports a path, prev holds a residual source-to-sink path; when
     * it does not, the reached vertices are closed under residual edges and exclude the sink.
     */
    method FindAugmentingPath() returns (found: bool, ghost path: seq<int>, ghost reached: set<int>)
      requires WellFormed(inst) && PoolNeighbors() && Cleared()
      requires visited.Length == MaxNumVertices && prev.Length == MaxNumVertices
      modifies visited, prev
      ensures found ==> ResidualPath(inst, edges.edgeInfo, path) && PrevFollows(prev[..], path)
      ensures !found ==> ResidualClosed(inst, edges.edgeInfo, reached)
    {
      ghost var f := edges.edgeInfo;
      var queue := [SourceId];
      ghost var order, parent, head := [SourceId], [0], 0;
      SlotInRange(inst, SourceId);
      visited[IdxOf(SourceId)] := true;
      SearchStarts(inst, f, prev[..], visited[..]);
      path, reached := [], {};
      while |queue| > 0
        invariant Searching(inst, f, order, parent, prev[..], visited[..], head)
        invariant queue == order[head..] && SinkId !in order
        decreases |NetIds(inst)| - head
      {
        DistinctWithin(order, NetIds(inst));
        found, queue, order, parent, path := ScanNeighbors(queue, order, parent, head);
        if found {
          return;
        }
        DistinctWithin(order, NetIds(inst));
        QueueShrinks(order, head);
        queue := queue[1..];
        head := head + 1;
      }
      found := false;
      reached := set x | x in order;
      SearchEnds(inst, f, order, parent, prev[..], visited[..]);
    }

    /**
     * One round of the search loop: every unmarked neighbour of the vertex at the front of the
     * queue that a residual edge reaches gets u as its predecessor, is queued and marked; the
     * round stops early, reporting the path, when that neighbour is the sink.
     */
    method ScanNeighbors(queue: seq<int>, ghost order: seq<int>, ghost parent: seq<int>, ghost head: int)
        returns (found: bool, queue': seq<int>, ghost order': seq<int>, ghost parent': seq<int>, ghost path: seq<int>)
      requires WellFormed(inst) && PoolNeighbors()
      requires visited.Length == MaxNumVertices && prev.Length == MaxNumVertices
      requires Searching(inst, edges.edgeInfo, order, parent, prev[..], visited[..], head)
      requires head < |order| && queue == order[head..] && SinkId !in order
      modifies visited, prev
      ensures found ==> ResidualPath(inst, edges.edgeInfo, path) && PrevFollows(prev[..], path)
      ensures !found ==> Searching(inst, edges.edgeInfo, order', parent', prev[..], visited[..], head + 1)
      ensures !found ==> queue' == order'[head..] && SinkId !in order' && head < |order'|
    {
      ghost var f := edges.edgeInfo;
      var u := queue[0];
      var neighbors := pool.Get(u).neighbors;
      queue', order', parent', path := queue, order, parent, [];
      for j := 0 to |neighbors|
        invariant head < |order'| && u == order'[head] && queue' == order'[head..] && SinkId !in order'
        invariant Searching(inst, f, order', parent', prev[..], visited[..], head)
        invariant HeadDone(inst, f, u, neighbors[..j], order')
      {
        var v := neighbors[j];
        PrefixStep(neighbors, j);
        QueueGrows(order', head, v);
        var added;
        added, order', parent' := VisitNeighbor(u, v, f, order', parent', head, neighbors[..j]);
        if added {
          queue' := queue' + [v];
          if v == SinkId {
            found := true;
            path := TreePathToSink(inst, f, order', parent', prev[..]);
            return;
          }
          assert order' == order'[..|order'| - 1] + [v];
          NotInAppend(order'[..|order'| - 1], v, SinkId);
        }
      }
      PrefixStep(neighbors, |neighbors|);
      SearchMoves(inst, f, order', parent', prev[..], visited[..], head);
      found := false;
    }

    /**
     * The test inside the search's inner loop: an unmarked neighbour v of the head u that a
     * residual edge reaches gets u as its predecessor and is queued and marked.
     */
    method VisitNeighbor(u: int, v: int, ghost f: map<Key, int>, ghost order: seq<int>, ghost parent: seq<int>,
                         ghost head: int, ghost ns: seq<int>)
        returns (added: bool, ghost order': seq<int>, ghost parent': seq<int>)
      requires WellFormed(inst) && f == edges.edgeInfo
      requires visited.Length == MaxNumVertices && prev.Length == MaxNumVertices
      requires Searching(inst, f, order, parent, prev[..], visited[..], head)
      requires head < |order| && u == order[head] && HeadDone(inst, f, u, ns, order) && v in NetNeighbors(inst, u)
      modifies visited, prev
      ensures added <==> v !in order && ResidualCapacity(f, u, v) > 0
      ensures added ==> order' == order + [v] && parent' == parent + [head]
      ensures added ==> 0 <= IdxOf(v) < prev.Length && prev[IdxOf(v)] == IdxOf(u)
      ensures !added ==> order' == order && parent' == parent
      ensures Searching(inst, f, order', parent', prev[..], visited[..], head)
      ensures HeadDone(inst, f, u, ns + [v], order')
    {
      NeighborsAreVertices(inst, u, v);
      SlotInRange(inst, v);
      order', parent' := order, parent;
      added := false;
      if !visited[IdxOf(v)] && ResidualCapacity(edges.edgeInfo, u, v) > 0 {
        Enqueue(inst, f, order, parent, prev[..], visited[..], head, v);
        prev[IdxOf(v)] := IdxOf(u);
        visited[IdxOf(v)] := true;
        order', parent' := order + [v], parent + [head];
        added := true;
      } else if visited[IdxOf(v)] {
        MarkedIsQueued(inst, f, order, parent, prev[..], visited[..], head, v);
      }
      HeadDoneStep(inst, f, u, ns, v, order, order');
    }

    /**
     * processPath: walks prev back from the sink to the source and flips the stored edge of
     * each hop, then clears the search marks. The flipped keys are exactly the path's hops,
     * so the flow is augmented along the path: still a matching, with one more matched pair.
     */
    method ProcessPath(ghost path: seq<int>)
      requires Valid() && ResidualPath(inst, edges.edgeInfo, path) && PrevFollows(prev[..], path)
      modifies pool, edges, visited, prev
      ensures Valid() && Cleared()
      ensures edges.edgeInfo == FlipKeys(old(edges.edgeInfo), HopKeys(path))
      ensures MatchedL(inst, old(edges.edgeInfo)) < MatchedL(inst, edges.edgeInfo)
    {
      ghost var f0 := edges.edgeInfo;
      AugmentAlongPath(inst, f0, path);
      PathInNetwork(inst, f0, path);
      PoolHolds();
      FlipHops(path);
      assert Inv(inst, edges.edgeInfo) && PoolBuilt(inst.lv, inst.rv, inst.teams);
      ClearSearch();
    }

    /** The end of processPath: every search mark is cleared and every predecessor reset. */
    method ClearSearch()
      modifies visited, prev
      ensures Cleared()
    {
      forall k | 0 <= k < visited.Length {
        visited[k] := false;
      }
      forall k | 0 <= k < prev.Length {
        prev[k] := -1;
      }
    }

    /** The walk of processPath: from the sink's slot, flip each hop's edge and step to prev. */
    method FlipHops(ghost path: seq<int>)
      requires pool.Valid() && prev.Length == MaxNumVertices
      requires |path| >= 2 && path[0] == SourceId && path[|path| - 1] == SinkId && Distinct(path)
      requires forall i :: 0 <= i < |path| ==> pool.Has(path[i]) && 0 <= IdxOf(path[i]) < MaxNumVertices
      requires PrevFollows(prev[..], path) && HopKeys(path) <= edges.edgeInfo.Keys
      modifies pool, edges
      ensures pool.Valid() && pool.vertices == old(pool.vertices)
      ensures edges.edgeInfo == FlipKeys(old(edges.edgeInfo), HopKeys(path))
    {
      ghost var f0 := edges.edgeInfo;
      NoHopsFlipped(f0, path);
      var v := IdxOf(SinkId);
      ghost var j := |path| - 1;
      while v != IdxOf(SourceId)
        invariant 0 <= j < |path| && v == IdxOf(path[j])
        invariant edges.edgeInfo == FlipKeys(f0, HopKeys(path[j..]))
        invariant pool.Valid() && pool.vertices == old(pool.vertices)
        decreases j
      {
        assert j != 0;
        var u := prev[v];
        assert u == IdxOf(path[j - 1]) && u + IdIdxDifference == path[j - 1];
        FlipHop(f0, path, j);
        assert Hop(path, j - 1) == HopKey(u + IdIdxDifference, v + IdIdxDifference);
        FlipSlots(u, v);
        v := u;
        j := j - 1;
      }
      assert path[0..] == path;
    }

    /** One hop of processPath's walk: the stored edge between slots u and v is flipped. */
    method FlipSlots(u: int, v: int)
      requires pool.Valid() && pool.Has(u + IdIdxDifference) && pool.Has(v + IdIdxDifference)
      requires HopKey(u + IdIdxDifference, v + IdIdxDifference) in edges.edgeInfo
      modifies pool, edges
      ensures pool.Valid() && pool.vertices == old(pool.vertices)
      ensures var k := HopKey(u + IdIdxDifference, v + IdIdxDifference);
        edges.edgeInfo == old(edges.edgeInfo)[k := Flipped(old(edges.edgeInfo)[k])]
    {
      var known;
      if u < v || IsSpecialVertexId(u + IdIdxDifference) {
        var a := pool.VertexFromId(u + IdIdxDifference);
        var b := pool.VertexFromId(v + IdIdxDifference);
        known := edges.FlipFlow(a.id, b.id);
      } else {
        var a := pool.VertexFromId(v + IdIdxDifference);
        var b := pool.VertexFromId(u + IdIdxDifference);
        known := edges.FlipFlow(a.id, b.id);
      }
    }

    /**
     * computeMatchset: every left vertex with flow on a team edge is added to matches with
     * its partner, and each such edge is counted. The result is the set of matched vertices,
     * and the count is the size of the matching.
     */
    method ComputeMatchset() returns (numEdges: int)
      requires Valid()
      modifies this`matches
      ensures Valid()
      ensures matches == old(matches) + Matches(inst, edges.edgeInfo)
      ensures numEdges == |MatchedL(inst, edges.edgeInfo)|
    {
      ghost var f := edges.edgeInfo;
      PoolNeighborsHold();
      numEdges := 0;
      for i := 0 to |lv|
        invariant Collected(inst, f, old(matches), lv[..i], matches, numEdges)
      {
        PrefixStep(lv, i);
        assert lv[i] !in lv[..i];
        numEdges := MatchLeft(lv[i], lv[..i], old(matches), numEdges);
      }
      PrefixStep(lv, |lv|);
      MatchsetComplete(inst, f, old(matches), matches);
    }

    /** One round of computeMatchset's loop: the left vertex u, handled after those in done. */
    method MatchLeft(u: int, ghost done: seq<int>, ghost m0: set<int>, n: int) returns (n': int)
      requires WellFormed(inst) && Inv(inst, edges.edgeInfo) && PoolNeighbors() && u in inst.lv && u !in done
      requires Collected(inst, edges.edgeInfo, m0, done, matches, n)
      modifies this`matches
      ensures Collected(inst, edges.edgeInfo, m0, done + [u], matches, n')
    {
      ghost var m := matches;
      var count := MatchesOf(u);
      n' := n + count;
      CollectedStep(inst, edges.edgeInfo, m0, done, u, m, matches, n, count);
    }

    /** The inner loop of computeMatchset for one left vertex v: it adds v's mate and v, and counts the mate. */
    method MatchesOf(v: int) returns (count: int)
      requires WellFormed(inst) && Inv(inst, edges.edgeInfo) && PoolNeighbors() && v in inst.lv
      modifies this`matches
      ensures old(matches) <= matches <= old(matches) + Matches(inst, edges.edgeInfo)
      ensures Mates(inst, edges.edgeInfo, v) <= matches && (Mates(inst, edges.edgeInfo, v) != {} ==> v in matches)
      ensures count == |Mates(inst, edges.edgeInfo, v)|
    {
      ghost var f := edges.edgeInfo;
      LeftNeighborsDistinct(inst, v);
      var neighbors := pool.Get(v).neighbors;
      ghost var hits: set<int> := {};
      count := 0;
      for j := 0 to |neighbors|
        invariant old(matches) <= matches <= old(matches) + Matches(inst, f)
        invariant forall r :: r in hits <==> r in neighbors[..j] && r != SourceId && Flow(f, v, r) > 0
        invariant hits <= matches && (hits != {} ==> v in matches)
        invariant count == |hits|
      {
        var neighb := neighbors[j];
        PrefixStep(neighbors, j);
        if neighb != SourceId && Flow(edges.edgeInfo, v, neighb) > 0 {
          TeamFlowMatches(inst, f, v, neighb);
          assert neighb !in neighbors[..j];
          matches := matches + {v};
          matches := matches + {neighb};
          count := count + 1;
          hits := hits + {neighb};
        }
      }
      PrefixStep(neighbors, |neighbors|);
      HitsAreMates(inst, f, v, hits);
    }

    /**
     * computeInvitees: König's cover is built from each side in turn; the one from the left
     * side is taken when it holds the friend, the one from the right side otherwise, and its
     * ids are added to the invitees. After a failed search both have one member per matched
     * pair, and the left one holds the friend whenever some cover that small does.
     */
    method ComputeInvitees(ghost reached: set<int>) returns (ghost chosen: set<int>)
      requires Valid() && matches == Matches(inst, edges.edgeInfo)
      requires ResidualClosed(inst, edges.edgeInfo, reached)
      modifies this
      ensures Valid() && matches == old(matches)
      ensures invitees == old(invitees) + chosen
      ensures CoversTeams(inst, chosen) && |chosen| == |MatchedL(inst, edges.edgeInfo)|
      ensures (exists K :: CoversTeams(inst, K) && |K| <= |MatchedL(inst, edges.edgeInfo)| && FriendId in K) ==>
        FriendId in chosen
    {
      var result := InviteesFor(reached);
      invitees := invitees + result;
      assert edges.edgeInfo == old(edges.edgeInfo) && pool.vertices == old(pool.vertices);
      assert lv == old(lv) && rv == old(rv);
      chosen := result;
    }

    /** The cover computeInvitees picks, read off the registry's graph and the current flow. */
    method InviteesFor(ghost reached: set<int>) returns (result: set<int>)
      requires Valid() && matches == Matches(inst, edges.edgeInfo)
      requires ResidualClosed(inst, edges.edgeInfo, reached)
      ensures CoversTeams(inst, result) && |result| == |MatchedL(inst, edges.edgeInfo)|
      ensures (exists K :: CoversTeams(inst, K) && |K| <= |MatchedL(inst, edges.edgeInfo)| && FriendId in K) ==>
        FriendId in result
    {
      PoolIsNetwork();
      var g := Graph(pool.Adjacency(), edges.edgeInfo, SourceId, SinkId);
      var side1 := set l | l in lv;
      var side2 := set r | r in rv;
      result := ChooseCover(inst, edges.edgeInfo, reached, g, side1, side2, matches);
    }

    /**
     * solve: augment along shortest residual paths until the search fails, then record the
     * matching and choose the invitees. The matching is then maximum, the invitees a minimum
     * cover of the teams that holds the friend whenever some minimum cover does, and the
     * count of matched pairs equals the number of invitees, so the mismatch message on the
     * error stream is never written.
     */
    method Solve() returns (numEdges: int)
      requires Valid() && Cleared() && matches == {} && invitees == {}
      modifies this, pool, edges, visited, prev
      ensures Valid() && matches == Matches(inst, edges.edgeInfo)
      ensures forall f :: Inv(inst, f) ==> |MatchedL(inst, f)| <= |MatchedL(inst, edges.edgeInfo)|
      ensures MinimumCover(inst, invitees)
      ensures (exists K :: MinimumCover(inst, K) && FriendId in K) ==> FriendId in invitees
      ensures numEdges == |MatchedL(inst, edges.edgeInfo)| == |invitees|
    {
      PoolNeighborsHold();
      var found, path, reached := FindAugmentingPath();
      while found
        invariant Valid() && matches == {} && invitees == {}
        invariant found ==> ResidualPath(inst, edges.edgeInfo, path) && PrevFollows(prev[..], path)
        invariant !found ==> ResidualClosed(inst, edges.edgeInfo, reached)
        decreases |LSet(inst)| - |MatchedL(inst, edges.edgeInfo)|
      {
        found, path, reached := AugmentAndSearch(path);
      }
      numEdges := Conclude(reached);
    }

    /** One round of solve's loop: augment along the path found, then search for another. */
    method AugmentAndSearch(ghost path: seq<int>) returns (found: bool, ghost path': seq<int>, ghost reached: set<int>)
      requires Valid() && ResidualPath(inst, edges.edgeInfo, path) && PrevFollows(prev[..], path)
      modifies pool, edges, visited, prev
      ensures Valid()
      ensures |MatchedL(inst, old(edges.edgeInfo))| < |MatchedL(inst, edges.edgeInfo)| <= |LSet(inst)|
      ensures found ==> ResidualPath(inst, edges.edgeInfo, path') && PrevFollows(prev[..], path')
      ensures !found ==> ResidualClosed(inst, edges.edgeInfo, reached)
    {
      ghost var before := MatchedL(inst, edges.edgeInfo);
      ProcessPath(path);
      ProperSubsetCard(before, MatchedL(inst, edges.edgeInfo));
      SubsetCard(MatchedL(inst, edges.edgeInfo), LSet(inst));
      PoolNeighborsHold();
      found, path', reached := FindAugmentingPath();
    }

    /** What solve does once no augmenting path is left: record the matching, choose the invitees. */
    method Conclude(ghost reached: set<int>) returns (numEdges: int)
      requires Valid() && matches == {} && invitees == {} && ResidualClosed(inst, edges.edgeInfo, reached)
      modifies this
      ensures Valid() && matches == Matches(inst, edges.edgeInfo)
      ensures forall f :: Inv(inst, f) ==> |MatchedL(inst, f)| <= |MatchedL(inst, edges.edgeInfo)|
      ensures MinimumCover(inst, invitees)
      ensures (exists K :: MinimumCover(inst, K) && FriendId in K) ==> FriendId in invitees
      ensures numEdges == |MatchedL(inst, edges.edgeInfo)| == |invitees|
    {
      numEdges := ComputeMatchset();
      ghost var chosen := ComputeInvitees(reached);
      CoverMeetsMatching(inst, edges.edgeInfo, chosen);
    }

    /** setupSourceSide: each left id gets the source as neighbour and an edge from it with flow 0. */
    method SetupSourceSide(ids: seq<int>)
      requires WellFormed(inst) && ids == inst.lv && Built([], [], [])
      modifies this`lv, pool, edges
      ensures Built(ids, [], [])
    {
      for i := 0 to |ids|
        invariant Built(ids[..i], [], [])
      {
        AddLeft(ids, i);
      }
      assert ids[..|ids|] == ids;
    }

    /** One pass of setupSourceSide: ids[i] is registered with the source as its neighbour, and vice versa. */
    method AddLeft(ids: seq<int>, i: int)
      requires WellFormed(inst) && ids == inst.lv && 0 <= i < |ids| && Built(ids[..i], [], [])
      modifies this`lv, pool, edges
      ensures Built(ids[..i + 1], [], [])
    {
      assert ids[..i + 1] == ids[..i] + [ids[i]];
      assert ids[i] in inst.lv && ids[i] !in ids[..i];
      ZeroFlowsGrow(PhaseKeys(ids[..i], [], []), KeyVal(SourceId, ids[i]));
      assert PhaseKeys(ids[..i + 1], [], []) == PhaseKeys(ids[..i], [], []) + {KeyVal(SourceId, ids[i])};
      var id := RegisterLeft(ids[i], ids[..i]);
      lv := lv + [id];
      edges.SetFlow(SourceId, id, 0);
    }

    /** The registry part of one pass of setupSourceSide. */
    method RegisterLeft(id: int, ghost done: seq<int>) returns (registered: int)
      requires pool.Valid() && pool.vertices == PhasePool(done, [], [])
      requires id !in done && id != SourceId && id != SinkId
      modifies pool
      ensures pool.Valid() && pool.vertices == PhasePool(done + [id], [], []) && registered == id
    {
      PhasePoolFacts(done, [], []);
      SourceStepPool(done, id);
      ghost var before := pool.vertices;
      var u := pool.VertexFromId(id);
      ghost var created := pool.vertices;
      assert created == before[IdxOf(id) := Vertex(id, [])];
      pool.AddToNeighbors(SourceId, u.id);
      assert pool.vertices == created[IdxOf(SourceId) := Vertex(SourceId, done + [id])];
      pool.AddToNeighbors(u.id, SourceId);
      registered := u.id;
    }

    /** setupSinkSide: each right id gets the sink as neighbour and an edge to it with flow 0. */
    method SetupSinkSide(ids: seq<int>)
      requires WellFormed(inst) && ids == inst.rv && Built(inst.lv, [], [])
      modifies this`rv, pool, edges
      ensures Built(inst.lv, ids, [])
    {
      for i := 0 to |ids|
        invariant Built(inst.lv, ids[..i], [])
      {
        AddRight(ids, i);
      }
      assert ids[..|ids|] == ids;
    }

    /** One pass of setupSinkSide: ids[i] is registered with the sink as its neighbour, and vice versa. */
    method AddRight(ids: seq<int>, i: int)
      requires WellFormed(inst) && ids == inst.rv && 0 <= i < |ids| && Built(inst.lv, ids[..i], [])
      modifies this`rv, pool, edges
      ensures Built(inst.lv, ids[..i + 1], [])
    {
      assert ids[..i + 1] == ids[..i] + [ids[i]];
      assert ids[i] in inst.rv && MaxNyId < ids[i] && ids[i] !in inst.lv && ids[i] !in ids[..i];
      ZeroFlowsGrow(PhaseKeys(inst.lv, ids[..i], []), KeyVal(ids[i], SinkId));
      assert PhaseKeys(inst.lv, ids[..i + 1], []) == PhaseKeys(inst.lv, ids[..i], []) + {KeyVal(ids[i], SinkId)};
      var id := RegisterRight(ids[i], inst.lv, ids[..i]);
      rv := rv + [id];
      edges.SetFlow(id, SinkId, 0);
    }

    /** The registry part of one pass of setupSinkSide. */
    method RegisterRight(id: int, ghost lvDone: seq<int>, ghost done: seq<int>) returns (registered: int)
      requires pool.Valid() && pool.vertices == PhasePool(lvDone, done, [])
      requires id !in lvDone && id !in done && id != SourceId && id != SinkId && id != FriendId
      modifies pool
      ensures pool.Valid() && pool.vertices == PhasePool(lvDone, done + [id], []) && registered == id
    {
      PhasePoolFacts(lvDone, done, []);
      SinkStepPool(lvDone, done, id);
      ghost var before := pool.vertices;
      var u := pool.VertexFromId(id);
      ghost var created := pool.vertices;
      assert created == before[IdxOf(id) := Vertex(id, [])];
      pool.AddToNeighbors(SinkId, u.id);
      assert pool.vertices == created[IdxOf(SinkId) := Vertex(SinkId, done + [id])];
      pool.AddToNeighbors(u.id, SinkId);
      registered := u.id;
    }

    /** setupNeighbors: each team joins its two members both ways, with an edge of flow 0. */
    method SetupNeighbors(teams: seq<Team>)
      requires WellFormed(inst) && teams == inst.teams && Built(inst.lv, inst.rv, [])
      modifies pool, edges
      ensures Built(inst.lv, inst.rv, teams)
    {
      for i := 0 to |teams|
        invariant Built(inst.lv, inst.rv, teams[..i])
      {
        AddTeam(teams, i);
      }
      assert teams[..|teams|] == teams;
    }

    /** One pass of setupNeighbors: the members of teams[i] join each other's neighbours. */
    method AddTeam(teams: seq<Team>, i: int)
      requires WellFormed(inst) && teams == inst.teams && 0 <= i < |teams| && Built(inst.lv, inst.rv, teams[..i])
      modifies pool, edges
      ensures Built(inst.lv, inst.rv, teams[..i + 1])
    {
      TeamStepKeys(teams, i);
      ZeroFlowsGrow(PhaseKeys(inst.lv, inst.rv, teams[..i]), KeyVal(teams[i].0, teams[i].1));
      var u, v := RegisterTeam(teams, i);
      edges.SetFlow(u, v, 0);
    }

    /** The registry part of one pass of setupNeighbors. */
    method RegisterTeam(teams: seq<Team>, i: int) returns (u: int, v: int)
      requires WellFormed(inst) && teams == inst.teams && 0 <= i < |teams|
      requires pool.Valid() && pool.vertices == PhasePool(inst.lv, inst.rv, teams[..i])
      modifies pool
      ensures pool.Valid() && pool.vertices == PhasePool(inst.lv, inst.rv, teams[..i + 1])
      ensures u == teams[i].0 && v == teams[i].1
    {
      TeamStepSlots(teams, i);
      TeamStepPoolGrows(teams, i);
      ghost var before := pool.vertices;
      var a := pool.VertexFromId(teams[i].0);
      var b := pool.VertexFromId(teams[i].1);
      assert pool.vertices == before;
      pool.AddToNeighbors(a.id, b.id);
      ghost var once := pool.vertices;
      assert once == before[IdxOf(a.id) := Vertex(a.id, before[IdxOf(a.id)].neighbors + [b.id])];
      pool.AddToNeighbors(b.id, a.id);
      assert pool.vertices == once[IdxOf(b.id) := Vertex(b.id, before[IdxOf(b.id)].neighbors + [a.id])];
      u, v := a.id, b.id;
    }

    /** The two members of the next team are registered, in different slots. */
    lemma TeamStepSlots(teams: seq<Team>, i: int)
      requires WellFormed(inst) && teams == inst.teams && 0 <= i < |teams|
      ensures IdxOf(teams[i].0) in PhasePool(inst.lv, inst.rv, teams[..i])
      ensures IdxOf(teams[i].1) in PhasePool(inst.lv, inst.rv, teams[..i])
      ensures IdxOf(teams[i].0) != IdxOf(teams[i].1)
      ensures PhasePool(inst.lv, inst.rv, teams[..i])[IdxOf(teams[i].0)] ==
        Vertex(teams[i].0, PhaseNeighbors(inst.lv, inst.rv, teams[..i], teams[i].0))
      ensures PhasePool(inst.lv, inst.rv, teams[..i])[IdxOf(teams[i].1)] ==
        Vertex(teams[i].1, PhaseNeighbors(inst.lv, inst.rv, teams[..i], teams[i].1))
    {
      assert teams[i] in inst.teams;
      PhasePoolFacts(inst.lv, inst.rv, teams[..i]);
    }

    /** Registering the next team appends each member to the other's neighbours. */
    lemma TeamStepPoolGrows(teams: seq<Team>, i: int)
      requires WellFormed(inst) && teams == inst.teams && 0 <= i < |teams|
      ensures PhasePool(inst.lv, inst.rv, teams[..i + 1]) ==
        PhasePool(inst.lv, inst.rv, teams[..i])
          [IdxOf(teams[i].0) := Vertex(teams[i].0, PhaseNeighbors(inst.lv, inst.rv, teams[..i], teams[i].0) + [teams[i].1])]
          [IdxOf(teams[i].1) := Vertex(teams[i].1, PhaseNeighbors(inst.lv, inst.rv, teams[..i], teams[i].1) + [teams[i].0])]
    {
      var t := teams[i];
      assert teams[..i + 1] == teams[..i] + [t];
      assert t in inst.teams;
      TeamStepPool(inst.lv, inst.rv, teams[..i], t);
    }

    /** Registering the next team adds its edge to the stored keys. */
    lemma TeamStepKeys(teams: seq<Team>, i: int)
      requires WellFormed(inst) && teams == inst.teams && 0 <= i < |teams|
      ensures PhaseKeys(inst.lv, inst.rv, teams[..i + 1]) ==
        PhaseKeys(inst.lv, inst.rv, teams[..i]) + {KeyVal(teams[i].0, teams[i].1)}
    {
      assert teams[..i + 1] == teams[..i] + [teams[i]];
    }
  }
}
