/**
 * The flow network the C++ solver builds (BilateralBFS.cpp:42-120): a source joined to every
 * left vertex, every right vertex joined to a sink, one edge per team, all of capacity 1.
 * With unit capacities a flow is a matching; this module states that correspondence and
 * proves what an augmenting path does to it.
 */
module FlowNetwork {
  import opened Params
  import opened FlowEdge
  import opened EdgeTable
  import opened Konig
  import opened SetFacts
  import opened Vertices

  /** A team: an employee of the first location and one of the second. */
  type Team = (int, int)

  /** The solver's input: the ids of each location (ids[0], ids[1]) and the teams. */
  datatype Instance = Instance(lv: seq<int>, rv: seq<int>, teams: seq<Team>)

  ghost predicate DistinctTeams(s: seq<Team>)
  {
    forall i, j :: 0 <= i < j < |s| ==> s[i] != s[j]
  }

  /**
   * What the solver relies on its input for: ids listed once, left ids in 1000..1999, right
   * ids in 2000..2999, every team joining a listed left id to a listed right id, no team twice.
   */
  ghost predicate WellFormed(inst: Instance)
  {
    Distinct(inst.lv) && Distinct(inst.rv) && DistinctTeams(inst.teams) &&
    (forall l :: l in inst.lv ==> IdIdxDifference <= l <= MaxNyId) &&
    (forall r :: r in inst.rv ==> MaxNyId < r <= MaxNormalId) &&
    (forall t :: t in inst.teams ==> t.0 in inst.lv && t.1 in inst.rv)
  }

  function LSet(inst: Instance): set<int>
  {
    set l | l in inst.lv
  }

  function RSet(inst: Instance): set<int>
  {
    set r | r in inst.rv
  }

  predicate IsTeam(inst: Instance, l: int, r: int)
  {
    (l, r) in inst.teams
  }

  /** K contains a member of every team: it is a vertex cover of the team graph. */
  ghost predicate CoversTeams(inst: Instance, K: set<int>)
  {
    forall t :: t in inst.teams ==> t.0 in K || t.1 in K
  }

  // ---------------------------------------------------------------------------------------
  // Adjacency

  /** What one team contributes to the neighbour list of x (setupNeighbors adds both ways). */
  function Incident(t: Team, x: int): seq<int>
  {
    if t.0 == x then [t.1] else if t.1 == x then [t.0] else []
  }

  /** The team partners of x, in the order the teams list them. */
  function Partners(teams: seq<Team>, x: int): seq<int>
    decreases |teams|
  {
    if |teams| == 0 then [] else Partners(teams[..|teams| - 1], x) + Incident(teams[|teams| - 1], x)
  }

  lemma {:induction false} PartnersMembership(teams: seq<Team>, x: int, y: int)
    ensures y in Partners(teams, x) <==> (x, y) in teams || (y, x) in teams
    decreases |teams|
  {
    if |teams| > 0 {
      var front := teams[..|teams| - 1];
      PartnersMembership(front, x, y);
      assert teams == front + [teams[|teams| - 1]];
    }
  }

  /**
   * The neighbour list of x after the source side has been set up for lvDone, the sink side
   * for rvDone, and the teams teamsDone.
   */
  function PhaseNeighbors(lvDone: seq<int>, rvDone: seq<int>, teamsDone: seq<Team>, x: int): seq<int>
  {
    if x == SourceId then lvDone
    else if x == SinkId then rvDone
    else (if x in lvDone then [SourceId] else []) + (if x in rvDone then [SinkId] else []) + Partners(teamsDone, x)
  }

  /** The registered vertices at that point: source, sink and friend first, then the listed ids. */
  function PhaseIds(lvDone: seq<int>, rvDone: seq<int>): set<int>
  {
    {SourceId, SinkId, FriendId} + (set l | l in lvDone) + (set r | r in rvDone)
  }

  function NetNeighbors(inst: Instance, x: int): seq<int>
  {
    PhaseNeighbors(inst.lv, inst.rv, inst.teams, x)
  }

  function NetIds(inst: Instance): set<int>
  {
    PhaseIds(inst.lv, inst.rv)
  }

  function NetAdj(inst: Instance): map<int, seq<int>>
  {
    map x | x in NetIds(inst) :: NetNeighbors(inst, x)
  }

  function NetGraph(inst: Instance, f: map<Key, int>): Graph
  {
    Graph(NetAdj(inst), f, SourceId, SinkId)
  }

  /** Every neighbour of a vertex of the network is a vertex of the network. */
  lemma NeighborsAreVertices(inst: Instance, x: int, y: int)
    requires WellFormed(inst) && y in NetNeighbors(inst, x)
    ensures y in NetIds(inst)
  {
    if x != SourceId && x != SinkId && y != SourceId && y != SinkId {
      PartnersMembership(inst.teams, x, y);
    }
  }

  lemma GraphNeighbors(inst: Instance, f: map<Key, int>, x: int)
    requires WellFormed(inst)
    ensures Neighbors(NetGraph(inst, f), x) == NetNeighbors(inst, x)
  {
    if x !in NetIds(inst) {
      if |Partners(inst.teams, x)| > 0 {
        var y := Partners(inst.teams, x)[0];
        PartnersMembership(inst.teams, x, y);
      }
    }
  }

  /** The neighbours of a left vertex: the source, then its team partners, all on the right. */
  lemma LeftNeighbors(inst: Instance, l: int, y: int)
    requires WellFormed(inst) && l in inst.lv
    ensures y in NetNeighbors(inst, l) <==> y == SourceId || IsTeam(inst, l, y)
    ensures y in NetNeighbors(inst, l) && y != SourceId ==> y in inst.rv
  {
    PartnersMembership(inst.teams, l, y);
  }

  /** The neighbours of a right vertex: the sink, then its team partners, all on the left. */
  lemma RightNeighbors(inst: Instance, r: int, y: int)
    requires WellFormed(inst) && r in inst.rv
    ensures y in NetNeighbors(inst, r) <==> y == SinkId || IsTeam(inst, y, r)
    ensures y in NetNeighbors(inst, r) && y != SinkId ==> y in inst.lv
  {
    PartnersMembership(inst.teams, r, y);
  }

  /** Every vertex of the network has a slot in the solvers' per-vertex arrays. */
  lemma NetIdsInRange(inst: Instance, x: int)
    requires WellFormed(inst) && x in NetIds(inst)
    ensures 0 <= x - IdIdxDifference < MaxNumVertices
  {
  }

  /** No vertex is its own neighbour, and every adjacency is recorded at both ends. */
  lemma NetNeighborsSymmetric(inst: Instance, x: int, y: int)
    requires WellFormed(inst)
    ensures x !in NetNeighbors(inst, x)
    ensures y in NetNeighbors(inst, x) <==> x in NetNeighbors(inst, y)
  {
    PartnersMembership(inst.teams, x, y);
    PartnersMembership(inst.teams, y, x);
    PartnersMembership(inst.teams, x, x);
  }

  /** A team appends each member to the other's neighbour list and leaves everyone else alone. */
  lemma TeamStepNeighbors(lvDone: seq<int>, rvDone: seq<int>, teamsDone: seq<Team>, t: Team, x: int)
    requires t.0 != t.1 && x != SourceId && x != SinkId
    ensures PhaseNeighbors(lvDone, rvDone, teamsDone + [t], x) ==
      PhaseNeighbors(lvDone, rvDone, teamsDone, x) + Incident(t, x)
  {
    assert (teamsDone + [t])[..|teamsDone|] == teamsDone;
    var a := (if x in lvDone then [SourceId] else []) + (if x in rvDone then [SinkId] else []);
    assert Partners(teamsDone + [t], x) == Partners(teamsDone, x) + Incident(t, x);
    assert a + (Partners(teamsDone, x) + Incident(t, x)) == a + Partners(teamsDone, x) + Incident(t, x);
  }

  /** A team contributes a partner of x that no earlier team did. */
  lemma {:induction false} PartnersDistinct(inst: Instance, k: int, x: int)
    requires WellFormed(inst) && 0 <= k <= |inst.teams|
    ensures Distinct(Partners(inst.teams[..k], x))
    decreases k
  {
    if k > 0 {
      var front, t := inst.teams[..k - 1], inst.teams[k - 1];
      assert inst.teams[..k] == front + [t];
      PartnersDistinct(inst, k - 1, x);
      var y := if t.0 == x then t.1 else t.0;
      PartnersMembership(front, x, y);
      assert t in inst.teams;
      assert t !in front;
      assert forall s :: s in front ==> s in inst.teams;
      assert y !in Partners(front, x) || Incident(t, x) == [];
      DistinctAppend(Partners(front, x), Incident(t, x));
    }
  }

  lemma DistinctAppend(a: seq<int>, b: seq<int>)
    requires Distinct(a) && Distinct(b) && forall y :: y in a ==> y !in b
    ensures Distinct(a + b)
  {
    forall i, j | 0 <= i < j < |a + b|
      ensures (a + b)[i] != (a + b)[j]
    {
      if i < |a| && j >= |a| {
        assert (a + b)[i] in a && (a + b)[j] == b[j - |a|];
      }
    }
  }

  /** No neighbour list of the network names a vertex twice. */
  lemma NetNeighborsDistinct(inst: Instance, x: int)
    requires WellFormed(inst)
    ensures Distinct(NetNeighbors(inst, x))
  {
    if x != SourceId && x != SinkId {
      PartnersDistinct(inst, |inst.teams|, x);
      assert inst.teams[..|inst.teams|] == inst.teams;
      var p := Partners(inst.teams, x);
      forall y | y in p
        ensures y != SourceId && y != SinkId
      {
        PartnersMembership(inst.teams, x, y);
      }
      var a := if x in inst.lv then [SourceId] else [];
      var b := if x in inst.rv then [SinkId] else [];
      DistinctAppend(a, b);
      DistinctAppend(a + b, p);
    }
  }

  // ---------------------------------------------------------------------------------------
  // Flows

  function PhaseKeys(lvDone: seq<int>, rvDone: seq<int>, teamsDone: seq<Team>): set<Key>
  {
    (set l | l in lvDone :: KeyVal(SourceId, l)) + (set r | r in rvDone :: KeyVal(r, SinkId)) + (set t | t in teamsDone)
  }

  function Keys(inst: Instance): set<Key>
  {
    PhaseKeys(inst.lv, inst.rv, inst.teams)
  }

  /** The team (l, r) carries flow: l and r are matched to each other. */
  predicate MatchedPair(inst: Instance, f: map<Key, int>, l: int, r: int)
  {
    IsTeam(inst, l, r) && Flow(f, l, r) == 1
  }

  /**
   * The flow encodes a matching: the stored edges are exactly the network's, every flow is
   * 0 or 1, no employee is in two matched teams, and flow enters a left vertex from the source
   * (leaves a right vertex into the sink) exactly when that vertex is matched.
   */
  ghost predicate Inv(inst: Instance, f: map<Key, int>)
  {
    f.Keys == Keys(inst) && UnitFlows(f) &&
    (forall l, r1, r2 :: MatchedPair(inst, f, l, r1) && MatchedPair(inst, f, l, r2) ==> r1 == r2) &&
    (forall l1, l2, r :: MatchedPair(inst, f, l1, r) && MatchedPair(inst, f, l2, r) ==> l1 == l2) &&
    (forall l :: l in inst.lv ==> (Flow(f, SourceId, l) == 1 <==> exists r :: MatchedPair(inst, f, l, r))) &&
    (forall r :: r in inst.rv ==> (Flow(f, r, SinkId) == 1 <==> exists l :: MatchedPair(inst, f, l, r)))
  }

  function MatchedL(inst: Instance, f: map<Key, int>): set<int>
  {
    set l | l in inst.lv && Flow(f, SourceId, l) == 1
  }

  function MatchedR(inst: Instance, f: map<Key, int>): set<int>
  {
    set r | r in inst.rv && Flow(f, r, SinkId) == 1
  }

  /** The network as set up, before any flow: no team is matched. */
  lemma ZeroFlowIsEmptyMatching(inst: Instance)
    requires WellFormed(inst)
    ensures Inv(inst, map k | k in Keys(inst) :: 0)
    ensures MatchedL(inst, map k | k in Keys(inst) :: 0) == {}
    ensures MatchedR(inst, map k | k in Keys(inst) :: 0) == {}
  {
  }

  /** Which pairs are stored: an edge never has its reverse stored as well. */
  lemma KeyFacts(inst: Instance, f: map<Key, int>)
    requires WellFormed(inst) && f.Keys == Keys(inst)
    ensures forall l :: l in inst.lv ==> KeyVal(SourceId, l) in f && KeyVal(l, SourceId) !in f
    ensures forall r :: r in inst.rv ==> KeyVal(r, SinkId) in f && KeyVal(SinkId, r) !in f
    ensures forall l, r :: IsTeam(inst, l, r) ==> KeyVal(l, r) in f && KeyVal(r, l) !in f
    ensures forall x, y :: x in inst.lv && y in inst.lv ==> KeyVal(x, y) !in f
    ensures forall x, y :: x in inst.rv && y in inst.rv ==> KeyVal(x, y) !in f
    ensures forall l, r :: l in inst.lv && r in inst.rv && !IsTeam(inst, l, r) ==> KeyVal(l, r) !in f && KeyVal(r, l) !in f
  {
  }

  /**
   * Residual capacities in a network whose flow encodes a matching: a source or sink edge
   * is usable forward exactly when its vertex is free, a team edge forward (left to right)
   * when unmatched and backward when matched.
   */
  lemma ResidualFacts(inst: Instance, f: map<Key, int>)
    requires WellFormed(inst) && Inv(inst, f)
    ensures forall l :: l in inst.lv ==> ResidualCapacity(f, SourceId, l) == 1 - Flow(f, SourceId, l)
    ensures forall l :: l in inst.lv ==> ResidualCapacity(f, l, SourceId) == Flow(f, SourceId, l)
    ensures forall r :: r in inst.rv ==> ResidualCapacity(f, r, SinkId) == 1 - Flow(f, r, SinkId)
    ensures forall l, r :: IsTeam(inst, l, r) ==> ResidualCapacity(f, l, r) == 1 - Flow(f, l, r)
    ensures forall l, r :: IsTeam(inst, l, r) ==> ResidualCapacity(f, r, l) == Flow(f, l, r)
  {
    KeyFacts(inst, f);
    forall l | l in inst.lv
      ensures ResidualCapacity(f, SourceId, l) == 1 - Flow(f, SourceId, l)
      ensures ResidualCapacity(f, l, SourceId) == Flow(f, SourceId, l)
    {
      ResidualOfStoredEdge(f, SourceId, l);
    }
    forall r | r in inst.rv
      ensures ResidualCapacity(f, r, SinkId) == 1 - Flow(f, r, SinkId)
    {
      ResidualOfStoredEdge(f, r, SinkId);
    }
    forall l, r | IsTeam(inst, l, r)
      ensures ResidualCapacity(f, l, r) == 1 - Flow(f, l, r)
      ensures ResidualCapacity(f, r, l) == Flow(f, l, r)
    {
      ResidualOfStoredEdge(f, l, r);
    }
  }

  // ---------------------------------------------------------------------------------------
  // Augmenting paths

  /**
   * An augmenting path S, ls[0], rs[0], ls[1], rs[1], ..., rs[k-1], T: it starts at a free
   * left vertex, ends at a free right vertex, and uses unmatched teams (ls[j], rs[j]) forward
   * and matched teams (ls[j+1], rs[j]) backward.
   */
  ghost predicate AltPath(inst: Instance, f: map<Key, int>, ls: seq<int>, rs: seq<int>)
  {
    |ls| == |rs| > 0 && Distinct(ls) && Distinct(rs) &&
    (forall j :: 0 <= j < |ls| ==> ls[j] in inst.lv && rs[j] in inst.rv) &&
    Flow(f, SourceId, ls[0]) == 0 && Flow(f, rs[|rs| - 1], SinkId) == 0 &&
    (forall j :: 0 <= j < |ls| ==> IsTeam(inst, ls[j], rs[j]) && Flow(f, ls[j], rs[j]) == 0) &&
    (forall j :: 0 <= j < |ls| - 1 ==> IsTeam(inst, ls[j + 1], rs[j]) && Flow(f, ls[j + 1], rs[j]) == 1)
  }

  /** The stored edges an augmenting path runs along. */
  function FlipSet(ls: seq<int>, rs: seq<int>): set<Key>
    requires |ls| == |rs| > 0
  {
    {KeyVal(SourceId, ls[0]), KeyVal(rs[|rs| - 1], SinkId)} +
    (set j | 0 <= j < |ls| :: KeyVal(ls[j], rs[j])) +
    (set j | 0 <= j < |ls| - 1 :: KeyVal(ls[j + 1], rs[j]))
  }

  /** The table after flipping every stored edge whose key is in K (and no other). */
  function FlipKeys(f: map<Key, int>, K: set<Key>): (f': map<Key, int>)
    ensures f'.Keys == f.Keys
  {
    map k | k in f :: if k in K then Flipped(f[k]) else f[k]
  }

  /** Flipping one more key, not flipped before, extends the flipped set. */
  lemma FlipOneMore(f: map<Key, int>, K: set<Key>, k: Key)
    requires k in f && k !in K
    ensures FlipKeys(f, K)[k := Flipped(f[k])] == FlipKeys(f, K + {k})
  {
  }

  /** A matched team at a left vertex of the path is the backward team just before it. */
  lemma MatchedAtPathLeft(inst: Instance, f: map<Key, int>, ls: seq<int>, rs: seq<int>, j: int, r: int)
    requires WellFormed(inst) && Inv(inst, f) && AltPath(inst, f, ls, rs)
    requires 0 <= j < |ls| && MatchedPair(inst, f, ls[j], r)
    ensures 1 <= j && r == rs[j - 1]
  {
    assert ls[j] in inst.lv;
    assert Flow(f, SourceId, ls[j]) == 1;
    assert j != 0;
    assert IsTeam(inst, ls[(j - 1) + 1], rs[j - 1]) && Flow(f, ls[(j - 1) + 1], rs[j - 1]) == 1;
    assert MatchedPair(inst, f, ls[j], rs[j - 1]);
  }

  /** A matched team at a right vertex of the path is the backward team just after it. */
  lemma MatchedAtPathRight(inst: Instance, f: map<Key, int>, ls: seq<int>, rs: seq<int>, j: int, l: int)
    requires WellFormed(inst) && Inv(inst, f) && AltPath(inst, f, ls, rs)
    requires 0 <= j < |rs| && MatchedPair(inst, f, l, rs[j])
    ensures j < |rs| - 1 && l == ls[j + 1]
  {
    assert rs[j] in inst.rv;
    assert Flow(f, rs[j], SinkId) == 1;
    assert j != |rs| - 1;
    assert IsTeam(inst, ls[j + 1], rs[j]) && Flow(f, ls[j + 1], rs[j]) == 1;
    assert MatchedPair(inst, f, ls[j + 1], rs[j]);
  }

  /** A matched team touches the path at both ends or not at all. */
  lemma OldPairOnPath(inst: Instance, f: map<Key, int>, ls: seq<int>, rs: seq<int>, l: int, r: int)
    requires WellFormed(inst) && Inv(inst, f) && AltPath(inst, f, ls, rs)
    requires MatchedPair(inst, f, l, r)
    ensures l in ls <==> r in rs
    ensures l in ls ==> exists j :: 0 <= j < |ls| - 1 && l == ls[j + 1] && r == rs[j]
  {
    if l in ls {
      var j :| 0 <= j < |ls| && ls[j] == l;
      MatchedAtPathLeft(inst, f, ls, rs, j, r);
      assert l == ls[(j - 1) + 1] && r == rs[j - 1];
    }
    if r in rs {
      var j :| 0 <= j < |rs| && rs[j] == r;
      MatchedAtPathRight(inst, f, ls, rs, j, l);
    }
  }

  /** The team keys among the flipped ones all start at a left vertex of the path. */
  lemma FlipSetTeamKey(ls: seq<int>, rs: seq<int>, l: int, r: int)
    requires |ls| == |rs| > 0
    requires l != SourceId && r != SinkId
    ensures KeyVal(l, r) in FlipSet(ls, rs) <==>
      (exists j :: 0 <= j < |ls| && l == ls[j] && r == rs[j]) ||
      (exists j :: 0 <= j < |ls| - 1 && l == ls[j + 1] && r == rs[j])
  {
  }

  /** The flow on a team after augmenting. */
  lemma AugmentedTeamFlow(inst: Instance, f: map<Key, int>, ls: seq<int>, rs: seq<int>, l: int, r: int)
    requires WellFormed(inst) && Inv(inst, f) && AltPath(inst, f, ls, rs) && IsTeam(inst, l, r)
    ensures MatchedPair(inst, FlipKeys(f, FlipSet(ls, rs)), l, r) <==>
      (MatchedPair(inst, f, l, r) && l !in ls) || (exists j :: 0 <= j < |ls| && l == ls[j] && r == rs[j])
  {
    var K := FlipSet(ls, rs);
    var f' := FlipKeys(f, K);
    KeyFacts(inst, f);
    assert KeyVal(l, r) in f;
    FlipSetTeamKey(ls, rs, l, r);
    var forward := exists j :: 0 <= j < |ls| && l == ls[j] && r == rs[j];
    var backward := exists j :: 0 <= j < |ls| - 1 && l == ls[j + 1] && r == rs[j];
    if forward {
      ForwardHopFlow(inst, f, ls, rs, l, r);
    }
    if backward {
      BackwardHopFlow(inst, f, ls, rs, l, r);
    }
    if MatchedPair(inst, f, l, r) {
      OldPairOnPath(inst, f, ls, rs, l, r);
    }
    assert f'[KeyVal(l, r)] == if KeyVal(l, r) in K then Flipped(f[KeyVal(l, r)]) else f[KeyVal(l, r)];
  }

  /** A forward hop of an augmenting path carries no flow. */
  lemma ForwardHopFlow(inst: Instance, f: map<Key, int>, ls: seq<int>, rs: seq<int>, l: int, r: int)
    requires AltPath(inst, f, ls, rs) && exists j :: 0 <= j < |ls| && l == ls[j] && r == rs[j]
    ensures Flow(f, l, r) == 0
  {
    var j :| 0 <= j < |ls| && l == ls[j] && r == rs[j];
  }

  /** A backward hop of an augmenting path carries flow. */
  lemma BackwardHopFlow(inst: Instance, f: map<Key, int>, ls: seq<int>, rs: seq<int>, l: int, r: int)
    requires AltPath(inst, f, ls, rs) && exists j :: 0 <= j < |ls| - 1 && l == ls[j + 1] && r == rs[j]
    ensures Flow(f, l, r) == 1
  {
    var j :| 0 <= j < |ls| - 1 && l == ls[j + 1] && r == rs[j];
  }

  /** Among the flipped keys, the only source edge and the only sink edge are the path's ends. */
  lemma FlipSetEndKeys(ls: seq<int>, rs: seq<int>)
    requires |ls| == |rs| > 0
    requires forall j :: 0 <= j < |ls| ==> ls[j] <= MaxNormalId && rs[j] <= MaxNormalId
    ensures forall l :: KeyVal(SourceId, l) in FlipSet(ls, rs) <==> l == ls[0]
    ensures forall r :: KeyVal(r, SinkId) in FlipSet(ls, rs) <==> r == rs[|rs| - 1]
  {
  }

  /** The source and sink edges after augmenting: only the path's two ends change. */
  lemma AugmentedEndFlows(inst: Instance, f: map<Key, int>, ls: seq<int>, rs: seq<int>)
    requires WellFormed(inst) && f.Keys == Keys(inst) && AltPath(inst, f, ls, rs)
    ensures forall l :: l in inst.lv ==>
      Flow(FlipKeys(f, FlipSet(ls, rs)), SourceId, l) == if l == ls[0] then 1 else Flow(f, SourceId, l)
    ensures forall r :: r in inst.rv ==>
      Flow(FlipKeys(f, FlipSet(ls, rs)), r, SinkId) == if r == rs[|rs| - 1] then 1 else Flow(f, r, SinkId)
  {
    var K := FlipSet(ls, rs);
    KeyFacts(inst, f);
    FlipSetEndKeys(ls, rs);
    assert KeyVal(SourceId, ls[0]) in f && KeyVal(rs[|rs| - 1], SinkId) in f;
  }

  lemma AugmentedUniqueMates(inst: Instance, f: map<Key, int>, ls: seq<int>, rs: seq<int>)
    requires WellFormed(inst) && Inv(inst, f) && AltPath(inst, f, ls, rs)
    ensures forall l, r1, r2 ::
      MatchedPair(inst, FlipKeys(f, FlipSet(ls, rs)), l, r1) && MatchedPair(inst, FlipKeys(f, FlipSet(ls, rs)), l, r2)
      ==> r1 == r2
    ensures forall l1, l2, r ::
      MatchedPair(inst, FlipKeys(f, FlipSet(ls, rs)), l1, r) && MatchedPair(inst, FlipKeys(f, FlipSet(ls, rs)), l2, r)
      ==> l1 == l2
  {
    AugmentedUniqueProject(inst, f, ls, rs);
    AugmentedUniqueEmployee(inst, f, ls, rs);
  }

  /** After augmenting, an employee is matched to one project at most. */
  lemma AugmentedUniqueProject(inst: Instance, f: map<Key, int>, ls: seq<int>, rs: seq<int>)
    requires WellFormed(inst) && Inv(inst, f) && AltPath(inst, f, ls, rs)
    ensures forall l, r1, r2 ::
      MatchedPair(inst, FlipKeys(f, FlipSet(ls, rs)), l, r1) && MatchedPair(inst, FlipKeys(f, FlipSet(ls, rs)), l, r2)
      ==> r1 == r2
  {
    var f' := FlipKeys(f, FlipSet(ls, rs));
    forall l, r1, r2 | MatchedPair(inst, f', l, r1) && MatchedPair(inst, f', l, r2)
      ensures r1 == r2
    {
      AugmentedTeamFlow(inst, f, ls, rs, l, r1);
      AugmentedTeamFlow(inst, f, ls, rs, l, r2);
    }
  }

  /** After augmenting, a project is matched to one employee at most. */
  lemma AugmentedUniqueEmployee(inst: Instance, f: map<Key, int>, ls: seq<int>, rs: seq<int>)
    requires WellFormed(inst) && Inv(inst, f) && AltPath(inst, f, ls, rs)
    ensures forall l1, l2, r ::
      MatchedPair(inst, FlipKeys(f, FlipSet(ls, rs)), l1, r) && MatchedPair(inst, FlipKeys(f, FlipSet(ls, rs)), l2, r)
      ==> l1 == l2
  {
    var f' := FlipKeys(f, FlipSet(ls, rs));
    forall l1, l2, r | MatchedPair(inst, f', l1, r) && MatchedPair(inst, f', l2, r)
      ensures l1 == l2
    {
      AugmentedTeamFlow(inst, f, ls, rs, l1, r);
      AugmentedTeamFlow(inst, f, ls, rs, l2, r);
      SameProjectSameEmployee(inst, f, ls, rs, l1, l2, r);
    }
  }

  /** Two employees matched to one project after augmenting, each by the path or from before it, are one. */
  lemma SameProjectSameEmployee(inst: Instance, f: map<Key, int>, ls: seq<int>, rs: seq<int>, l1: int, l2: int, r: int)
    requires WellFormed(inst) && Inv(inst, f) && AltPath(inst, f, ls, rs)
    requires (MatchedPair(inst, f, l1, r) && l1 !in ls) || (exists j :: 0 <= j < |ls| && l1 == ls[j] && r == rs[j])
    requires (MatchedPair(inst, f, l2, r) && l2 !in ls) || (exists j :: 0 <= j < |ls| && l2 == ls[j] && r == rs[j])
    ensures l1 == l2
  {
    if MatchedPair(inst, f, l1, r) && l1 !in ls {
      OldPairOnPath(inst, f, ls, rs, l1, r);
    }
    if MatchedPair(inst, f, l2, r) && l2 !in ls {
      OldPairOnPath(inst, f, ls, rs, l2, r);
    }
    if r in rs {
      var j1 :| 0 <= j1 < |ls| && l1 == ls[j1] && r == rs[j1];
      var j2 :| 0 <= j2 < |ls| && l2 == ls[j2] && r == rs[j2];
      assert j1 == j2;
    }
  }

  lemma AugmentedSourceSide(inst: Instance, f: map<Key, int>, ls: seq<int>, rs: seq<int>, l: int)
    requires WellFormed(inst) && Inv(inst, f) && AltPath(inst, f, ls, rs) && l in inst.lv
    ensures Flow(FlipKeys(f, FlipSet(ls, rs)), SourceId, l) == 1 <==>
      exists r :: MatchedPair(inst, FlipKeys(f, FlipSet(ls, rs)), l, r)
  {
    var f' := FlipKeys(f, FlipSet(ls, rs));
    AugmentedEndFlows(inst, f, ls, rs);
    if l in ls {
      var j :| 0 <= j < |ls| && ls[j] == l;
      AugmentedTeamFlow(inst, f, ls, rs, l, rs[j]);
      assert MatchedPair(inst, f', l, rs[j]);
      if j > 0 {
        assert IsTeam(inst, ls[(j - 1) + 1], rs[j - 1]) && Flow(f, ls[(j - 1) + 1], rs[j - 1]) == 1;
        assert MatchedPair(inst, f, l, rs[j - 1]);
      }
    } else {
      assert Flow(f', SourceId, l) == Flow(f, SourceId, l);
      if Flow(f, SourceId, l) == 1 {
        var r :| MatchedPair(inst, f, l, r);
        AugmentedTeamFlow(inst, f, ls, rs, l, r);
        assert MatchedPair(inst, f', l, r);
      }
      if exists r :: MatchedPair(inst, f', l, r) {
        var r :| MatchedPair(inst, f', l, r);
        AugmentedTeamFlow(inst, f, ls, rs, l, r);
        assert MatchedPair(inst, f, l, r);
      }
    }
  }

  lemma AugmentedSinkSide(inst: Instance, f: map<Key, int>, ls: seq<int>, rs: seq<int>, r: int)
    requires WellFormed(inst) && Inv(inst, f) && AltPath(inst, f, ls, rs) && r in inst.rv
    ensures Flow(FlipKeys(f, FlipSet(ls, rs)), r, SinkId) == 1 <==>
      exists l :: MatchedPair(inst, FlipKeys(f, FlipSet(ls, rs)), l, r)
  {
    if r in rs {
      SinkSideOnPath(inst, f, ls, rs, r);
    } else {
      SinkSideOffPath(inst, f, ls, rs, r);
    }
  }

  /** An employee on the augmenting path ends up matched, with flow to the sink. */
  lemma SinkSideOnPath(inst: Instance, f: map<Key, int>, ls: seq<int>, rs: seq<int>, r: int)
    requires WellFormed(inst) && Inv(inst, f) && AltPath(inst, f, ls, rs) && r in rs
    ensures Flow(FlipKeys(f, FlipSet(ls, rs)), r, SinkId) == 1
    ensures exists l :: MatchedPair(inst, FlipKeys(f, FlipSet(ls, rs)), l, r)
  {
    var f' := FlipKeys(f, FlipSet(ls, rs));
    AugmentedEndFlows(inst, f, ls, rs);
    var j :| 0 <= j < |rs| && rs[j] == r;
    AugmentedTeamFlow(inst, f, ls, rs, ls[j], r);
    assert MatchedPair(inst, f', ls[j], r);
    if j < |rs| - 1 {
      assert MatchedPair(inst, f, ls[j + 1], r);
    }
  }

  /** An employee off the augmenting path keeps its sink edge and its partner. */
  lemma SinkSideOffPath(inst: Instance, f: map<Key, int>, ls: seq<int>, rs: seq<int>, r: int)
    requires WellFormed(inst) && Inv(inst, f) && AltPath(inst, f, ls, rs) && r in inst.rv && r !in rs
    ensures Flow(FlipKeys(f, FlipSet(ls, rs)), r, SinkId) == 1 <==>
      exists l :: MatchedPair(inst, FlipKeys(f, FlipSet(ls, rs)), l, r)
  {
    if Flow(FlipKeys(f, FlipSet(ls, rs)), r, SinkId) == 1 {
      OffPathKeepsPartner(inst, f, ls, rs, r);
    }
    if exists l :: MatchedPair(inst, FlipKeys(f, FlipSet(ls, rs)), l, r) {
      OffPathKeepsSinkEdge(inst, f, ls, rs, r);
    }
  }

  /** Off the path, the sink edge keeps its flow. */
  lemma OffPathSinkFlow(inst: Instance, f: map<Key, int>, ls: seq<int>, rs: seq<int>, r: int)
    requires WellFormed(inst) && Inv(inst, f) && AltPath(inst, f, ls, rs) && r in inst.rv && r !in rs
    ensures Flow(FlipKeys(f, FlipSet(ls, rs)), r, SinkId) == Flow(f, r, SinkId)
  {
    AugmentedEndFlows(inst, f, ls, rs);
  }

  /** An employee off the path with flow to the sink after augmenting still has its old partner. */
  lemma OffPathKeepsPartner(inst: Instance, f: map<Key, int>, ls: seq<int>, rs: seq<int>, r: int)
    requires WellFormed(inst) && Inv(inst, f) && AltPath(inst, f, ls, rs) && r in inst.rv && r !in rs
    requires Flow(FlipKeys(f, FlipSet(ls, rs)), r, SinkId) == 1
    ensures exists l :: MatchedPair(inst, FlipKeys(f, FlipSet(ls, rs)), l, r)
  {
    OffPathSinkFlow(inst, f, ls, rs, r);
    var l :| MatchedPair(inst, f, l, r);
    OldPairOnPath(inst, f, ls, rs, l, r);
    AugmentedTeamFlow(inst, f, ls, rs, l, r);
    assert MatchedPair(inst, FlipKeys(f, FlipSet(ls, rs)), l, r);
  }

  /** An employee off the path matched after augmenting was matched before, so its sink edge is full. */
  lemma OffPathKeepsSinkEdge(inst: Instance, f: map<Key, int>, ls: seq<int>, rs: seq<int>, r: int)
    requires WellFormed(inst) && Inv(inst, f) && AltPath(inst, f, ls, rs) && r in inst.rv && r !in rs
    requires exists l :: MatchedPair(inst, FlipKeys(f, FlipSet(ls, rs)), l, r)
    ensures Flow(FlipKeys(f, FlipSet(ls, rs)), r, SinkId) == 1
  {
    OffPathSinkFlow(inst, f, ls, rs, r);
    var l :| MatchedPair(inst, FlipKeys(f, FlipSet(ls, rs)), l, r);
    AugmentedTeamFlow(inst, f, ls, rs, l, r);
    assert MatchedPair(inst, f, l, r);
  }

  lemma AugmentedInv(inst: Instance, f: map<Key, int>, ls: seq<int>, rs: seq<int>)
    requires WellFormed(inst) && Inv(inst, f) && AltPath(inst, f, ls, rs)
    ensures Inv(inst, FlipKeys(f, FlipSet(ls, rs)))
  {
    var f' := FlipKeys(f, FlipSet(ls, rs));
    AugmentedUniqueMates(inst, f, ls, rs);
    forall l | l in inst.lv
      ensures Flow(f', SourceId, l) == 1 <==> exists r :: MatchedPair(inst, f', l, r)
    {
      AugmentedSourceSide(inst, f, ls, rs, l);
    }
    forall r | r in inst.rv
      ensures Flow(f', r, SinkId) == 1 <==> exists l :: MatchedPair(inst, f', l, r)
    {
      AugmentedSinkSide(inst, f, ls, rs, r);
    }
    assert UnitFlows(f');
  }

  lemma AugmentedMatchedSets(inst: Instance, f: map<Key, int>, ls: seq<int>, rs: seq<int>)
    requires WellFormed(inst) && f.Keys == Keys(inst) && AltPath(inst, f, ls, rs)
    ensures MatchedL(inst, FlipKeys(f, FlipSet(ls, rs))) == MatchedL(inst, f) + {ls[0]}
    ensures MatchedR(inst, FlipKeys(f, FlipSet(ls, rs))) == MatchedR(inst, f) + {rs[|rs| - 1]}
  {
    AugmentedEndFlows(inst, f, ls, rs);
    MatchedSetsGrow(inst, f, FlipKeys(f, FlipSet(ls, rs)), ls[0], rs[|rs| - 1]);
  }

  lemma MatchedSetsGrow(inst: Instance, f: map<Key, int>, f': map<Key, int>, a: int, b: int)
    requires a in inst.lv && b in inst.rv
    requires forall l :: l in inst.lv ==> Flow(f', SourceId, l) == if l == a then 1 else Flow(f, SourceId, l)
    requires forall r :: r in inst.rv ==> Flow(f', r, SinkId) == if r == b then 1 else Flow(f, r, SinkId)
    ensures MatchedL(inst, f') == MatchedL(inst, f) + {a}
    ensures MatchedR(inst, f') == MatchedR(inst, f) + {b}
  {
  }

  /**
   * Flipping the flow along an augmenting path keeps it a matching, one team larger: the
   * path's first left vertex and last right vertex become matched and nothing else changes
   * side.
   */
  lemma Augment(inst: Instance, f: map<Key, int>, ls: seq<int>, rs: seq<int>)
    requires WellFormed(inst) && Inv(inst, f) && AltPath(inst, f, ls, rs)
    ensures Inv(inst, FlipKeys(f, FlipSet(ls, rs)))
    ensures ls[0] !in MatchedL(inst, f) && MatchedL(inst, FlipKeys(f, FlipSet(ls, rs))) == MatchedL(inst, f) + {ls[0]}
    ensures rs[|rs| - 1] !in MatchedR(inst, f) &&
      MatchedR(inst, FlipKeys(f, FlipSet(ls, rs))) == MatchedR(inst, f) + {rs[|rs| - 1]}
  {
    AugmentedInv(inst, f, ls, rs);
    AugmentedMatchedSets(inst, f, ls, rs);
  }

  // ---------------------------------------------------------------------------------------
  // The greedy seed (setupInitialMatching)

  /** Every vertex of the network has a slot in the solver's arrays. */
  lemma SlotInRange(inst: Instance, x: int)
    requires WellFormed(inst) && x in NetIds(inst)
    ensures 0 <= IdxOf(x) < MaxNumVertices
  {
  }

  /** A free left vertex sends no flow along any of its teams. */
  lemma FreeLeftCarriesNoFlow(inst: Instance, f: map<Key, int>, u: int, v: int)
    requires WellFormed(inst) && Inv(inst, f)
    requires u in inst.lv && u !in MatchedL(inst, f) && IsTeam(inst, u, v)
    ensures Flow(f, u, v) == 0
  {
    KeyFacts(inst, f);
    assert KeyVal(u, v) in f;
    assert Flow(f, u, v) == 1 ==> MatchedPair(inst, f, u, v);
  }

  /** Setting three edges of flow 0 to 1 is flipping them. */
  lemma SetThreeIsFlip(f: map<Key, int>, a: Key, b: Key, c: Key)
    requires a in f && b in f && c in f && f[a] == 0 && f[b] == 0 && f[c] == 0
    ensures f[a := 1][b := 1][c := 1] == FlipKeys(f, {a, b, c})
  {
  }

  /**
   * Matching a free left vertex to a free right partner, by setting the source edge, the team
   * edge and the sink edge to 1, is augmenting along the one-team path: the flow still encodes
   * a matching, now with both vertices matched.
   */
  lemma GreedyStep(inst: Instance, f: map<Key, int>, u: int, v: int)
    requires WellFormed(inst) && Inv(inst, f)
    requires u in inst.lv && IsTeam(inst, u, v) && u !in MatchedL(inst, f) && v !in MatchedR(inst, f)
    ensures f[KeyVal(SourceId, u) := 1][KeyVal(u, v) := 1][KeyVal(v, SinkId) := 1] == FlipKeys(f, FlipSet([u], [v]))
    ensures Inv(inst, FlipKeys(f, FlipSet([u], [v])))
    ensures MatchedL(inst, FlipKeys(f, FlipSet([u], [v]))) == MatchedL(inst, f) + {u}
    ensures MatchedR(inst, FlipKeys(f, FlipSet([u], [v]))) == MatchedR(inst, f) + {v}
  {
    OneTeamPath(inst, f, u, v);
    Augment(inst, f, [u], [v]);
    FlipSetOfOneTeam(u, v);
    KeyFacts(inst, f);
    assert v in inst.rv;
    SetThreeIsFlip(f, KeyVal(SourceId, u), KeyVal(u, v), KeyVal(v, SinkId));
  }

  /** A free left vertex and a free right partner form an augmenting path of one team. */
  lemma OneTeamPath(inst: Instance, f: map<Key, int>, u: int, v: int)
    requires WellFormed(inst) && Inv(inst, f)
    requires u in inst.lv && IsTeam(inst, u, v) && u !in MatchedL(inst, f) && v !in MatchedR(inst, f)
    ensures AltPath(inst, f, [u], [v]) && Flow(f, u, v) == 0
  {
    FreeLeftCarriesNoFlow(inst, f, u, v);
    assert v in inst.rv;
  }

  lemma FlipSetOfOneTeam(u: int, v: int)
    ensures FlipSet([u], [v]) == {KeyVal(SourceId, u), KeyVal(u, v), KeyVal(v, SinkId)}
  {
    var ls, rs := [u], [v];
    var forward := set j | 0 <= j < |ls| :: KeyVal(ls[j], rs[j]);
    assert KeyVal(ls[0], rs[0]) in forward;
    assert forward == {KeyVal(u, v)};
  }

  // ---------------------------------------------------------------------------------------
  // Paths found by the search

  /**
   * processPath's choice of the stored edge for a hop from u to v: (u, v) when u comes first
   * by index or u is the source or sink, (v, u) otherwise.
   */
  function HopKey(u: int, v: int): Key
  {
    if IdxOf(u) < IdxOf(v) || u > MaxNormalId then KeyVal(u, v) else KeyVal(v, u)
  }

  /** The key processPath flips for the hop leaving position i of p. */
  function Hop(p: seq<int>, i: int): Key
    requires 0 <= i < |p| - 1
  {
    HopKey(p[i], p[i + 1])
  }

  function HopKeys(p: seq<int>): set<Key>
  {
    set i | 0 <= i < |p| - 1 :: Hop(p, i)
  }

  /** Every hop of the network picks the stored direction of its edge. */
  lemma HopKeyIsStored(l: int, r: int)
    requires MaxNyId - IdIdxDifference + 1 <= l <= MaxNyId && MaxNyId + 1 <= r <= MaxNormalId
    ensures HopKey(SourceId, l) == KeyVal(SourceId, l)
    ensures HopKey(l, r) == KeyVal(l, r) && HopKey(r, l) == KeyVal(l, r)
    ensures HopKey(r, SinkId) == KeyVal(r, SinkId)
  {
  }

  /** A simple path from source to sink along neighbour lists, every hop with residual capacity. */
  ghost predicate ResidualPath(inst: Instance, f: map<Key, int>, p: seq<int>)
  {
    |p| >= 2 && p[0] == SourceId && p[|p| - 1] == SinkId && Distinct(p) &&
    forall i :: 0 <= i < |p| - 1 ==> p[i + 1] in NetNeighbors(inst, p[i]) && ResidualCapacity(f, p[i], p[i + 1]) > 0
  }

  /**
   * A source-to-sink path that alternates: odd positions on the left, even ones on the right,
   * unmatched source and sink edges at its ends, unmatched teams forward and matched teams
   * backward.
   */
  ghost predicate AlternatingPath(inst: Instance, f: map<Key, int>, p: seq<int>)
  {
    |p| >= 4 && |p| % 2 == 0 && Distinct(p) &&
    (forall i :: 1 <= i < |p| - 1 ==> if i % 2 == 1 then p[i] in inst.lv else p[i] in inst.rv) &&
    Flow(f, SourceId, p[1]) == 0 && Flow(f, p[|p| - 2], SinkId) == 0 &&
    (forall i :: 1 <= i < |p| - 1 && i % 2 == 1 ==> IsTeam(inst, p[i], p[i + 1]) && Flow(f, p[i], p[i + 1]) == 0) &&
    (forall i :: 2 <= i < |p| - 2 && i % 2 == 0 ==> IsTeam(inst, p[i + 1], p[i]) && Flow(f, p[i + 1], p[i]) == 1)
  }

  /** Inside a residual path, odd positions hold left vertices and even positions right ones. */
  lemma {:induction false} PathPositions(inst: Instance, f: map<Key, int>, p: seq<int>, i: int)
    requires WellFormed(inst) && ResidualPath(inst, f, p) && 1 <= i < |p| - 1
    ensures i % 2 == 1 ==> p[i] in inst.lv
    ensures i % 2 == 0 ==> p[i] in inst.rv
    decreases i
  {
    var x, y := p[i - 1], p[i];
    assert y in NetNeighbors(inst, x);
    assert y != SourceId && y != SinkId by {
      assert p[0] == SourceId && p[|p| - 1] == SinkId;
    }
    if i > 1 {
      PathPositions(inst, f, p, i - 1);
      ParityFlip(i);
      if (i - 1) % 2 == 1 {
        LeftNeighbors(inst, x, y);
      } else {
        RightNeighbors(inst, x, y);
      }
    }
  }

  /** Consecutive positions have opposite parities. */
  lemma ParityFlip(i: int)
    ensures (i - 1) % 2 == 1 <==> i % 2 == 0
  {
  }

  /** A residual path has an even number of vertices: S, then left-right pairs, then T. */
  lemma PathLength(inst: Instance, f: map<Key, int>, p: seq<int>)
    requires WellFormed(inst) && ResidualPath(inst, f, p)
    ensures |p| >= 4 && |p| % 2 == 0
  {
    var n := |p|;
    assert SinkId in NetNeighbors(inst, p[n - 2]);
    assert SinkId !in inst.lv;
    if n >= 3 {
      PathPositions(inst, f, p, n - 2);
      if p[n - 2] in inst.lv {
        LeftNeighbors(inst, p[n - 2], SinkId);
      }
    }
  }

  /** What each hop of a residual path runs along. */
  lemma HopAt(inst: Instance, f: map<Key, int>, p: seq<int>, i: int)
    requires WellFormed(inst) && Inv(inst, f) && ResidualPath(inst, f, p) && 0 <= i < |p| - 1
    ensures i == 0 ==> Flow(f, SourceId, p[1]) == 0
    ensures i % 2 == 1 ==> IsTeam(inst, p[i], p[i + 1]) && Flow(f, p[i], p[i + 1]) == 0
    ensures i % 2 == 0 && 0 < i < |p| - 2 ==> IsTeam(inst, p[i + 1], p[i]) && Flow(f, p[i + 1], p[i]) == 1
    ensures i == |p| - 2 ==> Flow(f, p[i], SinkId) == 0
  {
    PathLength(inst, f, p);
    ResidualFacts(inst, f);
    KeyFacts(inst, f);
    var u, v := p[i], p[i + 1];
    assert v in NetNeighbors(inst, u) && ResidualCapacity(f, u, v) > 0;
    assert v != p[0] && u != p[|p| - 1];
    if i == 0 {
      assert v in inst.lv;
    } else {
      PathPositions(inst, f, p, i);
      if i % 2 == 1 {
        LeftNeighbors(inst, u, v);
        assert KeyVal(u, v) in f;
      } else if i < |p| - 2 {
        RightNeighbors(inst, u, v);
        assert KeyVal(v, u) in f;
      } else {
        assert KeyVal(u, SinkId) in f;
      }
    }
  }

  /** Under a flow that encodes a matching, every residual path alternates. */
  lemma ResidualPathAlternates(inst: Instance, f: map<Key, int>, p: seq<int>)
    requires WellFormed(inst) && Inv(inst, f) && ResidualPath(inst, f, p)
    ensures AlternatingPath(inst, f, p)
  {
    PathLength(inst, f, p);
    forall i | 1 <= i < |p| - 1
      ensures if i % 2 == 1 then p[i] in inst.lv else p[i] in inst.rv
    {
      PathPositions(inst, f, p, i);
    }
    forall i | 1 <= i < |p| - 1 && i % 2 == 1
      ensures IsTeam(inst, p[i], p[i + 1]) && Flow(f, p[i], p[i + 1]) == 0
    {
      HopAt(inst, f, p, i);
    }
    forall i | 2 <= i < |p| - 2 && i % 2 == 0
      ensures IsTeam(inst, p[i + 1], p[i]) && Flow(f, p[i + 1], p[i]) == 1
    {
      HopAt(inst, f, p, i);
    }
    HopAt(inst, f, p, 0);
    HopAt(inst, f, p, |p| - 2);
  }

  /** Reading an alternating path as its left and right vertices. */
  lemma AlternatingIsAugmenting(inst: Instance, f: map<Key, int>, p: seq<int>) returns (ls: seq<int>, rs: seq<int>)
    requires AlternatingPath(inst, f, p)
    ensures |ls| == |rs| == (|p| - 2) / 2
    ensures forall j :: 0 <= j < |ls| ==> ls[j] == p[2 * j + 1] && rs[j] == p[2 * j + 2]
    ensures AltPath(inst, f, ls, rs)
  {
    var k := (|p| - 2) / 2;
    EvenLength(|p|, k);
    ls := EveryOther(p, 1, k);
    rs := EveryOther(p, 2, k);
    forall j | 0 <= j < k
      ensures ls[j] in inst.lv && rs[j] in inst.rv
      ensures IsTeam(inst, ls[j], rs[j]) && Flow(f, ls[j], rs[j]) == 0
    {
      ForwardHop(inst, f, p, j);
    }
    forall j | 0 <= j < k - 1
      ensures IsTeam(inst, ls[j + 1], rs[j]) && Flow(f, ls[j + 1], rs[j]) == 1
    {
      BackwardHop(inst, f, p, j);
      assert ls[j + 1] == p[2 * j + 3];
    }
    assert ls[0] == p[1] && rs[k - 1] == p[|p| - 2];
    StrideDistinct(p, ls, 1);
    StrideDistinct(p, rs, 2);
  }

  /** The elements at positions offset, offset + 2, ..., offset + 2(k - 1). */
  function EveryOther(p: seq<int>, offset: nat, k: nat): (s: seq<int>)
    requires offset + 2 * k <= |p| + 1
    ensures |s| == k && forall j :: 0 <= j < k ==> s[j] == p[2 * j + offset]
  {
    if k == 0 then [] else EveryOther(p, offset, k - 1) + [p[2 * (k - 1) + offset]]
  }

  /** The j-th forward hop of an alternating path joins a project to a team member over an empty edge. */
  lemma ForwardHop(inst: Instance, f: map<Key, int>, p: seq<int>, j: int)
    requires AlternatingPath(inst, f, p) && 0 <= j && 2 * j + 2 < |p| - 1
    ensures p[2 * j + 1] in inst.lv && p[2 * j + 2] in inst.rv
    ensures IsTeam(inst, p[2 * j + 1], p[2 * j + 2]) && Flow(f, p[2 * j + 1], p[2 * j + 2]) == 0
  {
    Parity(j);
  }

  /** The j-th backward hop of an alternating path runs against a full edge. */
  lemma BackwardHop(inst: Instance, f: map<Key, int>, p: seq<int>, j: int)
    requires AlternatingPath(inst, f, p) && 0 <= j && 2 * j + 2 < |p| - 2
    ensures IsTeam(inst, p[2 * j + 3], p[2 * j + 2]) && Flow(f, p[2 * j + 3], p[2 * j + 2]) == 1
  {
    Parity(j);
  }

  /** Every other element of a sequence without repeats, from some offset, has no repeats either. */
  lemma StrideDistinct(p: seq<int>, s: seq<int>, offset: int)
    requires Distinct(p) && 0 <= offset
    requires forall j :: 0 <= j < |s| ==> 2 * j + offset < |p| && s[j] == p[2 * j + offset]
    ensures Distinct(s)
  {
    forall a, b | 0 <= a < b < |s|
      ensures s[a] != s[b]
    {
      assert p[2 * a + offset] != p[2 * b + offset];
    }
  }

  /** 2j + 1 is odd and 2j + 2 is even. */
  lemma Parity(j: int)
    ensures (2 * j + 1) % 2 == 1 && (2 * j + 2) % 2 == 0
  {
  }

  /** Ids in the ranges of the two sides. */
  predicate SideRanges(ls: seq<int>, rs: seq<int>)
  {
    (forall j :: 0 <= j < |ls| ==> MaxNyId - IdIdxDifference + 1 <= ls[j] <= MaxNyId) &&
    (forall j :: 0 <= j < |rs| ==> MaxNyId + 1 <= rs[j] <= MaxNormalId)
  }

  lemma SideRangesOf(inst: Instance, ls: seq<int>, rs: seq<int>)
    requires WellFormed(inst)
    requires forall j :: 0 <= j < |ls| ==> ls[j] in inst.lv
    requires forall j :: 0 <= j < |rs| ==> rs[j] in inst.rv
    ensures SideRanges(ls, rs)
  {
  }

  /** The key picked for each hop of an alternating path. */
  lemma AlternatingHops(p: seq<int>, ls: seq<int>, rs: seq<int>)
    requires |p| >= 4 && |p| % 2 == 0 && p[0] == SourceId && p[|p| - 1] == SinkId
    requires |ls| == |rs| == (|p| - 2) / 2 && SideRanges(ls, rs)
    requires forall j :: 0 <= j < |ls| ==> ls[j] == p[2 * j + 1] && rs[j] == p[2 * j + 2]
    ensures Hop(p, 0) == KeyVal(SourceId, ls[0])
    ensures Hop(p, |p| - 2) == KeyVal(rs[|rs| - 1], SinkId)
    ensures forall j :: 0 <= j < |ls| ==> Hop(p, 2 * j + 1) == KeyVal(ls[j], rs[j])
    ensures forall j :: 0 <= j < |ls| - 1 ==> Hop(p, 2 * j + 2) == KeyVal(ls[j + 1], rs[j])
  {
    var k := |ls|;
    HopKeyIsStored(ls[0], rs[k - 1]);
    assert |p| - 2 == 2 * (k - 1) + 2;
    forall j | 0 <= j < k
      ensures Hop(p, 2 * j + 1) == KeyVal(ls[j], rs[j])
    {
      HopKeyIsStored(ls[j], rs[j]);
    }
    forall j | 0 <= j < k - 1
      ensures Hop(p, 2 * j + 2) == KeyVal(ls[j + 1], rs[j])
    {
      HopKeyIsStored(ls[j + 1], rs[j]);
    }
  }

  /** The key of one hop of an alternating path is among the edges the path runs along. */
  lemma HopInFlipSet(p: seq<int>, ls: seq<int>, rs: seq<int>, i: int)
    requires |p| >= 4 && |p| % 2 == 0 && |ls| == |rs| == (|p| - 2) / 2 && 0 <= i < |p| - 1
    requires Hop(p, 0) == KeyVal(SourceId, ls[0])
    requires Hop(p, |p| - 2) == KeyVal(rs[|rs| - 1], SinkId)
    requires forall j :: 0 <= j < |ls| ==> Hop(p, 2 * j + 1) == KeyVal(ls[j], rs[j])
    requires forall j :: 0 <= j < |ls| - 1 ==> Hop(p, 2 * j + 2) == KeyVal(ls[j + 1], rs[j])
    ensures Hop(p, i) in FlipSet(ls, rs)
  {
    var k := |ls|;
    EvenLength(|p|, k);
    if i == 0 {
      EndsInFlipSet(ls, rs);
    } else if i == |p| - 2 {
      EndsInFlipSet(ls, rs);
    } else if i % 2 == 1 {
      var j := ForwardLeg(i, k);
      assert Hop(p, i) == Hop(p, 2 * j + 1) == KeyVal(ls[j], rs[j]);
      ForwardLegInFlipSet(ls, rs, j);
    } else {
      var j := BackwardLeg(i, k);
      assert Hop(p, i) == Hop(p, 2 * j + 2) == KeyVal(ls[j + 1], rs[j]);
      BackwardLegInFlipSet(ls, rs, j);
    }
  }

  /** A path through k teams has 2k + 2 vertices. */
  lemma EvenLength(n: int, k: int)
    requires n >= 4 && n % 2 == 0 && k == (n - 2) / 2
    ensures n == 2 * k + 2
  {
  }

  /** An odd hop index i below 2k is the forward leg (i - 1) / 2 of a path through k teams. */
  lemma ForwardLeg(i: int, k: int) returns (j: int)
    requires 0 < i < 2 * k && i % 2 == 1
    ensures 0 <= j < k && i == 2 * j + 1
  {
    j := (i - 1) / 2;
  }

  /** An even hop index i strictly between 0 and 2k is the backward leg (i - 2) / 2. */
  lemma BackwardLeg(i: int, k: int) returns (j: int)
    requires 0 < i < 2 * k && i % 2 == 0
    ensures 0 <= j < k - 1 && i == 2 * j + 2
  {
    j := (i - 2) / 2;
  }

  lemma EndsInFlipSet(ls: seq<int>, rs: seq<int>)
    requires |ls| == |rs| > 0
    ensures KeyVal(SourceId, ls[0]) in FlipSet(ls, rs) && KeyVal(rs[|rs| - 1], SinkId) in FlipSet(ls, rs)
  {
  }

  lemma ForwardLegInFlipSet(ls: seq<int>, rs: seq<int>, j: int)
    requires |ls| == |rs| > 0 && 0 <= j < |ls|
    ensures KeyVal(ls[j], rs[j]) in FlipSet(ls, rs)
  {
    assert KeyVal(ls[j], rs[j]) in (set j | 0 <= j < |ls| :: KeyVal(ls[j], rs[j]));
  }

  lemma BackwardLegInFlipSet(ls: seq<int>, rs: seq<int>, j: int)
    requires |ls| == |rs| > 0 && 0 <= j < |ls| - 1
    ensures KeyVal(ls[j + 1], rs[j]) in FlipSet(ls, rs)
  {
    assert KeyVal(ls[j + 1], rs[j]) in (set j | 0 <= j < |ls| - 1 :: KeyVal(ls[j + 1], rs[j]));
  }

  lemma HopKeysWithinFlipSet(p: seq<int>, ls: seq<int>, rs: seq<int>)
    requires |p| >= 4 && |p| % 2 == 0 && |ls| == |rs| == (|p| - 2) / 2
    requires Hop(p, 0) == KeyVal(SourceId, ls[0])
    requires Hop(p, |p| - 2) == KeyVal(rs[|rs| - 1], SinkId)
    requires forall j :: 0 <= j < |ls| ==> Hop(p, 2 * j + 1) == KeyVal(ls[j], rs[j])
    requires forall j :: 0 <= j < |ls| - 1 ==> Hop(p, 2 * j + 2) == KeyVal(ls[j + 1], rs[j])
    ensures HopKeys(p) <= FlipSet(ls, rs)
  {
    forall i | 0 <= i < |p| - 1
      ensures Hop(p, i) in FlipSet(ls, rs)
    {
      HopInFlipSet(p, ls, rs, i);
    }
  }

  lemma FlipSetWithinHopKeys(p: seq<int>, ls: seq<int>, rs: seq<int>)
    requires |p| >= 4 && |p| % 2 == 0 && |ls| == |rs| == (|p| - 2) / 2
    requires Hop(p, 0) == KeyVal(SourceId, ls[0])
    requires Hop(p, |p| - 2) == KeyVal(rs[|rs| - 1], SinkId)
    requires forall j :: 0 <= j < |ls| ==> Hop(p, 2 * j + 1) == KeyVal(ls[j], rs[j])
    requires forall j :: 0 <= j < |ls| - 1 ==> Hop(p, 2 * j + 2) == KeyVal(ls[j + 1], rs[j])
    ensures FlipSet(ls, rs) <= HopKeys(p)
  {
    var k := |ls|;
    EvenLength(|p|, k);
    HopInHopKeys(p, 0);
    HopInHopKeys(p, |p| - 2);
    forall j | 0 <= j < k
      ensures KeyVal(ls[j], rs[j]) in HopKeys(p)
    {
      HopInHopKeys(p, 2 * j + 1);
    }
    forall j | 0 <= j < k - 1
      ensures KeyVal(ls[j + 1], rs[j]) in HopKeys(p)
    {
      HopInHopKeys(p, 2 * j + 2);
    }
  }

  lemma HopInHopKeys(p: seq<int>, i: int)
    requires 0 <= i < |p| - 1
    ensures Hop(p, i) in HopKeys(p)
  {
  }

  /**
   * A residual path in a network whose flow encodes a matching is an augmenting path, and
   * the keys processPath flips along it are exactly the edges the path runs along.
   */
  lemma PathIsAugmenting(inst: Instance, f: map<Key, int>, p: seq<int>) returns (ls: seq<int>, rs: seq<int>)
    requires WellFormed(inst) && Inv(inst, f) && ResidualPath(inst, f, p)
    ensures AltPath(inst, f, ls, rs)
    ensures HopKeys(p) == FlipSet(ls, rs)
  {
    ResidualPathAlternates(inst, f, p);
    ls, rs := AlternatingIsAugmenting(inst, f, p);
    SideRangesOf(inst, ls, rs);
    AlternatingHops(p, ls, rs);
    HopKeysWithinFlipSet(p, ls, rs);
    FlipSetWithinHopKeys(p, ls, rs);
  }

  // ---------------------------------------------------------------------------------------
  // The network as a graph for König's construction

  /** Between two employees, konigDFS's matched test holds exactly for a team carrying flow. */
  lemma MatchedInNet(inst: Instance, f: map<Key, int>, x: int, y: int)
    requires WellFormed(inst) && Inv(inst, f)
    requires x in LSet(inst) + RSet(inst) && y in LSet(inst) + RSet(inst)
    ensures Matched(NetGraph(inst, f), x, y) <==> MatchedPair(inst, f, x, y) || MatchedPair(inst, f, y, x)
  {
    KeyFacts(inst, f);
  }

  /** A left vertex has flow from the source exactly when it has a mate. */
  lemma SourceFlowIsMate(inst: Instance, f: map<Key, int>, l: int)
    requires WellFormed(inst) && Inv(inst, f) && l in inst.lv
    ensures l in MatchedL(inst, f) <==> HasMate(NetGraph(inst, f), LSet(inst) + RSet(inst), l)
  {
    var g, sides := NetGraph(inst, f), LSet(inst) + RSet(inst);
    if l in MatchedL(inst, f) {
      var r :| MatchedPair(inst, f, l, r);
      MatchedInNet(inst, f, l, r);
      assert r in sides;
    }
    if HasMate(g, sides, l) {
      var y :| y in sides && Matched(g, l, y);
      MatchedInNet(inst, f, l, y);
      assert MatchedPair(inst, f, l, y);
    }
  }

  /** A right vertex has flow into the sink exactly when it has a mate. */
  lemma SinkFlowIsMate(inst: Instance, f: map<Key, int>, r: int)
    requires WellFormed(inst) && Inv(inst, f) && r in inst.rv
    ensures r in MatchedR(inst, f) <==> HasMate(NetGraph(inst, f), LSet(inst) + RSet(inst), r)
  {
    var g, sides := NetGraph(inst, f), LSet(inst) + RSet(inst);
    if r in MatchedR(inst, f) {
      var l :| MatchedPair(inst, f, l, r);
      MatchedInNet(inst, f, r, l);
      assert l in sides;
    }
    if HasMate(g, sides, r) {
      var y :| y in sides && Matched(g, r, y);
      MatchedInNet(inst, f, r, y);
      assert MatchedPair(inst, f, y, r);
    }
  }

  /** matches as computeMatchset leaves it is the set König's construction expects. */
  lemma NetMatchesOk(inst: Instance, f: map<Key, int>)
    requires WellFormed(inst) && Inv(inst, f)
    ensures MatchesOk(NetGraph(inst, f), LSet(inst), RSet(inst), MatchedL(inst, f) + MatchedR(inst, f))
  {
    forall x | x in LSet(inst) + RSet(inst)
      ensures x in MatchedL(inst, f) + MatchedR(inst, f) <==> HasMate(NetGraph(inst, f), LSet(inst) + RSet(inst), x)
    {
      if x in inst.lv {
        SourceFlowIsMate(inst, f, x);
      } else {
        SinkFlowIsMate(inst, f, x);
      }
    }
  }

  lemma NetSidesApart(inst: Instance, f: map<Key, int>)
    requires WellFormed(inst)
    ensures LSet(inst) !! RSet(inst)
    ensures SourceId !in LSet(inst) + RSet(inst) && SinkId !in LSet(inst) + RSet(inst)
  {
    forall x | x in LSet(inst)
      ensures x !in RSet(inst)
    {
    }
  }

  lemma NetEdgesCross(inst: Instance, f: map<Key, int>)
    requires WellFormed(inst)
    ensures forall x, y :: x in LSet(inst) && y in Neighbors(NetGraph(inst, f), x) && y != SourceId && y != SinkId ==> y in RSet(inst)
    ensures forall x, y :: x in RSet(inst) && y in Neighbors(NetGraph(inst, f), x) && y != SourceId && y != SinkId ==> y in LSet(inst)
    ensures forall x, y :: x in LSet(inst) + RSet(inst) && y in LSet(inst) + RSet(inst) && y in Neighbors(NetGraph(inst, f), x) ==>
      x in Neighbors(NetGraph(inst, f), y)
  {
    var g := NetGraph(inst, f);
    forall x, y | x in LSet(inst) && y in Neighbors(g, x) && y != SourceId && y != SinkId
      ensures y in RSet(inst)
    {
      EdgeCrosses(inst, f, x, y);
    }
    forall x, y | x in RSet(inst) && y in Neighbors(g, x) && y != SourceId && y != SinkId
      ensures y in LSet(inst)
    {
      EdgeCrosses(inst, f, x, y);
      NetSidesApart(inst, f);
    }
    forall x, y | x in LSet(inst) + RSet(inst) && y in LSet(inst) + RSet(inst) && y in Neighbors(g, x)
      ensures x in Neighbors(g, y)
    {
      EdgeCrosses(inst, f, x, y);
    }
  }

  lemma EdgeCrosses(inst: Instance, f: map<Key, int>, x: int, y: int)
    requires WellFormed(inst) && x in LSet(inst) + RSet(inst) && y in Neighbors(NetGraph(inst, f), x)
    ensures y != SourceId && y != SinkId ==> y in (if x in LSet(inst) then RSet(inst) else LSet(inst))
    ensures y in LSet(inst) + RSet(inst) ==> x in Neighbors(NetGraph(inst, f), y)
  {
    GraphNeighbors(inst, f, x);
    GraphNeighbors(inst, f, y);
    if x in inst.lv {
      LeftNeighbors(inst, x, y);
      if y in inst.rv {
        RightNeighbors(inst, y, x);
      }
    } else {
      RightNeighbors(inst, x, y);
      if y in inst.lv {
        LeftNeighbors(inst, y, x);
      }
    }
  }

  lemma NetMatchedAdjacent(inst: Instance, f: map<Key, int>)
    requires WellFormed(inst) && Inv(inst, f)
    ensures forall x, y :: x in LSet(inst) + RSet(inst) && y in LSet(inst) + RSet(inst) && Matched(NetGraph(inst, f), x, y) ==>
      y in Neighbors(NetGraph(inst, f), x)
    ensures forall x, y, z ::
      (x in LSet(inst) + RSet(inst) && y in LSet(inst) + RSet(inst) && z in LSet(inst) + RSet(inst) &&
       Matched(NetGraph(inst, f), x, y) && Matched(NetGraph(inst, f), x, z)) ==> y == z
  {
    var g := NetGraph(inst, f);
    forall x, y | x in LSet(inst) + RSet(inst) && y in LSet(inst) + RSet(inst) && Matched(g, x, y)
      ensures y in Neighbors(g, x)
    {
      MatchedInNet(inst, f, x, y);
      GraphNeighbors(inst, f, x);
      if MatchedPair(inst, f, x, y) {
        LeftNeighbors(inst, x, y);
      } else {
        RightNeighbors(inst, x, y);
      }
    }
    forall x, y, z | x in LSet(inst) + RSet(inst) && y in LSet(inst) + RSet(inst) && z in LSet(inst) + RSet(inst) &&
      Matched(g, x, y) && Matched(g, x, z)
      ensures y == z
    {
      MatchedInNet(inst, f, x, y);
      MatchedInNet(inst, f, x, z);
    }
  }

  /** The network, with its left and right vertices as the two sides, suits König's construction. */
  lemma NetGraphOk(inst: Instance, f: map<Key, int>)
    requires WellFormed(inst) && Inv(inst, f)
    ensures GraphOk(NetGraph(inst, f), LSet(inst), RSet(inst))
    ensures MatchesOk(NetGraph(inst, f), LSet(inst), RSet(inst), MatchedL(inst, f) + MatchedR(inst, f))
  {
    NetSidesApart(inst, f);
    NetEdgesCross(inst, f);
    NetMatchedAdjacent(inst, f);
    NetMatchesOk(inst, f);
  }

  // ---------------------------------------------------------------------------------------
  // No augmenting path: the matching is maximum

  /**
   * What a search that did not reach the sink leaves behind: the visited set holds the
   * source, not the sink, and every neighbour reachable with residual capacity.
   */
  ghost predicate ResidualClosed(inst: Instance, f: map<Key, int>, V: set<int>)
  {
    SourceId in V && SinkId !in V &&
    forall x, y :: x in V && y in NetNeighbors(inst, x) && ResidualCapacity(f, x, y) > 0 ==> y in V
  }

  function Matches(inst: Instance, f: map<Key, int>): set<int>
  {
    MatchedL(inst, f) + MatchedR(inst, f)
  }

  /** One step of the closed set across each kind of edge. */
  lemma ResidualStep(inst: Instance, f: map<Key, int>, V: set<int>)
    requires WellFormed(inst) && Inv(inst, f) && ResidualClosed(inst, f, V)
    ensures forall l :: l in inst.lv && l !in MatchedL(inst, f) ==> l in V
    ensures forall r :: r in inst.rv && r in V ==> r in MatchedR(inst, f)
    ensures forall l, r :: IsTeam(inst, l, r) && l in V && !MatchedPair(inst, f, l, r) ==> r in V
    ensures forall l, r :: MatchedPair(inst, f, l, r) && r in V ==> l in V
  {
    ResidualFreeLeft(inst, f, V);
    ResidualVisitedRight(inst, f, V);
    ResidualTeamForward(inst, f, V);
    ResidualMatchedBack(inst, f, V);
  }

  /** A free employee is reachable from the source. */
  lemma ResidualFreeLeft(inst: Instance, f: map<Key, int>, V: set<int>)
    requires WellFormed(inst) && Inv(inst, f) && ResidualClosed(inst, f, V)
    ensures forall l :: l in inst.lv && l !in MatchedL(inst, f) ==> l in V
  {
    ResidualFacts(inst, f);
    forall l | l in inst.lv && l !in MatchedL(inst, f)
      ensures l in V
    {
      assert l in NetNeighbors(inst, SourceId);
    }
  }

  /** A reachable project is matched, or the sink would be reachable. */
  lemma ResidualVisitedRight(inst: Instance, f: map<Key, int>, V: set<int>)
    requires WellFormed(inst) && Inv(inst, f) && ResidualClosed(inst, f, V)
    ensures forall r :: r in inst.rv && r in V ==> r in MatchedR(inst, f)
  {
    ResidualFacts(inst, f);
    forall r | r in inst.rv && r in V
      ensures r in MatchedR(inst, f)
    {
      assert SinkId in NetNeighbors(inst, r);
    }
  }

  /** An unmatched team edge leads forward from a reachable employee. */
  lemma ResidualTeamForward(inst: Instance, f: map<Key, int>, V: set<int>)
    requires WellFormed(inst) && Inv(inst, f) && ResidualClosed(inst, f, V)
    ensures forall l, r :: IsTeam(inst, l, r) && l in V && !MatchedPair(inst, f, l, r) ==> r in V
  {
    ResidualFacts(inst, f);
    forall l, r | IsTeam(inst, l, r) && l in V && !MatchedPair(inst, f, l, r)
      ensures r in V
    {
      LeftNeighbors(inst, l, r);
    }
  }

  /** A matched team edge leads back from a reachable project. */
  lemma ResidualMatchedBack(inst: Instance, f: map<Key, int>, V: set<int>)
    requires WellFormed(inst) && Inv(inst, f) && ResidualClosed(inst, f, V)
    ensures forall l, r :: MatchedPair(inst, f, l, r) && r in V ==> l in V
  {
    ResidualFacts(inst, f);
    forall l, r | MatchedPair(inst, f, l, r) && r in V
      ensures l in V
    {
      assert l in inst.lv && r in inst.rv;
      RightNeighbors(inst, r, l);
    }
  }

  /**
   * With the visited set V of a failed search, the visited employees are a closed set for
   * König's construction from the left side that no free right vertex belongs to.
   */
  lemma MaximalFromLeft(inst: Instance, f: map<Key, int>, V: set<int>)
    requires WellFormed(inst) && Inv(inst, f) && ResidualClosed(inst, f, V)
    ensures Closed(NetGraph(inst, f), RSet(inst), V * (LSet(inst) + RSet(inst)))
    ensures LSet(inst) - Matches(inst, f) <= V * (LSet(inst) + RSet(inst))
    ensures RSet(inst) * (V * (LSet(inst) + RSet(inst))) <= Matches(inst, f)
  {
    var g, W := NetGraph(inst, f), V * (LSet(inst) + RSet(inst));
    ResidualStep(inst, f, V);
    NetSidesApart(inst, f);
    forall x, y | x in W && Eligible(g, RSet(inst), x, y)
      ensures y in W
    {
      EdgeCrosses(inst, f, x, y);
      MatchedInNet(inst, f, x, y);
      GraphNeighbors(inst, f, x);
      if x in inst.lv {
        LeftNeighbors(inst, x, y);
      } else {
        RightNeighbors(inst, x, y);
      }
    }
  }

  /**
   * The same from the right side: the unvisited employees are closed for König's
   * construction from the right, and none of them is a free left vertex.
   */
  lemma MaximalFromRight(inst: Instance, f: map<Key, int>, V: set<int>)
    requires WellFormed(inst) && Inv(inst, f) && ResidualClosed(inst, f, V)
    ensures Closed(NetGraph(inst, f), LSet(inst), (LSet(inst) + RSet(inst)) - V)
    ensures RSet(inst) - Matches(inst, f) <= (LSet(inst) + RSet(inst)) - V
    ensures LSet(inst) * ((LSet(inst) + RSet(inst)) - V) <= Matches(inst, f)
  {
    var g, W := NetGraph(inst, f), (LSet(inst) + RSet(inst)) - V;
    ResidualStep(inst, f, V);
    NetSidesApart(inst, f);
    forall x, y | x in W && Eligible(g, LSet(inst), x, y)
      ensures y in W
    {
      EdgeCrosses(inst, f, x, y);
      MatchedInNet(inst, f, x, y);
      GraphNeighbors(inst, f, x);
      if x in inst.lv {
        LeftNeighbors(inst, x, y);
      } else {
        RightNeighbors(inst, x, y);
      }
    }
  }

  // ---------------------------------------------------------------------------------------
  // Facts the solver's loops rely on

  /** The keys flipped along a path, collected from its end backwards, one hop at a time. */
  lemma HopKeysStep(p: seq<int>, j: int)
    requires Distinct(p) && 1 <= j < |p|
    ensures HopKeys(p[j - 1..]) == HopKeys(p[j..]) + {Hop(p, j - 1)}
    ensures Hop(p, j - 1) !in HopKeys(p[j..])
  {
    var q, q' := p[j - 1..], p[j..];
    forall i | 0 <= i < |q'| - 1
      ensures Hop(q', i) == Hop(q, i + 1)
    {
    }
    assert Hop(q, 0) == Hop(p, j - 1);
    forall key | key in HopKeys(q)
      ensures key in HopKeys(q') + {Hop(p, j - 1)}
    {
      var i :| 0 <= i < |q| - 1 && key == Hop(q, i);
      if i > 0 {
        assert key == Hop(q', i - 1);
      }
    }
    forall key | key in HopKeys(q')
      ensures key in HopKeys(q) && key != Hop(p, j - 1)
    {
      var i :| 0 <= i < |q'| - 1 && key == Hop(q', i);
      assert key == Hop(q, i + 1);
      assert p[j + i] != p[j - 1] && p[j + i + 1] != p[j - 1];
    }
  }

  /** Every edge an augmenting path runs along is stored in the table. */
  lemma FlipSetStored(inst: Instance, f: map<Key, int>, ls: seq<int>, rs: seq<int>)
    requires f.Keys == Keys(inst) && |ls| == |rs| > 0
    requires ls[0] in inst.lv && rs[|rs| - 1] in inst.rv
    requires forall j :: 0 <= j < |ls| ==> IsTeam(inst, ls[j], rs[j])
    requires forall j :: 0 <= j < |ls| - 1 ==> IsTeam(inst, ls[j + 1], rs[j])
    ensures FlipSet(ls, rs) <= f.Keys
  {
    assert KeyVal(SourceId, ls[0]) in Keys(inst);
    assert KeyVal(rs[|rs| - 1], SinkId) in Keys(inst);
    forall key | key in FlipSet(ls, rs)
      ensures key in Keys(inst)
    {
      if key in (set j | 0 <= j < |ls| - 1 :: KeyVal(ls[j + 1], rs[j])) {
        var j :| 0 <= j < |ls| - 1 && key == KeyVal(ls[j + 1], rs[j]);
        assert key in inst.teams;
      } else if key in (set j | 0 <= j < |ls| :: KeyVal(ls[j], rs[j])) {
        var j :| 0 <= j < |ls| && key == KeyVal(ls[j], rs[j]);
        assert key in inst.teams;
      }
    }
  }

  /** Augmenting along a residual path keeps the flow a matching and matches one more left vertex. */
  lemma AugmentAlongPath(inst: Instance, f: map<Key, int>, p: seq<int>)
    requires WellFormed(inst) && Inv(inst, f) && ResidualPath(inst, f, p)
    ensures HopKeys(p) <= f.Keys
    ensures Inv(inst, FlipKeys(f, HopKeys(p)))
    ensures MatchedL(inst, f) < MatchedL(inst, FlipKeys(f, HopKeys(p)))
  {
    var ls, rs := PathIsAugmenting(inst, f, p);
    Augment(inst, f, ls, rs);
    FlipSetStored(inst, f, ls, rs);
    var f' := FlipKeys(f, FlipSet(ls, rs));
    assert ls[0] in MatchedL(inst, f') - MatchedL(inst, f);
  }

  /** The partners of a left vertex are listed once each: no team is given twice. */
  lemma {:induction false} LeftPartnersDistinct(teams: seq<Team>, l: int)
    requires DistinctTeams(teams)
    requires forall t :: t in teams ==> t.0 <= MaxNyId < t.1
    requires l <= MaxNyId
    ensures Distinct(Partners(teams, l))
    ensures forall y :: y in Partners(teams, l) ==> (l, y) in teams
    decreases |teams|
  {
    if |teams| > 0 {
      var front, t := teams[..|teams| - 1], teams[|teams| - 1];
      assert teams == front + [t];
      assert DistinctTeams(front);
      LeftPartnersDistinct(front, l);
      if t.0 == l {
        assert (l, t.1) !in front;
      }
    }
  }

  /** A left vertex's neighbour list (the source, then its partners) has no repeats. */
  lemma LeftNeighborsDistinct(inst: Instance, l: int)
    requires WellFormed(inst) && l in inst.lv
    ensures Distinct(NetNeighbors(inst, l))
  {
    LeftPartnersDistinct(inst.teams, l);
    assert l !in inst.rv;
    var ps := Partners(inst.teams, l);
    assert NetNeighbors(inst, l) == [SourceId] + ps;
    forall y | y in ps
      ensures y != SourceId
    {
      assert (l, y) in inst.teams;
    }
    forall i, j | 0 <= i < j < |ps| + 1
      ensures NetNeighbors(inst, l)[i] != NetNeighbors(inst, l)[j]
    {
      if i > 0 {
        assert ps[i - 1] != ps[j - 1];
      } else {
        assert ps[j - 1] in ps;
      }
    }
  }

  /** A set covers every team exactly when it covers every edge of the network between the sides. */
  lemma CoversTeamsIsCoversEdges(inst: Instance, f: map<Key, int>, K: set<int>)
    requires WellFormed(inst)
    ensures CoversTeams(inst, K) <==> CoversEdges(NetGraph(inst, f), LSet(inst), RSet(inst), K)
  {
    var g := NetGraph(inst, f);
    if CoversTeams(inst, K) {
      forall x, y | x in LSet(inst) && y in RSet(inst) && y in Neighbors(g, x)
        ensures x in K || y in K
      {
        GraphNeighbors(inst, f, x);
        LeftNeighbors(inst, x, y);
        assert (x, y) in inst.teams;
      }
    }
    if CoversEdges(g, LSet(inst), RSet(inst), K) {
      forall t | t in inst.teams
        ensures t.0 in K || t.1 in K
      {
        GraphNeighbors(inst, f, t.0);
        LeftNeighbors(inst, t.0, t.1);
        assert t.1 in Neighbors(g, t.0);
      }
    }
  }

  // ---------------------------------------------------------------------------------------
  // The cover the solver reports

  /** K is a smallest set of employees that holds a member of every team. */
  ghost predicate MinimumCover(inst: Instance, K: set<int>)
  {
    CoversTeams(inst, K) && forall K' :: CoversTeams(inst, K') ==> |K| <= |K'|
  }

  /** No matching has more pairs than a cover has members: each pair needs its own member. */
  lemma MatchingAtMostCover(inst: Instance, f: map<Key, int>, K: set<int>)
    requires WellFormed(inst) && Inv(inst, f) && CoversTeams(inst, K)
    ensures |MatchedL(inst, f)| <= |K|
  {
    var g := NetGraph(inst, f);
    NetGraphOk(inst, f);
    NetSidesApart(inst, f);
    CoversTeamsIsCoversEdges(inst, f, K);
    CoverAtLeastMatching(g, LSet(inst), RSet(inst), Matches(inst, f), K);
    assert LSet(inst) * Matches(inst, f) == MatchedL(inst, f);
  }

  /**
   * A cover as small as a matching proves both optimal: the cover is minimum and the
   * matching is maximum.
   */
  lemma CoverMeetsMatching(inst: Instance, f: map<Key, int>, K: set<int>)
    requires WellFormed(inst) && Inv(inst, f) && CoversTeams(inst, K) && |K| <= |MatchedL(inst, f)|
    ensures MinimumCover(inst, K)
    ensures forall f' :: Inv(inst, f') ==> |MatchedL(inst, f')| <= |MatchedL(inst, f)|
  {
    forall K' | CoversTeams(inst, K')
      ensures |K| <= |K'|
    {
      MatchingAtMostCover(inst, f, K');
    }
    forall f' | Inv(inst, f')
      ensures |MatchedL(inst, f')| <= |MatchedL(inst, f)|
    {
      MatchingAtMostCover(inst, f', K);
    }
  }

  /**
   * König's cover built from the left side after a failed search has one member per
   * matched pair, and so does the one built from the right side.
   */
  lemma KonigCoverFromLeft(inst: Instance, f: map<Key, int>, V: set<int>, T: set<int>)
    requires WellFormed(inst) && Inv(inst, f) && ResidualClosed(inst, f, V)
    requires LeastClosed(NetGraph(inst, f), RSet(inst), LSet(inst) - Matches(inst, f), T)
    requires T <= LSet(inst) + RSet(inst)
    ensures |CoverFrom(LSet(inst), RSet(inst), T)| == |MatchedL(inst, f)|
  {
    var g := NetGraph(inst, f);
    NetGraphOk(inst, f);
    NetSidesApart(inst, f);
    MaximalFromLeft(inst, f, V);
    CoverSize(g, LSet(inst), RSet(inst), Matches(inst, f), T, V * (LSet(inst) + RSet(inst)));
    assert LSet(inst) * Matches(inst, f) == MatchedL(inst, f);
  }

  lemma KonigCoverFromRight(inst: Instance, f: map<Key, int>, V: set<int>, T: set<int>)
    requires WellFormed(inst) && Inv(inst, f) && ResidualClosed(inst, f, V)
    requires LeastClosed(NetGraph(inst, f), LSet(inst), RSet(inst) - Matches(inst, f), T)
    requires T <= RSet(inst) + LSet(inst)
    ensures |CoverFrom(RSet(inst), LSet(inst), T)| == |MatchedL(inst, f)|
  {
    var g, L, R, M := NetGraph(inst, f), LSet(inst), RSet(inst), Matches(inst, f);
    assert L * M == MatchedL(inst, f) && R + L == L + R by {
      NetSidesApart(inst, f);
    }
    assert GraphOk(g, R, L) && MatchesOk(g, R, L, M) && |L * M| == |R * M| by {
      NetGraphOk(inst, f);
      GraphOkSymmetric(g, L, R);
      MatchedSidesSameSize(g, L, R, M);
    }
    assert Closed(g, L, (L + R) - V) && R - M <= (L + R) - V && L * ((L + R) - V) <= M by {
      MaximalFromRight(inst, f, V);
    }
    CoverSize(g, R, L, M, T, (L + R) - V);
  }

  /**
   * The friend, when some cover of minimum size holds them, is in König's cover built from
   * the left side: the friend's id is a left id, and every minimum cover's left members
   * lie in that cover.
   */
  lemma FriendInLeftCover(inst: Instance, f: map<Key, int>, T: set<int>, K: set<int>)
    requires WellFormed(inst) && Inv(inst, f)
    requires LeastClosed(NetGraph(inst, f), RSet(inst), LSet(inst) - Matches(inst, f), T)
    requires CoversTeams(inst, K) && |K| <= |MatchedL(inst, f)| && FriendId in K
    ensures FriendId in CoverFrom(LSet(inst), RSet(inst), T)
  {
    var g, L, R, M := NetGraph(inst, f), LSet(inst), RSet(inst), Matches(inst, f);
    assert L * M == MatchedL(inst, f) && FriendId !in R by {
      NetSidesApart(inst, f);
    }
    assert GraphOk(g, L, R) && MatchesOk(g, L, R, M) by {
      NetGraphOk(inst, f);
    }
    assert CoversEdges(g, L, R, K) by {
      CoversTeamsIsCoversEdges(inst, f, K);
    }
    MinimumCoverTight(g, L, R, M, K);
    MinimumCoverWithinKonig(g, L, R, M, T, K);
  }
}
