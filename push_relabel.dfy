/**
 * The relabel-to-front push-relabel solver of BilateralPushRelabel.java: the Edges tables
 * (lines 491-635), the Vertex class and its static registry (lines 670-742), and the Solver
 * (lines 58-363), which builds the unit-capacity network from the source (id 3000) through
 * the first location's employees and the teams to the second location's employees and the
 * sink (id 3001), runs push-relabel on it, reads the matching off the flow and takes König's
 * cover from one side or the other.
 */
module PushRelabel {
  import opened Params
  import opened ListOps
  import opened Konig
  import opened JavaText
  import opened SetFacts
  import EdgeTable
  import FlowNetwork
  import FlowSums
  import Vertices

  datatype Option<T> = None | Some(value: T)

  // ---------------------------------------------------------------------------------------
  // Edges (lines 491-635)

  /**
   * One table of Edges (the flow list or the capacity list): a slot per vertex index,
   * null until the first entry of that vertex is set, each slot a map from the ids of
   * neighbours to values. The registry keeps one Vertex per id, so the id stands for the
   * neighbour the Java map is keyed by.
   */
  type Table = seq<Option<map<int, int>>>

  predicate InTable(t: Table, u: int)
  {
    0 <= Vertices.IdxOf(u) < |t|
  }

  predicate Has(t: Table, u: int, v: int)
    requires InTable(t, u)
  {
    t[Vertices.IdxOf(u)].Some? && v in t[Vertices.IdxOf(u)].value
  }

  /** getEdgeInfo: the stored value, or nullResult when the slot is null or has no entry for v. */
  function EdgeInfo(t: Table, u: int, v: int, nullResult: int): int
    requires InTable(t, u)
  {
    if Has(t, u, v) then t[Vertices.IdxOf(u)].value[v] else nullResult
  }

  /**
   * setEdgeInfo: creates the slot when it is null, then puts (v, newVal). A later lookup
   * finds newVal for (u, v) and what it found before everywhere else.
   */
  function SetEdgeInfo(t: Table, u: int, v: int, newVal: int): (r: Table)
    requires InTable(t, u)
    ensures |r| == |t|
    ensures forall x, y :: InTable(t, x) ==> (Has(r, x, y) <==> Has(t, x, y) || (x == u && y == v))
    ensures forall x, y, n :: InTable(t, x) ==>
      EdgeInfo(r, x, y, n) == if x == u && y == v then newVal else EdgeInfo(t, x, y, n)
  {
    var slot := if t[Vertices.IdxOf(u)].None? then map[v := newVal] else t[Vertices.IdxOf(u)].value[v := newVal];
    t[Vertices.IdxOf(u) := Some(slot)]
  }

  /**
   * addToEdgeInfo: adds incVal to the existing (u, v) entry; the source unboxes a missing
   * entry, so the entry must exist. Every other entry is left alone.
   */
  function AddToEdgeInfo(t: Table, u: int, v: int, incVal: int): (r: Table)
    requires InTable(t, u) && Has(t, u, v)
    ensures |r| == |t|
    ensures forall x, y :: InTable(t, x) ==> (Has(r, x, y) <==> Has(t, x, y))
    ensures forall x, y, n :: InTable(t, x) ==>
      EdgeInfo(r, x, y, n) == if x == u && y == v then EdgeInfo(t, u, v, n) + incVal else EdgeInfo(t, x, y, n)
  {
    var slot := t[Vertices.IdxOf(u)].value;
    t[Vertices.IdxOf(u) := Some(slot[v := incVal + slot[v]])]
  }

  /** getResidualCapacity on the two tables. */
  function Residual(flow: Table, capacity: Table, u: int, v: int): int
    requires InTable(flow, u) && InTable(flow, v) && InTable(capacity, u) && InTable(capacity, v)
  {
    var forwardCapacity := EdgeInfo(capacity, u, v, 0);
    if forwardCapacity > 0 then forwardCapacity - EdgeInfo(flow, u, v, 0)
    else if EdgeInfo(capacity, v, u, 0) > 0 then EdgeInfo(flow, v, u, 0)
    else 0
  }

  /**
   * The tables agree on which entries exist, and every flow lies between 0 and its
   * capacity. Setup establishes it and every push keeps it.
   */
  ghost predicate FlowWithinCapacity(flow: Table, capacity: Table)
  {
    |flow| == |capacity| &&
    forall u, v :: InTable(flow, u) ==>
      (Has(flow, u, v) <==> Has(capacity, u, v)) && 0 <= EdgeInfo(flow, u, v, 0) <= EdgeInfo(capacity, u, v, 0)
  }

  /** Within capacity, the residual capacity is never negative and never above a capacity. */
  lemma ResidualBounds(flow: Table, capacity: Table, u: int, v: int)
    requires FlowWithinCapacity(flow, capacity) && InTable(flow, u) && InTable(flow, v)
    ensures 0 <= Residual(flow, capacity, u, v)
    ensures EdgeInfo(capacity, u, v, 0) > 0 ==> Residual(flow, capacity, u, v) <= EdgeInfo(capacity, u, v, 0)
    ensures EdgeInfo(capacity, u, v, 0) <= 0 ==> Residual(flow, capacity, u, v) <= EdgeInfo(capacity, v, u, 0)
  {
  }

  /** Setting a new entry's capacity and then its flow, with 0 <= flow <= capacity, keeps the tables consistent. */
  lemma SetEntryKeepsBounds(flow: Table, capacity: Table, u: int, v: int, c: int, f: int)
    requires FlowWithinCapacity(flow, capacity) && InTable(flow, u) && 0 <= f <= c
    ensures FlowWithinCapacity(SetEdgeInfo(flow, u, v, f), SetEdgeInfo(capacity, u, v, c))
  {
  }

  /**
   * The flow change of a push: delta more on the forward edge, or delta less on the
   * reverse edge, where delta is at most the residual capacity. The tables stay consistent.
   */
  function PushedFlow(flow: Table, capacity: Table, u: int, v: int, delta: int): (r: Table)
    requires FlowWithinCapacity(flow, capacity) && InTable(flow, u) && InTable(flow, v)
    requires 0 < delta <= Residual(flow, capacity, u, v)
    ensures FlowWithinCapacity(r, capacity)
    ensures EdgeInfo(capacity, u, v, 0) > 0 ==> EdgeInfo(r, u, v, 0) == EdgeInfo(flow, u, v, 0) + delta
    ensures EdgeInfo(capacity, u, v, 0) <= 0 ==> EdgeInfo(r, v, u, 0) == EdgeInfo(flow, v, u, 0) - delta
    ensures forall x, y :: InTable(flow, x) && (x, y) != (u, v) && (x, y) != (v, u) ==>
      EdgeInfo(r, x, y, 0) == EdgeInfo(flow, x, y, 0)
  {
    if EdgeInfo(capacity, u, v, 0) > 0 then AddToEdgeInfo(flow, u, v, delta)
    else AddToEdgeInfo(flow, v, u, -delta)
  }

  /** The Edges class: the flow and capacity lists, updated in place. */
  class Edges {
    var flow: Table
    var capacity: Table

    /** new Edges(numVertices): both lists hold numVertices null slots. */
    constructor (numVertices: nat)
      ensures flow == seq(numVertices, _ => None) && capacity == seq(numVertices, _ => None)
    {
      flow := seq(numVertices, _ => None);
      capacity := seq(numVertices, _ => None);
    }

    predicate Covers(u: Vertex)
      reads this`flow, this`capacity
    {
      InTable(flow, u.id) && InTable(capacity, u.id)
    }

    function GetFlow(u: Vertex, v: Vertex): int
      reads this`flow
      requires InTable(flow, u.id)
    {
      EdgeInfo(flow, u.id, v.id, 0)
    }

    function GetCapacity(u: Vertex, v: Vertex): int
      reads this`capacity
      requires InTable(capacity, u.id)
    {
      EdgeInfo(capacity, u.id, v.id, 0)
    }

    /** flowsForward: u -> v is an edge of the network (it has a capacity). */
    predicate FlowsForward(u: Vertex, v: Vertex)
      reads this`capacity
      requires InTable(capacity, u.id)
    {
      GetCapacity(u, v) > 0
    }

    function GetResidualCapacity(u: Vertex, v: Vertex): int
      reads this`flow, this`capacity
      requires Covers(u) && Covers(v)
    {
      Residual(flow, capacity, u.id, v.id)
    }

    method SetFlow(u: Vertex, v: Vertex, newFlow: int)
      requires InTable(flow, u.id)
      modifies this`flow
      ensures flow == SetEdgeInfo(old(flow), u.id, v.id, newFlow)
    {
      flow := SetEdgeInfo(flow, u.id, v.id, newFlow);
    }

    method SetCapacity(u: Vertex, v: Vertex, newCapacity: int)
      requires InTable(capacity, u.id)
      modifies this`capacity
      ensures capacity == SetEdgeInfo(old(capacity), u.id, v.id, newCapacity)
    {
      capacity := SetEdgeInfo(capacity, u.id, v.id, newCapacity);
    }

    method AddToFlow(u: Vertex, v: Vertex, flowInc: int)
      requires InTable(flow, u.id) && Has(flow, u.id, v.id)
      modifies this`flow
      ensures flow == AddToEdgeInfo(old(flow), u.id, v.id, flowInc)
    {
      flow := AddToEdgeInfo(flow, u.id, v.id, flowInc);
    }

    method AddToCapacity(u: Vertex, v: Vertex, capInc: int)
      requires InTable(capacity, u.id) && Has(capacity, u.id, v.id)
      modifies this`capacity
      ensures capacity == AddToEdgeInfo(old(capacity), u.id, v.id, capInc)
    {
      capacity := AddToEdgeInfo(capacity, u.id, v.id, capInc);
    }

    /**
     * flipFlow: a flow of 1 becomes 0 and any other flow becomes 1. The source reads the
     * entry through an unboxing, so it must exist.
     */
    method FlipFlow(u: Vertex, v: Vertex)
      requires InTable(flow, u.id) && Has(flow, u.id, v.id)
      modifies this`flow
      ensures flow == SetEdgeInfo(old(flow), u.id, v.id, if old(GetFlow(u, v)) == 1 then 0 else 1)
    {
      var f := GetFlow(u, v);
      var newFlow := if f == 1 then 0 else 1;
      flow := SetEdgeInfo(flow, u.id, v.id, newFlow);
    }
  }

  // ---------------------------------------------------------------------------------------
  // Vertex (lines 670-742)

  class Vertex {
    const id: int
    var height: int32
    var excess: int
    var currNeighbor: int
    var neighbors: seq<Vertex>

    /** A new vertex: the given id, height, excess and cursor 0, no neighbours. */
    constructor (id: int)
      ensures this.id == id && height == 0 && excess == 0 && currNeighbor == 0 && neighbors == []
    {
      this.id := id;
      height := 0;
      excess := 0;
      currNeighbor := 0;
      neighbors := [];
    }

    /** getIdx: the vertex's slot in the registry and in the Edges lists. */
    function GetIdx(): int
    {
      Vertices.IdxOf(id)
    }

    method AddToNeighbors(v: Vertex)
      modifies this`neighbors
      ensures neighbors == old(neighbors) + [v]
    {
      neighbors := neighbors + [v];
    }

    method MoveToFrontOfNeighbors(v: Vertex)
      modifies this`neighbors
      ensures neighbors == MoveToFront(old(neighbors), v)
    {
      neighbors := MoveToFront(neighbors, v);
    }

    method MoveToBackOfNeighbors(v: Vertex)
      modifies this`neighbors
      ensures neighbors == MoveToBack(old(neighbors), v)
    {
      neighbors := MoveToBack(neighbors, v);
    }
  }

  /** The ids of a list of vertices, in order. */
  function Ids(s: seq<Vertex>): (r: seq<int>)
    ensures |r| == |s| && forall i :: 0 <= i < |s| ==> r[i] == s[i].id
  {
    seq(|s|, i requires 0 <= i < |s| => s[i].id)
  }

  function IdsOf(S: set<Vertex>): set<int>
  {
    set v | v in S :: v.id
  }

  lemma IdsAppend(s: seq<Vertex>, u: Vertex)
    ensures Ids(s + [u]) == Ids(s) + [u.id] && Ids([u] + s) == [u.id] + Ids(s) && Ids([u]) == [u.id]
  {
  }

  /** In a list with distinct ids, no vertex comes twice. */
  lemma DistinctIdsPrefix(s: seq<Vertex>, k: int)
    requires Distinct(Ids(s)) && 0 <= k < |s|
    ensures s[k] !in s[..k]
  {
    forall j | 0 <= j < k
      ensures s[j] != s[k]
    {
      assert Ids(s)[j] != Ids(s)[k];
    }
  }

  lemma IdsOfAdd(S: set<Vertex>, u: Vertex)
    ensures IdsOf(S + {u}) == IdsOf(S) + {u.id}
  {
  }

  lemma IdsOfUnion(S: set<Vertex>, T: set<Vertex>)
    ensures IdsOf(S + T) == IdsOf(S) + IdsOf(T)
  {
  }

  /** Only the empty set has no ids. */
  lemma IdsOfEmpty(S: set<Vertex>)
    requires IdsOf(S) == {}
    ensures S == {}
  {
    forall v | v in S
      ensures v.id in IdsOf(S)
    {
    }
  }

  /** Taking one more vertex off the to-do list adds its id to those done. */
  lemma IdsOfDone(S: set<Vertex>, todo: set<Vertex>, v: Vertex)
    requires v in todo && todo <= S
    ensures IdsOf(S - (todo - {v})) == IdsOf(S - todo) + {v.id}
  {
    assert S - (todo - {v}) == (S - todo) + {v};
    IdsOfAdd(S - todo, v);
  }

  /** The static vertices array of Vertex, made explicit: one slot per vertex index. */
  class Registry {
    const vertices: array<Vertex?>

    constructor ()
      ensures vertices.Length == MaxNumVertices && fresh(vertices)
      ensures forall i :: 0 <= i < vertices.Length ==> vertices[i] == null
    {
      vertices := new Vertex?[MaxNumVertices](_ => null);
    }

    /** Each registered vertex sits at its own index. */
    ghost predicate Valid()
      reads this, vertices
    {
      vertices.Length == MaxNumVertices &&
      forall i :: 0 <= i < vertices.Length && vertices[i] != null ==> vertices[i].id == i + IdIdxDifference
    }

    /**
     * vertexFromId: the vertex registered under the id, created on the first lookup and the
     * same object on every later one. An id outside the array is an index error in the source.
     */
    method VertexFromId(id: int) returns (v: Vertex)
      requires Valid() && 0 <= Vertices.IdxOf(id) < vertices.Length
      modifies vertices
      ensures Valid()
      ensures v.id == id && vertices[Vertices.IdxOf(id)] == v
      ensures old(vertices[Vertices.IdxOf(id)]) != null ==> v == old(vertices[Vertices.IdxOf(id)]) && unchanged(vertices)
      ensures old(vertices[Vertices.IdxOf(id)]) == null ==>
        fresh(v) && v.height == 0 && v.excess == 0 && v.currNeighbor == 0 && v.neighbors == []
      ensures forall i :: 0 <= i < vertices.Length && i != Vertices.IdxOf(id) ==> vertices[i] == old(vertices[i])
    {
      var idx := Vertices.IdxOf(id);
      if vertices[idx] == null {
        vertices[idx] := new Vertex(id);
      }
      v := vertices[idx];
    }
  }

  /** The flow table as a map from ordered id pairs, the form König's construction reads. */
  function Flatten(t: Table): map<EdgeTable.Key, int>
  {
    map u, v | IdIdxDifference <= u < IdIdxDifference + |t| && t[u - IdIdxDifference].Some? &&
                 v in t[u - IdIdxDifference].value
      :: (u, v) := t[Vertices.IdxOf(u)].value[v]
  }

  /** Flatten keeps exactly the table's entries, with their values. */
  lemma FlattenAt(t: Table, u: int, v: int)
    ensures (u, v) in Flatten(t) <==> InTable(t, u) && Has(t, u, v)
    ensures (u, v) in Flatten(t) ==> Flatten(t)[(u, v)] == EdgeInfo(t, u, v, 0)
  {
  }

  /** setEdgeInfo on the table is an update of the pair map. */
  lemma FlattenSet(t: Table, u: int, v: int, x: int)
    requires InTable(t, u)
    ensures Flatten(SetEdgeInfo(t, u, v, x)) == Flatten(t)[(u, v) := x]
  {
    var r := SetEdgeInfo(t, u, v, x);
    forall k
      ensures k in Flatten(r) <==> k in Flatten(t)[(u, v) := x]
      ensures k in Flatten(r) ==> Flatten(r)[k] == Flatten(t)[(u, v) := x][k]
    {
      FlattenAt(r, k.0, k.1);
      FlattenAt(t, k.0, k.1);
    }
  }

  /** The pair maps agree on every lookup the König construction makes. */
  lemma FlattenFlow(t: Table, u: int, v: int)
    requires InTable(t, u)
    ensures EdgeTable.Flow(Flatten(t), u, v) == EdgeInfo(t, u, v, 0)
  {
    FlattenAt(t, u, v);
  }

  // ---------------------------------------------------------------------------------------
  // Setup phases

  lemma DistinctPrefix(s: seq<int>, k: int)
    requires Distinct(s) && 0 <= k < |s|
    ensures s[k] !in s[..k]
  {
  }

  /** The k-th left id is new at its turn, and in the left range. */
  lemma LeftIdAt(inst: FlowNetwork.Instance, k: int)
    requires FlowNetwork.WellFormed(inst) && 0 <= k < |inst.lv|
    ensures inst.lv[k] !in inst.lv[..k] && IdIdxDifference <= inst.lv[k] <= MaxNyId
  {
    DistinctPrefix(inst.lv, k);
    assert inst.lv[k] in inst.lv;
  }

  /** The k-th right id is new at its turn, and in the right range. */
  lemma RightIdAt(inst: FlowNetwork.Instance, k: int)
    requires FlowNetwork.WellFormed(inst) && 0 <= k < |inst.rv|
    ensures inst.rv[k] !in inst.rv[..k] && MaxNyId < inst.rv[k] <= MaxNormalId
  {
    DistinctPrefix(inst.rv, k);
    assert inst.rv[k] in inst.rv;
  }

  lemma UnionSets<T>(a: set<T>, b: set<T>, c: set<T>, d: set<T>)
    requires b == a + c
    ensures b + d == a + (c + d)
  {
  }

  lemma PrefixStep<T>(s: seq<T>, k: int)
    requires 0 <= k < |s|
    ensures s[..k + 1] == s[..k] + [s[k]]
  {
  }

  /** Registering a left id: the source gets it appended, it gets the source, nobody else changes. */
  lemma SourceStepNeighbors(lvDone: seq<int>, id: int, x: int)
    requires id !in lvDone && id != SourceId && id != SinkId
    ensures FlowNetwork.PhaseNeighbors(lvDone + [id], [], [], x) ==
      if x == SourceId then lvDone + [id]
      else if x == id then [SourceId]
      else FlowNetwork.PhaseNeighbors(lvDone, [], [], x)
  {
  }

  lemma SourceStepKeys(lvDone: seq<int>, id: int)
    ensures FlowNetwork.PhaseIds(lvDone + [id], []) == FlowNetwork.PhaseIds(lvDone, []) + {id}
    ensures FlowNetwork.PhaseKeys(lvDone + [id], [], []) == FlowNetwork.PhaseKeys(lvDone, [], []) + {(SourceId, id)}
    ensures (set l | l in lvDone + [id]) == (set l | l in lvDone) + {id}
  {
    assert (set l | l in lvDone + [id]) == (set l | l in lvDone) + {id};
    assert (set l | l in lvDone + [id] :: EdgeTable.KeyVal(SourceId, l)) ==
      (set l | l in lvDone :: EdgeTable.KeyVal(SourceId, l)) + {(SourceId, id)};
  }

  lemma SourceStepOrder(lvDone: seq<int>, id: int)
    ensures SourceSideOrder(lvDone + [id]) ==
      if id == FriendId then [id] + SourceSideOrder(lvDone) else SourceSideOrder(lvDone) + [id]
  {
    assert (lvDone + [id])[..|lvDone|] == lvDone;
  }

  /** Registering a right id: the sink gets it appended, it gets the sink, nobody else changes. */
  lemma SinkStepNeighbors(lvDone: seq<int>, rvDone: seq<int>, id: int, x: int)
    requires id !in lvDone && id !in rvDone && id != SourceId && id != SinkId
    ensures FlowNetwork.PhaseNeighbors(lvDone, rvDone + [id], [], x) ==
      if x == SinkId then rvDone + [id]
      else if x == id then [SinkId]
      else FlowNetwork.PhaseNeighbors(lvDone, rvDone, [], x)
  {
  }

  lemma SinkStepKeys(lvDone: seq<int>, rvDone: seq<int>, id: int)
    ensures FlowNetwork.PhaseIds(lvDone, rvDone + [id]) == FlowNetwork.PhaseIds(lvDone, rvDone) + {id}
    ensures FlowNetwork.PhaseKeys(lvDone, rvDone + [id], []) == FlowNetwork.PhaseKeys(lvDone, rvDone, []) + {(id, SinkId)}
    ensures (set r | r in rvDone + [id]) == (set r | r in rvDone) + {id}
  {
    assert (set r | r in rvDone + [id]) == (set r | r in rvDone) + {id};
    assert (set r | r in rvDone + [id] :: EdgeTable.KeyVal(r, SinkId)) ==
      (set r | r in rvDone :: EdgeTable.KeyVal(r, SinkId)) + {(id, SinkId)};
  }

  lemma TeamStepKeys(lvDone: seq<int>, rvDone: seq<int>, teamsDone: seq<FlowNetwork.Team>, t: FlowNetwork.Team)
    ensures FlowNetwork.PhaseKeys(lvDone, rvDone, teamsDone + [t]) == FlowNetwork.PhaseKeys(lvDone, rvDone, teamsDone) + {t}
  {
    assert (set t' | t' in teamsDone + [t]) == (set t' | t' in teamsDone) + {t};
  }

  /** Lists with the same members have the same ids as members. */
  lemma SameMembersSameIds(s: seq<Vertex>, s': seq<Vertex>)
    requires forall w :: w in s <==> w in s'
    ensures forall y :: y in Ids(s) <==> y in Ids(s')
  {
    forall y | y in Ids(s)
      ensures y in Ids(s')
    {
      var i :| 0 <= i < |s| && Ids(s)[i] == y;
      assert s[i] in s;
      var j :| 0 <= j < |s'| && s'[j] == s[i];
      assert Ids(s')[j] == y;
    }
    forall y | y in Ids(s')
      ensures y in Ids(s)
    {
      var i :| 0 <= i < |s'| && Ids(s')[i] == y;
      assert s'[i] in s';
      var j :| 0 <= j < |s| && s[j] == s'[i];
      assert Ids(s)[j] == y;
    }
  }

  /** Adding an edge with its setup values to the tables' maps. */
  lemma KeysGrow(K: set<EdgeTable.Key>, k: EdgeTable.Key)
    ensures UnitCapacities(K + {k}) == UnitCapacities(K)[k := 1]
    ensures InitialFlows(K + {k}) == InitialFlows(K)[k := if k.0 == SourceId then 1 else 0]
  {
  }

  /**
   * The tables after setup has entered the edges in keys: capacity 1 on each, flow 1 out of
   * the source and 0 elsewhere, and nothing else.
   */
  ghost predicate TablesBuilt(flow: Table, capacity: Table, keys: set<EdgeTable.Key>)
  {
    |flow| == MaxNumVertices && FlowWithinCapacity(flow, capacity) &&
    Flatten(capacity) == UnitCapacities(keys) && Flatten(flow) == InitialFlows(keys)
  }

  lemma TablesBuiltStart()
    ensures TablesBuilt(seq(MaxNumVertices, _ => None), seq(MaxNumVertices, _ => None), {})
  {
    var t: Table := seq(MaxNumVertices, _ => None);
    forall k
      ensures k !in Flatten(t)
    {
      FlattenAt(t, k.0, k.1);
    }
  }

  /** One setCapacity(u, v, 1) and setFlow(u, v, f) of setup. */
  lemma TablesBuiltStep(flow: Table, capacity: Table, keys: set<EdgeTable.Key>, u: int, v: int)
    requires TablesBuilt(flow, capacity, keys) && InTable(flow, u)
    ensures TablesBuilt(SetEdgeInfo(flow, u, v, if u == SourceId then 1 else 0), SetEdgeInfo(capacity, u, v, 1),
                        keys + {(u, v)})
  {
    SetEntryKeepsBounds(flow, capacity, u, v, 1, if u == SourceId then 1 else 0);
    FlattenSet(flow, u, v, if u == SourceId then 1 else 0);
    FlattenSet(capacity, u, v, 1);
    KeysGrow(keys, (u, v));
  }

  /** The tables setup writes for a whole instance. */
  lemma NetTablesBuilt(inst: FlowNetwork.Instance)
    requires FlowNetwork.WellFormed(inst)
    ensures TablesBuilt(SetupTable(inst.lv, inst.rv, inst.teams, 1, 0), SetupTable(inst.lv, inst.rv, inst.teams, 1, 1),
                        FlowNetwork.Keys(inst))
  {
    SetupTablesBuilt(inst.lv, inst.rv, inst.teams);
  }

  /** setCapacity or setFlow during setup: enters x for u -> v when u has a slot. */
  function Enter(t: Table, u: int, v: int, x: int): (r: Table)
    ensures |r| == |t|
  {
    if InTable(t, u) then SetEdgeInfo(t, u, v, x) else t
  }

  /**
   * The table setup has written after the source side of lvDone, the sink side of rvDone
   * and the teams teamsDone, in that order: fromSource on the edges out of the source,
   * elsewhere on the others. The capacity table is SetupTable(.., 1, 1), the flow table
   * SetupTable(.., 1, 0).
   */
  function SetupTable(lvDone: seq<int>, rvDone: seq<int>, teamsDone: seq<FlowNetwork.Team>,
                      fromSource: int, elsewhere: int): (r: Table)
    ensures |r| == MaxNumVertices
    decreases |lvDone| + |rvDone| + |teamsDone|
  {
    if teamsDone != [] then
      var t := teamsDone[|teamsDone| - 1];
      Enter(SetupTable(lvDone, rvDone, teamsDone[..|teamsDone| - 1], fromSource, elsewhere), t.0, t.1, elsewhere)
    else if rvDone != [] then
      var r := rvDone[|rvDone| - 1];
      Enter(SetupTable(lvDone, rvDone[..|rvDone| - 1], [], fromSource, elsewhere), r, SinkId, elsewhere)
    else if lvDone != [] then
      var l := lvDone[|lvDone| - 1];
      Enter(SetupTable(lvDone[..|lvDone| - 1], [], [], fromSource, elsewhere), SourceId, l, fromSource)
    else
      seq(MaxNumVertices, _ => None)
  }

  lemma SetupTableSourceStep(lvDone: seq<int>, id: int, a: int, b: int)
    ensures SetupTable(lvDone + [id], [], [], a, b) == SetEdgeInfo(SetupTable(lvDone, [], [], a, b), SourceId, id, a)
  {
    assert (lvDone + [id])[..|lvDone|] == lvDone;
  }

  lemma SetupTableSinkStep(lvDone: seq<int>, rvDone: seq<int>, id: int, a: int, b: int)
    requires 0 <= Vertices.IdxOf(id) < MaxNumVertices
    ensures SetupTable(lvDone, rvDone + [id], [], a, b) == SetEdgeInfo(SetupTable(lvDone, rvDone, [], a, b), id, SinkId, b)
  {
    assert (rvDone + [id])[..|rvDone|] == rvDone;
  }

  lemma SetupTableTeamStep(lvDone: seq<int>, rvDone: seq<int>, teamsDone: seq<FlowNetwork.Team>, t: FlowNetwork.Team,
                           a: int, b: int)
    requires 0 <= Vertices.IdxOf(t.0) < MaxNumVertices
    ensures SetupTable(lvDone, rvDone, teamsDone + [t], a, b) ==
      SetEdgeInfo(SetupTable(lvDone, rvDone, teamsDone, a, b), t.0, t.1, b)
  {
    assert (teamsDone + [t])[..|teamsDone|] == teamsDone;
  }

  /** The tables setup writes hold capacity 1 and the starting flow on exactly the network's edges so far. */
  lemma {:induction false} SetupTablesBuilt(lvDone: seq<int>, rvDone: seq<int>, teamsDone: seq<FlowNetwork.Team>)
    requires forall r :: r in rvDone ==> 0 <= Vertices.IdxOf(r) < MaxNumVertices && r != SourceId
    requires forall t :: t in teamsDone ==> 0 <= Vertices.IdxOf(t.0) < MaxNumVertices && t.0 != SourceId
    ensures TablesBuilt(SetupTable(lvDone, rvDone, teamsDone, 1, 0), SetupTable(lvDone, rvDone, teamsDone, 1, 1),
                        FlowNetwork.PhaseKeys(lvDone, rvDone, teamsDone))
    decreases |lvDone| + |rvDone| + |teamsDone|
  {
    if teamsDone != [] {
      var front, t := teamsDone[..|teamsDone| - 1], teamsDone[|teamsDone| - 1];
      assert teamsDone == front + [t];
      SetupTablesBuilt(lvDone, rvDone, front);
      SetupTableTeamStep(lvDone, rvDone, front, t, 1, 0);
      SetupTableTeamStep(lvDone, rvDone, front, t, 1, 1);
      TablesBuiltStep(SetupTable(lvDone, rvDone, front, 1, 0), SetupTable(lvDone, rvDone, front, 1, 1),
                      FlowNetwork.PhaseKeys(lvDone, rvDone, front), t.0, t.1);
      TeamStepKeys(lvDone, rvDone, front, t);
    } else if rvDone != [] {
      var front, r := rvDone[..|rvDone| - 1], rvDone[|rvDone| - 1];
      assert rvDone == front + [r];
      SetupTablesBuilt(lvDone, front, []);
      SetupTableSinkStep(lvDone, front, r, 1, 0);
      SetupTableSinkStep(lvDone, front, r, 1, 1);
      TablesBuiltStep(SetupTable(lvDone, front, [], 1, 0), SetupTable(lvDone, front, [], 1, 1),
                      FlowNetwork.PhaseKeys(lvDone, front, []), r, SinkId);
      SinkStepKeys(lvDone, front, r);
    } else if lvDone != [] {
      var front, l := lvDone[..|lvDone| - 1], lvDone[|lvDone| - 1];
      assert lvDone == front + [l];
      SetupTablesBuilt(front, [], []);
      SetupTableSourceStep(front, l, 1, 0);
      SetupTableSourceStep(front, l, 1, 1);
      TablesBuiltStep(SetupTable(front, [], [], 1, 0), SetupTable(front, [], [], 1, 1),
                      FlowNetwork.PhaseKeys(front, [], []), SourceId, l);
      SourceStepKeys(front, l);
    } else {
      TablesBuiltStart();
      assert FlowNetwork.PhaseKeys([], [], []) == {};
    }
  }

  /** The capacities setup gives: 1 on every edge of the network. */
  function UnitCapacities(keys: set<EdgeTable.Key>): map<EdgeTable.Key, int>
  {
    map k | k in keys :: 1
  }

  /** The flows setup gives: 1 on every edge out of the source, 0 on the others. */
  function InitialFlows(keys: set<EdgeTable.Key>): map<EdgeTable.Key, int>
  {
    map k | k in keys :: if k.0 == SourceId then 1 else 0
  }

  /**
   * V after setupSourceSide: the left ids in input order, except that the friend is put
   * at the front (addFirst) instead of the back.
   */
  function SourceSideOrder(ids: seq<int>): (r: seq<int>)
    ensures multiset(r) == multiset(ids)
    ensures FriendId in ids ==> r[0] == FriendId
  {
    if |ids| == 0 then []
    else
      var rest := SourceSideOrder(ids[..|ids| - 1]);
      var id := ids[|ids| - 1];
      assert ids == ids[..|ids| - 1] + [id];
      assert FriendId in ids[..|ids| - 1] ==> FriendId in multiset(rest);
      if id == FriendId then [id] + rest else rest + [id]
  }

  // ---------------------------------------------------------------------------------------
  // The preflow

  /** The flow from p to q as the table stores it: 0 without an entry or a slot. */
  function TableFlow(t: Table, p: int, q: int): int
  {
    if InTable(t, p) then EdgeInfo(t, p, q, 0) else 0
  }

  /** The net inflow of x from its neighbours ys, read off the flow table. */
  function TableInflow(t: Table, x: int, ys: seq<int>): int
  {
    FlowSums.Sum(ys, y => TableFlow(t, y, x)) - FlowSums.Sum(ys, y => TableFlow(t, x, y))
  }

  /** Read off the table or off its pair map, the flow out of x is the same. */
  lemma TableFlowIsFlow(t: Table, x: int)
    ensures forall y :: TableFlow(t, x, y) == EdgeTable.Flow(Flatten(t), x, y)
  {
    forall y
      ensures TableFlow(t, x, y) == EdgeTable.Flow(Flatten(t), x, y)
    {
      FlattenAt(t, x, y);
    }
  }

  /** Read off the table or off its pair map, the net inflow is the same. */
  lemma TableInflowIsNetInflow(t: Table, x: int, ys: seq<int>)
    ensures TableInflow(t, x, ys) == FlowSums.NetInflow(Flatten(t), x, ys)
  {
    forall y
      ensures TableFlow(t, y, x) == EdgeTable.Flow(Flatten(t), y, x)
      ensures TableFlow(t, x, y) == EdgeTable.Flow(Flatten(t), x, y)
    {
      FlattenAt(t, y, x);
      FlattenAt(t, x, y);
    }
    FlowSums.SumSame(ys, y => TableFlow(t, y, x), y => EdgeTable.Flow(Flatten(t), y, x));
    FlowSums.SumSame(ys, y => TableFlow(t, x, y), y => EdgeTable.Flow(Flatten(t), x, y));
  }

  /**
   * How a push changes the net inflow of a vertex x whose neighbours are ys: delta less at u
   * and delta more at v, whichever of the two edges carries the change.
   */
  lemma PushInflow(flow: Table, capacity: Table, u: int, v: int, delta: int, x: int, ys: seq<int>)
    requires FlowWithinCapacity(flow, capacity) && InTable(flow, u) && InTable(flow, v)
    requires 0 < delta <= Residual(flow, capacity, u, v) && u != v && Distinct(ys)
    ensures TableInflow(PushedFlow(flow, capacity, u, v, delta), x, ys) ==
      TableInflow(flow, x, ys) + (if x == v && u in ys then delta else 0) - (if x == u && v in ys then delta else 0)
  {
    var r := PushedFlow(flow, capacity, u, v, delta);
    var forward := EdgeInfo(capacity, u, v, 0) > 0;
    var a, b, d := if forward then u else v, if forward then v else u, if forward then delta else -delta;
    forall p, q | (p, q) != (a, b)
      ensures EdgeTable.Flow(Flatten(r), p, q) == EdgeTable.Flow(Flatten(flow), p, q)
    {
      FlattenAt(r, p, q);
      FlattenAt(flow, p, q);
    }
    FlattenAt(r, a, b);
    FlattenAt(flow, a, b);
    FlowSums.NetInflowChange(Flatten(flow), Flatten(r), x, ys, a, b, d);
    TableInflowIsNetInflow(r, x, ys);
    TableInflowIsNetInflow(flow, x, ys);
  }

  /** The flow setup gives: 1 on each edge out of the source, 0 elsewhere and off the network. */
  lemma InitialFlowAt(inst: FlowNetwork.Instance, p: int, q: int)
    requires FlowNetwork.WellFormed(inst)
    ensures EdgeTable.Flow(InitialFlows(FlowNetwork.Keys(inst)), p, q) == if p == SourceId && q in inst.lv then 1 else 0
  {
    if p == SourceId && q in inst.lv {
      assert EdgeTable.KeyVal(SourceId, q) in FlowNetwork.Keys(inst);
    }
  }

  /**
   * The net inflows of the flow setup gives: minus the number of left vertices at the
   * source, 1 at each left vertex and 0 at every other vertex.
   */
  lemma InitialInflow(inst: FlowNetwork.Instance, x: int)
    requires FlowNetwork.WellFormed(inst)
    ensures FlowSums.NetInflow(InitialFlows(FlowNetwork.Keys(inst)), x, FlowNetwork.NetNeighbors(inst, x)) ==
      if x == SourceId then -|inst.lv| else if x in inst.lv then 1 else 0
  {
    var F := InitialFlows(FlowNetwork.Keys(inst));
    var ys := FlowNetwork.NetNeighbors(inst, x);
    FlowNetwork.NetNeighborsDistinct(inst, x);
    if x == SourceId {
      forall y | y in ys
        ensures EdgeTable.Flow(F, y, x) == 0 && EdgeTable.Flow(F, x, y) == 1
      {
        InitialFlowAt(inst, y, x);
        InitialFlowAt(inst, x, y);
      }
      FlowSums.NetInflowAllOut(F, x, ys);
    } else {
      forall y | y in ys && y != SourceId
        ensures EdgeTable.Flow(F, y, x) == 0 && EdgeTable.Flow(F, x, y) == 0
      {
        InitialFlowAt(inst, y, x);
        InitialFlowAt(inst, x, y);
      }
      FlowSums.NetInflowSingle(F, x, ys, SourceId);
      InitialFlowAt(inst, SourceId, x);
      InitialFlowAt(inst, x, SourceId);
      if x in inst.lv {
        FlowNetwork.LeftNeighbors(inst, x, SourceId);
      } else if x != SinkId {
        FlowNetwork.PartnersMembership(inst.teams, x, SourceId);
      }
    }
  }

  /** Flows within capacities that are 1 on exactly the network's edges are unit flows on the network. */
  lemma UnitFlowTable(inst: FlowNetwork.Instance, flow: Table, capacity: Table)
    requires FlowWithinCapacity(flow, capacity) && Flatten(capacity) == UnitCapacities(FlowNetwork.Keys(inst))
    ensures FlowSums.WithinUnitCapacity(inst, Flatten(flow))
  {
    forall k
      ensures k in Flatten(flow) <==> k in FlowNetwork.Keys(inst)
      ensures k in Flatten(flow) ==> 0 <= Flatten(flow)[k] <= 1
    {
      FlattenAt(flow, k.0, k.1);
      FlattenAt(capacity, k.0, k.1);
    }
  }

  /** The vertices of ns other than the source. */
  function NonSource(ns: seq<Vertex>): set<Vertex>
  {
    set w | w in ns && w.id != SourceId
  }

  /**
   * One pass of computeMatchSet's outer loop: adding what FlowPartners collects for the left
   * vertex l adds l's ends to those collected so far.
   */
  lemma MatchStep(inst: FlowNetwork.Instance, flow: Table, base: set<int>, done: set<int>, l: int, ns: seq<int>,
                  hits: set<int>, M: set<Vertex>, added: set<Vertex>)
    requires IdsOf(M) == base + FlowSums.EndsOf(inst, Flatten(flow), done)
    requires forall r :: r in ns <==> r in FlowNetwork.NetNeighbors(inst, l)
    requires forall r :: r in hits <==> r in ns && r != SourceId && TableFlow(flow, l, r) > 0
    requires IdsOf(added) == hits + (if hits == {} then {} else {l})
    ensures IdsOf(M + added) == base + FlowSums.EndsOf(inst, Flatten(flow), done + {l})
  {
    TableFlowIsFlow(flow, l);
    FlowSums.EndsOfOne(inst, Flatten(flow), l, hits);
    FlowSums.EndsOfAdd(inst, Flatten(flow), done, l);
    IdsOfUnion(M, added);
  }

  /**
   * The inner loop of computeMatchSet for one left vertex v: v and every neighbour other than
   * the source that v sends flow to. hits are the ids of those neighbours.
   */
  method FlowPartners(v: Vertex, neighbors: seq<Vertex>, flow: Table) returns (added: set<Vertex>, ghost hits: set<int>)
    requires InTable(flow, v.id)
    ensures forall r :: r in hits <==> r in Ids(neighbors) && r != SourceId && TableFlow(flow, v.id, r) > 0
    ensures IdsOf(added) == hits + (if hits == {} then {} else {v.id})
    ensures added <= {v} + NonSource(neighbors)
  {
    added, hits := {}, {};
    ghost var ns := Ids(neighbors);
    var j := 0;
    while j < |neighbors|
      invariant 0 <= j <= |neighbors|
      invariant forall r :: r in hits <==> r in ns[..j] && r != SourceId && TableFlow(flow, v.id, r) > 0
      invariant IdsOf(added) == hits + (if hits == {} then {} else {v.id})
      invariant added <= {v} + NonSource(neighbors)
    {
      var neighb := neighbors[j];
      assert ns[..j + 1] == ns[..j] + [neighb.id];
      if neighb.id != SourceId && EdgeInfo(flow, v.id, neighb.id, 0) > 0 {
        IdsOfAdd(added, v);
        IdsOfAdd(added + {v}, neighb);
        added := added + {v} + {neighb};
        hits := hits + {neighb.id};
      }
      j := j + 1;
    }
    assert ns[..j] == ns;
  }

  // ---------------------------------------------------------------------------------------
  // Solver (lines 58-363)

  class Solver {
    const registry: Registry
    const edges: Edges
    const source: Vertex
    const sink: Vertex
    const friend: Vertex
    /** V: the vertex list relabel-to-front walks; LV and RV: the two locations' vertices. */
    var V: seq<Vertex>
    var LV: set<Vertex>
    var RV: set<Vertex>
    var matches: set<Vertex>
    var invitees: set<int>
    /** The input the solver was built from, and the vertices registered for it. */
    const inst: FlowNetwork.Instance
    ghost var nodes: set<Vertex>

    /** The registry holds exactly the nodes, each at its own index. */
    ghost predicate Registered()
      reads this`nodes, registry, registry.vertices
    {
      registry.Valid() &&
      (forall v :: v in nodes ==> 0 <= v.GetIdx() < MaxNumVertices && registry.vertices[v.GetIdx()] == v) &&
      (forall i :: 0 <= i < registry.vertices.Length && registry.vertices[i] != null ==> registry.vertices[i] in nodes)
    }

    /** Neighbour lists hold nodes, and exactly the network's neighbours, in some order. */
    ghost predicate Adjacent()
      reads this`nodes, nodes`neighbors
    {
      forall v :: v in nodes ==>
        (forall w :: w in v.neighbors ==> w in nodes) &&
        (forall y :: y in Ids(v.neighbors) <==> y in FlowNetwork.NetNeighbors(inst, v.id))
    }

    ghost predicate TablesOk()
      reads edges`flow, edges`capacity
    {
      |edges.flow| == MaxNumVertices && FlowWithinCapacity(edges.flow, edges.capacity)
    }

    /** What push, relabel and discharge need of a vertex: slots for it and its neighbours, and no self-loop. */
    ghost predicate Local(u: Vertex)
      reads u`neighbors, edges`flow, edges`capacity
    {
      edges.Covers(u) && forall w :: w in u.neighbors ==> edges.Covers(w) && w != u
    }

    /** The net inflow of v: what its neighbours in the network send it less what it sends them. */
    ghost function Inflow(v: Vertex): int
      reads edges`flow
    {
      TableInflow(edges.flow, v.id, FlowNetwork.NetNeighbors(inst, v.id))
    }

    /** The preflow condition: the excess of every vertex is its net inflow. */
    ghost predicate Preflow()
      reads this`nodes, nodes`excess, edges`flow
    {
      forall v {:trigger Inflow(v)} :: v in nodes ==> v.excess == Inflow(v)
    }

    /**
     * u is registered, every registered vertex sits in the registry at its id's slot (so no
     * two share an id), and each neighbour of u is a registered vertex of another id that is
     * u's neighbour in the network, and u its.
     */
    ghost predicate Linked(u: Vertex)
      reads this`nodes, u`neighbors, registry, registry.vertices
    {
      FlowNetwork.WellFormed(inst) && u in nodes &&
      (forall a :: a in nodes ==> 0 <= a.GetIdx() < registry.vertices.Length && registry.vertices[a.GetIdx()] == a) &&
      forall v :: v in u.neighbors ==>
        v in nodes && u.id != v.id &&
        v.id in FlowNetwork.NetNeighbors(inst, u.id) && u.id in FlowNetwork.NetNeighbors(inst, v.id)
    }

    /**
     * The invariant of the solver after setup that push-relabel works under: the registry,
     * the neighbour lists, the tables, the sides and the excesses.
     */
    ghost predicate Valid()
      reads this`nodes, this`V, this`LV, this`RV, registry, registry.vertices
      reads nodes`neighbors, nodes`currNeighbor, nodes`excess, edges`flow, edges`capacity
    {
      FlowNetwork.WellFormed(inst) && Registered() &&
      Adjacent() && TablesOk() &&
      source in nodes && sink in nodes && friend in nodes &&
      source.id == SourceId && sink.id == SinkId && friend.id == FriendId &&
      LV <= nodes && RV <= nodes &&
      (forall v :: v in V ==> v in LV || v in RV) && source !in LV && source !in RV &&
      (forall v :: v in nodes ==> v.currNeighbor >= 0) &&
      (forall v :: v in nodes && v != source ==> v.excess >= 0)
    }

    /**
     * What setup fixes once and for all: the vertices are those of the network, the two sides
     * those of the two locations, and every network edge has capacity 1.
     */
    ghost predicate Shape()
      reads this`nodes, this`LV, this`RV, edges`capacity
    {
      IdsOf(nodes) == FlowNetwork.NetIds(inst) &&
      IdsOf(LV) == FlowNetwork.LSet(inst) && IdsOf(RV) == FlowNetwork.RSet(inst) &&
      Flatten(edges.capacity) == UnitCapacities(FlowNetwork.Keys(inst))
    }

    /** The registered vertices after the source side of lvDone and the sink side of rvDone. */
    ghost predicate BuiltNodes(lvDone: seq<int>, rvDone: seq<int>)
      reads this`nodes, registry, registry.vertices
    {
      FlowNetwork.WellFormed(inst) && Registered() && IdsOf(nodes) == FlowNetwork.PhaseIds(lvDone, rvDone) &&
      source in nodes && sink in nodes && friend in nodes &&
      source.id == SourceId && sink.id == SinkId && friend.id == FriendId
    }

    /** Each registered vertex has exactly the neighbour list setup has given it so far. */
    ghost predicate BuiltAdj(lvDone: seq<int>, rvDone: seq<int>, teamsDone: seq<FlowNetwork.Team>)
      reads this`nodes, nodes`neighbors
    {
      forall v {:trigger v.neighbors} :: v in nodes ==>
        (forall w :: w in v.neighbors ==> w in nodes) &&
        Ids(v.neighbors) == FlowNetwork.PhaseNeighbors(lvDone, rvDone, teamsDone, v.id)
    }

    /** LV, RV and V as setup has filled them, and the starting excesses and heights. */
    ghost predicate BuiltSides(lvDone: seq<int>, rvDone: seq<int>)
      reads this`nodes, this`V, this`LV, this`RV, nodes`currNeighbor, nodes`excess, nodes`height
    {
      source in nodes && LV <= nodes && RV <= nodes &&
      IdsOf(LV) == (set l | l in lvDone) && IdsOf(RV) == (set r | r in rvDone) &&
      (forall v :: v in V ==> v in LV || v in RV) && Ids(V) == SourceSideOrder(lvDone) + rvDone &&
      (forall v :: v in LV ==> v.excess == 1 && v.height == 2) &&
      (forall v :: v in RV ==> v.excess == 0 && v.height == 1) &&
      (forall v :: v in nodes ==> v.currNeighbor >= 0) &&
      (forall v :: v in nodes && v != source ==> v.excess >= 0) &&
      (forall v :: v in nodes && v != source && v !in LV ==> v.excess == 0)
    }

    /**
     * The state setup has reached after the source side of lvDone, the sink side of rvDone
     * and the teams teamsDone.
     */
    ghost predicate Built(lvDone: seq<int>, rvDone: seq<int>, teamsDone: seq<FlowNetwork.Team>)
      reads this`nodes, this`V, this`LV, this`RV, registry, registry.vertices
      reads nodes`neighbors, nodes`currNeighbor, nodes`excess, nodes`height, edges`flow, edges`capacity
    {
      BuiltObjects(lvDone, rvDone, teamsDone) &&
      edges.flow == SetupTable(lvDone, rvDone, teamsDone, 1, 0) &&
      edges.capacity == SetupTable(lvDone, rvDone, teamsDone, 1, 1)
    }

    /** The vertices' part of Built. */
    ghost predicate BuiltObjects(lvDone: seq<int>, rvDone: seq<int>, teamsDone: seq<FlowNetwork.Team>)
      reads this`nodes, this`V, this`LV, this`RV, registry, registry.vertices
      reads nodes`neighbors, nodes`currNeighbor, nodes`excess, nodes`height
    {
      BuiltNodes(lvDone, rvDone) && BuiltAdj(lvDone, rvDone, teamsDone) && BuiltSides(lvDone, rvDone)
    }

    lemma LocalOf(u: Vertex)
      requires Valid() && u in nodes
      ensures Local(u) && forall w :: w in u.neighbors ==> w in nodes
    {
      forall w | w in u.neighbors
        ensures edges.Covers(w) && w != u
      {
        FlowNetwork.NetNeighborsSymmetric(inst, u.id, u.id);
        var j :| 0 <= j < |u.neighbors| && u.neighbors[j] == w;
        assert Ids(u.neighbors)[j] == w.id;
      }
    }

    /** In a valid solver every registered vertex is linked to its neighbours. */
    lemma LinkedOf(u: Vertex)
      requires Valid() && u in nodes
      ensures Linked(u)
    {
      forall v | v in u.neighbors
        ensures u.id != v.id && v.id in FlowNetwork.NetNeighbors(inst, u.id) && u.id in FlowNetwork.NetNeighbors(inst, v.id)
      {
        var j :| 0 <= j < |u.neighbors| && u.neighbors[j] == v;
        assert Ids(u.neighbors)[j] == v.id;
        FlowNetwork.NetNeighborsSymmetric(inst, u.id, v.id);
      }
    }

    // Setup (lines 77-179)

    /**
     * new Solver(pp): looks up the source, the sink and the friend, then initialize()
     * builds the network: V holds the friend (when listed) first, the other left vertices
     * and then the right vertices, each left vertex starts with excess 1 and height 2 and
     * each right vertex with height 1, the source's excess is minus the number of left
     * vertices and its height is |V| + 2; every network edge has capacity 1 and flow 1
     * out of the source, 0 elsewhere.
     */
    constructor (inst: FlowNetwork.Instance)
      requires FlowNetwork.WellFormed(inst)
      ensures this.inst == inst && Initialized() && Preflow() && matches == {} && invitees == {}
    {
      var reg := new Registry();
      var s := reg.VertexFromId(SourceId);
      var t := reg.VertexFromId(SinkId);
      var f := reg.VertexFromId(FriendId);
      registry := reg;
      source, sink, friend := s, t, f;
      edges := new Edges(MaxNumVertices);
      V, LV, RV := [], {}, {};
      matches, invitees := {}, {};
      this.inst := inst;
      nodes := {s, t, f};
      new;
      Initialize();
      InitialPreflow();
    }

    /** The solver as initialize leaves it: prepared, and the source at height |V| + 2. */
    ghost predicate Initialized()
      reads this`nodes, this`V, this`LV, this`RV, registry, registry.vertices
      reads nodes`neighbors, nodes`currNeighbor, nodes`excess, LV`height, RV`height, source`height, edges`flow, edges`capacity
    {
      Prepared() && source.height == Wrap(|inst.lv| + |inst.rv| + 2)
    }

    /**
     * The state initialize leaves is a preflow: the source has sent one unit to each left
     * vertex, which holds it as excess, and every other vertex has neither flow nor excess.
     */
    lemma InitialPreflow()
      requires Initialized()
      ensures Preflow()
    {
      forall v | v in nodes
        ensures v.excess == Inflow(v)
      {
        TableInflowIsNetInflow(edges.flow, v.id, FlowNetwork.NetNeighbors(inst, v.id));
        InitialInflow(inst, v.id);
        if v.id == SourceId {
          SameId(v, source);
        }
        if v.id in inst.lv {
          assert v.id in IdsOf(LV);
          var w :| w in LV && w.id == v.id;
          SameId(v, w);
        }
        if v in LV {
          assert v.id in IdsOf(LV);
        }
      }
    }

    /** initialize: enters the left ids, the right ids and the teams, then biases the friend's neighbours. */
    method Initialize()
      requires Unbuilt()
      modifies this`nodes, this`LV, this`RV, this`V, registry.vertices, edges`flow, edges`capacity
      modifies nodes`neighbors, nodes`excess, nodes`height
      ensures Initialized() && matches == old(matches) && invitees == old(invitees)
    {
      StartBuilt();
      SetupAll();
      BuiltPrepared();
      FinishSetup();
    }

    /**
     * The solver as setup leaves it before the source's height is set: valid; V holds the
     * friend (when listed) first, the other left vertices and then the right vertices; the
     * flow is 1 out of the source and 0 elsewhere; left vertices have excess 1 and height 2,
     * right vertices excess 0 and height 1, every other vertex but the source excess 0; the
     * source has excess minus the number of left vertices.
     */
    ghost predicate Prepared()
      reads this`nodes, this`V, this`LV, this`RV, registry, registry.vertices
      reads nodes`neighbors, nodes`currNeighbor, nodes`excess, LV`height, RV`height, edges`flow, edges`capacity
    {
      Valid() && Shape() && Started() && SideHeights()
    }

    /** The part of Prepared that is about the setup's starting flow and excesses rather than the network. */
    ghost predicate Started()
      reads this`nodes, this`V, this`LV, this`RV, nodes`excess, LV`excess, RV`excess, source`excess, edges`flow
    {
      Ids(V) == SourceSideOrder(inst.lv) + inst.rv &&
      Flatten(edges.flow) == InitialFlows(FlowNetwork.Keys(inst)) &&
      (forall v :: v in LV ==> v.excess == 1) &&
      (forall v :: v in RV ==> v.excess == 0) &&
      source.excess == -|inst.lv| && |V| == |inst.lv| + |inst.rv| &&
      (forall v :: v in nodes && v != source && v !in LV ==> v.excess == 0)
    }

    /** The starting heights: 2 on the left side, 1 on the right side. */
    ghost predicate SideHeights()
      reads this`LV, this`RV, LV`height, RV`height
    {
      (forall v :: v in LV ==> v.height == 2) && (forall v :: v in RV ==> v.height == 1)
    }

    /** The end of initialize, once every id and team is entered. */
    method FinishSetup()
      requires Prepared() && Ids(friend.neighbors) == FlowNetwork.NetNeighbors(inst, FriendId)
      modifies registry.vertices, nodes`neighbors, source`height
      ensures Initialized()
    {
      BiasForFriend();
      SetSourceHeight();
    }

    /** The last step of initialize: the source's height becomes |V| + 2. */
    method SetSourceHeight()
      requires Prepared()
      modifies source`height
      ensures Initialized()
    {
      assert source !in LV && source !in RV && |V| == |inst.lv| + |inst.rv|;
      source.height := Wrap(|V| + 2);
      PreparedKept();
    }

    /** Prepared reads no height outside the two sides, so raising the source keeps it. */
    twostate lemma PreparedKept()
      requires old(Prepared()) && source !in LV && source !in RV
      requires unchanged(this, registry, registry.vertices, edges)
      requires unchanged(nodes`neighbors, nodes`currNeighbor, nodes`excess, LV`height, RV`height)
      ensures Prepared()
    {
    }

    /** The three setup loops of initialize. */
    method SetupAll()
      requires Built([], [], []) && source.excess == 0
      modifies this`nodes, this`LV, this`RV, this`V, registry.vertices, edges`flow, edges`capacity
      modifies nodes`neighbors, nodes`excess, nodes`height
      ensures Built(inst.lv, inst.rv, inst.teams) && source.excess == -|inst.lv|
      ensures fresh(nodes - old(nodes))
    {
      SetupSourceSide(inst.lv);
      SetupSinkSide(inst.rv);
      SetupNeighbors(inst.teams);
    }

    /** What setup has built once every id and team is entered. */
    lemma BuiltPrepared()
      requires Built(inst.lv, inst.rv, inst.teams) && source.excess == -|inst.lv|
      ensures Prepared() && Ids(friend.neighbors) == FlowNetwork.NetNeighbors(inst, FriendId)
    {
      BuiltValid();
      assert |Ids(V)| == |V|;
      assert |SourceSideOrder(inst.lv)| == |multiset(inst.lv)|;
    }

    /** Setup, once every id and team is entered, has built a valid solver. */
    lemma BuiltValid()
      requires Built(inst.lv, inst.rv, inst.teams)
      ensures Valid() && Shape() && Flatten(edges.flow) == InitialFlows(FlowNetwork.Keys(inst))
      ensures forall v :: v in nodes ==> Ids(v.neighbors) == FlowNetwork.NetNeighbors(inst, v.id)
    {
      NetTablesBuilt(inst);
      forall v | v in LV
        ensures v != source
      {
        assert v.id in IdsOf(LV);
      }
      forall v | v in RV
        ensures v != source
      {
        assert v.id in IdsOf(RV);
      }
    }

    /** The state the constructor leaves for initialize: only the source, the sink and the friend, unlinked. */
    ghost predicate Unbuilt()
      reads this`nodes, this`V, this`LV, this`RV, registry, registry.vertices
      reads nodes`neighbors, nodes`currNeighbor, nodes`excess, edges`flow, edges`capacity
    {
      FlowNetwork.WellFormed(inst) &&
      registry.Valid() && nodes == {source, sink, friend} &&
      source.id == SourceId && sink.id == SinkId && friend.id == FriendId &&
      (forall i :: 0 <= i < registry.vertices.Length ==>
        registry.vertices[i] == (if i == Vertices.IdxOf(SourceId) then source else if i == Vertices.IdxOf(SinkId) then sink
                                 else if i == Vertices.IdxOf(FriendId) then friend else null)) &&
      (forall v :: v in nodes ==> v.neighbors == [] && v.currNeighbor == 0 && v.excess == 0) &&
      edges.flow == seq(MaxNumVertices, _ => None) && edges.capacity == seq(MaxNumVertices, _ => None) &&
      V == [] && LV == {} && RV == {}
    }

    lemma StartBuilt()
      requires Unbuilt()
      ensures Built([], [], []) && source.excess == 0
    {
      assert IdsOf(nodes) == FlowNetwork.PhaseIds([], []);
    }

    method SetupSourceSide(ids: seq<int>)
      requires Built([], [], []) && ids == inst.lv && source.excess == 0
      modifies this`nodes, this`LV, this`V, registry.vertices, source`neighbors, source`excess
      modifies friend`neighbors, friend`excess, friend`height, edges`flow, edges`capacity
      ensures Built(ids, [], []) && source.excess == -|ids| && fresh(nodes - old(nodes))
    {
      LinkSourceSide(ids);
      assert SourceId !in ids;
      label linked:
      source.excess := source.excess - |source.neighbors|;
      SourceExcessStep@linked(ids);
    }

    /** Setting the source's excess at the end of setupSourceSide leaves the sides as built. */
    twostate lemma SourceExcessStep(lvDone: seq<int>)
      requires old(BuiltSides(lvDone, [])) && source.id == SourceId && SourceId !in lvDone
      requires nodes == old(nodes) && LV == old(LV) && RV == old(RV) && V == old(V)
      requires forall v :: v in nodes && v != source ==> v.excess == old(v.excess)
      requires forall v :: v in nodes ==> v.height == old(v.height) && v.currNeighbor == old(v.currNeighbor)
      ensures BuiltSides(lvDone, [])
    {
      forall v | v in LV
        ensures v != source
      {
        assert v.id in IdsOf(LV);
      }
      forall v | v in RV
        ensures v != source
      {
        assert v.id in IdsOf(RV);
      }
    }

    /** The loop of setupSourceSide, which leaves the source's excess to its end. */
    method LinkSourceSide(ids: seq<int>)
      requires Built([], [], []) && ids == inst.lv && source.excess == 0
      modifies this`nodes, this`LV, this`V, registry.vertices, source`neighbors
      modifies friend`neighbors, friend`excess, friend`height, edges`flow, edges`capacity
      ensures Built(ids, [], []) && source.excess == 0 && |source.neighbors| == |ids|
      ensures fresh(nodes - old(nodes))
    {
      ghost var done := [];
      ghost var created := {};
      for i := 0 to |ids|
        invariant done == ids[..i] && Built(done, [], []) && source.excess == 0
        invariant nodes == old(nodes) + created && fresh(created)
        invariant |source.neighbors| == i
      {
        LeftIdAt(inst, i);
        PrefixStep(ids, i);
        ghost var nodesBefore := nodes;
        ghost var added := SourceSidePass(done, ids[i]);
        UnionSets(old(nodes), nodesBefore, created, added);
        FreshUnionSets(created, added);
        created := created + added;
        done := done + [ids[i]];
      }
      assert ids[..|ids|] == ids;
    }

    /** One pass of setupSourceSide's loop, and the setup state it leads to. */
    method SourceSidePass(ghost lvDone: seq<int>, id: int) returns (ghost added: set<Vertex>)
      requires Built(lvDone, [], []) && source.excess == 0
      requires id !in lvDone && IdIdxDifference <= id <= MaxNyId
      modifies this`nodes, this`LV, this`V, registry.vertices, source`neighbors
      modifies friend`neighbors, friend`excess, friend`height, edges`flow, edges`capacity
      ensures Built(lvDone + [id], [], []) && source.excess == 0
      ensures nodes == old(nodes) + added && forall v :: v in added ==> !old(allocated(v))
      ensures |source.neighbors| == |old(source.neighbors)| + 1
    {
      FreeSlotOrFriend(lvDone, id);
      ghost var u;
      u, added := AddToSourceSide(id);
      SourceNodesStep(lvDone, u);
      SourceSidesStep(lvDone, u);
      SourceAdjStep(lvDone, u);
      SetupTableSourceStep(lvDone, id, 1, 0);
      SetupTableSourceStep(lvDone, id, 1, 1);
    }

    /** A left id not yet entered has no vertex yet, unless it is the friend's. */
    lemma FreeSlotOrFriend(lvDone: seq<int>, id: int)
      requires BuiltNodes(lvDone, []) && id !in lvDone && IdIdxDifference <= id <= MaxNyId
      ensures registry.vertices[Vertices.IdxOf(id)] == null || registry.vertices[Vertices.IdxOf(id)] == friend
      ensures forall v :: v in nodes && v.id == id ==> v == registry.vertices[Vertices.IdxOf(id)]
    {
      forall v | v in nodes && v != friend
        ensures v.id != id
      {
        assert v.id in IdsOf(nodes);
        assert registry.vertices[v.GetIdx()] == v && registry.vertices[friend.GetIdx()] == friend;
      }
    }

    /**
     * One pass of setupSourceSide's loop: u, the vertex of id, becomes a neighbour of the
     * source and the source of u, the edge source -> u gets capacity 1 and flow 1, u gets
     * excess 1 and height 2, and u joins LV and V, at the front if it is the friend.
     */
    method AddToSourceSide(id: int) returns (ghost u: Vertex, ghost added: set<Vertex>)
      requires registry.Valid() && 0 <= Vertices.IdxOf(id) < MaxNumVertices && source.id == SourceId && id != SourceId
      requires registry.vertices[Vertices.IdxOf(id)] == null || registry.vertices[Vertices.IdxOf(id)] == friend
      requires friend in nodes && forall v :: v in nodes && v.id == id ==> v == registry.vertices[Vertices.IdxOf(id)]
      requires InTable(edges.flow, SourceId) && InTable(edges.capacity, SourceId)
      modifies this`nodes, this`LV, this`V, registry.vertices, source`neighbors
      modifies friend`neighbors, friend`excess, friend`height, edges`flow, edges`capacity
      ensures registry.Valid() && u.id == id && registry.vertices[Vertices.IdxOf(id)] == u
      ensures forall i :: 0 <= i < MaxNumVertices && i != Vertices.IdxOf(id) ==> registry.vertices[i] == old(registry.vertices[i])
      ensures forall v :: v in old(nodes) && v.id == id ==> v == u
      ensures u in old(nodes) || (fresh(u) && u.neighbors == [source] && u.currNeighbor == 0)
      ensures u in old(nodes) ==> u.neighbors == old(u.neighbors) + [source]
      ensures u != source && u.excess == 1 && u.height == 2
      ensures nodes == old(nodes) + {u} && LV == old(LV) + {u} && RV == old(RV)
      ensures V == if id == FriendId then [u] + old(V) else old(V) + [u]
      ensures source.neighbors == old(source.neighbors) + [u]
      ensures forall v :: v in old(nodes) && v != u && v != source ==> v.neighbors == old(v.neighbors)
      ensures forall v :: v in old(nodes) && v != u ==> v.excess == old(v.excess) && v.height == old(v.height)
      ensures forall v :: v in old(nodes) ==> v.currNeighbor == old(v.currNeighbor)
      ensures edges.capacity == SetEdgeInfo(old(edges.capacity), SourceId, id, 1)
      ensures edges.flow == SetEdgeInfo(old(edges.flow), SourceId, id, 1)
      ensures nodes == old(nodes) + added && forall v :: v in added ==> !old(allocated(v))
    {
      var w := registry.VertexFromId(id);
      u := w;
      added := {w} - nodes;
      nodes := nodes + {w};
      LV := LV + {w};
      LinkToSource(w);
      w.excess := 1;
      w.height := 2;
      if id == FriendId {
        V := [w] + V;
      } else {
        V := V + [w];
      }
    }

    /** The edge source -> w, with capacity 1 and flow 1, in both neighbour lists. */
    method LinkToSource(w: Vertex)
      requires source.id == SourceId && w != source
      requires InTable(edges.flow, SourceId) && InTable(edges.capacity, SourceId)
      modifies source`neighbors, w`neighbors, edges`flow, edges`capacity
      ensures source.neighbors == old(source.neighbors) + [w] && w.neighbors == old(w.neighbors) + [source]
      ensures edges.capacity == SetEdgeInfo(old(edges.capacity), SourceId, w.id, 1)
      ensures edges.flow == SetEdgeInfo(old(edges.flow), SourceId, w.id, 1)
    {
      source.AddToNeighbors(w);
      w.AddToNeighbors(source);
      edges.SetCapacity(source, w, 1);
      edges.SetFlow(source, w, 1);
    }

    /** What one pass of setupSourceSide does to the registered vertices. */
    twostate lemma SourceNodesStep(lvDone: seq<int>, new u: Vertex)
      requires old(BuiltNodes(lvDone, [])) && unchanged(registry)
      requires u.id !in lvDone && IdIdxDifference <= u.id <= MaxNyId
      requires registry.Valid() && registry.vertices[Vertices.IdxOf(u.id)] == u
      requires forall i :: 0 <= i < MaxNumVertices && i != Vertices.IdxOf(u.id) ==> registry.vertices[i] == old(registry.vertices[i])
      requires forall v :: v in old(nodes) && v.id == u.id ==> v == u
      requires nodes == old(nodes) + {u}
      ensures BuiltNodes(lvDone + [u.id], [])
    {
      var lid := u.id;
      SourceStepKeys(lvDone, lid);
      IdsOfAdd(old(nodes), u);
      if u in old(nodes) {
        assert old(registry.vertices[u.GetIdx()]) == u;
        forall i | 0 <= i < MaxNumVertices
          ensures registry.vertices[i] == old(registry.vertices[i])
        {
        }
      } else {
        RegisterStep(u);
      }
    }

    /** What one pass of setupSourceSide does to LV, RV, V and the excesses and heights. */
    twostate lemma SourceSidesStep(lvDone: seq<int>, new u: Vertex)
      requires old(BuiltSides(lvDone, [])) && old(source.excess) == 0
      requires u.id !in lvDone && (u.id == FriendId || u !in old(nodes))
      requires u in old(nodes) || (fresh(u) && u.currNeighbor == 0)
      requires u != source && u.excess == 1 && u.height == 2
      requires nodes == old(nodes) + {u} && LV == old(LV) + {u} && RV == old(RV)
      requires V == if u.id == FriendId then [u] + old(V) else old(V) + [u]
      requires forall v :: v in old(nodes) && v != u ==> v.excess == old(v.excess) && v.height == old(v.height)
      requires forall v :: v in old(nodes) ==> v.currNeighbor == old(v.currNeighbor)
      ensures BuiltSides(lvDone + [u.id], []) && source.excess == 0
    {
      SourceOrderStep(lvDone, u);
      SourceValuesStep(lvDone, u);
    }

    /** The sides and the order of V after one pass of setupSourceSide. */
    twostate lemma SourceOrderStep(lvDone: seq<int>, new u: Vertex)
      requires old(BuiltSides(lvDone, []))
      requires u.id !in lvDone
      requires nodes == old(nodes) + {u} && LV == old(LV) + {u} && RV == old(RV)
      requires V == if u.id == FriendId then [u] + old(V) else old(V) + [u]
      ensures source in nodes && LV <= nodes && RV <= nodes
      ensures IdsOf(LV) == (set l | l in lvDone + [u.id]) && IdsOf(RV) == (set r | r in [])
      ensures (forall v :: v in V ==> v in LV || v in RV) && Ids(V) == SourceSideOrder(lvDone + [u.id]) + []
    {
      SourceIdsStep(lvDone, u);
      SourceListStep(lvDone, u);
    }

    /** The ids of the sides after one pass of setupSourceSide. */
    twostate lemma SourceIdsStep(lvDone: seq<int>, new u: Vertex)
      requires old(BuiltSides(lvDone, []))
      requires nodes == old(nodes) + {u} && LV == old(LV) + {u} && RV == old(RV)
      ensures source in nodes && LV <= nodes && RV <= nodes
      ensures IdsOf(LV) == (set l | l in lvDone + [u.id]) && IdsOf(RV) == (set r | r in [])
    {
      SourceStepKeys(lvDone, u.id);
      IdsOfAdd(old(LV), u);
      assert IdsOf(LV) == (set l | l in lvDone + [u.id]);
    }

    /** The order of V after one pass of setupSourceSide. */
    twostate lemma SourceListStep(lvDone: seq<int>, new u: Vertex)
      requires old(BuiltSides(lvDone, []))
      requires u.id !in lvDone
      requires LV == old(LV) + {u} && RV == old(RV)
      requires V == if u.id == FriendId then [u] + old(V) else old(V) + [u]
      ensures (forall v :: v in V ==> v in LV || v in RV) && Ids(V) == SourceSideOrder(lvDone + [u.id]) + []
    {
      SourceStepOrder(lvDone, u.id);
      IdsAppend(old(V), u);
      assert Ids(V) == SourceSideOrder(lvDone + [u.id]);
      forall v | v in V
        ensures v in LV || v in RV
      {
        if v != u {
          assert v in old(V);
        }
      }
    }

    /** The excesses, heights and current neighbours after one pass of setupSourceSide. */
    twostate lemma SourceValuesStep(lvDone: seq<int>, new u: Vertex)
      requires old(BuiltSides(lvDone, [])) && old(source.excess) == 0
      requires u in old(nodes) || (fresh(u) && u.currNeighbor == 0)
      requires u != source && u.excess == 1 && u.height == 2
      requires nodes == old(nodes) + {u} && LV == old(LV) + {u} && RV == old(RV)
      requires forall v :: v in old(nodes) && v != u ==> v.excess == old(v.excess) && v.height == old(v.height)
      requires forall v :: v in old(nodes) ==> v.currNeighbor == old(v.currNeighbor)
      ensures source.excess == 0
      ensures (forall v :: v in LV ==> v.excess == 1 && v.height == 2) &&
              (forall v :: v in RV ==> v.excess == 0 && v.height == 1) &&
              (forall v :: v in nodes ==> v.currNeighbor >= 0) &&
              (forall v :: v in nodes && v != source ==> v.excess >= 0) &&
              (forall v :: v in nodes && v != source && v !in LV ==> v.excess == 0)
    {
      forall v | v in LV
        ensures v.excess == 1 && v.height == 2
      {
        if v != u {
          assert v in old(LV);
        }
      }
      IdsOfEmpty(old(RV));
      forall v | v in nodes
        ensures v.currNeighbor >= 0 && (v != source ==> v.excess >= 0)
      {
        if v != u {
          assert v in old(nodes);
        }
      }
      forall v | v in nodes && v != source && v !in LV
        ensures v.excess == 0
      {
        assert v in old(nodes) && v !in old(LV);
      }
    }

    /** What one pass of setupSourceSide does to the neighbour lists. */
    twostate lemma SourceAdjStep(lvDone: seq<int>, new u: Vertex)
      requires old(BuiltAdj(lvDone, [], [])) && old(BuiltNodes(lvDone, [])) && unchanged(registry)
      requires u.id !in lvDone && IdIdxDifference <= u.id <= MaxNyId
      requires forall v :: v in old(nodes) && v.id == u.id ==> v == u
      requires u in old(nodes) || (fresh(u) && u.neighbors == [source])
      requires u in old(nodes) ==> u.neighbors == old(u.neighbors) + [source]
      requires nodes == old(nodes) + {u} && source.neighbors == old(source.neighbors) + [u]
      requires forall v :: v in old(nodes) && v != u && v != source ==> v.neighbors == old(v.neighbors)
      ensures BuiltAdj(lvDone + [u.id], [], [])
    {
      var lid := u.id;
      forall v | v in nodes
        ensures (forall w :: w in v.neighbors ==> w in nodes) &&
          Ids(v.neighbors) == FlowNetwork.PhaseNeighbors(lvDone + [lid], [], [], v.id)
      {
        SourceStepNeighbors(lvDone, lid, v.id);
        if v == u {
          if u in old(nodes) {
            assert old(Ids(u.neighbors)) == FlowNetwork.PhaseNeighbors(lvDone, [], [], lid) == [];
            IdsAppend(old(u.neighbors), source);
          } else {
            IdsAppend([], source);
          }
        } else if v == source {
          IdsAppend(old(source.neighbors), u);
        } else {
          assert v in old(nodes);
          assert old(registry.vertices[v.GetIdx()]) == v && old(registry.vertices[source.GetIdx()]) == source;
          assert v.id in old(IdsOf(nodes));
          assert v.id != SourceId;
          assert v.id != lid;
          assert Ids(v.neighbors) == old(Ids(v.neighbors));
        }
      }
    }

    method SetupSinkSide(ids: seq<int>)
      requires Built(inst.lv, [], []) && ids == inst.rv
      modifies this`nodes, this`RV, this`V, registry.vertices, sink`neighbors, edges`flow, edges`capacity
      ensures Built(inst.lv, ids, []) && fresh(nodes - old(nodes))
    {
      ghost var done := [];
      ghost var created := {};
      for i := 0 to |ids|
        invariant done == ids[..i] && Built(inst.lv, done, [])
        invariant nodes == old(nodes) + created && fresh(created)
      {
        RightIdAt(inst, i);
        PrefixStep(ids, i);
        ghost var nodesBefore := nodes;
        ghost var added := SinkSidePass(done, ids[i]);
        UnionSets(old(nodes), nodesBefore, created, added);
        FreshUnionSets(created, added);
        created := created + added;
        done := done + [ids[i]];
      }
      assert ids[..|ids|] == ids;
    }

    /** One pass of setupSinkSide's loop, and the setup state it leads to. */
    method SinkSidePass(ghost rvDone: seq<int>, id: int) returns (ghost added: set<Vertex>)
      requires Built(inst.lv, rvDone, []) && id !in rvDone && MaxNyId < id <= MaxNormalId
      modifies this`nodes, this`RV, this`V, registry.vertices, sink`neighbors, edges`flow, edges`capacity
      ensures Built(inst.lv, rvDone + [id], [])
      ensures nodes == old(nodes) + added && forall v :: v in added ==> !old(allocated(v))
    {
      FreeSlot(rvDone, id);
      var u := AddToSinkSide(id);
      added := {u};
      SinkNodesStep(rvDone, u);
      SinkSidesStep(rvDone, u);
      SinkAdjStep(rvDone, u);
      SetupTableSinkStep(inst.lv, rvDone, id, 1, 0);
      SetupTableSinkStep(inst.lv, rvDone, id, 1, 1);
    }

    /**
     * One pass of setupSinkSide's loop, on an id not yet registered: the new vertex u
     * becomes a neighbour of the sink and the sink of u, gets height 1, the edge u -> sink
     * gets capacity 1 and flow 0, and u joins RV and the back of V.
     */
    method AddToSinkSide(id: int) returns (ghost u: Vertex)
      requires registry.Valid() && 0 <= Vertices.IdxOf(id) < MaxNumVertices && registry.vertices[Vertices.IdxOf(id)] == null
      requires sink.id == SinkId && InTable(edges.flow, id) && InTable(edges.capacity, id)
      modifies this`nodes, this`RV, this`V, registry.vertices, sink`neighbors, edges`flow, edges`capacity
      ensures registry.Valid() && registry.vertices[Vertices.IdxOf(id)] == u
      ensures forall i :: 0 <= i < MaxNumVertices && i != Vertices.IdxOf(id) ==> registry.vertices[i] == old(registry.vertices[i])
      ensures fresh(u) && u.id == id && u.neighbors == [sink] && u.height == 1 && u.excess == 0 && u.currNeighbor == 0
      ensures nodes == old(nodes) + {u} && LV == old(LV) && RV == old(RV) + {u} && V == old(V) + [u]
      ensures sink.neighbors == old(sink.neighbors) + [u]
      ensures forall v :: v in old(nodes) && v != sink ==> v.neighbors == old(v.neighbors)
      ensures forall v :: v in old(nodes) ==>
        v.excess == old(v.excess) && v.height == old(v.height) && v.currNeighbor == old(v.currNeighbor)
      ensures edges.capacity == SetEdgeInfo(old(edges.capacity), id, SinkId, 1)
      ensures edges.flow == SetEdgeInfo(old(edges.flow), id, SinkId, 0)
    {
      var w := registry.VertexFromId(id);
      u := w;
      nodes := nodes + {w};
      RV := RV + {w};
      sink.AddToNeighbors(w);
      w.AddToNeighbors(sink);
      w.height := 1;
      edges.SetCapacity(w, sink, 1);
      edges.SetFlow(w, sink, 0);
      V := V + [w];
    }

    /** Registering a vertex u for a new id keeps the registry holding exactly the nodes. */
    twostate lemma RegisterStep(new u: Vertex)
      requires old(Registered()) && unchanged(registry)
      requires 0 <= u.GetIdx() < MaxNumVertices && forall v :: v in old(nodes) ==> v.id != u.id
      requires registry.vertices[u.GetIdx()] == u && nodes == old(nodes) + {u}
      requires forall i :: 0 <= i < MaxNumVertices && i != u.GetIdx() ==> registry.vertices[i] == old(registry.vertices[i])
      ensures Registered()
    {
      forall v | v in nodes
        ensures 0 <= v.GetIdx() < MaxNumVertices && registry.vertices[v.GetIdx()] == v
      {
        if v != u {
          assert old(registry.vertices[v.GetIdx()]) == v;
        }
      }
      forall i | 0 <= i < registry.vertices.Length && registry.vertices[i] != null
        ensures registry.vertices[i] in nodes
      {
        if i != u.GetIdx() {
          assert registry.vertices[i] == old(registry.vertices[i]);
        }
      }
    }

    /** A set of new objects stays new when one more new object joins it. */
    twostate lemma FreshUnionSets(new c: set<Vertex>, new a: set<Vertex>)
      requires fresh(c) && forall v :: v in a ==> !old(allocated(v))
      ensures fresh(c + a)
    {
    }

    /** A right id not yet entered has no vertex yet. */
    lemma FreeSlot(rvDone: seq<int>, id: int)
      requires BuiltNodes(inst.lv, rvDone) && id !in rvDone && MaxNyId < id <= MaxNormalId
      ensures registry.vertices[Vertices.IdxOf(id)] == null
    {
      forall v | v in nodes
        ensures v.id != id
      {
        assert v.id in IdsOf(nodes);
      }
    }

    /** What one pass of setupSinkSide does to the registered vertices. */
    twostate lemma SinkNodesStep(rvDone: seq<int>, new u: Vertex)
      requires old(BuiltNodes(inst.lv, rvDone)) && unchanged(registry)
      requires u.id !in rvDone && MaxNyId < u.id <= MaxNormalId
      requires registry.Valid() && registry.vertices[u.GetIdx()] == u && nodes == old(nodes) + {u}
      requires forall i :: 0 <= i < MaxNumVertices && i != u.GetIdx() ==> registry.vertices[i] == old(registry.vertices[i])
      ensures BuiltNodes(inst.lv, rvDone + [u.id])
    {
      assert forall v :: v in old(nodes) ==> v.id != u.id by {
        forall v | v in old(nodes)
          ensures v.id != u.id
        {
          assert v.id in old(IdsOf(nodes));
        }
      }
      RegisterStep(u);
      IdsOfAdd(old(nodes), u);
      SinkStepKeys(inst.lv, rvDone, u.id);
    }

    /** What one pass of setupSinkSide does to LV, RV, V and the excesses and heights. */
    twostate lemma SinkSidesStep(rvDone: seq<int>, new u: Vertex)
      requires old(BuiltSides(inst.lv, rvDone))
      requires fresh(u) && u.height == 1 && u.excess == 0 && u.currNeighbor == 0
      requires nodes == old(nodes) + {u} && LV == old(LV) && RV == old(RV) + {u} && V == old(V) + [u]
      requires forall v :: v in old(nodes) ==>
        v.excess == old(v.excess) && v.height == old(v.height) && v.currNeighbor == old(v.currNeighbor)
      ensures BuiltSides(inst.lv, rvDone + [u.id])
    {
      IdsOfAdd(old(RV), u);
      IdsAppend(old(V), u);
    }

    /** What one pass of setupSinkSide does to the neighbour lists. */
    twostate lemma SinkAdjStep(rvDone: seq<int>, new u: Vertex)
      requires old(BuiltAdj(inst.lv, rvDone, [])) && old(BuiltNodes(inst.lv, rvDone)) && unchanged(registry)
      requires u.id !in rvDone && MaxNyId < u.id <= MaxNormalId
      requires fresh(u) && u.neighbors == [sink] && nodes == old(nodes) + {u}
      requires sink.neighbors == old(sink.neighbors) + [u]
      requires forall v :: v in old(nodes) && v != sink ==> v.neighbors == old(v.neighbors)
      ensures BuiltAdj(inst.lv, rvDone + [u.id], [])
    {
      var id := u.id;
      assert id !in inst.lv;
      assert id !in old(IdsOf(nodes));
      forall v | v in nodes
        ensures (forall w :: w in v.neighbors ==> w in nodes) &&
          Ids(v.neighbors) == FlowNetwork.PhaseNeighbors(inst.lv, rvDone + [id], [], v.id)
      {
        SinkStepNeighbors(inst.lv, rvDone, id, v.id);
        if v == u {
          IdsAppend([], sink);
          assert Ids(v.neighbors) == [SinkId];
        } else if v == sink {
          IdsAppend(old(sink.neighbors), u);
          assert Ids(v.neighbors) == Ids(old(sink.neighbors)) + [id];
        } else {
          assert v in old(nodes);
          assert old(registry.vertices[v.GetIdx()]) == v && old(registry.vertices[sink.GetIdx()]) == sink;
          assert v.id in old(IdsOf(nodes));
          assert v.id != SinkId && v.id != id;
          assert Ids(v.neighbors) == old(Ids(v.neighbors));
        }
      }
    }

    method SetupNeighbors(teams: seq<FlowNetwork.Team>)
      requires Built(inst.lv, inst.rv, []) && teams == inst.teams
      modifies registry.vertices, nodes`neighbors, edges`flow, edges`capacity
      ensures Built(inst.lv, inst.rv, teams)
    {
      ghost var done := [];
      for i := 0 to |teams|
        invariant done == teams[..i] && Built(inst.lv, inst.rv, done)
      {
        PrefixStep(teams, i);
        TeamPass(done, teams[i]);
        done := done + [teams[i]];
      }
      assert teams[..|teams|] == teams;
    }

    /** One pass of setupNeighbors' loop, and the setup state it leads to. */
    method TeamPass(ghost teamsDone: seq<FlowNetwork.Team>, t: FlowNetwork.Team)
      requires Built(inst.lv, inst.rv, teamsDone) && t in inst.teams
      modifies registry.vertices, nodes`neighbors, edges`flow, edges`capacity
      ensures Built(inst.lv, inst.rv, teamsDone + [t])
    {
      ghost var a, b := TeamEnds(t);
      AddTeam(t, a, b);
      TeamAdjStep(teamsDone, a, b);
      SetupTableTeamStep(inst.lv, inst.rv, teamsDone, t, 1, 0);
      SetupTableTeamStep(inst.lv, inst.rv, teamsDone, t, 1, 1);
    }

    /**
     * One pass of setupNeighbors' loop on the registered vertices a and b of a team: each
     * becomes the other's neighbour, and the edge a -> b gets capacity 1 and flow 0.
     */
    method AddTeam(t: FlowNetwork.Team, ghost a: Vertex, ghost b: Vertex)
      requires registry.Valid() && 0 <= Vertices.IdxOf(t.0) < MaxNumVertices && 0 <= Vertices.IdxOf(t.1) < MaxNumVertices
      requires registry.vertices[Vertices.IdxOf(t.0)] == a && registry.vertices[Vertices.IdxOf(t.1)] == b && a != b
      requires InTable(edges.flow, t.0) && InTable(edges.capacity, t.0)
      modifies registry.vertices, a`neighbors, b`neighbors, edges`flow, edges`capacity
      ensures unchanged(registry.vertices)
      ensures a.neighbors == old(a.neighbors) + [b] && b.neighbors == old(b.neighbors) + [a]
      ensures edges.capacity == SetEdgeInfo(old(edges.capacity), t.0, t.1, 1)
      ensures edges.flow == SetEdgeInfo(old(edges.flow), t.0, t.1, 0)
    {
      var u := registry.VertexFromId(t.0);
      var v := registry.VertexFromId(t.1);
      u.AddToNeighbors(v);
      v.AddToNeighbors(u);
      edges.SetCapacity(u, v, 1);
      edges.SetFlow(u, v, 0);
    }

    /** The registered vertices of a team's two ids. */
    lemma TeamEnds(t: FlowNetwork.Team) returns (a: Vertex, b: Vertex)
      requires BuiltNodes(inst.lv, inst.rv) && t in inst.teams
      ensures a in nodes && b in nodes && a.id == t.0 && b.id == t.1 && a != b
      ensures a.id in inst.lv && b.id in inst.rv
      ensures 0 <= Vertices.IdxOf(t.0) < MaxNumVertices && 0 <= Vertices.IdxOf(t.1) < MaxNumVertices
      ensures registry.vertices[Vertices.IdxOf(t.0)] == a && registry.vertices[Vertices.IdxOf(t.1)] == b
    {
      assert t.0 in inst.lv && t.1 in inst.rv;
      assert t.0 in IdsOf(nodes) && t.1 in IdsOf(nodes);
      a :| a in nodes && a.id == t.0;
      b :| b in nodes && b.id == t.1;
    }

    /** What one pass of setupNeighbors does to the neighbour lists: the team (a, b) joins them. */
    twostate lemma TeamAdjStep(teamsDone: seq<FlowNetwork.Team>, new a: Vertex, new b: Vertex)
      requires old(BuiltAdj(inst.lv, inst.rv, teamsDone)) && old(Registered()) && FlowNetwork.WellFormed(inst)
      requires unchanged(this`nodes) && unchanged(registry.vertices)
      requires a in nodes && b in nodes && a.id in inst.lv && b.id in inst.rv
      requires a.neighbors == old(a.neighbors) + [b] && b.neighbors == old(b.neighbors) + [a]
      requires forall v :: v in nodes && v != a && v != b ==> v.neighbors == old(v.neighbors)
      ensures BuiltAdj(inst.lv, inst.rv, teamsDone + [(a.id, b.id)])
    {
      var t := (a.id, b.id);
      forall w | w in nodes
        ensures Ids(w.neighbors) == FlowNetwork.PhaseNeighbors(inst.lv, inst.rv, teamsDone + [t], w.id)
      {
        assert old(registry.vertices[Vertices.IdxOf(w.id)]) == w;
        if w.id != SourceId && w.id != SinkId {
          FlowNetwork.TeamStepNeighbors(inst.lv, inst.rv, teamsDone, t, w.id);
        }
        if w == a {
          IdsAppend(old(a.neighbors), b);
        } else if w == b {
          IdsAppend(old(b.neighbors), a);
        }
      }
    }

    /** Two registered vertices with the same id are the same vertex. */
    lemma SameId(a: Vertex, b: Vertex)
      requires Registered() && a in nodes && b in nodes && a.id == b.id
      ensures a == b
    {
    }

    /** The neighbour list biasForFriend gives v: the friend moved to the front if v -> friend is an edge, to the back otherwise. */
    ghost function Biased(v: Vertex, ns: seq<Vertex>): seq<Vertex>
      reads edges`capacity
      requires InTable(edges.capacity, v.id)
    {
      if edges.FlowsForward(v, friend) then MoveToFront(ns, friend) else MoveToBack(ns, friend)
    }

    /**
     * biasForFriend: every neighbour of the friend reorders its own list so that it tries the
     * friend first when it can push flow into the friend (the source, when the friend is a
     * left vertex) and last otherwise. Other lists, and every list's members, are unchanged.
     */
    method BiasForFriend()
      requires Valid() && Ids(friend.neighbors) == FlowNetwork.NetNeighbors(inst, FriendId)
      modifies registry.vertices, nodes`neighbors
      ensures Valid() && unchanged(registry.vertices)
      ensures forall v :: v in nodes ==>
        v.neighbors == if v in old(friend.neighbors) then Biased(v, old(v.neighbors)) else old(v.neighbors)
    {
      var f := registry.VertexFromId(FriendId);
      assert f == friend;
      assert unchanged(registry.vertices);
      var neighbors := f.neighbors;
      assert Distinct(Ids(neighbors)) by {
        FlowNetwork.NetNeighborsDistinct(inst, FriendId);
      }
      LocalOf(f);
      Reorder(neighbors);
      BiasedIsValid();
    }

    /** The loop of biasForFriend over the friend's neighbours, listed once each. */
    method Reorder(neighbors: seq<Vertex>)
      requires friend.neighbors == neighbors && Distinct(Ids(neighbors)) && friend !in neighbors
      requires forall v :: v in neighbors ==> v in nodes && InTable(edges.capacity, v.id)
      modifies nodes`neighbors
      ensures forall v :: v in nodes ==>
        v.neighbors == if v in neighbors then Biased(v, old(v.neighbors)) else old(v.neighbors)
    {
      for i := 0 to |neighbors|
        invariant friend.neighbors == neighbors
        invariant forall v :: v in nodes ==>
          v.neighbors == if v in neighbors[..i] then Biased(v, old(v.neighbors)) else old(v.neighbors)
      {
        var v := neighbors[i];
        DistinctIdsPrefix(neighbors, i);
        assert neighbors[..i + 1] == neighbors[..i] + [v];
        label pass:
        BiasOne(v);
        forall w | w in nodes
          ensures w.neighbors == if w in neighbors[..i + 1] then Biased(w, old(w.neighbors)) else old(w.neighbors)
        {
          if w != v {
            assert w.neighbors == old@pass(w.neighbors);
            assert w in neighbors[..i + 1] <==> w in neighbors[..i];
          }
        }
      }
      assert neighbors[..|neighbors|] == neighbors;
    }

    /** One pass of biasForFriend's loop: v moves the friend to the front or the back of its list. */
    method BiasOne(v: Vertex)
      requires InTable(edges.capacity, v.id)
      modifies v`neighbors
      ensures v.neighbors == Biased(v, old(v.neighbors))
    {
      if edges.FlowsForward(v, friend) {
        v.MoveToFrontOfNeighbors(friend);
      } else {
        v.MoveToBackOfNeighbors(friend);
      }
    }

    /** After biasForFriend every list has the members it had, so the network's adjacency holds. */
    twostate lemma BiasedIsValid()
      requires old(Valid())
      requires unchanged(this`nodes, this`V, this`LV, this`RV, registry, edges)
      requires unchanged(nodes`currNeighbor, nodes`excess, nodes`height)
      requires unchanged(registry.vertices)
      requires forall v :: v in nodes ==>
        v.neighbors == if v in old(friend.neighbors) then Biased(v, old(v.neighbors)) else old(v.neighbors)
      ensures Valid()
    {
      forall v | v in nodes
        ensures forall w :: w in v.neighbors <==> w in old(v.neighbors)
      {
        if v in old(friend.neighbors) {
          assert FriendId in Ids(old(v.neighbors)) by {
            var j :| 0 <= j < |old(friend.neighbors)| && old(friend.neighbors)[j] == v;
            assert old(Ids(friend.neighbors))[j] == v.id;
            FlowNetwork.NetNeighborsSymmetric(inst, FriendId, v.id);
          }
          assert friend in old(v.neighbors) by {
            var j :| 0 <= j < |old(v.neighbors)| && old(Ids(v.neighbors))[j] == FriendId;
            SameId(old(v.neighbors)[j], friend);
          }
          MovesKeepOthers(old(v.neighbors), friend);
        }
      }
      forall v | v in nodes
        ensures forall y :: y in Ids(v.neighbors) <==> y in FlowNetwork.NetNeighbors(inst, v.id)
      {
        SameMembersSameIds(v.neighbors, old(v.neighbors));
      }
    }

    // Push-relabel (lines 189-270)

    /**
     * push: moves delta = min(excess(u), residual(u, v)) of excess from u to v, so the two
     * excesses keep their sum; the flow grows by delta on the edge u -> v if there is one,
     * and otherwise shrinks by delta on v -> u. Flows stay within their capacities.
     */
    method Push(u: Vertex, v: Vertex)
      requires edges.Covers(u) && edges.Covers(v) && TablesOk()
      requires u.excess > 0 && edges.GetResidualCapacity(u, v) > 0 && u.height == Wrap(v.height as int + 1)
      modifies u`excess, v`excess, edges`flow
      ensures u != v
      ensures var delta := old(if u.excess < edges.GetResidualCapacity(u, v) then u.excess else edges.GetResidualCapacity(u, v));
        0 < delta && u.excess == old(u.excess) - delta && v.excess == old(v.excess) + delta &&
        edges.flow == PushedFlow(old(edges.flow), edges.capacity, u.id, v.id, delta)
      ensures TablesOk()
    {
      WrapSuccessorDiffers(v.height);
      var excess := u.excess;
      var residualCapacity := edges.GetResidualCapacity(u, v);
      var changeInFlow := if excess < residualCapacity then excess else residualCapacity;
      if edges.FlowsForward(u, v) {
        edges.AddToFlow(u, v, changeInFlow);
      } else {
        edges.AddToFlow(v, u, -changeInFlow);
      }
      u.excess := u.excess - changeInFlow;
      v.excess := v.excess + changeInFlow;
    }

    /**
     * A push from u to the neighbour it is looking at keeps the preflow condition: the amount
     * u's excess went down by is the flow moved to that neighbour, whose excess went up by it.
     */
    twostate lemma PushedPreflow(u: Vertex)
      requires old(Preflow()) && old(Linked(u)) && u.neighbors == old(u.neighbors)
      requires u.currNeighbor == old(u.currNeighbor) && 0 <= u.currNeighbor < |u.neighbors|
      requires nodes == old(nodes) && edges.capacity == old(edges.capacity)
      requires old(TablesOk()) && old(edges.Covers(u)) && old(edges.Covers(u.neighbors[u.currNeighbor]))
      requires 0 < old(u.excess) - u.excess <= old(Residual(edges.flow, edges.capacity, u.id, u.neighbors[u.currNeighbor].id))
      requires edges.flow == PushedFlow(old(edges.flow), edges.capacity, u.id, u.neighbors[u.currNeighbor].id, old(u.excess) - u.excess)
      requires u.neighbors[u.currNeighbor].excess - old(u.neighbors[u.currNeighbor].excess) == old(u.excess) - u.excess
      requires forall w :: w in nodes && w != u && w != u.neighbors[u.currNeighbor] ==> w.excess == old(w.excess)
      ensures Preflow()
    {
      var v := u.neighbors[u.currNeighbor];
      var delta := old(u.excess) - u.excess;
      assert v in old(u.neighbors);
      forall w | w in nodes
        ensures w.excess == Inflow(w)
      {
        assert old(w.excess) == old(Inflow(w));
        FlowNetwork.NetNeighborsDistinct(inst, w.id);
        PushInflow(old(edges.flow), edges.capacity, u.id, v.id, delta, w.id, FlowNetwork.NetNeighbors(inst, w.id));
      }
    }

    /**
     * The least height among the first k neighbours of u that u has residual capacity to,
     * or Integer.MAX_VALUE when there is none.
     */
    ghost function MinResidualHeight(u: Vertex, k: nat): int32
      reads u`neighbors, u.neighbors`height, edges`flow, edges`capacity
      requires Local(u) && k <= |u.neighbors|
    {
      if k == 0 then IntMax as int32
      else
        var w := u.neighbors[k - 1];
        var m := MinResidualHeight(u, k - 1);
        if edges.GetResidualCapacity(u, w) > 0 && w.height < m then w.height else m
    }

    /** MinResidualHeight is the minimum it is named for. */
    lemma {:induction false} MinResidualHeightIsLeast(u: Vertex, k: nat)
      requires Local(u) && k <= |u.neighbors|
      ensures forall j :: 0 <= j < k && edges.GetResidualCapacity(u, u.neighbors[j]) > 0 ==>
        MinResidualHeight(u, k) <= u.neighbors[j].height
      ensures MinResidualHeight(u, k) as int == IntMax ||
        exists j :: 0 <= j < k && edges.GetResidualCapacity(u, u.neighbors[j]) > 0 &&
          u.neighbors[j].height == MinResidualHeight(u, k)
    {
      if k > 0 {
        MinResidualHeightIsLeast(u, k - 1);
      }
    }

    /**
     * relabel: the height becomes 1 + the least height of a neighbour with residual
     * capacity, in Java int arithmetic: with no such neighbour, 1 + Integer.MAX_VALUE
     * wraps to Integer.MIN_VALUE.
     */
    method Relabel(u: Vertex)
      requires Local(u) && TablesOk() && u.excess > 0
      modifies u`height
      ensures u.height == Wrap(1 + old(MinResidualHeight(u, |u.neighbors|)) as int)
    {
      var neighbors := u.neighbors;
      var minHeight: int32 := IntMax as int32;
      for i := 0 to |neighbors|
        invariant minHeight == MinResidualHeight(u, i)
      {
        var v := neighbors[i];
        var residCapacity := edges.GetResidualCapacity(u, v);
        if residCapacity > 0 {
          var partnerHeight := v.height;
          minHeight := if partnerHeight < minHeight then partnerHeight else minHeight;
        }
      }
      u.height := Wrap(1 + minHeight as int);
    }

    /**
     * discharge: pushes u's excess to its neighbours, walking them with the cursor and
     * relabelling (and rewinding the cursor) when it runs off the end. It stops only when
     * the excess is gone; `fuel` bounds the number of steps, and `finished` says the excess
     * reached 0. Pushes only add to the neighbours' excess, and u's excess never goes negative.
     */
    method Discharge(u: Vertex, fuel: nat) returns (finished: bool)
      requires Local(u) && TablesOk() && u.currNeighbor >= 0 && u.excess >= 0 && Preflow() && Linked(u)
      modifies u`height, u`currNeighbor, u`excess, u.neighbors`excess, edges`flow
      ensures Local(u) && TablesOk() && u.currNeighbor >= 0 && Preflow()
      ensures finished <==> u.excess == 0
      ensures u.excess >= 0
      ensures forall w :: w in u.neighbors ==> w.excess >= old(w.excess)
    {
      var steps := fuel;
      while u.excess > 0 && steps > 0
        invariant Local(u) && TablesOk() && u.currNeighbor >= 0 && u.excess >= 0 && Preflow()
        invariant forall w :: w in u.neighbors ==> w.excess >= old(w.excess)
        decreases steps
      {
        steps := steps - 1;
        if u.currNeighbor >= |u.neighbors| {
          Relabel(u);
          u.currNeighbor := 0;
        } else {
          VisitNeighbor(u);
        }
      }
      finished := u.excess <= 0;
    }

    /**
     * Discharge's step at the neighbour v under the cursor: push to v when the edge to it is
     * admissible (u one higher than v and residual capacity left), move the cursor on otherwise.
     */
    method VisitNeighbor(u: Vertex)
      requires Local(u) && TablesOk() && 0 <= u.currNeighbor < |u.neighbors| && u.excess > 0 && Preflow() && Linked(u)
      modifies u`currNeighbor, u`excess, u.neighbors`excess, edges`flow
      ensures Local(u) && TablesOk() && u.currNeighbor >= 0 && u.excess >= 0 && Preflow()
      ensures forall w :: w in u.neighbors ==> w.excess >= old(w.excess)
    {
      var v := u.neighbors[u.currNeighbor];
      if u.height == Wrap(v.height as int + 1) && edges.GetResidualCapacity(u, v) > 0 {
        PushToCurrent(u);
      } else {
        u.currNeighbor := u.currNeighbor + 1;
      }
    }

    /** discharge's push to the current neighbour, which keeps the preflow. */
    method PushToCurrent(u: Vertex)
      requires Local(u) && TablesOk() && 0 <= u.currNeighbor < |u.neighbors| && u.excess > 0 && Preflow() && Linked(u)
      requires var v := u.neighbors[u.currNeighbor];
        u.height == Wrap(v.height as int + 1) && edges.GetResidualCapacity(u, v) > 0
      modifies u`excess, u.neighbors`excess, edges`flow
      ensures Local(u) && TablesOk() && u.excess >= 0 && Preflow()
      ensures forall w :: w in u.neighbors ==> w.excess >= old(w.excess)
    {
      var v := u.neighbors[u.currNeighbor];
      Push(u, v);
      PushedPreflow(u);
    }

    /** A discharge of a vertex of V, as relabelToFront makes it, keeps the solver's invariant. */
    method DischargeMember(v: Vertex, fuel: nat) returns (finished: bool)
      requires Valid() && Preflow() && v in V
      modifies nodes`height, nodes`excess, nodes`currNeighbor, edges`flow
      ensures Valid() && Preflow() && (finished <==> v.excess == 0)
      ensures unchanged(nodes`neighbors, edges`capacity)
    {
      LocalOf(v);
      LinkedOf(v);
      finished := Discharge(v, fuel);
      forall w | w in nodes && w != source
        ensures w.excess >= 0
      {
        if w != v && w !in v.neighbors {
          assert w.excess == old(w.excess);
        }
      }
    }

    /**
     * relabelToFront's move to the next vertex: when the height of the vertex at position i
     * rose, it goes to the head of V and the walk resumes right after it.
     */
    method Advance(i: nat, raised: bool) returns (next: nat)
      requires Valid() && i < |V|
      modifies this`V
      ensures Valid() && multiset(V) == old(multiset(V)) && 0 < next <= |V| && V[next - 1] == old(V[i])
      ensures raised ==> V == MoveAtToFront(old(V), i) && next == 1
      ensures !raised ==> V == old(V) && next == i + 1
    {
      if raised {
        V := MoveAtToFront(V, i);
        forall v | v in V
          ensures v in LV || v in RV
        {
          assert v in multiset(old(V));
        }
        next := 1;
      } else {
        next := i + 1;
      }
    }

    /**
     * One pass of relabelToFront's loop: discharge the vertex at position i and move on. When
     * the discharge ends with the excess gone, the vertex the walk resumes after is drained.
     */
    method FrontStep(i: nat, fuel: nat) returns (next: nat, done: bool)
      requires Valid() && Preflow() && i < |V|
      modifies this`V, nodes`height, nodes`excess, nodes`currNeighbor, edges`flow
      ensures Valid() && Preflow() && multiset(V) == old(multiset(V))
      ensures done ==> 0 < next <= |V| && V[next - 1].excess == 0
    {
      next := i;
      var v := V[i];
      var oldHeight := v.height;
      done := DischargeMember(v, fuel);
      if done {
        next := Advance(i, v.height > oldHeight);
      }
    }

    /**
     * relabelToFront: discharges the vertices of V in order; one whose height rose is moved
     * to the front and the walk resumes right after it. V stays a rearrangement of itself and
     * the flow stays a preflow. `fuel` bounds the number of steps; `finished` says the walk
     * reached the end of V, whose last vertex, discharged last, then has no excess.
     */
    method RelabelToFront(fuel: nat) returns (finished: bool)
      requires Valid() && Preflow()
      modifies this`V, nodes`height, nodes`excess, nodes`currNeighbor, edges`flow
      ensures Valid() && Preflow() && multiset(V) == old(multiset(V))
      ensures unchanged(this`nodes, this`LV, this`RV, nodes`neighbors, edges`capacity)
      ensures finished && |V| > 0 ==> V[|V| - 1].excess == 0
    {
      var i := 0;
      var steps := fuel;
      while i < |V| && steps > 0
        invariant Valid() && Preflow() && multiset(V) == old(multiset(V)) && 0 <= i <= |V|
        invariant 0 < i ==> V[i - 1].excess == 0
        decreases steps
      {
        steps := steps - 1;
        var done;
        i, done := FrontStep(i, fuel);
        if !done {
          return false;
        }
      }
      finished := i >= |V|;
    }
      // -------------------------------------------------------------------------------------
    // Reading the result (lines 83-88, 278-350)

    /** No employee holds excess: what relabel-to-front brings about when it runs to completion. */
    ghost predicate Drained()
      reads this`LV, this`RV, LV`excess, RV`excess
    {
      forall v :: v in LV + RV ==> v.excess == 0
    }

    /** A drained preflow is a unit flow that leaves no employee with net inflow. */
    lemma DrainedFlow()
      requires Valid() && Shape() && Preflow() && Drained()
      ensures FlowSums.WithinUnitCapacity(inst, Flatten(edges.flow)) && FlowSums.Drained(inst, Flatten(edges.flow))
    {
      UnitFlowTable(inst, edges.flow, edges.capacity);
      forall x | x in FlowNetwork.LSet(inst) + FlowNetwork.RSet(inst)
        ensures FlowSums.NetInflow(Flatten(edges.flow), x, FlowNetwork.NetNeighbors(inst, x)) == 0
      {
        assert x in IdsOf(LV + RV);
        var w :| w in LV + RV && w.id == x;
        assert w.excess == Inflow(w);
        TableInflowIsNetInflow(edges.flow, x, FlowNetwork.NetNeighbors(inst, x));
      }
    }

    /**
     * The two sides as the result is read off them: the vertices of the two locations, each
     * id once, so that the friend is the one vertex of the sides with its id.
     */
    ghost predicate Sides()
      reads this`LV, this`RV
    {
      FlowNetwork.WellFormed(inst) && friend.id == FriendId &&
      IdsOf(LV) == FlowNetwork.LSet(inst) && IdsOf(RV) == FlowNetwork.RSet(inst) &&
      forall w :: w in LV + RV && w.id == FriendId ==> w == friend
    }

    /**
     * What computeMatchSet reads of a left vertex: the flow table has its slot, its neighbour
     * list holds its neighbours in the network, and each of them other than the source is a
     * right vertex.
     */
    ghost predicate LeftReadable()
      reads this`LV, this`RV, LV`neighbors, edges`flow
    {
      forall v :: v in LV ==>
        InTable(edges.flow, v.id) &&
        (forall y :: y in Ids(v.neighbors) <==> y in FlowNetwork.NetNeighbors(inst, v.id)) &&
        NonSource(v.neighbors) <= RV
    }

    lemma ValidSides()
      requires Valid() && Shape()
      ensures Sides() && LeftReadable()
    {
      forall w | w in LV + RV && w.id == FriendId
        ensures w == friend
      {
        SameId(w, friend);
      }
      forall v, w | v in LV && w in NonSource(v.neighbors)
        ensures w in RV
      {
        assert v.id in IdsOf(LV);
        assert w.id in Ids(v.neighbors);
        FlowNetwork.LeftNeighbors(inst, v.id, w.id);
        assert w.id in IdsOf(RV);
        var u :| u in RV && u.id == w.id;
        SameId(u, w);
      }
    }

    /**
     * computeMatchSet: every left vertex and every neighbour other than the source that it
     * sends flow to join the matches. The ids added are exactly the ends of the flow-carrying
     * edges out of the first location.
     */
    method ComputeMatchSet()
      requires Sides() && LeftReadable()
      modifies this`matches
      ensures IdsOf(matches) == IdsOf(old(matches)) + FlowSums.FlowEnds(inst, Flatten(edges.flow))
      ensures matches - old(matches) <= LV + RV
    {
      ghost var F := Flatten(edges.flow);
      var todo := LV;
      ghost var done: set<int> := {};
      while todo != {}
        invariant todo <= LV && done == IdsOf(LV - todo)
        invariant IdsOf(matches) == IdsOf(old(matches)) + FlowSums.EndsOf(inst, F, done)
        invariant matches - old(matches) <= LV + RV
        decreases todo
      {
        var v :| v in todo;
        var added, hits := FlowPartners(v, v.neighbors, edges.flow);
        assert NonSource(v.neighbors) <= RV;
        assert added <= LV + RV;
        MatchStep(inst, edges.flow, IdsOf(old(matches)), done, v.id, Ids(v.neighbors), hits, matches, added);
        matches := matches + added;
        IdsOfDone(LV, todo, v);
        todo := todo - {v};
        done := done + {v.id};
      }
      assert LV - todo == LV;
    }

    /**
     * computeMinVertexCover: König's construction from the unmatched vertices of side1 (the
     * alternating search of konigDFS), over the network's edges with the current flow. The
     * reached set is the least closed one, the result holds the reached vertices of side2 and
     * the unreached ones of side1, and when the matches are the ends of a matching it covers
     * every edge between the sides.
     */
    method ComputeMinVertexCover(side1: set<Vertex>, side2: set<Vertex>) returns (result: set<Vertex>, ghost konigSet: set<int>)
      requires Sides()
      requires (side1 == LV && side2 == RV) || (side1 == RV && side2 == LV)
      ensures LeastClosed(FlowNetwork.NetGraph(inst, Flatten(edges.flow)), IdsOf(side2), IdsOf(side1) - IdsOf(matches), konigSet)
      ensures IdsOf(result) == CoverFrom(IdsOf(side1), IdsOf(side2), konigSet) && result <= side1 + side2
      ensures MatchingOk(FlowNetwork.NetGraph(inst, Flatten(edges.flow)), IdsOf(side1), IdsOf(side2)) &&
              MatchesOk(FlowNetwork.NetGraph(inst, Flatten(edges.flow)), IdsOf(side1), IdsOf(side2), IdsOf(matches)) ==>
                CoversEdges(FlowNetwork.NetGraph(inst, Flatten(edges.flow)), IdsOf(side1), IdsOf(side2), IdsOf(result)) &&
                CoversEdges(FlowNetwork.NetGraph(inst, Flatten(edges.flow)), IdsOf(side2), IdsOf(side1), IdsOf(result))
    {
      var g := FlowNetwork.NetGraph(inst, Flatten(edges.flow));
      var ids1, ids2 := IdsOf(side1), IdsOf(side2);
      FlowNetwork.NetSidesApart(inst, g.flow);
      FlowNetwork.NetEdgesCross(inst, g.flow);
      StructureOkTransfer(g, g, FlowNetwork.LSet(inst), FlowNetwork.RSet(inst));
      var cover;
      cover, konigSet := MinVertexCover(g, ids1, ids2, IdsOf(matches));
      result := set v | v in side1 + side2 && v.id in cover;
      forall x | x in cover
        ensures x in IdsOf(result)
      {
        assert x in IdsOf(side1 + side2);
        var v :| v in side1 + side2 && v.id == x;
        assert v in result;
      }
    }

    /**
     * computeInvitees: the cover König's construction gives from the first location if it
     * holds the friend, the one from the second location otherwise; its ids join the
     * invitees. When the flow is a drained unit flow and the matches are the ends of its
     * edges, the chosen ids cover every team.
     */
    method ComputeInvitees() returns (ghost chosen: set<int>, ghost konig1: set<int>, ghost konig2: set<int>)
      requires Sides()
      modifies this`invitees
      ensures invitees == old(invitees) + chosen
      ensures LeastClosed(FlowNetwork.NetGraph(inst, Flatten(edges.flow)), FlowNetwork.RSet(inst), FlowNetwork.LSet(inst) - IdsOf(matches), konig1)
      ensures LeastClosed(FlowNetwork.NetGraph(inst, Flatten(edges.flow)), FlowNetwork.LSet(inst), FlowNetwork.RSet(inst) - IdsOf(matches), konig2)
      ensures chosen == if FriendId in CoverFrom(FlowNetwork.LSet(inst), FlowNetwork.RSet(inst), konig1)
                        then CoverFrom(FlowNetwork.LSet(inst), FlowNetwork.RSet(inst), konig1)
                        else CoverFrom(FlowNetwork.RSet(inst), FlowNetwork.LSet(inst), konig2)
      ensures FlowSums.WithinUnitCapacity(inst, Flatten(edges.flow)) && FlowSums.Drained(inst, Flatten(edges.flow)) &&
              IdsOf(matches) == FlowSums.FlowEnds(inst, Flatten(edges.flow)) ==>
                FlowNetwork.CoversTeams(inst, chosen)
    {
      var result: set<Vertex>;
      var minVertexCovers1, minVertexCovers2;
      minVertexCovers1, konig1 := ComputeMinVertexCover(LV, RV);
      minVertexCovers2, konig2 := ComputeMinVertexCover(RV, LV);
      assert friend in minVertexCovers1 <==> FriendId in IdsOf(minVertexCovers1) by {
        if FriendId in IdsOf(minVertexCovers1) {
          var w :| w in minVertexCovers1 && w.id == FriendId;
        }
      }
      if friend in minVertexCovers1 {
        result := minVertexCovers1;
      } else {
        result := minVertexCovers2;
      }
      chosen := IdsOf(result);
      invitees := invitees + set v | v in result :: v.id;
      if FlowSums.WithinUnitCapacity(inst, Flatten(edges.flow)) && FlowSums.Drained(inst, Flatten(edges.flow)) &&
         IdsOf(matches) == FlowSums.FlowEnds(inst, Flatten(edges.flow)) {
        FlowSums.DrainedKonigReady(inst, Flatten(edges.flow));
        FlowNetwork.CoversTeamsIsCoversEdges(inst, Flatten(edges.flow), chosen);
      }
    }

    /** After relabel-to-front, what reading the result needs holds. */
    lemma ReadyToRead()
      requires Valid() && Shape() && Preflow()
      ensures Sides() && LeftReadable()
      ensures Drained() ==> FlowSums.WithinUnitCapacity(inst, Flatten(edges.flow)) && FlowSums.Drained(inst, Flatten(edges.flow))
    {
      ValidSides();
      if Drained() {
        DrainedFlow();
      }
    }

    /**
     * computeMatchSet then computeInvitees, on a solver whose matches and invitees are still
     * empty: the matches are the ends of the flow's edges between the locations, and on a
     * drained unit flow the invitees cover every team.
     */
    method ReadResult(ghost drained: bool)
      requires Sides() && LeftReadable() && matches == {} && invitees == {}
      requires drained ==> FlowSums.WithinUnitCapacity(inst, Flatten(edges.flow)) && FlowSums.Drained(inst, Flatten(edges.flow))
      modifies this`matches, this`invitees
      ensures IdsOf(matches) == FlowSums.FlowEnds(inst, Flatten(edges.flow)) && matches <= LV + RV
      ensures drained ==> FlowNetwork.CoversTeams(inst, invitees)
    {
      ComputeMatchSet();
      ghost var chosen, konig1, konig2 := ComputeInvitees();
    }

    /**
     * solve: relabel-to-front, then the matches read off the flow, then the invitees. The
     * flow stays a preflow, the matches are the ends of its edges between the locations, and
     * once every employee is drained the invitees cover every team.
     */
    method Solve(fuel: nat)
      requires Valid() && Shape() && Preflow() && matches == {} && invitees == {}
      modifies this`V, this`matches, this`invitees, nodes`height, nodes`excess, nodes`currNeighbor, edges`flow
      ensures Preflow()
      ensures IdsOf(matches) == FlowSums.FlowEnds(inst, Flatten(edges.flow))
      ensures Drained() ==> FlowNetwork.CoversTeams(inst, invitees)
    {
      var finished := RelabelToFront(fuel);
      ghost var drained := Drained();
      ReadyToRead();
      ReadResult(drained);
    }
  }
}
