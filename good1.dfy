/**
 * The earlier relabel-to-front solver, Bilateral.java.good1.java. It builds the same unit
 * network as BilateralPushRelabel.java, but the source is id 1 and the sink id 3000
 * (lines 47-48), the flow and capacity tables are TreeMaps from a vertex to a HashMap from
 * a neighbour to a value (lines 312-394), the vertices come from a static registry keyed by
 * employee (lines 428-519), only the source gets a height during setup (line 94), and
 * computeMinVertexCover walks the unmatched vertices of a side in id order (lines 200-224).
 *
 * The registry hands out one Vertex per employee id, and a Vertex's fields are its id, its
 * height, its excess, its cursor and its neighbour list, so the model keeps the registry as
 * a map from id to the vertex's current field values and names vertices by their ids.
 */
module Good1 {
  import opened Params
  import opened ListOps
  import opened JavaText
  import opened SetFacts
  import opened Konig
  import EdgeTable
  import FlowNetwork
  import FlowSums
  import PushRelabel

  /** SOURCE_ID and SINK_ID: ids no employee of either location has. */
  const Source: int := 1
  const Sink: int := 3000

  // ---------------------------------------------------------------------------------------
  // The flow and capacity tables (lines 312-394)

  /**
   * A table: the outer TreeMap orders the vertices by compareTo, that is by id, and each
   * inner HashMap is keyed by the neighbour Vertex, one per id; both are keyed by id here.
   */
  type Table = map<int, map<int, int>>

  predicate Has(t: Table, u: int, v: int)
  {
    u in t && v in t[u]
  }

  /** getEdgeInfo: the stored value, or nullResult when u has no map or the map no entry for v. */
  function EdgeInfo(t: Table, u: int, v: int, nullResult: int): int
  {
    if Has(t, u, v) then t[u][v] else nullResult
  }

  /**
   * setEdgeInfo: creates u's map when there is none, then puts (v, newVal). A later lookup
   * finds newVal for (u, v) and what it found before everywhere else.
   */
  function SetEdgeInfo(t: Table, u: int, v: int, newVal: int): (r: Table)
  {
    if u !in t then t[u := map[v := newVal]] else t[u := t[u][v := newVal]]
  }

  /**
   * addToEdgeInfo: adds incVal to the existing (u, v) entry (a missing one would be unboxed
   * from null). Every other entry is left alone.
   */
  function AddToEdgeInfo(t: Table, u: int, v: int, incVal: int): (r: Table)
    requires Has(t, u, v)
    ensures forall x, y :: Has(r, x, y) <==> Has(t, x, y)
    ensures forall x, y, n :: EdgeInfo(r, x, y, n) == if x == u && y == v then EdgeInfo(t, u, v, n) + incVal else EdgeInfo(t, x, y, n)
  {
    t[u := t[u][v := incVal + t[u][v]]]
  }

  /** getResidualCapacity on the two tables. */
  function Residual(flow: Table, capacity: Table, u: int, v: int): int
  {
    var forwardCapacity := EdgeInfo(capacity, u, v, 0);
    if forwardCapacity > 0 then forwardCapacity - EdgeInfo(flow, u, v, 0)
    else if EdgeInfo(capacity, v, u, 0) > 0 then EdgeInfo(flow, v, u, 0)
    else 0
  }

  /** flowsForward: the capacity table has a positive entry for u -> v. */
  predicate FlowsForward(capacity: Table, u: int, v: int)
  {
    EdgeInfo(capacity, u, v, 0) > 0
  }

  /** The tables hold entries for the same pairs, and every flow lies between 0 and its capacity. */
  ghost predicate FlowWithinCapacity(flow: Table, capacity: Table)
  {
    forall u, v :: (Has(flow, u, v) <==> Has(capacity, u, v)) && 0 <= EdgeInfo(flow, u, v, 0) <= EdgeInfo(capacity, u, v, 0)
  }

  /** Within capacity, the residual capacity is never negative and never above a capacity. */
  lemma ResidualBounds(flow: Table, capacity: Table, u: int, v: int)
    requires FlowWithinCapacity(flow, capacity)
    ensures 0 <= Residual(flow, capacity, u, v)
    ensures FlowsForward(capacity, u, v) ==> Residual(flow, capacity, u, v) <= EdgeInfo(capacity, u, v, 0)
    ensures !FlowsForward(capacity, u, v) ==> Residual(flow, capacity, u, v) <= EdgeInfo(capacity, v, u, 0)
  {
    assert 0 <= EdgeInfo(flow, u, v, 0) <= EdgeInfo(capacity, u, v, 0);
    assert 0 <= EdgeInfo(flow, v, u, 0) <= EdgeInfo(capacity, v, u, 0);
  }

  /**
   * The flow change of a push: delta more on u -> v when that edge is stored forward, delta
   * less on v -> u otherwise, with delta at most the residual capacity. The tables stay
   * consistent and no other entry changes.
   */
  function PushedFlow(flow: Table, capacity: Table, u: int, v: int, delta: int): (r: Table)
    requires FlowWithinCapacity(flow, capacity)
    requires 0 < delta <= Residual(flow, capacity, u, v)
    ensures FlowWithinCapacity(r, capacity)
    ensures FlowsForward(capacity, u, v) ==> EdgeInfo(r, u, v, 0) == EdgeInfo(flow, u, v, 0) + delta
    ensures !FlowsForward(capacity, u, v) ==> EdgeInfo(r, v, u, 0) == EdgeInfo(flow, v, u, 0) - delta
    ensures forall x, y :: (x, y) != (if FlowsForward(capacity, u, v) then (u, v) else (v, u)) ==>
      EdgeInfo(r, x, y, 0) == EdgeInfo(flow, x, y, 0)
  {
    assert Has(flow, u, v) <==> Has(capacity, u, v);
    assert Has(flow, v, u) <==> Has(capacity, v, u);
    if FlowsForward(capacity, u, v) then AddToEdgeInfo(flow, u, v, delta)
    else AddToEdgeInfo(flow, v, u, -delta)
  }

  /** The table as a map from ordered pairs, the form the König construction reads flows in. */
  function Flatten(t: Table): map<EdgeTable.Key, int>
  {
    map u, v | u in t && v in t[u] :: (u, v) := t[u][v]
  }

  /** Flattening keeps every flow: the pair map reads what the table reads. */
  lemma FlattenAt(t: Table, u: int, v: int)
    ensures EdgeTable.Flow(Flatten(t), u, v) == EdgeInfo(t, u, v, 0)
  {
    if Has(t, u, v) {
      assert (u, v) in Flatten(t);
    }
  }

  // ---------------------------------------------------------------------------------------
  // Vertex (lines 428-519)

  /** A Vertex's fields: its employee's id, its height, its excess, its cursor, its neighbours. */
  datatype Vertex = Vertex(id: int, height: int32, excess: int, currNeighbor: nat, neighbors: seq<int>)
  {
    /**
     * compareTo: Integer.compareTo on the ids, so the TreeMap and the TreeSet order vertices
     * by id. The result is -1, 0 or 1 as this id is smaller, equal or larger.
     */
    function CompareTo(o: Vertex): (c: int)
      ensures c == -1 || c == 0 || c == 1
      ensures c < 0 <==> id < o.id
      ensures c == 0 <==> id == o.id
    {
      if id < o.id then -1 else if id == o.id then 0 else 1
    }
  }

  /** compareTo is a total order on vertices: antisymmetric, transitive, zero only on equal ids. */
  lemma CompareToIsOrder(a: Vertex, b: Vertex, c: Vertex)
    ensures a.CompareTo(b) == -b.CompareTo(a)
    ensures a.CompareTo(b) < 0 && b.CompareTo(c) < 0 ==> a.CompareTo(c) < 0
    ensures a.CompareTo(b) == 0 && b.CompareTo(c) == 0 ==> a.CompareTo(c) == 0
  {
  }

  /** A vertex as the registry creates it: all counters 0, no neighbours. */
  function NewVertex(id: int): (v: Vertex)
    ensures v.id == id && v.height == 0 && v.excess == 0 && v.currNeighbor == 0 && v.neighbors == []
  {
    Vertex(id, 0, 0, 0, [])
  }

  /** vertexFromEmployee on the registry: an unregistered id gets a new vertex, a registered one stays as it is. */
  function Register(m: map<int, Vertex>, id: int): map<int, Vertex>
  {
    if id in m then m else m[id := NewVertex(id)]
  }

  /** addToNeighbors on the registry: v joins the end of u's list. */
  function WithNeighbor(m: map<int, Vertex>, u: int, v: int): map<int, Vertex>
    requires u in m
  {
    m[u := m[u].(neighbors := m[u].neighbors + [v])]
  }

  /** addToNeighbors both ways: u and v each appended to the other's list. */
  function Join(m: map<int, Vertex>, u: int, v: int): map<int, Vertex>
    requires u in m && v in m
  {
    WithNeighbor(WithNeighbor(m, u, v), v, u)
  }

  /** Each registered vertex's neighbour list: the graph the König search walks. */
  function Adjacency(m: map<int, Vertex>): map<int, seq<int>>
  {
    map x | x in m :: m[x].neighbors
  }

  /** Replacing a vertex's counters, with its neighbour list kept, leaves the graph alone. */
  lemma AdjacencyKept(m: map<int, Vertex>, x: int, w: Vertex)
    requires x in m && w.neighbors == m[x].neighbors
    ensures Adjacency(m[x := w]) == Adjacency(m)
  {
  }

  // ---------------------------------------------------------------------------------------
  // The network setup builds (lines 97-148)

  /** The ids a list holds. */
  function Members(s: seq<int>): (r: set<int>)
    ensures forall x :: x in r <==> x in s
  {
    set x | x in s
  }

  /** The edges setupSourceSide makes: source -> each left id. */
  function SourceKeys(ids: seq<int>): set<EdgeTable.Key>
  {
    set l | l in ids :: (Source, l)
  }

  /** The edges setupSinkSide makes: each right id -> sink. */
  function SinkKeys(ids: seq<int>): set<EdgeTable.Key>
  {
    set r | r in ids :: (r, Sink)
  }

  /** The edges setupLRNeighbors makes: one per team, from its first member to its second. */
  function TeamKeys(teams: seq<FlowNetwork.Team>): set<EdgeTable.Key>
  {
    set t | t in teams
  }

  /** Every edge of the network, each stored from its tail. */
  function NetKeys(inst: FlowNetwork.Instance): set<EdgeTable.Key>
  {
    SourceKeys(inst.lv) + SinkKeys(inst.rv) + TeamKeys(inst.teams)
  }

  // ---------------------------------------------------------------------------------------
  // Setup, as functions of the solver's fields (lines 57-59, 63-162)

  /**
   * The solver's fields besides pp, matches and invitees, with the registry beside them: the
   * vertex list relabelToFront walks, the two sides, and the two tables.
   */
  datatype State = State(vertices: map<int, Vertex>, V: seq<int>, LV: set<int>, RV: set<int>, capacity: Table, flow: Table)

  /** The registry the field initializers leave: the source, the sink and the friend. */
  function InitialRegistry(): map<int, Vertex>
  {
    map[Source := NewVertex(Source), Sink := NewVertex(Sink), FriendId := NewVertex(FriendId)]
  }

  /** The state initialize works on once it has made the two tables: nothing listed, nothing linked. */
  function Unbuilt(): State
  {
    State(InitialRegistry(), [], {}, {}, map[], map[])
  }

  /**
   * One pass of setupSourceSide's loop for the left id `id`: the vertex is registered and put
   * in LV, the source and it are appended to each other's lists, the edge source -> id gets
   * capacity 1 and flow 1, the vertex excess 1, and V gets it at the front if it is the
   * friend and at the back otherwise.
   */
  function SourcePass(s: State, id: int): State
    requires Source in s.vertices
  {
    var m := Join(Register(s.vertices, id), Source, id);
    State(m[id := m[id].(excess := 1)], if id == FriendId then [id] + s.V else s.V + [id], s.LV + {id}, s.RV,
          SetEdgeInfo(s.capacity, Source, id, 1), SetEdgeInfo(s.flow, Source, id, 1))
  }

  /** setupSourceSide's loop over ids, one pass per id in order. */
  function SourcePasses(s: State, ids: seq<int>): (r: State)
    requires Source in s.vertices
    ensures s.vertices.Keys <= r.vertices.Keys
    decreases |ids|
  {
    if ids == [] then s else SourcePass(SourcePasses(s, ids[..|ids| - 1]), ids[|ids| - 1])
  }

  /** setupSourceSide: the loop, then the source's excess lowered by its number of neighbours. */
  function AfterSourceSide(s: State, emps: seq<int>): (r: State)
    requires Source in s.vertices
    ensures s.vertices.Keys <= r.vertices.Keys
  {
    LowerSourceExcess(SourcePasses(s, emps))
  }

  /** setupSourceSide's last step: the source's excess lowered by its number of neighbours. */
  function LowerSourceExcess(t: State): (r: State)
    ensures t.vertices.Keys == r.vertices.Keys
  {
    if Source in t.vertices then
      var src := t.vertices[Source];
      t.(vertices := t.vertices[Source := src.(excess := src.excess - |src.neighbors|)])
    else t
  }

  /**
   * One pass of setupSinkSide's loop for the right id `id`: the vertex is registered and put
   * in RV, the sink and it are appended to each other's lists, the edge id -> sink gets
   * capacity 1 and flow 0, and V gets it at the back.
   */
  function SinkPass(s: State, id: int): State
    requires Sink in s.vertices
  {
    var m := Join(Register(s.vertices, id), Sink, id);
    State(m, s.V + [id], s.LV, s.RV + {id}, SetEdgeInfo(s.capacity, id, Sink, 1), SetEdgeInfo(s.flow, id, Sink, 0))
  }

  /** setupSinkSide: its loop over emps, one pass per id in order. */
  function AfterSinkSide(s: State, emps: seq<int>): (r: State)
    requires Sink in s.vertices
    ensures s.vertices.Keys <= r.vertices.Keys
    decreases |emps|
  {
    if emps == [] then s else SinkPass(AfterSinkSide(s, emps[..|emps| - 1]), emps[|emps| - 1])
  }

  /**
   * One pass of setupLRNeighbors' loop for the team t: both members are looked up in the
   * registry, appended to each other's lists, and the edge t.0 -> t.1 gets capacity 1 and
   * flow 0.
   */
  function TeamPass(s: State, t: FlowNetwork.Team): State
  {
    var m := Register(Register(s.vertices, t.0), t.1);
    s.(vertices := Join(m, t.0, t.1),
       capacity := SetEdgeInfo(s.capacity, t.0, t.1, 1), flow := SetEdgeInfo(s.flow, t.0, t.1, 0))
  }

  /** setupLRNeighbors: its loop over the teams, one pass per team in order. */
  function AfterLRNeighbors(s: State, teams: seq<FlowNetwork.Team>): (r: State)
    ensures s.vertices.Keys <= r.vertices.Keys
    decreases |teams|
  {
    if teams == [] then s else TeamPass(AfterLRNeighbors(s, teams[..|teams| - 1]), teams[|teams| - 1])
  }

  /**
   * One pass of biasForFriend's loop for the neighbour v: v moves the friend to the front of
   * its list (moveToFrontOfNeighbors) when the edge is stored from v, to the back otherwise.
   */
  function BiasPass(m: map<int, Vertex>, capacity: Table, v: int): map<int, Vertex>
  {
    if v !in m then m
    else if FlowsForward(capacity, v, FriendId) then m[v := m[v].(neighbors := MoveToFront(m[v].neighbors, FriendId))]
    else m[v := m[v].(neighbors := MoveToBack(m[v].neighbors, FriendId))]
  }

  /** biasForFriend's loop over the friend's neighbours vs, one pass per neighbour in order. */
  function BiasPasses(m: map<int, Vertex>, capacity: Table, vs: seq<int>): (r: map<int, Vertex>)
    ensures r.Keys == m.Keys
    decreases |vs|
  {
    if vs == [] then m else BiasPass(BiasPasses(m, capacity, vs[..|vs| - 1]), capacity, vs[|vs| - 1])
  }

  /** biasForFriend: the friend is looked up, and its neighbours move it in their own lists. */
  function AfterBias(s: State): (r: State)
    ensures s.vertices.Keys <= r.vertices.Keys
  {
    var m := Register(s.vertices, FriendId);
    s.(vertices := BiasPasses(m, s.capacity, m[FriendId].neighbors))
  }

  /** The state after the first three setup steps, before the friend's bias. */
  function Linked(inst: FlowNetwork.Instance): State
  {
    AfterLRNeighbors(AfterSinkSide(AfterSourceSide(Unbuilt(), inst.lv), inst.rv), inst.teams)
  }

  /**
   * initialize, from the state the field initializers leave: the four setup steps, then the
   * source's height set to |V| + 2.
   */
  function SetUp(inst: FlowNetwork.Instance): State
  {
    RaiseSourceHeight(AfterBias(Linked(inst)))
  }

  /** initialize's last step: the source's height set to |V| + 2, wrapped to an int. */
  function RaiseSourceHeight(s: State): State
  {
    if Source in s.vertices then s.(vertices := s.vertices[Source := s.vertices[Source].(height := Wrap(|s.V| + 2))]) else s
  }


  // ---------------------------------------------------------------------------------------
  // What setup builds

  /**
   * Which vertices are linked: both ends of each edge of E are registered, and y is in x's
   * neighbour list exactly when an edge of E joins them, in either direction.
   */
  ghost predicate LinksAre(m: map<int, Vertex>, E: set<EdgeTable.Key>)
  {
    (forall u, v :: (u, v) in E ==> u in m && v in m) &&
    (forall x, y :: x in m ==> (y in m[x].neighbors <==> (x, y) in E || (y, x) in E))
  }

  /**
   * The counters setup leaves: each vertex under its own id, cursor 0, height 0 but at the
   * source, excess 1 at the left vertices so far and `excess` at the source.
   */
  ghost predicate Counters(m: map<int, Vertex>, lefts: set<int>, excess: int, height: int32)
  {
    Source in m && Sink in m && FriendId in m && lefts <= m.Keys &&
    forall x :: x in m ==>
      m[x].id == x && m[x].currNeighbor == 0 &&
      m[x].height == (if x == Source then height else 0) &&
      m[x].excess == (if x == Source then excess else if x in lefts then 1 else 0)
  }

  /** The flow setup gives an edge: 1 out of the source, 0 on the others. */
  function SetupFlow(keys: set<EdgeTable.Key>, u: int, v: int): int
  {
    if (u, v) in keys && u == Source then 1 else 0
  }

  /** Both tables hold exactly the pairs of keys: capacity 1 on each, flow 1 out of the source and 0 elsewhere. */
  ghost predicate TablesAt(capacity: Table, flow: Table, keys: set<EdgeTable.Key>)
  {
    forall u, v :: (Has(capacity, u, v) <==> (u, v) in keys) && (Has(flow, u, v) <==> (u, v) in keys) &&
                   EdgeInfo(capacity, u, v, 0) == (if (u, v) in keys then 1 else 0) &&
                   EdgeInfo(flow, u, v, 0) == SetupFlow(keys, u, v)
  }

  // Links

  /** The edge keys of a list are those of its prefix and the one of its last element. */
  lemma SourceKeysLast(ids: seq<int>)
    requires ids != []
    ensures SourceKeys(ids) == SourceKeys(ids[..|ids| - 1]) + {(Source, ids[|ids| - 1])}
  {
    var pre := ids[..|ids| - 1];
    assert ids == pre + [ids[|ids| - 1]];
    assert forall x :: x in ids <==> x in pre || x == ids[|ids| - 1];
  }

  lemma SinkKeysLast(ids: seq<int>)
    requires ids != []
    ensures SinkKeys(ids) == SinkKeys(ids[..|ids| - 1]) + {(ids[|ids| - 1], Sink)}
  {
    var pre := ids[..|ids| - 1];
    assert ids == pre + [ids[|ids| - 1]];
    assert forall x :: x in ids <==> x in pre || x == ids[|ids| - 1];
  }

  lemma TeamKeysLast(teams: seq<FlowNetwork.Team>)
    requires teams != []
    ensures TeamKeys(teams) == TeamKeys(teams[..|teams| - 1]) + {teams[|teams| - 1]}
  {
    assert teams == teams[..|teams| - 1] + [teams[|teams| - 1]];
  }


  lemma RegisterLinks(m: map<int, Vertex>, E: set<EdgeTable.Key>, id: int)
    requires LinksAre(m, E)
    ensures LinksAre(Register(m, id), E)
  {
  }

  /** Appending a and b to each other's lists links them, in either direction of the edge. */
  lemma JoinLinks(m: map<int, Vertex>, E: set<EdgeTable.Key>, a: int, b: int)
    requires LinksAre(m, E) && a in m && b in m
    ensures LinksAre(Join(m, a, b), E + {(a, b)}) && LinksAre(Join(m, a, b), E + {(b, a)})
  {
    var m' := Join(m, a, b);
    forall x, y | x in m'
      ensures y in m'[x].neighbors <==> y in m[x].neighbors || (x, y) == (a, b) || (x, y) == (b, a)
    {
    }
  }

  /** Changing a vertex's counters keeps the links. */
  lemma RecountLinks(m: map<int, Vertex>, E: set<EdgeTable.Key>, x: int, w: Vertex)
    requires LinksAre(m, E) && x in m && w.neighbors == m[x].neighbors
    ensures LinksAre(m[x := w], E)
  {
  }

  /** The same links, with the edge set written another way. */
  lemma LinksSame(m: map<int, Vertex>, E: set<EdgeTable.Key>, E': set<EdgeTable.Key>)
    requires LinksAre(m, E) && E == E'
    ensures LinksAre(m, E')
  {
  }

  /** One pass of setupSourceSide's loop links the source and the new left vertex. */
  lemma {:induction false} SourcePassLinks(p: State, E: set<EdgeTable.Key>, id: int)
    requires Source in p.vertices && LinksAre(p.vertices, E)
    ensures LinksAre(SourcePass(p, id).vertices, E + {(Source, id)})
  {
    var m0 := Register(p.vertices, id);
    RegisterLinks(p.vertices, E, id);
    JoinLinks(m0, E, Source, id);
    var m := Join(m0, Source, id);
    RecountLinks(m, E + {(Source, id)}, id, m[id].(excess := 1));
  }

  lemma {:induction false} SourceLinks(s: State, E: set<EdgeTable.Key>, ids: seq<int>)
    requires Source in s.vertices && LinksAre(s.vertices, E)
    ensures LinksAre(SourcePasses(s, ids).vertices, E + SourceKeys(ids))
    decreases |ids|
  {
    if ids == [] {
      LinksSame(s.vertices, E, E + SourceKeys(ids));
    } else {
      SourceLinks(s, E, ids[..|ids| - 1]);
      SourceLinksStep(s, E, ids);
    }
  }

  lemma {:induction false} SourceLinksStep(s: State, E: set<EdgeTable.Key>, ids: seq<int>)
    requires Source in s.vertices && ids != []
    requires LinksAre(SourcePasses(s, ids[..|ids| - 1]).vertices, E + SourceKeys(ids[..|ids| - 1]))
    ensures LinksAre(SourcePasses(s, ids).vertices, E + SourceKeys(ids))
  {
    var pre, id := ids[..|ids| - 1], ids[|ids| - 1];
    var p := SourcePasses(s, pre);
    SourcePassLinks(p, E + SourceKeys(pre), id);
    SourceKeysLast(ids);
    LinksSame(SourcePass(p, id).vertices, E + SourceKeys(pre) + {(Source, id)}, E + SourceKeys(ids));
  }

  /** One pass of setupSinkSide's loop links the new right vertex and the sink. */
  lemma {:induction false} SinkPassLinks(p: State, E: set<EdgeTable.Key>, id: int)
    requires Sink in p.vertices && LinksAre(p.vertices, E)
    ensures LinksAre(SinkPass(p, id).vertices, E + {(id, Sink)})
  {
    RegisterLinks(p.vertices, E, id);
    JoinLinks(Register(p.vertices, id), E, Sink, id);
  }

  lemma {:induction false} SinkLinks(s: State, E: set<EdgeTable.Key>, ids: seq<int>)
    requires Sink in s.vertices && LinksAre(s.vertices, E)
    ensures LinksAre(AfterSinkSide(s, ids).vertices, E + SinkKeys(ids))
    decreases |ids|
  {
    if ids == [] {
      LinksSame(s.vertices, E, E + SinkKeys(ids));
    } else {
      SinkLinks(s, E, ids[..|ids| - 1]);
      SinkLinksStep(s, E, ids);
    }
  }

  lemma {:induction false} SinkLinksStep(s: State, E: set<EdgeTable.Key>, ids: seq<int>)
    requires Sink in s.vertices && ids != []
    requires LinksAre(AfterSinkSide(s, ids[..|ids| - 1]).vertices, E + SinkKeys(ids[..|ids| - 1]))
    ensures LinksAre(AfterSinkSide(s, ids).vertices, E + SinkKeys(ids))
  {
    var pre, id := ids[..|ids| - 1], ids[|ids| - 1];
    var p := AfterSinkSide(s, pre);
    SinkPassLinks(p, E + SinkKeys(pre), id);
    SinkKeysLast(ids);
    LinksSame(SinkPass(p, id).vertices, E + SinkKeys(pre) + {(id, Sink)}, E + SinkKeys(ids));
  }

  /** One pass of setupLRNeighbors' loop links the two members of the team. */
  lemma {:induction false} TeamPassLinks(p: State, E: set<EdgeTable.Key>, t: FlowNetwork.Team)
    requires LinksAre(p.vertices, E)
    ensures LinksAre(TeamPass(p, t).vertices, E + {t})
  {
    var m0 := Register(p.vertices, t.0);
    RegisterLinks(p.vertices, E, t.0);
    RegisterLinks(m0, E, t.1);
    JoinLinks(Register(m0, t.1), E, t.0, t.1);
  }

  lemma {:induction false} TeamLinks(s: State, E: set<EdgeTable.Key>, teams: seq<FlowNetwork.Team>)
    requires LinksAre(s.vertices, E)
    ensures LinksAre(AfterLRNeighbors(s, teams).vertices, E + TeamKeys(teams))
    decreases |teams|
  {
    if teams == [] {
      LinksSame(s.vertices, E, E + TeamKeys(teams));
    } else {
      TeamLinks(s, E, teams[..|teams| - 1]);
      TeamLinksStep(s, E, teams);
    }
  }

  lemma {:induction false} TeamLinksStep(s: State, E: set<EdgeTable.Key>, teams: seq<FlowNetwork.Team>)
    requires teams != []
    requires LinksAre(AfterLRNeighbors(s, teams[..|teams| - 1]).vertices, E + TeamKeys(teams[..|teams| - 1]))
    ensures LinksAre(AfterLRNeighbors(s, teams).vertices, E + TeamKeys(teams))
  {
    var pre, t := teams[..|teams| - 1], teams[|teams| - 1];
    var p := AfterLRNeighbors(s, pre);
    TeamPassLinks(p, E + TeamKeys(pre), t);
    TeamKeysLast(teams);
    LinksSame(TeamPass(p, t).vertices, E + TeamKeys(pre) + {t}, E + TeamKeys(teams));
  }

  /**
   * One pass of biasForFriend's loop for a neighbour v of the friend: v's list holds the
   * friend, so moving it to either end keeps the same members.
   */
  lemma BiasLink(m: map<int, Vertex>, E: set<EdgeTable.Key>, capacity: Table, v: int)
    requires LinksAre(m, E) && ((FriendId, v) in E || (v, FriendId) in E)
    ensures LinksAre(BiasPass(m, capacity, v), E)
  {
    assert FriendId in m[v].neighbors;
    MovesKeepOthers(m[v].neighbors, FriendId);
  }

  lemma {:induction false} BiasLinks(m: map<int, Vertex>, E: set<EdgeTable.Key>, capacity: Table, vs: seq<int>)
    requires LinksAre(m, E)
    requires forall v :: v in vs ==> (FriendId, v) in E || (v, FriendId) in E
    ensures LinksAre(BiasPasses(m, capacity, vs), E)
    decreases |vs|
  {
    if vs != [] {
      var pre := vs[..|vs| - 1];
      assert forall v :: v in pre ==> v in vs;
      BiasLinks(m, E, capacity, pre);
      BiasLink(BiasPasses(m, capacity, pre), E, capacity, vs[|vs| - 1]);
    }
  }

  // Counters

  lemma RegisterCounters(m: map<int, Vertex>, lefts: set<int>, e: int, h: int32, id: int)
    requires Counters(m, lefts, e, h)
    ensures Counters(Register(m, id), lefts, e, h)
  {
  }

  lemma JoinCounters(m: map<int, Vertex>, lefts: set<int>, e: int, h: int32, a: int, b: int)
    requires Counters(m, lefts, e, h) && a in m && b in m
    ensures Counters(Join(m, a, b), lefts, e, h)
  {
  }

  /** u.setExcess(1) on a registered vertex other than the source makes it a left vertex of the counters. */
  lemma MarkLeft(m: map<int, Vertex>, lefts: set<int>, e: int, h: int32, id: int)
    requires Counters(m, lefts, e, h) && id in m && id != Source
    ensures Counters(m[id := m[id].(excess := 1)], lefts + {id}, e, h)
  {
  }

  lemma {:induction false} SourceCounters(s: State, lefts: set<int>, ids: seq<int>)
    requires Counters(s.vertices, lefts, 0, 0) && Source !in ids
    ensures Counters(SourcePasses(s, ids).vertices, lefts + Members(ids), 0, 0)
    decreases |ids|
  {
    if ids == [] {
      assert lefts + Members(ids) == lefts;
    } else {
      var pre, id := ids[..|ids| - 1], ids[|ids| - 1];
      SourceCounters(s, lefts, pre);
      var L := lefts + Members(pre);
      var m0 := Register(SourcePasses(s, pre).vertices, id);
      RegisterCounters(SourcePasses(s, pre).vertices, L, 0, 0, id);
      JoinCounters(m0, L, 0, 0, Source, id);
      MarkLeft(Join(m0, Source, id), L, 0, 0, id);
      assert Members(ids) == Members(pre) + {id};
    }
  }

  /** The source passes append the left ids, in order, to the source's neighbour list. */
  lemma {:induction false} SourceNeighbors(s: State, ids: seq<int>)
    requires Source in s.vertices && Source !in ids
    ensures Source in SourcePasses(s, ids).vertices
    ensures SourcePasses(s, ids).vertices[Source].neighbors == s.vertices[Source].neighbors + ids
    decreases |ids|
  {
    if ids != [] {
      var pre, id := ids[..|ids| - 1], ids[|ids| - 1];
      assert ids == pre + [id];
      SourceNeighbors(s, pre);
    }
  }

  lemma {:induction false} SinkCounters(s: State, lefts: set<int>, e: int, ids: seq<int>)
    requires Counters(s.vertices, lefts, e, 0)
    ensures Counters(AfterSinkSide(s, ids).vertices, lefts, e, 0)
    decreases |ids|
  {
    if ids != [] {
      var pre, id := ids[..|ids| - 1], ids[|ids| - 1];
      SinkCounters(s, lefts, e, pre);
      RegisterCounters(AfterSinkSide(s, pre).vertices, lefts, e, 0, id);
      JoinCounters(Register(AfterSinkSide(s, pre).vertices, id), lefts, e, 0, Sink, id);
    }
  }

  lemma {:induction false} TeamCounters(s: State, lefts: set<int>, e: int, teams: seq<FlowNetwork.Team>)
    requires Counters(s.vertices, lefts, e, 0)
    ensures Counters(AfterLRNeighbors(s, teams).vertices, lefts, e, 0)
    decreases |teams|
  {
    if teams != [] {
      var pre, t := teams[..|teams| - 1], teams[|teams| - 1];
      TeamCounters(s, lefts, e, pre);
      var m0 := Register(AfterLRNeighbors(s, pre).vertices, t.0);
      RegisterCounters(AfterLRNeighbors(s, pre).vertices, lefts, e, 0, t.0);
      RegisterCounters(m0, lefts, e, 0, t.1);
      JoinCounters(Register(m0, t.1), lefts, e, 0, t.0, t.1);
    }
  }

  /** Reordering a vertex's neighbour list keeps the counters. */
  lemma ReorderCounters(m: map<int, Vertex>, lefts: set<int>, e: int, v: int, ns: seq<int>)
    requires Counters(m, lefts, e, 0) && v in m
    ensures Counters(m[v := m[v].(neighbors := ns)], lefts, e, 0)
  {
  }

  lemma BiasCount(m: map<int, Vertex>, lefts: set<int>, e: int, capacity: Table, v: int)
    requires Counters(m, lefts, e, 0)
    ensures Counters(BiasPass(m, capacity, v), lefts, e, 0)
  {
    if v in m {
      if FlowsForward(capacity, v, FriendId) {
        ReorderCounters(m, lefts, e, v, MoveToFront(m[v].neighbors, FriendId));
      } else {
        ReorderCounters(m, lefts, e, v, MoveToBack(m[v].neighbors, FriendId));
      }
    }
  }

  lemma {:induction false} BiasCounters(m: map<int, Vertex>, lefts: set<int>, e: int, capacity: Table, vs: seq<int>)
    requires Counters(m, lefts, e, 0)
    ensures Counters(BiasPasses(m, capacity, vs), lefts, e, 0)
    decreases |vs|
  {
    if vs != [] {
      BiasCounters(m, lefts, e, capacity, vs[..|vs| - 1]);
      BiasCount(BiasPasses(m, capacity, vs[..|vs| - 1]), lefts, e, capacity, vs[|vs| - 1]);
    }
  }

  // Tables

  lemma SetEdgeInfoAt(t: Table, u: int, v: int, newVal: int, x: int, y: int)
    ensures Has(SetEdgeInfo(t, u, v, newVal), x, y) <==> Has(t, x, y) || (x == u && y == v)
    ensures EdgeInfo(SetEdgeInfo(t, u, v, newVal), x, y, 0) == if x == u && y == v then newVal else EdgeInfo(t, x, y, 0)
  {
  }

  /** Setting capacity 1 and the setup flow on one more edge extends the tables to that edge. */
  lemma TablesStep(capacity: Table, flow: Table, keys: set<EdgeTable.Key>, u: int, v: int, f: int)
    requires TablesAt(capacity, flow, keys) && f == SetupFlow(keys + {(u, v)}, u, v)
    ensures TablesAt(SetEdgeInfo(capacity, u, v, 1), SetEdgeInfo(flow, u, v, f), keys + {(u, v)})
  {
    forall x, y
      ensures Has(SetEdgeInfo(capacity, u, v, 1), x, y) <==> Has(capacity, x, y) || (x == u && y == v)
      ensures EdgeInfo(SetEdgeInfo(capacity, u, v, 1), x, y, 0) == if x == u && y == v then 1 else EdgeInfo(capacity, x, y, 0)
      ensures Has(SetEdgeInfo(flow, u, v, f), x, y) <==> Has(flow, x, y) || (x == u && y == v)
      ensures EdgeInfo(SetEdgeInfo(flow, u, v, f), x, y, 0) == if x == u && y == v then f else EdgeInfo(flow, x, y, 0)
    {
      SetEdgeInfoAt(capacity, u, v, 1, x, y);
      SetEdgeInfoAt(flow, u, v, f, x, y);
    }
  }

  /** The same tables, with the key set written another way. */
  lemma TablesSame(capacity: Table, flow: Table, keys: set<EdgeTable.Key>, keys': set<EdgeTable.Key>)
    requires TablesAt(capacity, flow, keys) && keys == keys'
    ensures TablesAt(capacity, flow, keys')
  {
  }

  lemma {:induction false} SourceTables(s: State, E: set<EdgeTable.Key>, ids: seq<int>)
    requires Source in s.vertices && TablesAt(s.capacity, s.flow, E)
    ensures TablesAt(SourcePasses(s, ids).capacity, SourcePasses(s, ids).flow, E + SourceKeys(ids))
    decreases |ids|
  {
    if ids == [] {
      TablesSame(s.capacity, s.flow, E, E + SourceKeys(ids));
    } else {
      SourceTables(s, E, ids[..|ids| - 1]);
      SourceTablesStep(s, E, ids);
    }
  }

  lemma {:induction false} SourceTablesStep(s: State, E: set<EdgeTable.Key>, ids: seq<int>)
    requires Source in s.vertices && ids != []
    requires TablesAt(SourcePasses(s, ids[..|ids| - 1]).capacity, SourcePasses(s, ids[..|ids| - 1]).flow, E + SourceKeys(ids[..|ids| - 1]))
    ensures TablesAt(SourcePasses(s, ids).capacity, SourcePasses(s, ids).flow, E + SourceKeys(ids))
  {
    var pre, id := ids[..|ids| - 1], ids[|ids| - 1];
    var p := SourcePasses(s, pre);
    TablesStep(p.capacity, p.flow, E + SourceKeys(pre), Source, id, 1);
    SourceKeysLast(ids);
    var q := SourcePass(p, id);
    TablesSame(q.capacity, q.flow, E + SourceKeys(pre) + {(Source, id)}, E + SourceKeys(ids));
  }

  lemma {:induction false} SinkTables(s: State, E: set<EdgeTable.Key>, ids: seq<int>)
    requires Sink in s.vertices && TablesAt(s.capacity, s.flow, E) && Source !in ids
    ensures TablesAt(AfterSinkSide(s, ids).capacity, AfterSinkSide(s, ids).flow, E + SinkKeys(ids))
    decreases |ids|
  {
    if ids == [] {
      TablesSame(s.capacity, s.flow, E, E + SinkKeys(ids));
    } else {
      assert forall x :: x in ids[..|ids| - 1] ==> x in ids;
      SinkTables(s, E, ids[..|ids| - 1]);
      SinkTablesStep(s, E, ids);
    }
  }

  lemma {:induction false} SinkTablesStep(s: State, E: set<EdgeTable.Key>, ids: seq<int>)
    requires Sink in s.vertices && ids != [] && Source !in ids
    requires TablesAt(AfterSinkSide(s, ids[..|ids| - 1]).capacity, AfterSinkSide(s, ids[..|ids| - 1]).flow, E + SinkKeys(ids[..|ids| - 1]))
    ensures TablesAt(AfterSinkSide(s, ids).capacity, AfterSinkSide(s, ids).flow, E + SinkKeys(ids))
  {
    var pre, id := ids[..|ids| - 1], ids[|ids| - 1];
    assert id in ids;
    var p := AfterSinkSide(s, pre);
    TablesStep(p.capacity, p.flow, E + SinkKeys(pre), id, Sink, 0);
    SinkKeysLast(ids);
    var q := SinkPass(p, id);
    TablesSame(q.capacity, q.flow, E + SinkKeys(pre) + {(id, Sink)}, E + SinkKeys(ids));
  }

  lemma {:induction false} TeamTables(s: State, E: set<EdgeTable.Key>, teams: seq<FlowNetwork.Team>)
    requires TablesAt(s.capacity, s.flow, E) && forall t :: t in teams ==> t.0 != Source
    ensures TablesAt(AfterLRNeighbors(s, teams).capacity, AfterLRNeighbors(s, teams).flow, E + TeamKeys(teams))
    decreases |teams|
  {
    if teams == [] {
      TablesSame(s.capacity, s.flow, E, E + TeamKeys(teams));
    } else {
      assert forall t' :: t' in teams[..|teams| - 1] ==> t' in teams;
      TeamTables(s, E, teams[..|teams| - 1]);
      TeamTablesStep(s, E, teams);
    }
  }

  lemma {:induction false} TeamTablesStep(s: State, E: set<EdgeTable.Key>, teams: seq<FlowNetwork.Team>)
    requires teams != [] && teams[|teams| - 1].0 != Source
    requires TablesAt(AfterLRNeighbors(s, teams[..|teams| - 1]).capacity, AfterLRNeighbors(s, teams[..|teams| - 1]).flow,
                      E + TeamKeys(teams[..|teams| - 1]))
    ensures TablesAt(AfterLRNeighbors(s, teams).capacity, AfterLRNeighbors(s, teams).flow, E + TeamKeys(teams))
  {
    var pre, t := teams[..|teams| - 1], teams[|teams| - 1];
    var p := AfterLRNeighbors(s, pre);
    TablesStep(p.capacity, p.flow, E + TeamKeys(pre), t.0, t.1, 0);
    TeamKeysLast(teams);
    var q := TeamPass(p, t);
    TablesSame(q.capacity, q.flow, E + TeamKeys(pre) + {t}, E + TeamKeys(teams));
  }

  // The sides and V

  lemma {:induction false} SourceSides(s: State, ids: seq<int>)
    requires Source in s.vertices && s.V == []
    ensures SourcePasses(s, ids).V == PushRelabel.SourceSideOrder(ids)
    ensures SourcePasses(s, ids).LV == s.LV + Members(ids) && SourcePasses(s, ids).RV == s.RV
    decreases |ids|
  {
    if ids == [] {
      assert s.LV + Members(ids) == s.LV;
    } else {
      var pre, id := ids[..|ids| - 1], ids[|ids| - 1];
      assert ids == pre + [id];
      SourceSides(s, pre);
      PushRelabel.SourceStepOrder(pre, id);
      assert Members(ids) == Members(pre) + {id};
    }
  }

  lemma {:induction false} SinkSides(s: State, ids: seq<int>)
    requires Sink in s.vertices
    ensures AfterSinkSide(s, ids).V == s.V + ids
    ensures AfterSinkSide(s, ids).LV == s.LV && AfterSinkSide(s, ids).RV == s.RV + Members(ids)
    decreases |ids|
  {
    if ids == [] {
      assert s.RV + Members(ids) == s.RV;
    } else {
      var pre, id := ids[..|ids| - 1], ids[|ids| - 1];
      assert ids == pre + [id];
      SinkSides(s, pre);
      assert Members(ids) == Members(pre) + {id};
    }
  }

  lemma {:induction false} TeamSides(s: State, teams: seq<FlowNetwork.Team>)
    ensures AfterLRNeighbors(s, teams).V == s.V
    ensures AfterLRNeighbors(s, teams).LV == s.LV && AfterLRNeighbors(s, teams).RV == s.RV
    decreases |teams|
  {
    if teams != [] {
      TeamSides(s, teams[..|teams| - 1]);
    }
  }

  // The whole of setup

  /** No id of the network is the source's: left and right ids are employees, and teams join them. */
  lemma WellFormedAvoidsSource(inst: FlowNetwork.Instance)
    requires FlowNetwork.WellFormed(inst)
    ensures Source !in inst.lv && Source !in inst.rv && forall t :: t in inst.teams ==> t.0 != Source
  {
  }

  lemma LinkedLinks(inst: FlowNetwork.Instance)
    ensures LinksAre(Linked(inst).vertices, NetKeys(inst))
  {
    var s0 := Unbuilt();
    SourceLinks(s0, {}, inst.lv);
    var s1 := AfterSourceSide(s0, inst.lv);
    var p := SourcePasses(s0, inst.lv);
    RecountLinks(p.vertices, SourceKeys(inst.lv), Source, s1.vertices[Source]);
    SinkLinks(s1, SourceKeys(inst.lv), inst.rv);
    TeamLinks(AfterSinkSide(s1, inst.rv), SourceKeys(inst.lv) + SinkKeys(inst.rv), inst.teams);
  }

  lemma LinkedCounters(inst: FlowNetwork.Instance)
    requires Source !in inst.lv
    ensures Counters(Linked(inst).vertices, Members(inst.lv), -|inst.lv|, 0)
  {
    var s0 := Unbuilt();
    SourceCounters(s0, {}, inst.lv);
    SourceNeighbors(s0, inst.lv);
    var s1 := AfterSourceSide(s0, inst.lv);
    assert {} + Members(inst.lv) == Members(inst.lv);
    SinkCounters(s1, Members(inst.lv), -|inst.lv|, inst.rv);
    TeamCounters(AfterSinkSide(s1, inst.rv), Members(inst.lv), -|inst.lv|, inst.teams);
  }

  lemma LinkedTables(inst: FlowNetwork.Instance)
    requires Source !in inst.rv && forall t :: t in inst.teams ==> t.0 != Source
    ensures TablesAt(Linked(inst).capacity, Linked(inst).flow, NetKeys(inst))
  {
    var s0 := Unbuilt();
    SourceTables(s0, {}, inst.lv);
    var s1 := AfterSourceSide(s0, inst.lv);
    assert {} + SourceKeys(inst.lv) == SourceKeys(inst.lv);
    SinkTables(s1, SourceKeys(inst.lv), inst.rv);
    TeamTables(AfterSinkSide(s1, inst.rv), SourceKeys(inst.lv) + SinkKeys(inst.rv), inst.teams);
  }

  /** The sides and the list setupSourceSide leaves, from the empty start. */
  lemma SourceSideSides(ids: seq<int>)
    ensures AfterSourceSide(Unbuilt(), ids).V == PushRelabel.SourceSideOrder(ids)
    ensures AfterSourceSide(Unbuilt(), ids).LV == Members(ids) && AfterSourceSide(Unbuilt(), ids).RV == {}
  {
    SourceSides(Unbuilt(), ids);
    assert {} + Members(ids) == Members(ids);
  }

  lemma LinkedSides(inst: FlowNetwork.Instance)
    ensures Linked(inst).V == PushRelabel.SourceSideOrder(inst.lv) + inst.rv
    ensures Linked(inst).LV == Members(inst.lv) && Linked(inst).RV == Members(inst.rv)
  {
    var s1 := AfterSourceSide(Unbuilt(), inst.lv);
    SourceSideSides(inst.lv);
    SinkSides(s1, inst.rv);
    TeamSides(AfterSinkSide(s1, inst.rv), inst.teams);
    assert {} + Members(inst.rv) == Members(inst.rv);
  }

  /** The list holds one entry per left and per right id. */
  lemma LinkedSize(inst: FlowNetwork.Instance)
    ensures |Linked(inst).V| == |inst.lv| + |inst.rv|
  {
    LinkedSides(inst);
    assert |PushRelabel.SourceSideOrder(inst.lv)| == |multiset(inst.lv)|;
  }

  /** Before the bias, the friend is registered and so is each of its neighbours. */
  lemma LinkedRegistersFriend(inst: FlowNetwork.Instance)
    ensures FriendId in Linked(inst).vertices
    ensures forall v :: v in Linked(inst).vertices[FriendId].neighbors ==> v in Linked(inst).vertices
  {
    LinkedLinks(inst);
    assert FriendId in Unbuilt().vertices;
  }

  /**
   * What initialize links: y is in x's neighbour list exactly when the network has an edge
   * between them, either way round; the friend's bias moves the friend within its
   * neighbours' lists without adding or dropping anyone.
   */
  lemma SetUpLinks(inst: FlowNetwork.Instance)
    ensures LinksAre(SetUp(inst).vertices, NetKeys(inst))
  {
    LinkedLinks(inst);
    LinkedRegistersFriend(inst);
    var s := Linked(inst);
    BiasLinks(s.vertices, NetKeys(inst), s.capacity, s.vertices[FriendId].neighbors);
    var m := AfterBias(s).vertices;
    RecountLinks(m, NetKeys(inst), Source, SetUp(inst).vertices[Source]);
  }

  /**
   * What initialize leaves in the counters: every cursor at 0; excess 1 at each left vertex,
   * minus the number of left vertices at the source and 0 elsewhere; height |V| + 2 at the
   * source and 0 at every other vertex.
   */
  lemma SetUpCounters(inst: FlowNetwork.Instance)
    requires Source !in inst.lv
    ensures Counters(SetUp(inst).vertices, Members(inst.lv), -|inst.lv|, Wrap(|inst.lv| + |inst.rv| + 2))
  {
    BiasedCounters(inst);
    LinkedSize(inst);
    RaiseSource(AfterBias(Linked(inst)), Members(inst.lv), -|inst.lv|, Wrap(|inst.lv| + |inst.rv| + 2));
  }

  /** Setting the source's height keeps the other counters. */
  lemma RaiseSource(s: State, lefts: set<int>, e: int, h: int32)
    requires Counters(s.vertices, lefts, e, 0) && h == Wrap(|s.V| + 2)
    ensures Counters(RaiseSourceHeight(s).vertices, lefts, e, h)
  {
  }

  /** The counters after the friend's bias, which only reorders neighbour lists. */
  lemma BiasedCounters(inst: FlowNetwork.Instance)
    requires Source !in inst.lv
    ensures Counters(AfterBias(Linked(inst)).vertices, Members(inst.lv), -|inst.lv|, 0)
  {
    LinkedCounters(inst);
    LinkedRegistersFriend(inst);
    var s := Linked(inst);
    BiasCounters(s.vertices, Members(inst.lv), -|inst.lv|, s.capacity, s.vertices[FriendId].neighbors);
  }

  /**
   * The tables initialize fills: exactly the network's edges are stored, each with capacity 1,
   * flow 1 on the edges out of the source and 0 on the others.
   */
  lemma SetUpTables(inst: FlowNetwork.Instance)
    requires FlowNetwork.WellFormed(inst)
    ensures TablesAt(SetUp(inst).capacity, SetUp(inst).flow, NetKeys(inst))
  {
    WellFormedAvoidsSource(inst);
    LinkedTables(inst);
  }

  /**
   * The sides and the vertex list initialize builds: LV the left ids, RV the right ids, and V
   * the left ids in input order with the friend moved to the front, then the right ids.
   */
  lemma SetUpSides(inst: FlowNetwork.Instance)
    ensures SetUp(inst).V == PushRelabel.SourceSideOrder(inst.lv) + inst.rv
    ensures SetUp(inst).LV == Members(inst.lv) && SetUp(inst).RV == Members(inst.rv)
    ensures multiset(SetUp(inst).V) == multiset(inst.lv + inst.rv)
    ensures FriendId in inst.lv ==> SetUp(inst).V[0] == FriendId
  {
    LinkedSides(inst);
  }

  // ---------------------------------------------------------------------------------------
  // What the algorithm keeps

  /**
   * What the algorithm's steps need of the fields: each neighbour and each member of V is
   * registered, and every flow lies between 0 and its capacity.
   */
  ghost predicate Consistent(s: State)
  {
    (forall x, y :: x in s.vertices && y in s.vertices[x].neighbors ==> y in s.vertices) &&
    (forall x :: x in s.V ==> x in s.vertices) &&
    FlowWithinCapacity(s.flow, s.capacity)
  }

  /** The id ranges of a well-formed network, without the distinctness of its lists. */
  ghost predicate Ranges(inst: FlowNetwork.Instance)
  {
    (forall l :: l in inst.lv ==> IdIdxDifference <= l <= MaxNyId) &&
    (forall r :: r in inst.rv ==> MaxNyId < r <= MaxNormalId) &&
    (forall t :: t in inst.teams ==> t.0 in inst.lv && t.1 in inst.rv)
  }

  lemma WellFormedRanges(inst: FlowNetwork.Instance)
    requires FlowNetwork.WellFormed(inst)
    ensures Ranges(inst)
  {
  }

  /** The capacity table holds capacity 1 on exactly the given edges. */
  ghost predicate CapacityAt(capacity: Table, keys: set<EdgeTable.Key>)
  {
    forall u, v :: (Has(capacity, u, v) <==> (u, v) in keys) && EdgeInfo(capacity, u, v, 0) == (if (u, v) in keys then 1 else 0)
  }

  /**
   * What the algorithm never changes and reading the result needs: the neighbour lists link
   * exactly the network's edges, the capacities are those edges', and the sides are the
   * network's two locations.
   */
  ghost predicate Shape(inst: FlowNetwork.Instance, s: State)
  {
    Ranges(inst) && LinksAre(s.vertices, NetKeys(inst)) && CapacityAt(s.capacity, NetKeys(inst)) &&
    s.LV == FlowNetwork.LSet(inst) && s.RV == FlowNetwork.RSet(inst)
  }

  /** The same ids registered, with the same neighbour lists. */
  ghost predicate SameLinks(m0: map<int, Vertex>, m: map<int, Vertex>)
  {
    m.Keys == m0.Keys && forall x :: x in m ==> m[x].neighbors == m0[x].neighbors
  }

  /** Keeping the neighbour lists keeps which vertices are linked. */
  lemma LinksKept(m0: map<int, Vertex>, m: map<int, Vertex>, E: set<EdgeTable.Key>)
    requires LinksAre(m0, E) && SameLinks(m0, m)
    ensures LinksAre(m, E)
  {
  }

  /**
   * The graph konigDFS walks: the neighbour lists and the flow, never stepping into the
   * source (id 1) or the sink (id 3000).
   */
  function KonigGraph(s: State): Graph
  {
    Graph(Adjacency(s.vertices), Flatten(s.flow), Source, Sink)
  }

  /**
   * An edge of the network stored from a left or right vertex is a team, from its left
   * member, or the edge from a right vertex to the sink.
   */
  lemma KeyFromEmployee(inst: FlowNetwork.Instance, x: int, y: int)
    requires Ranges(inst) && x in FlowNetwork.LSet(inst) + FlowNetwork.RSet(inst) && (x, y) in NetKeys(inst)
    ensures (x in FlowNetwork.LSet(inst) && (x, y) in inst.teams && y in FlowNetwork.RSet(inst)) ||
            (x in FlowNetwork.RSet(inst) && y == Sink)
  {
    if (x, y) in SourceKeys(inst.lv) {
      assert false;
    } else if (x, y) in SinkKeys(inst.rv) {
      assert x in inst.rv;
    } else {
      assert (x, y) in inst.teams;
    }
  }

  /** The left and right vertices are registered once setup has linked the network. */
  lemma SidesRegistered(inst: FlowNetwork.Instance, m: map<int, Vertex>)
    requires LinksAre(m, NetKeys(inst))
    ensures FlowNetwork.LSet(inst) + FlowNetwork.RSet(inst) <= m.Keys
  {
    forall x | x in FlowNetwork.LSet(inst) + FlowNetwork.RSet(inst)
      ensures x in m
    {
      if x in inst.lv {
        assert (Source, x) in SourceKeys(inst.lv);
      } else {
        assert (x, Sink) in SinkKeys(inst.rv);
      }
    }
  }

  /** Between a left or right vertex and anything but the source and the sink, the links are the teams. */
  lemma LinkBetween(inst: FlowNetwork.Instance, m: map<int, Vertex>, x: int, y: int)
    requires Ranges(inst) && LinksAre(m, NetKeys(inst))
    requires x in FlowNetwork.LSet(inst) + FlowNetwork.RSet(inst) && x in m && y in m[x].neighbors && y != Source && y != Sink
    ensures (x in FlowNetwork.LSet(inst) && y in FlowNetwork.RSet(inst) && (x, y) in inst.teams) ||
            (x in FlowNetwork.RSet(inst) && y in FlowNetwork.LSet(inst) && (y, x) in inst.teams)
  {
    if (x, y) in NetKeys(inst) {
      KeyFromEmployee(inst, x, y);
    } else {
      assert (y, x) in NetKeys(inst);
      if (y, x) in SourceKeys(inst.lv) {
        assert false;
      } else if (y, x) in SinkKeys(inst.rv) {
        assert false;
      } else {
        assert (y, x) in inst.teams;
      }
    }
  }

  /** Linked as the network says, with the setup tables and every id listed once in V: consistent. */
  lemma ConsistentOf(inst: FlowNetwork.Instance, s: State)
    requires LinksAre(s.vertices, NetKeys(inst)) && TablesAt(s.capacity, s.flow, NetKeys(inst))
    requires multiset(s.V) == multiset(inst.lv + inst.rv)
    ensures Consistent(s)
  {
    SidesRegistered(inst, s.vertices);
    forall x | x in s.V
      ensures x in s.vertices
    {
      assert x in multiset(inst.lv + inst.rv);
    }
    forall u, v
      ensures (Has(s.flow, u, v) <==> Has(s.capacity, u, v)) && 0 <= EdgeInfo(s.flow, u, v, 0) <= EdgeInfo(s.capacity, u, v, 0)
    {
    }
  }

  /** The setup state keeps the algorithm's invariant. */
  lemma SetUpConsistent(inst: FlowNetwork.Instance)
    requires FlowNetwork.WellFormed(inst)
    ensures Consistent(SetUp(inst))
  {
    SetUpLinks(inst);
    SetUpTables(inst);
    SetUpSides(inst);
    ConsistentOf(inst, SetUp(inst));
  }

  lemma ShapeOf(inst: FlowNetwork.Instance, s: State)
    requires Ranges(inst) && LinksAre(s.vertices, NetKeys(inst)) && TablesAt(s.capacity, s.flow, NetKeys(inst))
    requires s.LV == Members(inst.lv) && s.RV == Members(inst.rv)
    ensures Shape(inst, s)
  {
    assert Members(inst.lv) == FlowNetwork.LSet(inst) && Members(inst.rv) == FlowNetwork.RSet(inst);
  }

  /** The setup state has the network's shape. */
  lemma SetUpShape(inst: FlowNetwork.Instance)
    requires FlowNetwork.WellFormed(inst)
    ensures Shape(inst, SetUp(inst))
  {
    WellFormedRanges(inst);
    SetUpLinks(inst);
    SetUpTables(inst);
    SetUpSides(inst);
    ShapeOf(inst, SetUp(inst));
  }

  /**
   * The solver as setup leaves it keeps the algorithm's invariant, has the network's shape,
   * and lists every left and right id in V.
   */
  lemma SetUpReady(inst: FlowNetwork.Instance, s: State)
    requires FlowNetwork.WellFormed(inst) && s == SetUp(inst)
    ensures Consistent(s) && Shape(inst, s)
    ensures multiset(s.V) == multiset(inst.lv + inst.rv) && |s.V| == |inst.lv| + |inst.rv|
  {
    SetUpConsistent(inst);
    SetUpShape(inst);
    SetUpSides(inst);
    assert |multiset(s.V)| == |multiset(inst.lv + inst.rv)|;
  }

  /** The algorithm's steps keep the invariant: no neighbour list changes and the flow stays within capacity. */
  lemma ConsistentAfter(s: State, m: map<int, Vertex>, flow: Table)
    requires Consistent(s) && SameLinks(s.vertices, m) && FlowWithinCapacity(flow, s.capacity)
    ensures Consistent(s.(vertices := m, flow := flow))
  {
  }

  /**
   * The algorithm keeps the shape: it changes no neighbour list, no capacity and neither
   * side, and the sides stay registered.
   */
  lemma ShapeKept(inst: FlowNetwork.Instance, s: State, s': State)
    requires Shape(inst, s) && SameLinks(s.vertices, s'.vertices)
    requires s'.capacity == s.capacity && s'.LV == s.LV && s'.RV == s.RV
    ensures Shape(inst, s') && s'.LV + s'.RV <= s'.vertices.Keys
  {
    LinksKept(s.vertices, s'.vertices, NetKeys(inst));
    SidesRegistered(inst, s'.vertices);
  }

  /**
   * The neighbour lists give König's construction the structure it needs, with the sides
   * either way round.
   */
  lemma ShapeStructure(inst: FlowNetwork.Instance, s: State)
    requires Shape(inst, s)
    ensures StructureOk(KonigGraph(s), s.LV, s.RV) && StructureOk(KonigGraph(s), s.RV, s.LV)
  {
    var g := KonigGraph(s);
    SidesRegistered(inst, s.vertices);
    forall x | x in s.LV + s.RV
      ensures x !in s.LV || x !in s.RV
      ensures x != Source && x != Sink
    {
    }
    forall x, y | x in s.LV + s.RV && y in Neighbors(g, x) && y != Source && y != Sink
      ensures x in s.LV ==> y in s.RV
      ensures x in s.RV ==> y in s.LV
    {
      LinkBetween(inst, s.vertices, x, y);
    }
    assert StructureOk(g, s.LV, s.RV);
    StructureOkTransfer(g, g, s.LV, s.RV);
  }

  /** König's covering condition on this graph is the problem's: every team has a member in K. */
  lemma CoversTeamsIsCoversEdges(inst: FlowNetwork.Instance, s: State, K: set<int>)
    requires Shape(inst, s)
    ensures FlowNetwork.CoversTeams(inst, K) <==> CoversEdges(KonigGraph(s), s.LV, s.RV, K)
  {
    var g := KonigGraph(s);
    SidesRegistered(inst, s.vertices);
    if FlowNetwork.CoversTeams(inst, K) {
      forall x, y | x in s.LV && y in s.RV && y in Neighbors(g, x)
        ensures x in K || y in K
      {
        LinkBetween(inst, s.vertices, x, y);
      }
    }
    if CoversEdges(g, s.LV, s.RV, K) {
      forall t | t in inst.teams
        ensures t.0 in K || t.1 in K
      {
        assert t in TeamKeys(inst.teams);
        assert t.0 in FlowNetwork.LSet(inst) && t.1 in FlowNetwork.RSet(inst);
        var x, y := t.0, t.1;
        assert (x, y) in NetKeys(inst) && x in s.vertices;
        assert y in s.vertices[x].neighbors <==> (x, y) in NetKeys(inst) || (y, x) in NetKeys(inst);
        assert t.1 in s.vertices[t.0].neighbors;
        assert t.1 in Neighbors(g, t.0);
      }
    }
  }

  /**
   * A positive flow leaving a left or right vertex runs along a team from its left member,
   * or from a right vertex to the sink.
   */
  lemma FlowFromEmployee(inst: FlowNetwork.Instance, s: State, x: int, y: int)
    requires Shape(inst, s) && Consistent(s)
    requires x in s.LV + s.RV && EdgeInfo(s.flow, x, y, 0) > 0
    ensures (x in s.LV && y in s.RV && (x, y) in inst.teams && y in s.vertices[x].neighbors) || (x in s.RV && y == Sink)
  {
    assert 0 <= EdgeInfo(s.flow, x, y, 0) <= EdgeInfo(s.capacity, x, y, 0);
    KeyFromEmployee(inst, x, y);
  }

  /**
   * When the flow is a matching whose ends are M, König's covers from either side, built
   * from the least closed sets, include a member of every team.
   */
  lemma CoversFromEitherSide(inst: FlowNetwork.Instance, s: State, M: set<int>, T1: set<int>, T2: set<int>)
    requires Shape(inst, s)
    requires MatchingOk(KonigGraph(s), s.LV, s.RV) && MatchesOk(KonigGraph(s), s.LV, s.RV, M)
    requires LeastClosed(KonigGraph(s), s.RV, s.LV - M, T1) && T1 <= s.LV + s.RV
    requires LeastClosed(KonigGraph(s), s.LV, s.RV - M, T2) && T2 <= s.LV + s.RV
    ensures FlowNetwork.CoversTeams(inst, CoverFrom(s.LV, s.RV, T1))
    ensures FlowNetwork.CoversTeams(inst, CoverFrom(s.RV, s.LV, T2))
  {
    var g := KonigGraph(s);
    ShapeStructure(inst, s);
    assert s.RV + s.LV == s.LV + s.RV;
    GraphOkSymmetric(g, s.LV, s.RV);
    CoverTouchesEveryEdge(g, s.LV, s.RV, M, T1);
    CoverTouchesEveryEdge(g, s.RV, s.LV, M, T2);
    CoversEdgesSymmetric(g, s.LV, s.RV, CoverFrom(s.RV, s.LV, T2));
    CoversTeamsIsCoversEdges(inst, s, CoverFrom(s.LV, s.RV, T1));
    CoversTeamsIsCoversEdges(inst, s, CoverFrom(s.RV, s.LV, T2));
  }

  // ---------------------------------------------------------------------------------------
  // Push (lines 253-273)

  /** The excesses after a push of d from u to v: u's goes down by d and v's up by d. */
  function MoveExcess(m: map<int, Vertex>, u: int, v: int, d: int): (r: map<int, Vertex>)
    requires u in m && v in m && u != v
    ensures SameLinks(m, r)
  {
    var m1 := m[u := m[u].(excess := m[u].excess - d)];
    m1[v := m1[v].(excess := m1[v].excess + d)]
  }

  /** What MoveExcess leaves at each vertex. */
  lemma MoveExcessAt(m: map<int, Vertex>, u: int, v: int, d: int, x: int)
    requires u in m && v in m && u != v
    ensures x in MoveExcess(m, u, v, d) <==> x in m
    ensures x in m ==>
      MoveExcess(m, u, v, d)[x].excess == m[x].excess - (if x == u then d else 0) + (if x == v then d else 0)
  {
  }

  /** The excess held by the vertices listed in xs, one term per occurrence. */
  function TotalExcess(m: map<int, Vertex>, xs: seq<int>): int
  {
    if xs == [] then 0 else (if xs[0] in m then m[xs[0]].excess else 0) + TotalExcess(m, xs[1..])
  }

  /** How often x occurs in xs. */
  function Occurrences(xs: seq<int>, x: int): nat
  {
    if xs == [] then 0 else (if xs[0] == x then 1 else 0) + Occurrences(xs[1..], x)
  }

  /** Occurrences counts what the multiset of the list holds. */
  lemma {:induction false} OccurrencesIsMultiplicity(xs: seq<int>, x: int)
    ensures Occurrences(xs, x) == multiset(xs)[x]
  {
    if xs != [] {
      OccurrencesIsMultiplicity(xs[1..], x);
      assert xs == [xs[0]] + xs[1..];
    }
  }

  /**
   * A push moves excess and creates none: over any list of vertices the total changes by d
   * for each occurrence of v less each occurrence of u, so a list holding each of them once
   * keeps its total.
   */
  lemma {:induction false} MoveExcessSum(m: map<int, Vertex>, u: int, v: int, d: int, xs: seq<int>)
    requires u in m && v in m && u != v
    ensures TotalExcess(MoveExcess(m, u, v, d), xs) == TotalExcess(m, xs) + d * (Occurrences(xs, v) - Occurrences(xs, u))
  {
    if xs != [] {
      MoveExcessSum(m, u, v, d, xs[1..]);
      MoveExcessSumStep(m, u, v, d, xs);
    }
  }

  /** MoveExcessSum's step: the first vertex of xs, added to the total over the rest. */
  lemma {:induction false} MoveExcessSumStep(m: map<int, Vertex>, u: int, v: int, d: int, xs: seq<int>)
    requires u in m && v in m && u != v && xs != []
    requires TotalExcess(MoveExcess(m, u, v, d), xs[1..]) ==
             TotalExcess(m, xs[1..]) + d * (Occurrences(xs[1..], v) - Occurrences(xs[1..], u))
    ensures TotalExcess(MoveExcess(m, u, v, d), xs) == TotalExcess(m, xs) + d * (Occurrences(xs, v) - Occurrences(xs, u))
  {
    var x := xs[0];
    MoveExcessAt(m, u, v, d, x);
    var a := Occurrences(xs[1..], v) - Occurrences(xs[1..], u);
    var b := (if x == v then 1 else 0) - (if x == u then 1 else 0);
    assert Occurrences(xs, v) - Occurrences(xs, u) == a + b;
    assert d * (a + b) == d * a + d * b;
  }

  /** With u and v listed once each, a push keeps the total excess of the list. */
  lemma MoveExcessKeepsTotal(m: map<int, Vertex>, u: int, v: int, d: int, xs: seq<int>)
    requires u in m && v in m && u != v && multiset(xs)[u] == 1 && multiset(xs)[v] == 1
    ensures TotalExcess(MoveExcess(m, u, v, d), xs) == TotalExcess(m, xs)
  {
    MoveExcessSum(m, u, v, d, xs);
    OccurrencesIsMultiplicity(xs, u);
    OccurrencesIsMultiplicity(xs, v);
  }

  // ---------------------------------------------------------------------------------------
  // Relabel (lines 275-290)

  /**
   * The least height of a vertex in ns that u has residual capacity to, or Integer.MAX_VALUE
   * when there is none: the value relabel's loop ends with.
   */
  ghost function MinResidualHeight(m: map<int, Vertex>, flow: Table, capacity: Table, u: int, ns: seq<int>): int32
    requires forall w :: w in ns ==> w in m
    decreases |ns|
  {
    if ns == [] then IntMax as int32
    else
      var w := ns[|ns| - 1];
      var h := MinResidualHeight(m, flow, capacity, u, ns[..|ns| - 1]);
      if Residual(flow, capacity, u, w) > 0 && m[w].height < h then m[w].height else h
  }

  /**
   * MinResidualHeight is the minimum it is named for: no vertex of ns with residual capacity
   * is lower, and unless it is Integer.MAX_VALUE some such vertex has that height.
   */
  lemma {:induction false} MinResidualHeightIsLeast(m: map<int, Vertex>, flow: Table, capacity: Table, u: int, ns: seq<int>)
    requires forall w :: w in ns ==> w in m
    ensures forall j :: 0 <= j < |ns| && Residual(flow, capacity, u, ns[j]) > 0 ==>
      MinResidualHeight(m, flow, capacity, u, ns) <= m[ns[j]].height
    ensures MinResidualHeight(m, flow, capacity, u, ns) as int == IntMax ||
      exists j :: 0 <= j < |ns| && Residual(flow, capacity, u, ns[j]) > 0 && m[ns[j]].height == MinResidualHeight(m, flow, capacity, u, ns)
    decreases |ns|
  {
    if ns != [] {
      var pre := ns[..|ns| - 1];
      MinResidualHeightIsLeast(m, flow, capacity, u, pre);
      assert forall j :: 0 <= j < |pre| ==> pre[j] == ns[j];
    }
  }

  // ---------------------------------------------------------------------------------------
  // Discharge (lines 292-310)

  /**
   * Every vertex but u keeps its height and cursor and loses no excess: what a discharge of
   * u does to the others, whose excess only grows by the pushes into them.
   */
  ghost predicate OthersGrow(m0: map<int, Vertex>, m: map<int, Vertex>, u: int)
  {
    forall w :: w in m0 && w != u ==>
      w in m && m[w].height == m0[w].height && m[w].currNeighbor == m0[w].currNeighbor && m[w].excess >= m0[w].excess
  }

  // ---------------------------------------------------------------------------------------
  // Reading the result (lines 183-249)

  /** Ends of the flow-carrying edges from l to the vertices of ns other than the source. */
  ghost function Ends(flow: Table, l: int, ns: seq<int>): set<int>
  {
    (set n | n in ns && n != Source && EdgeInfo(flow, l, n, 0) > 0 :: l) +
    (set n | n in ns && n != Source && EdgeInfo(flow, l, n, 0) > 0 :: n)
  }

  /**
   * The ids computeMatchSet adds: each vertex l of L and each neighbour n of l other than the
   * source that l sends flow to.
   */
  ghost function MatchedEnds(m: map<int, Vertex>, L: set<int>, flow: Table): set<int>
  {
    (set l, n | l in L && l in m && n in m[l].neighbors && n != Source && EdgeInfo(flow, l, n, 0) > 0 :: l) +
    (set l, n | l in L && l in m && n in m[l].neighbors && n != Source && EdgeInfo(flow, l, n, 0) > 0 :: n)
  }

  lemma EndsStep(flow: Table, l: int, ns: seq<int>, j: nat)
    requires j < |ns|
    ensures Ends(flow, l, ns[..j + 1]) ==
      Ends(flow, l, ns[..j]) + (if ns[j] != Source && EdgeInfo(flow, l, ns[j], 0) > 0 then {l, ns[j]} else {})
  {
    assert ns[..j + 1] == ns[..j] + [ns[j]];
  }

  lemma MatchedEndsStep(m: map<int, Vertex>, D: set<int>, flow: Table, l: int)
    requires l in m
    ensures MatchedEnds(m, D + {l}, flow) == MatchedEnds(m, D, flow) + Ends(flow, l, m[l].neighbors)
  {
  }

  /** Each id computeMatchSet collects has a mate on the other side. */
  lemma MatchedEndHasMate(inst: FlowNetwork.Instance, s: State, x: int)
    requires Shape(inst, s) && Consistent(s) && x in MatchedEnds(s.vertices, s.LV, s.flow)
    ensures HasMate(KonigGraph(s), s.LV + s.RV, x)
  {
    var l, n :| l in s.LV && l in s.vertices && n in s.vertices[l].neighbors && n != Source &&
                EdgeInfo(s.flow, l, n, 0) > 0 && (x == l || x == n);
    FlowFromEmployee(inst, s, l, n);
    FlattenAt(s.flow, l, n);
    assert Matched(KonigGraph(s), l, n) && Matched(KonigGraph(s), n, l);
  }

  /** A left or right vertex with a mate is one of the ids computeMatchSet collects. */
  lemma MateIsMatchedEnd(inst: FlowNetwork.Instance, s: State, x: int)
    requires Shape(inst, s) && Consistent(s) && x in s.LV + s.RV && HasMate(KonigGraph(s), s.LV + s.RV, x)
    ensures x in MatchedEnds(s.vertices, s.LV, s.flow)
  {
    SidesRegistered(inst, s.vertices);
    var y :| y in s.LV + s.RV && Matched(KonigGraph(s), x, y);
    FlattenAt(s.flow, x, y);
    FlattenAt(s.flow, y, x);
    if EdgeInfo(s.flow, x, y, 0) > 0 {
      FlowFromEmployee(inst, s, x, y);
      assert x in s.vertices && y in s.vertices[x].neighbors && y != Source;
    } else {
      FlowFromEmployee(inst, s, y, x);
      assert y in s.vertices && x in s.vertices[y].neighbors && x != Source;
    }
  }

  /**
   * With the network's shape, the ids computeMatchSet collects from the left side are
   * exactly the vertices that König's construction counts as matched: those with flow on an
   * edge to or from a vertex of the other side.
   */
  lemma MatchedEndsOk(inst: FlowNetwork.Instance, s: State)
    requires Shape(inst, s) && Consistent(s)
    ensures MatchesOk(KonigGraph(s), s.LV, s.RV, MatchedEnds(s.vertices, s.LV, s.flow))
  {
    forall x | x in s.LV + s.RV
      ensures x in MatchedEnds(s.vertices, s.LV, s.flow) <==> HasMate(KonigGraph(s), s.LV + s.RV, x)
    {
      if x in MatchedEnds(s.vertices, s.LV, s.flow) {
        MatchedEndHasMate(inst, s, x);
      }
      if HasMate(KonigGraph(s), s.LV + s.RV, x) {
        MateIsMatchedEnd(inst, s, x);
      }
    }
  }

  // ---------------------------------------------------------------------------------------
  // The solver (lines 46-310)

  class Solver {
    const inst: FlowNetwork.Instance
    /** The registry empToVertex: the current fields of the one Vertex of each id. */
    var vertices: map<int, Vertex>
    /** The vertex list relabelToFront walks. */
    var V: seq<int>
    var LV: set<int>
    var RV: set<int>
    var capacity: Table
    var flow: Table
    var matches: set<int>
    var invitees: set<int>

    /** The fields setup builds, as one value. */
    function Snapshot(): State
      reads this`vertices, this`V, this`LV, this`RV, this`capacity, this`flow
    {
      State(vertices, V, LV, RV, capacity, flow)
    }

    ghost predicate Valid()
      reads this`vertices, this`V, this`LV, this`RV, this`capacity, this`flow
    {
      Consistent(Snapshot())
    }

    /** The graph König's construction walks, read off the current fields. */
    function CurrentGraph(): Konig.Graph
      reads this`vertices, this`V, this`LV, this`RV, this`capacity, this`flow
    {
      KonigGraph(Snapshot())
    }

    // -------------------------------------------------------------------------------------
    // Setup (lines 57-59, 63-162)

    /**
     * new Solver(pp): the field initializers, then initialize(), which builds the network.
     * The result is the setup state.
     */
    constructor (inst: FlowNetwork.Instance)
      ensures this.inst == inst && Snapshot() == SetUp(inst) && matches == {} && invitees == {}
    {
      this.inst := inst;
      matches, invitees := {}, {};
      new;
      Initialize();
    }

    /**
     * The field initializers register the source, the sink and the friend; initialize then
     * makes new tables and runs the source side, the sink side, the teams and the friend's
     * bias, and sets the source's height to |V| + 2.
     */
    method Initialize()
      modifies this`vertices, this`V, this`LV, this`RV, this`capacity, this`flow
      ensures Snapshot() == SetUp(inst)
    {
      vertices := InitialRegistry();
      V, LV, RV := [], {}, {};
      flow, capacity := map[], map[];
      SetupSourceSide(inst.lv);
      SetupSinkSide(inst.rv);
      SetupLRNeighbors(inst.teams);
      LinkedRegistersFriend(inst);
      BiasForFriend();
      vertices := vertices[Source := vertices[Source].(height := Wrap(|V| + 2))];
    }

    /** setupSourceSide: links each left vertex to the source with one unit of flow on it. */
    method SetupSourceSide(emps: seq<int>)
      requires Source in vertices
      modifies this`vertices, this`V, this`LV, this`capacity, this`flow
      ensures Snapshot() == AfterSourceSide(old(Snapshot()), emps)
    {
      ghost var s0 := Snapshot();
      for i := 0 to |emps|
        invariant Source in vertices
        invariant Snapshot() == SourcePasses(s0, emps[..i])
      {
        AddToSourceSide(emps[i]);
        assert emps[..i + 1][..i] == emps[..i];
      }
      assert emps[..|emps|] == emps;
      LowerSource();
    }

    /** setupSourceSide's last step: the source gives up one unit of excess per neighbour. */
    method LowerSource()
      requires Source in vertices
      modifies this`vertices
      ensures Snapshot() == LowerSourceExcess(old(Snapshot()))
    {
      var src := vertices[Source];
      vertices := vertices[Source := src.(excess := src.excess - |src.neighbors|)];
    }

    /** One pass of setupSourceSide's loop. */
    method AddToSourceSide(id: int)
      requires Source in vertices
      modifies this`vertices, this`V, this`LV, this`capacity, this`flow
      ensures Source in vertices
      ensures Snapshot() == SourcePass(old(Snapshot()), id)
    {
      var m := Register(vertices, id);
      LV := LV + {id};
      m := WithNeighbor(m, Source, id);
      m := WithNeighbor(m, id, Source);
      capacity := SetEdgeInfo(capacity, Source, id, 1);
      flow := SetEdgeInfo(flow, Source, id, 1);
      vertices := m[id := m[id].(excess := 1)];
      if id == FriendId {
        V := [id] + V;
      } else {
        V := V + [id];
      }
    }

    /** setupSinkSide: links each right vertex to the sink, with no flow. */
    method SetupSinkSide(emps: seq<int>)
      requires Sink in vertices
      modifies this`vertices, this`V, this`RV, this`capacity, this`flow
      ensures Snapshot() == AfterSinkSide(old(Snapshot()), emps)
    {
      ghost var s0 := Snapshot();
      for i := 0 to |emps|
        invariant Sink in vertices
        invariant Snapshot() == AfterSinkSide(s0, emps[..i])
      {
        AddToSinkSide(emps[i]);
        assert emps[..i + 1][..i] == emps[..i];
      }
      assert emps[..|emps|] == emps;
    }

    /** One pass of setupSinkSide's loop. */
    method AddToSinkSide(id: int)
      requires Sink in vertices
      modifies this`vertices, this`V, this`RV, this`capacity, this`flow
      ensures Sink in vertices
      ensures Snapshot() == SinkPass(old(Snapshot()), id)
    {
      var m := Register(vertices, id);
      RV := RV + {id};
      m := WithNeighbor(m, Sink, id);
      m := WithNeighbor(m, id, Sink);
      capacity := SetEdgeInfo(capacity, id, Sink, 1);
      flow := SetEdgeInfo(flow, id, Sink, 0);
      vertices, V := m, V + [id];
    }

    /** setupLRNeighbors: links the two members of each team, with capacity 1 and no flow. */
    method SetupLRNeighbors(teams: seq<FlowNetwork.Team>)
      modifies this`vertices, this`capacity, this`flow
      ensures Snapshot() == AfterLRNeighbors(old(Snapshot()), teams)
    {
      ghost var s0 := Snapshot();
      for i := 0 to |teams|
        invariant Snapshot() == AfterLRNeighbors(s0, teams[..i])
      {
        AddTeam(teams[i]);
        assert teams[..i + 1][..i] == teams[..i];
      }
      assert teams[..|teams|] == teams;
    }

    /** One pass of setupLRNeighbors' loop. */
    method AddTeam(t: FlowNetwork.Team)
      modifies this`vertices, this`capacity, this`flow
      ensures Snapshot() == TeamPass(old(Snapshot()), t)
    {
      var m := Register(vertices, t.0);
      m := Register(m, t.1);
      m := WithNeighbor(m, t.0, t.1);
      m := WithNeighbor(m, t.1, t.0);
      vertices := m;
      capacity := SetEdgeInfo(capacity, t.0, t.1, 1);
      flow := SetEdgeInfo(flow, t.0, t.1, 0);
    }

    /**
     * biasForFriend: each neighbour of the friend moves the friend to the front of its list
     * (moveToFrontOfNeighbors) if the edge between them is stored from the neighbour, and to
     * the back (moveToBackOfNeighbors) otherwise.
     */
    method BiasForFriend()
      requires FriendId in vertices && forall v :: v in vertices[FriendId].neighbors ==> v in vertices
      modifies this`vertices
      ensures Snapshot() == AfterBias(old(Snapshot()))
    {
      vertices := Register(vertices, FriendId);
      var neighbors := vertices[FriendId].neighbors;
      ghost var m0 := vertices;
      assert forall v :: v in neighbors ==> v in m0;
      for i := 0 to |neighbors|
        invariant vertices == BiasPasses(m0, capacity, neighbors[..i])
      {
        var v := neighbors[i];
        assert neighbors[..i + 1][..i] == neighbors[..i];
        assert v in m0;
        BiasNeighbor(v);
      }
      assert neighbors[..|neighbors|] == neighbors;
    }

    /** One pass of biasForFriend's loop, at a registered neighbour v of the friend. */
    method BiasNeighbor(v: int)
      requires v in vertices
      modifies this`vertices
      ensures vertices == BiasPass(old(vertices), capacity, v)
    {
      if FlowsForward(capacity, v, FriendId) {
        vertices := vertices[v := vertices[v].(neighbors := MoveToFront(vertices[v].neighbors, FriendId))];
      } else {
        vertices := vertices[v := vertices[v].(neighbors := MoveToBack(vertices[v].neighbors, FriendId))];
      }
    }

    // -------------------------------------------------------------------------------------
    // Push-relabel (lines 164-178, 253-310)

    /**
     * push: moves delta = min(excess(u), residual(u, v)) of excess from u to v; the flow grows
     * by delta on the edge u -> v if it is stored that way, and otherwise shrinks by delta on
     * v -> u. The three asserts of the source are its preconditions; u and v differ, since
     * no int is one more than itself, even with wrap-around.
     */
    method Push(u: int, v: int)
      requires Valid() && u in vertices && v in vertices
      requires vertices[u].excess > 0 && Residual(flow, capacity, u, v) > 0
      requires vertices[u].height == Wrap(vertices[v].height as int + 1)
      modifies this`vertices, this`flow
      ensures u != v && Valid()
      ensures var delta := old(if vertices[u].excess < Residual(flow, capacity, u, v) then vertices[u].excess else Residual(flow, capacity, u, v));
        0 < delta && flow == PushedFlow(old(flow), capacity, u, v, delta) && vertices == MoveExcess(old(vertices), u, v, delta)
    {
      WrapSuccessorDiffers(vertices[v].height);
      var excess := vertices[u].excess;
      var residualCapacity := Residual(flow, capacity, u, v);
      var changeInFlow := if excess < residualCapacity then excess else residualCapacity;
      assert Has(flow, u, v) <==> Has(capacity, u, v);
      assert Has(flow, v, u) <==> Has(capacity, v, u);
      ghost var s0 := Snapshot();
      if FlowsForward(capacity, u, v) {
        flow := AddToEdgeInfo(flow, u, v, changeInFlow);
      } else {
        flow := AddToEdgeInfo(flow, v, u, -changeInFlow);
      }
      assert flow == PushedFlow(s0.flow, capacity, u, v, changeInFlow);
      vertices := MoveExcess(vertices, u, v, changeInFlow);
      ConsistentAfter(s0, vertices, flow);
    }

    /**
     * relabel: the height becomes 1 + the least height of a neighbour with residual
     * capacity, in Java int arithmetic: with no such neighbour, 1 + Integer.MAX_VALUE wraps
     * to Integer.MIN_VALUE. Nothing else changes.
     */
    method Relabel(u: int)
      requires Valid() && u in vertices && vertices[u].excess > 0
      modifies this`vertices
      ensures Valid()
      ensures vertices == old(vertices)[u := old(vertices[u]).(height :=
        Wrap(1 + old(MinResidualHeight(vertices, flow, capacity, u, vertices[u].neighbors)) as int))]
    {
      var neighbors := vertices[u].neighbors;
      var minHeight: int32 := IntMax as int32;
      for i := 0 to |neighbors|
        invariant minHeight == MinResidualHeight(vertices, flow, capacity, u, neighbors[..i])
      {
        var v := neighbors[i];
        assert neighbors[..i + 1][..i] == neighbors[..i];
        var residCapacity := Residual(flow, capacity, u, v);
        if residCapacity > 0 {
          var partnerHeight := vertices[v].height;
          minHeight := if partnerHeight < minHeight then partnerHeight else minHeight;
        }
      }
      assert neighbors[..|neighbors|] == neighbors;
      vertices := vertices[u := vertices[u].(height := Wrap(1 + minHeight as int))];
    }

    /**
     * discharge: pushes u's excess to its neighbours, walking them with the cursor and
     * relabelling (and rewinding the cursor) when it runs off the end; `fuel` bounds the
     * number of steps. It ends with u's excess gone exactly when `finished`; u's excess never
     * turns negative, the other vertices keep their heights and cursors and lose no excess,
     * and no neighbour list changes.
     */
    method Discharge(u: int, fuel: nat) returns (finished: bool)
      requires Valid() && u in vertices
      modifies this`vertices, this`flow
      ensures Valid() && u in vertices && SameLinks(old(vertices), vertices)
      ensures finished <==> vertices[u].excess <= 0
      ensures old(vertices[u].excess) >= 0 ==> vertices[u].excess >= 0
      ensures OthersGrow(old(vertices), vertices, u)
    {
      var steps := fuel;
      while vertices[u].excess > 0 && steps > 0
        invariant Valid() && u in vertices && SameLinks(old(vertices), vertices)
        invariant old(vertices[u].excess) >= 0 ==> vertices[u].excess >= 0
        invariant OthersGrow(old(vertices), vertices, u)
        decreases steps
      {
        steps := steps - 1;
        if vertices[u].currNeighbor >= |vertices[u].neighbors| {
          Relabel(u);
          vertices := vertices[u := vertices[u].(currNeighbor := 0)];
        } else {
          VisitNeighbor(u);
        }
      }
      finished := vertices[u].excess <= 0;
    }

    /**
     * Discharge's step at the neighbour v under the cursor: push to v when there is residual
     * capacity to it and u is one higher, move the cursor on otherwise.
     */
    method VisitNeighbor(u: int)
      requires Valid() && u in vertices && vertices[u].currNeighbor < |vertices[u].neighbors| && vertices[u].excess > 0
      modifies this`vertices, this`flow
      ensures Valid() && u in vertices && SameLinks(old(vertices), vertices)
      ensures vertices[u].excess >= 0
      ensures OthersGrow(old(vertices), vertices, u)
    {
      var v := vertices[u].neighbors[vertices[u].currNeighbor];
      if Residual(flow, capacity, u, v) > 0 && vertices[u].height == Wrap(vertices[v].height as int + 1) {
        Push(u, v);
        MoveExcessAt(old(vertices), u, v, old(vertices[u].excess) - vertices[u].excess, u);
      } else {
        vertices := vertices[u := vertices[u].(currNeighbor := vertices[u].currNeighbor + 1)];
      }
    }

    /**
     * One pass of relabelToFront's loop: discharge the vertex at position i; when its height
     * rose it moves to the head of V and the walk resumes after it, otherwise the walk goes
     * on to position i + 1. When the discharge ends, the vertex the walk resumes after has no
     * excess left.
     */
    method FrontStep(i: nat, fuel: nat) returns (next: nat, done: bool)
      requires Valid() && i < |V|
      modifies this`V, this`vertices, this`flow
      ensures Valid() && multiset(V) == old(multiset(V)) && SameLinks(old(vertices), vertices)
      ensures done ==> 0 < next <= |V| && V[next - 1] in vertices && vertices[V[next - 1]].excess <= 0
      ensures done ==> (V == old(V) && next == i + 1) || (V == MoveAtToFront(old(V), i) && next == 1)
      ensures !done ==> V == old(V)
    {
      next := i;
      var v := V[i];
      var oldHeight := vertices[v].height;
      done := Discharge(v, fuel);
      if done {
        if vertices[v].height > oldHeight {
          V := MoveAtToFront(V, i);
          forall x | x in V
            ensures x in vertices
          {
            assert x in multiset(old(V));
          }
          next := 1;
        } else {
          next := i + 1;
        }
      }
    }

    /**
     * relabelToFront: discharges the vertices of V in order; one whose height rose is moved
     * to the front and the walk resumes right after it. V stays a rearrangement of itself and
     * no neighbour list changes. `fuel` bounds the number of steps; `finished` says the walk
     * reached the end of V, whose last vertex, discharged last, then has no excess. The
     * source's assert that V is not empty is its precondition.
     */
    method RelabelToFront(fuel: nat) returns (finished: bool)
      requires Valid() && V != []
      modifies this`V, this`vertices, this`flow
      ensures Valid() && multiset(V) == old(multiset(V)) && SameLinks(old(vertices), vertices)
      ensures finished ==> V[|V| - 1] in vertices && vertices[V[|V| - 1]].excess <= 0
    {
      var i := 0;
      var steps := fuel;
      while i < |V| && steps > 0
        invariant Valid() && multiset(V) == old(multiset(V)) && SameLinks(old(vertices), vertices)
        invariant 0 <= i <= |V|
        invariant 0 < i ==> V[i - 1] in vertices && vertices[V[i - 1]].excess <= 0
        decreases steps
      {
        steps := steps - 1;
        var done;
        i, done := FrontStep(i, fuel);
        if !done {
          return false;
        }
      }
      finished := i >= |V|;
    }

    // -------------------------------------------------------------------------------------
    // Reading the result (lines 183-249)

    /**
     * computeMatchSet: every left vertex, and every neighbour other than the source that it
     * sends flow to, join the matches. The ids added are exactly the ends of the
     * flow-carrying edges out of LV, whatever order the HashSet yields LV in.
     */
    method ComputeMatchSet()
      requires LV <= vertices.Keys
      modifies this`matches
      ensures matches == old(matches) + MatchedEnds(vertices, LV, flow)
    {
      var todo := LV;
      while todo != {}
        invariant todo <= LV
        invariant matches == old(matches) + MatchedEnds(vertices, LV - todo, flow)
        decreases |todo|
      {
        NonEmptyHasElement(todo);
        var v :| v in todo;
        AddEnds(v);
        MatchedEndsStep(vertices, LV - todo, flow, v);
        assert (LV - todo) + {v} == LV - (todo - {v});
        todo := todo - {v};
      }
      assert LV - todo == LV;
    }

    /** computeMatchSet's inner loop for the left vertex v: v and each neighbour it sends flow to. */
    method AddEnds(v: int)
      requires v in vertices
      modifies this`matches
      ensures matches == old(matches) + Ends(flow, v, vertices[v].neighbors)
    {
      var neighbors := vertices[v].neighbors;
      for j := 0 to |neighbors|
        invariant matches == old(matches) + Ends(flow, v, neighbors[..j])
      {
        var neighb := neighbors[j];
        EndsStep(flow, v, neighbors, j);
        if neighb != Source && EdgeInfo(flow, v, neighb, 0) > 0 {
          matches := matches + {v, neighb};
        }
      }
      assert neighbors[..|neighbors|] == neighbors;
    }

    /**
     * computeMinVertexCover: König's construction from the unmatched vertices of side1, over
     * the neighbour lists and the current flow. The TreeSet hands them to konigDFS in id
     * order, and the reached set is the same in any order: the least set closed under the
     * alternating steps. The result holds the reached vertices of side2 and the unreached
     * ones of side1; when the flow is a matching and `matches` its ends, it covers every
     * edge between the sides.
     */
    method ComputeMinVertexCover(side1: set<int>, side2: set<int>) returns (result: set<int>, ghost konigSet: set<int>)
      requires Shape(inst, Snapshot())
      requires (side1 == LV && side2 == RV) || (side1 == RV && side2 == LV)
      ensures LeastClosed(CurrentGraph(), side2, side1 - matches, konigSet) && konigSet <= side1 + side2
      ensures result == CoverFrom(side1, side2, konigSet)
      ensures MatchingOk(CurrentGraph(), side1, side2) && MatchesOk(CurrentGraph(), side1, side2, matches) ==>
                CoversEdges(CurrentGraph(), side1, side2, result) && CoversEdges(CurrentGraph(), side2, side1, result)
    {
      ShapeStructure(inst, Snapshot());
      result, konigSet := MinVertexCover(CurrentGraph(), side1, side2, matches);
    }

    /**
     * computeInvitees: the cover König's construction gives from LV if it holds the friend,
     * the one from RV otherwise; its ids join the invitees. When the flow is a matching and
     * `matches` its ends, the chosen ids include a member of every team.
     */
    method ComputeInvitees() returns (ghost chosen: set<int>, ghost konig1: set<int>, ghost konig2: set<int>)
      requires Shape(inst, Snapshot())
      modifies this`invitees
      ensures invitees == old(invitees) + chosen
      ensures LeastClosed(CurrentGraph(), RV, LV - matches, konig1) && LeastClosed(CurrentGraph(), LV, RV - matches, konig2)
      ensures chosen == if FriendId in CoverFrom(LV, RV, konig1) then CoverFrom(LV, RV, konig1) else CoverFrom(RV, LV, konig2)
      ensures MatchingOk(CurrentGraph(), LV, RV) && MatchesOk(CurrentGraph(), LV, RV, matches) ==> FlowNetwork.CoversTeams(inst, chosen)
    {
      var minVertexCovers1, minVertexCovers2;
      minVertexCovers1, konig1 := ComputeMinVertexCover(LV, RV);
      minVertexCovers2, konig2 := ComputeMinVertexCover(RV, LV);
      var result := if FriendId in minVertexCovers1 then minVertexCovers1 else minVertexCovers2;
      chosen := result;
      invitees := invitees + result;
      if MatchingOk(CurrentGraph(), LV, RV) && MatchesOk(CurrentGraph(), LV, RV, matches) {
        CoversFromEitherSide(inst, Snapshot(), matches, konig1, konig2);
      }
    }

    /**
     * solve: relabel-to-front, then the matches read off the flow, then the invitees, on the
     * solver as setup leaves it. Neighbour lists, capacities and sides keep the network's
     * shape; the matches are the ends of the flow-carrying edges out of LV, which are exactly
     * the vertices König's construction counts as matched; and when the final flow is a
     * matching, the invitees include a member of every team.
     */
    method Solve(fuel: nat)
      requires FlowNetwork.WellFormed(inst) && Snapshot() == SetUp(inst) && matches == {} && invitees == {}
      requires |inst.lv| + |inst.rv| > 0
      modifies this`V, this`vertices, this`flow, this`matches, this`invitees
      ensures multiset(V) == multiset(inst.lv + inst.rv) && LV == FlowNetwork.LSet(inst) && RV == FlowNetwork.RSet(inst)
      ensures matches == MatchedEnds(vertices, LV, flow)
      ensures MatchesOk(CurrentGraph(), LV, RV, matches)
      ensures MatchingOk(CurrentGraph(), LV, RV) ==> FlowNetwork.CoversTeams(inst, invitees)
    {
      SetUpReady(inst, Snapshot());
      Run(fuel);
    }

    /** solve from any state that keeps the invariant and has the network's shape. */
    method Run(fuel: nat)
      requires Valid() && Shape(inst, Snapshot()) && V != [] && matches == {} && invitees == {}
      modifies this`V, this`vertices, this`flow, this`matches, this`invitees
      ensures multiset(V) == old(multiset(V)) && LV == old(LV) && RV == old(RV)
      ensures matches == MatchedEnds(vertices, LV, flow)
      ensures MatchesOk(CurrentGraph(), LV, RV, matches)
      ensures MatchingOk(CurrentGraph(), LV, RV) ==> FlowNetwork.CoversTeams(inst, invitees)
    {
      ghost var s0 := Snapshot();
      var finished := RelabelToFront(fuel);
      ShapeKept(inst, s0, Snapshot());
      ReadResults();
    }

    /** The tail of solve once the flow is final: computeMatchSet, then the invitees. */
    method ReadResults()
      requires Valid() && Shape(inst, Snapshot()) && matches == {} && invitees == {}
      modifies this`matches, this`invitees
      ensures matches == MatchedEnds(vertices, LV, flow)
      ensures MatchesOk(CurrentGraph(), LV, RV, matches)
      ensures MatchingOk(CurrentGraph(), LV, RV) ==> FlowNetwork.CoversTeams(inst, invitees)
    {
      SidesRegistered(inst, vertices);
      ComputeMatchSet();
      MatchedEndsOk(inst, Snapshot());
      ghost var chosen, konig1, konig2 := ComputeInvitees();
    }
  }
}
