/**
 * The table of all edges of the flow network (Edges.h, Edges.cpp). Each entry is an Edge
 * stored by value under the ordered pair of its endpoint ids; since an Edge's only state
 * is its flow, the table is a map from the pair to that flow.
 */
module EdgeTable {
  import opened FlowEdge

  type Key = (int, int)

  /** Flow and capacity reported for a pair that has no entry. */
  const EmptyFlow: int := 0
  const EmptyCapacity: int := 0

  function KeyVal(u: int, v: int): (k: Key)
  {
    (u, v)
  }

  /** getFlow: the stored flow, or EmptyFlow when there is no entry. */
  function Flow(info: map<Key, int>, u: int, v: int): (f: int)
    ensures KeyVal(u, v) !in info ==> f == EmptyFlow
    ensures KeyVal(u, v) in info ==> f == info[KeyVal(u, v)]
  {
    if KeyVal(u, v) in info then info[KeyVal(u, v)] else EmptyFlow
  }

  /** getCapacity: the Edge capacity for a stored pair, EmptyCapacity otherwise. */
  function Capacity(info: map<Key, int>, u: int, v: int): (c: int)
    ensures c == 0 || c == FlowEdge.Capacity
    ensures c > 0 <==> KeyVal(u, v) in info
  {
    if KeyVal(u, v) in info then FlowEdge.Capacity else EmptyCapacity
  }

  /**
   * getResidualCapacity: what is left on the forward edge if there is one, otherwise the
   * flow that can be cancelled on the reverse edge, otherwise nothing.
   */
  function ResidualCapacity(info: map<Key, int>, u: int, v: int): int
  {
    var forwardCapacity := Capacity(info, u, v);
    if forwardCapacity > 0 then forwardCapacity - Flow(info, u, v)
    else if Capacity(info, v, u) > 0 then Flow(info, v, u)
    else 0
  }

  /** Every stored flow is 0 or 1. */
  ghost predicate UnitFlows(info: map<Key, int>)
  {
    forall k :: k in info ==> info[k] == 0 || info[k] == 1
  }

  /** With unit flows the residual capacity is never negative and never above the capacity. */
  lemma ResidualIsBounded(info: map<Key, int>, u: int, v: int)
    requires UnitFlows(info)
    ensures 0 <= ResidualCapacity(info, u, v) <= FlowEdge.Capacity
  {
  }

  /**
   * For a stored edge whose reverse is not stored, what the edge can still carry forward and
   * what it can give back add up to its capacity; with unit flows exactly one of them is positive.
   */
  lemma ResidualOfStoredEdge(info: map<Key, int>, u: int, v: int)
    requires KeyVal(u, v) in info && KeyVal(v, u) !in info
    ensures ResidualCapacity(info, u, v) + ResidualCapacity(info, v, u) == FlowEdge.Capacity
    ensures ResidualCapacity(info, v, u) == info[KeyVal(u, v)]
    ensures UnitFlows(info) ==> (ResidualCapacity(info, u, v) > 0 <==> ResidualCapacity(info, v, u) == 0)
  {
  }

  /** Between two ids with no stored edge in either direction nothing can flow. */
  lemma ResidualOfAbsentPair(info: map<Key, int>, u: int, v: int)
    requires KeyVal(u, v) !in info && KeyVal(v, u) !in info
    ensures ResidualCapacity(info, u, v) == 0
  {
  }

  class Edges {
    var edgeInfo: map<Key, int>

    /** The table starts empty; the bucket count given in the source does not affect behaviour. */
    constructor (numVertices: int)
      ensures edgeInfo == map[]
    {
      edgeInfo := map[];
    }

    /** setFlow creates the entry if needed and overwrites its flow; no other entry changes. */
    method SetFlow(u: int, v: int, newFlow: int)
      modifies this
      ensures edgeInfo == old(edgeInfo)[KeyVal(u, v) := newFlow]
    {
      var e := new Edge();
      e.SetFlow(newFlow);
      edgeInfo := edgeInfo[KeyVal(u, v) := e.flow];
    }

    /** addToFlow default-creates a missing entry with flow 0, then adds to it. */
    method AddToFlow(u: int, v: int, flowInc: int)
      modifies this
      ensures edgeInfo == old(edgeInfo)[KeyVal(u, v) := Flow(old(edgeInfo), u, v) + flowInc]
    {
      var k := KeyVal(u, v);
      var e := new Edge();
      if k in edgeInfo {
        e := new Edge.WithFlow(edgeInfo[k]);
      }
      e.AddToFlow(flowInc);
      edgeInfo := edgeInfo[k := e.flow];
    }

    /**
     * flipFlow toggles an existing entry. For a missing entry the source only reports an
     * error; here the report is the result `known == false` and the table is unchanged.
     */
    method FlipFlow(u: int, v: int) returns (known: bool)
      modifies this
      ensures known <==> KeyVal(u, v) in old(edgeInfo)
      ensures known ==> edgeInfo == old(edgeInfo)[KeyVal(u, v) := Flipped(old(edgeInfo)[KeyVal(u, v)])]
      ensures !known ==> edgeInfo == old(edgeInfo)
    {
      var k := KeyVal(u, v);
      known := k in edgeInfo;
      if known {
        var e := new Edge.WithFlow(edgeInfo[k]);
        e.FlipFlow();
        edgeInfo := edgeInfo[k := e.flow];
      }
    }
  }
}
