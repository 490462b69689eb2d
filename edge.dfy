/** One flow cell of the network (Edge.h, Edge.cpp): a mutable flow and a fixed capacity. */
module FlowEdge {

  /** Every edge that exists has the same capacity (Edge.h). */
  const Capacity: int := 1

  /** The rule of Edge::flipFlow: a flow of 1 becomes 0, every other flow becomes 1. */
  function Flipped(flow: int): (r: int)
    ensures r == 0 || r == 1
    ensures r == 0 <==> flow == 1
  {
    if flow == 1 then 0 else 1
  }

  /** Flipping is an involution on the flows a unit-capacity network can carry. */
  lemma FlipTwice(flow: int)
    requires flow == 0 || flow == 1
    ensures Flipped(Flipped(flow)) == flow
  {
  }

  class Edge {
    var flow: int

    /** The default edge carries no flow. */
    constructor ()
      ensures flow == 0
    {
      flow := 0;
    }

    constructor WithFlow(newFlow: int)
      ensures flow == newFlow
    {
      flow := newFlow;
    }

    method SetFlow(newFlow: int)
      modifies this
      ensures flow == newFlow
    {
      flow := newFlow;
    }

    method AddToFlow(flowInc: int)
      modifies this
      ensures flow == old(flow) + flowInc
    {
      flow := flow + flowInc;
    }

    method FlipFlow()
      modifies this
      ensures flow == Flipped(old(flow))
      ensures old(flow) == 0 || old(flow) == 1 ==> flow == 1 - old(flow)
    {
      flow := if flow == 1 then 0 else 1;
    }

    /** The capacity does not depend on the flow. */
    function GetCapacity(): int
    {
      Capacity
    }
  }
}
