/**
 * Vertices and the lookup-or-create registry (Vertex.h, Vertex.cpp). The registry is an
 * object owned by the solver rather than a process-wide static. A neighbour is recorded by
 * its id: the registry holds exactly one record per id, so an id names its vertex.
 */
module Vertices {
  import opened Params

  datatype Vertex = Vertex(id: int, neighbors: seq<int>)
  {
    /** The vertex's slot in the solver's arrays. */
    function GetIdx(): (idx: int)
    {
      id - IdIdxDifference
    }

    function NumNeighbors(): nat
    {
      |neighbors|
    }
  }

  /** The array slot of an id; ids 1000..2999 and the source and sink fill 0..2001. */
  function IdxOf(id: int): int
  {
    id - IdIdxDifference
  }

  /** The source and the sink take the last two slots of the solver's arrays. */
  lemma SpecialIndices()
    ensures IdxOf(SourceId) == MaxNumVertices - 2 && IdxOf(SinkId) == MaxNumVertices - 1
    ensures forall id :: 1000 <= id <= MaxNormalId ==> 0 <= IdxOf(id) < MaxNumVertices - 2
  {
  }

  /** operator<: vertices are ordered by id. */
  predicate Less(a: Vertex, b: Vertex)
  {
    a.id < b.id
  }

  /** The order is strict and total on vertices with different ids. */
  lemma LessIsStrictTotalOrder(a: Vertex, b: Vertex, c: Vertex)
    ensures !Less(a, a)
    ensures Less(a, b) && Less(b, c) ==> Less(a, c)
    ensures a.id != b.id ==> Less(a, b) || Less(b, a)
    ensures !(Less(a, b) && Less(b, a))
  {
  }

  class VertexPool {
    var vertices: map<int, Vertex>

    /** Every record sits under the slot of its own id. */
    ghost predicate Valid()
      reads this
    {
      forall idx :: idx in vertices ==> vertices[idx].GetIdx() == idx
    }

    constructor ()
      ensures Valid() && vertices == map[]
    {
      vertices := map[];
    }

    /** Whether a vertex with this id has been created. */
    predicate Has(id: int)
      reads this
    {
      IdxOf(id) in vertices
    }

    /** The current record of a registered id. */
    function Get(id: int): (v: Vertex)
      reads this
      requires Has(id)
    {
      vertices[IdxOf(id)]
    }

    /** The ids of all created vertices. */
    function Ids(): (ids: set<int>)
      reads this
      ensures forall id :: id in ids <==> Has(id)
    {
      set idx | idx in vertices :: idx + IdIdxDifference
    }

    /** The neighbour lists of all created vertices, by id. */
    function Adjacency(): (adj: map<int, seq<int>>)
      reads this
      ensures forall id :: id in adj <==> Has(id)
      ensures forall id :: id in adj ==> adj[id] == Get(id).neighbors
    {
      map id | id in Ids() :: vertices[IdxOf(id)].neighbors
    }

    /**
     * vertexFromId: the first lookup of an id creates a vertex carrying that id and no
     * neighbours; every later lookup returns that same record and changes nothing.
     */
    method VertexFromId(id: int) returns (v: Vertex)
      requires Valid()
      modifies this
      ensures Valid() && Has(id) && v == Get(id) && v.id == id
      ensures old(Has(id)) ==> vertices == old(vertices)
      ensures !old(Has(id)) ==> v.neighbors == [] && vertices == old(vertices)[IdxOf(id) := v]
    {
      var idx := IdxOf(id);
      if idx !in vertices {
        vertices := vertices[idx := Vertex(id, [])];
      }
      v := vertices[idx];
    }

    /** addToNeighbors appends at the end of one vertex's list; no other record changes. */
    method AddToNeighbors(id: int, neighbor: int)
      requires Valid() && Has(id)
      modifies this
      ensures Valid()
      ensures vertices == old(vertices)[IdxOf(id) := old(Get(id)).(neighbors := old(Get(id)).neighbors + [neighbor])]
      ensures Get(id).NumNeighbors() == old(Get(id).NumNeighbors()) + 1
      ensures Get(id).neighbors[..old(Get(id).NumNeighbors())] == old(Get(id).neighbors)
      ensures Get(id).neighbors == old(Get(id).neighbors) + [neighbor]
    {
      var idx := IdxOf(id);
      var v := vertices[idx];
      vertices := vertices[idx := v.(neighbors := v.neighbors + [neighbor])];
    }
  }
}
