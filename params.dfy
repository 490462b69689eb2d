/** Problem constants shared by the C++ solver: ProjectParams.h and BilateralBFS.h. */
module Params {
  /** Number of employee ids; ids run from 1000 to 2999. */
  const MaxNumIds: int := 2000
  /** Largest id of the first (left) location; the second location starts at 2000. */
  const MaxNyId: int := 1999
  /** The vertex that the output cover should contain whenever possible. */
  const FriendId: int := 1009
  /** A vertex's index into the solver's arrays is its id minus this offset. */
  const IdIdxDifference: int := 1000

  /** Synthetic source and sink of the flow network, outside the employee id range. */
  const SourceId: int := 3000
  const SinkId: int := 3001
  const MaxNormalId: int := 2999
  /** Length of the solver's per-vertex arrays: every employee plus source and sink. */
  const MaxNumVertices: int := MaxNumIds + 2
}
