# Bilateral projects and Best Before, in Dafny

This project models two programs.

**Bilateral projects.** A company has employees at two locations, with ids 1000-1999 at the
first and 2000-2999 at the second. Each project team is one employee from each location. The
program picks the smallest set of employees to invite so that every team has someone there.
Among the smallest sets, it prefers one that includes the friend, employee 1009. The set it
prints is a minimum vertex cover of the bipartite team graph. The program finds it in two steps:

- It computes a maximum matching as a unit-capacity maximum flow, with a synthetic source
  before the first location and a synthetic sink after the second.
- It then applies König's construction to that matching from each side, and keeps the cover
  that holds the friend when the first one does.

There are four solvers:

- the C++ solver (`BilateralBFS.cpp`), which uses breadth-first search for augmenting paths.
  It sits on a flow table keyed by id pairs (`Edges.cpp`), a 0/1 flow cell (`Edge.cpp`) and a
  lookup-or-create vertex registry (`Vertex.cpp`);
- the Java relabel-to-front push-relabel solver (`BilateralPushRelabel.java`), with indexed
  flow and capacity tables;
- its earlier version (`Bilateral.java.good1.java`), with TreeMap tables, a registry keyed by
  employee, and left and right vertices left at height 0;
- the two-hop "bipush" solver (`BilateralBipush.java`). It keeps Edge objects shared by both
  ends' lists and puts the smaller location on the source side.

**Best Before.** `BestBefore.java` reads "A/B/C" and tries the three numbers in all six orders
as year/month/day. Years 0..99 mean 2000..2099, and the legal years are 2000..2999. It prints
the earliest legal date as `YYYY-MM-DD`, or "A/B/C is illegal".

Modules, leaves first:

| module | file | models |
|---|---|---|
| `Params` | params.dfy | the ids of the source, the sink and the friend, and the id ranges |
| `SetFacts`, `ListOps` | sets.dfy, listops.dfy | set cardinalities; Java's `remove` + `add(0, x)` / `add(x)` on lists |
| `FlowEdge` | edge.dfy | `Edge.cpp`: one flow cell, capacity 1 |
| `EdgeTable` | edges.dfy | `Edges.cpp`: the flow table keyed by ordered id pairs, and residual capacity |
| `Vertices` | vertex.dfy | `Vertex.cpp`: the registry, `getIdx`, `addToNeighbors`, `operator<` |
| `FlowNetwork` | network.dfy | the network all the solvers build from the input; augmenting paths, and the maximum-matching and minimum-cover facts |
| `Konig` | konig.dfy | `konigDFS` and `computeMinVertexCover`, which all four solvers share in substance |
| `BfsSolver` | bilateral_bfs.dfy | the C++ solver |
| `FlowSums` | flow_sums.dfy | net inflow of a flow, and what a drained unit flow says about the matching |
| `PushRelabel` | push_relabel.dfy | `BilateralPushRelabel.java` |
| `Good1` | good1.dfy | `Bilateral.java.good1.java` |
| `Bipush` | bipush.dfy | `BilateralBipush.java` |
| `JavaText` | java_text.dfy | Java's `int` wrap-around, `Integer.parseInt`, `String.split`, `%0wd` and `compareTo` |
| `BestBefore` | best_before.dfy | `BestBefore.java` |

How the model is shaped:

- Objects whose fields the source updates in place are classes:
  - the C++ `Edge`, `Edges` and vertex pool, and the BFS solver with its `visited` and `prev` arrays;
  - the Java `Vertex`, `Edges`, `Edge` and registries, and each Java `Solver`;
  - `DateValidator` and `PotentialDate`.
- Lists the source reorders (`V`, neighbour lists, edge lists) are `seq` fields that the methods
  reassign.
- Loops are `while` or `for` loops with invariants.
- Heights are Java `int`s, with wrap-around written out (`JavaText.Wrap`).
- The static registries belong to the solver object.
- Employees are named by their ids. The registries give one vertex per id, so this matches the
  identity semantics of Java's sets.

## Model

| member | source | states |
|---|---|---|
| `FlowEdge.Flipped` | Bilateral/Edge.cpp:17 | flipFlow's new flow is 0 or 1, and it is 0 exactly when the old flow was 1 |
| `FlowEdge.FlipTwice` | Bilateral/Edge.cpp:17 | flipping a 0/1 flow twice restores it |
| `FlowEdge.Edge.constructor` | Bilateral/Edge.cpp:6-8 | a new edge carries flow 0 |
| `FlowEdge.Edge.WithFlow` | Bilateral/Edge.cpp:10-12 | an edge built with newFlow carries exactly that flow |
| `FlowEdge.Edge.SetFlow` | Bilateral/Edge.cpp:15 | afterwards the flow is the given value |
| `FlowEdge.Edge.AddToFlow` | Bilateral/Edge.cpp:16 | the flow grows by exactly the increment |
| `FlowEdge.Edge.FlipFlow` | Bilateral/Edge.cpp:17 | 1 becomes 0 and anything else becomes 1, so 0 and 1 swap |
| `EdgeTable.Flow` | Bilateral/Edges.cpp:36-45 | the stored flow of the ordered pair (u, v), or 0 when the pair has no entry |
| `EdgeTable.Capacity` | Bilateral/Edges.cpp:69-77 | 1 exactly when the ordered pair has an entry, otherwise 0 |
| `EdgeTable.ResidualIsBounded` | Bilateral/Edges.cpp:21-34 | with 0/1 flows, the residual capacity lies between 0 and the edge capacity 1 |
| `EdgeTable.ResidualOfStoredEdge` | Bilateral/Edges.cpp:21-34 | on a stored edge (u, v), forward residual plus backward residual is 1 and the backward residual is the flow, so exactly one direction is open |
| `EdgeTable.ResidualOfAbsentPair` | Bilateral/Edges.cpp:21-34 | a pair with no entry in either direction has residual capacity 0 |
| `EdgeTable.Edges.constructor` | Bilateral/Edges.cpp:13-15 | a new table is empty |
| `EdgeTable.Edges.SetFlow` | Bilateral/Edges.cpp:47-49 | creates or overwrites the (u, v) entry; every other entry is unchanged |
| `EdgeTable.Edges.AddToFlow` | Bilateral/Edges.cpp:51-53 | (u, v) becomes its old flow, or 0 when absent, plus the increment; nothing else changes |
| `EdgeTable.Edges.FlipFlow` | Bilateral/Edges.cpp:55-66 | an existing entry is flipped and the rest kept; a missing entry is reported and the table is unchanged |
| `Vertices.SpecialIndices` | Bilateral/Vertex.cpp:25-27 | getIdx is id - 1000: the source and sink land on the last two slots and employees on the slots below |
| `Vertices.LessIsStrictTotalOrder` | Bilateral/Vertex.cpp:51-57 | operator< (id order) is irreflexive, transitive, asymmetric and total on distinct ids |
| `Vertices.VertexPool.constructor` | Bilateral/Vertex.cpp:47 | the registry starts empty |
| `Vertices.VertexPool.VertexFromId` | Bilateral/Vertex.cpp:14-22 | the first lookup of an id creates a vertex with that id and no neighbours; every later lookup returns the same vertex and leaves the registry unchanged |
| `Vertices.VertexPool.AddToNeighbors` | Bilateral/Vertex.cpp:33-43 | the neighbour goes at the end: the count grows by one and the earlier list is a prefix |
| `FlowNetwork.NetNeighborsSymmetric` | Bilateral/BilateralBFS.cpp:87-97 | setupNeighbors links both ways: y is x's neighbour exactly when x is y's, and no vertex neighbours itself |
| `FlowNetwork.NetNeighborsDistinct` | Bilateral/BilateralBFS.cpp:57-97 | no neighbour list holds a vertex twice |
| `FlowNetwork.ZeroFlowIsEmptyMatching` | Bilateral/BilateralBFS.cpp:57-97 | the network as built carries a valid flow that matches nobody |
| `FlowNetwork.KeyFacts` | Bilateral/BilateralBFS.cpp:57-97 | the stored edges are exactly source to left, right to sink and left to right along a team, in that direction only |
| `FlowNetwork.ResidualFacts` | Bilateral/Edges.cpp:21-34 | on the network, forward residual is 1 - flow and backward residual is the flow, edge by edge |
| `FlowNetwork.GreedyStep` | Bilateral/BilateralBFS.cpp:108-113 | setting source-u, u-v and v-sink to 1 for a free team (u, v) is flipping that path; it keeps the flow valid and matches u and v |
| `FlowNetwork.ResidualPathAlternates` | Bilateral/BilateralBFS.cpp:125-156 | a residual source-to-sink path alternates between unmatched team edges forwards and matched ones backwards |
| `FlowNetwork.PathIsAugmenting` | Bilateral/BilateralBFS.cpp:159-176 | the edges processPath flips along a residual path are exactly the edges of an augmenting path |
| `FlowNetwork.Augment` | Bilateral/BilateralBFS.cpp:159-176 | flipping an augmenting path keeps the flow valid and adds its free first and last vertex to the matched sets |
| `FlowNetwork.AugmentAlongPath` | Bilateral/BilateralBFS.cpp:159-176 | every edge on the path is stored, and flipping them keeps the flow valid and strictly grows the matching |
| `FlowNetwork.HopKeyIsStored` | Bilateral/BilateralBFS.cpp:168-173 | the stored key processPath picks for a hop (lower id first unless a special id leads) is the edge the network stores for it |
| `FlowNetwork.NetGraphOk` | Bilateral/BilateralBFS.cpp:239-254 | the network's team graph, with the flow read as a matching, is a bipartite graph whose matched vertices are the ones with a mate |
| `FlowNetwork.MaximalFromLeft` | Bilateral/BilateralBFS.cpp:131-155 | when the search empties its queue without the sink, its reached set, cut to the two sides, is closed under alternating steps, holds every free left vertex, and holds only matched right vertices |
| `FlowNetwork.MaximalFromRight` | Bilateral/BilateralBFS.cpp:131-155 | the same search seen from the right: what it does not reach is closed, holds every free right vertex, and holds only matched left vertices |
| `FlowNetwork.CoversTeamsIsCoversEdges` | Bilateral/VertexCoverChecker.java:112-118 | a set touches every team exactly when it touches every edge of the team graph |
| `FlowNetwork.MatchingAtMostCover` | Bilateral/BilateralBFS.cpp:36-38 | every cover is at least as large as every matching |
| `FlowNetwork.CoverMeetsMatching` | Bilateral/BilateralBFS.cpp:36-38 | a cover as large as a matching is a minimum cover, and that matching is maximum |
| `FlowNetwork.KonigCoverFromLeft` | Bilateral/BilateralBFS.cpp:195 | König's cover from the left, after the search has failed, is exactly as large as the matching |
| `FlowNetwork.KonigCoverFromRight` | Bilateral/BilateralBFS.cpp:196 | König's cover from the right is exactly as large as the matching too |
| `FlowNetwork.FriendInLeftCover` | Bilateral/BilateralBFS.cpp:198-203 | if any minimum cover holds the friend, König's left-first cover holds the friend |
| `Konig.KonigDfs` | Bilateral/BilateralBFS.cpp:239-254 | the visited set grows by v and what v reaches along alternating edges, never the source or sink; every vertex added is finished; the result lies inside every closed set that contains the start |
| `Konig.MinVertexCover` | Bilateral/BilateralBFS.cpp:218-235 | the König set is the least closed set holding side1's unmatched vertices; the result is (side2 ∩ T) ∪ (side1 \ T); for a matching it touches every edge and is as large as the matching |
| `Konig.CoverTouchesEveryEdge` | Bilateral/VertexCoverChecker.java:112-118 | (side2 ∩ T) ∪ (side1 \ T) touches every edge when T is closed and holds the free side1 vertices |
| `Konig.CoverSize` | Bilateral/BilateralBFS.cpp:36-38 | that cover has exactly as many vertices as the matching has edges |
| `Konig.CoverAtLeastMatching` | Bilateral/BilateralBFS.cpp:36-38 | any set touching every edge has at least as many vertices as the matching has edges |
| `Konig.MatchedSidesSameSize` | Bilateral/BilateralBFS.cpp:257-279 | a matching touches as many vertices on one side as on the other |
| `Konig.MinimumCoverWithinKonig` | Bilateral/BilateralBFS.cpp:198-203 | a minimum cover takes from side1 only vertices that König's cover from side1 also takes |
| `BfsSolver.BilateralBfs.constructor` | Bilateral/BilateralBFS.cpp:16-26 | the solver holds the network of the input, seeded with a valid flow, with visited all false and prev all -1 |
| `BfsSolver.BilateralBfs.Initialize` | Bilateral/BilateralBFS.cpp:42-54 | builds the source side, the sink side and the teams, seeds the matching and clears prev |
| `BfsSolver.BilateralBfs.SetupSourceSide` | Bilateral/BilateralBFS.cpp:57-69 | registers every left id, linked both ways with the source, with the edge from the source stored |
| `BfsSolver.BilateralBfs.SetupSinkSide` | Bilateral/BilateralBFS.cpp:72-84 | registers every right id, linked both ways with the sink, with the edge into the sink stored |
| `BfsSolver.BilateralBfs.SetupNeighbors` | Bilateral/BilateralBFS.cpp:87-97 | links the two ends of every team both ways and stores the left-to-right edge |
| `BfsSolver.BilateralBfs.SetupInitialMatching` | Bilateral/BilateralBFS.cpp:100-120 | the greedy seed leaves a valid 0/1 flow in which no right vertex is matched twice, and visited all false |
| `BfsSolver.BilateralBfs.MatchPair` | Bilateral/BilateralBFS.cpp:108-114 | sets the three flows to 1 and marks both ends visited, keeping the seed's invariant |
| `BfsSolver.BilateralBfs.FindAugmentingPath` | Bilateral/BilateralBFS.cpp:125-156 | when found, a residual source-to-sink path that prev records; when not, a reached set holding the source but not the sink and closed under residual edges |
| `BfsSolver.BilateralBfs.VisitNeighbor` | Bilateral/BilateralBFS.cpp:140-149 | v is enqueued exactly when it is unvisited with positive residual capacity from u, and then prev[v] = u |
| `BfsSolver.BilateralBfs.ProcessPath` | Bilateral/BilateralBFS.cpp:159-180 | flips exactly the stored edge of each hop of the path, so the matching strictly grows; visited and prev are cleared |
| `BfsSolver.BilateralBfs.FlipHops` | Bilateral/BilateralBFS.cpp:163-175 | following prev back from the sink flips exactly the path's hop keys |
| `BfsSolver.BilateralBfs.ClearSearch` | Bilateral/BilateralBFS.cpp:177-179 | visited is all false and prev all -1 |
| `BfsSolver.BilateralBfs.ComputeMatchset` | Bilateral/BilateralBFS.cpp:257-279 | matches gains exactly the ends of the flow-carrying team edges, and the count is the number of matched left vertices |
| `BfsSolver.BilateralBfs.MatchesOf` | Bilateral/BilateralBFS.cpp:264-275 | one left vertex's scan adds its mates, and itself when it has one, and counts its mates |
| `BfsSolver.ChooseCover` | Bilateral/BilateralBFS.cpp:195-203 | runs König from both sides and keeps the first cover when it holds the friend: the result covers every team, is as large as the matching, and holds the friend whenever a cover that small can |
| `BfsSolver.BilateralBfs.ComputeInvitees` | Bilateral/BilateralBFS.cpp:189-210 | invitees gain the ids of the chosen cover, which covers every team, is as large as the matching, and holds the friend when some minimum cover does |
| `BfsSolver.BilateralBfs.Solve` | Bilateral/BilateralBFS.cpp:28-39 | the final flow is a maximum matching; the invitees are a minimum cover, holding the friend whenever some minimum cover does; the matching size equals the number of invitees |
| `BfsSolver.BilateralBfs.AugmentAndSearch` | Bilateral/BilateralBFS.cpp:29-31 | one loop pass strictly grows the matching, bounded by the left side, then searches again |
| `PushRelabel.SetEdgeInfo` | Bilateral/BilateralPushRelabel.java:577-588 | creates the slot when empty, then (u, v) reads newVal and every other lookup reads what it did before |
| `PushRelabel.AddToEdgeInfo` | Bilateral/BilateralPushRelabel.java:600-604 | adds to the existing (u, v) entry; the entries present and all other values are unchanged |
| `PushRelabel.ResidualBounds` | Bilateral/BilateralPushRelabel.java:510-525 | within capacity, residual capacity is never negative and never above the capacity of the edge it uses |
| `PushRelabel.PushedFlow` | Bilateral/BilateralPushRelabel.java:218-223 | delta more on the forward edge, or delta less on the reverse edge; no other entry changes and flows stay within capacity |
| `PushRelabel.Edges.constructor` | Bilateral/BilateralPushRelabel.java:497-508 | both tables hold one empty slot per vertex index |
| `PushRelabel.Edges.SetFlow` | Bilateral/BilateralPushRelabel.java:567-569 | the flow table becomes setEdgeInfo of the old one |
| `PushRelabel.Edges.SetCapacity` | Bilateral/BilateralPushRelabel.java:571-573 | the capacity table becomes setEdgeInfo of the old one |
| `PushRelabel.Edges.AddToFlow` | Bilateral/BilateralPushRelabel.java:590-592 | the flow table becomes addToEdgeInfo of the old one |
| `PushRelabel.Edges.AddToCapacity` | Bilateral/BilateralPushRelabel.java:594-596 | the capacity table becomes addToEdgeInfo of the old one |
| `PushRelabel.Edges.FlipFlow` | Bilateral/BilateralPushRelabel.java:527-535 | a flow of 1 becomes 0 and any other becomes 1, on that entry only |
| `PushRelabel.Vertex.constructor` | Bilateral/BilateralPushRelabel.java:691-697 | a new vertex has the id, height, excess and cursor 0, and no neighbours |
| `PushRelabel.Vertex.AddToNeighbors` | Bilateral/BilateralPushRelabel.java:720 | appends v |
| `PushRelabel.Vertex.MoveToFrontOfNeighbors` | Bilateral/BilateralPushRelabel.java:722-725 | v moves to index 0 and the others keep their order |
| `PushRelabel.Vertex.MoveToBackOfNeighbors` | Bilateral/BilateralPushRelabel.java:726-729 | v moves to the end and the others keep their order |
| `PushRelabel.Registry.VertexFromId` | Bilateral/BilateralPushRelabel.java:683-689 | the vertex registered at the id's index, created on the first lookup and the same object afterwards; other slots are unchanged |
| `PushRelabel.Solver.constructor` | Bilateral/BilateralPushRelabel.java:77-81 | the solver is initialized on the instance, its flow is a preflow, and matches and invitees are empty |
| `PushRelabel.Solver.InitialPreflow` | Bilateral/BilateralPushRelabel.java:110-133 | after setup every vertex's excess is its net inflow |
| `PushRelabel.Solver.Initialize` | Bilateral/BilateralPushRelabel.java:91-105 | V is the friend (when a left id), the other left ids, then the right ids; left vertices have excess 1 and height 2, right vertices height 1; the source has excess -\|L\| and height \|V\| + 2; network edges have capacity 1, with flow 1 out of the source and 0 elsewhere |
| `PushRelabel.Solver.SetupSourceSide` | Bilateral/BilateralPushRelabel.java:110-133 | every left id is registered and linked to the source with flow 1, and the source's excess is -\|L\| |
| `PushRelabel.Solver.SetupSinkSide` | Bilateral/BilateralPushRelabel.java:137-150 | every right id is registered and linked to the sink with flow 0 |
| `PushRelabel.Solver.SetupNeighbors` | Bilateral/BilateralPushRelabel.java:153-165 | every team is linked both ways with capacity 1 and flow 0 |
| `PushRelabel.Solver.BiasForFriend` | Bilateral/BilateralPushRelabel.java:167-179 | each neighbour of the friend moves the friend to the front of its list when it can push into the friend, and to the back otherwise; list contents are unchanged |
| `PushRelabel.Solver.Push` | Bilateral/BilateralPushRelabel.java:207-227 | moves delta = min(excess(u), residual(u, v)) > 0 from u's excess to v's, so the total is kept, and changes the flow by PushedFlow |
| `PushRelabel.Solver.PushedPreflow` | Bilateral/BilateralPushRelabel.java:207-227 | a push keeps every vertex's excess equal to its net inflow |
| `PushRelabel.Solver.MinResidualHeightIsLeast` | Bilateral/BilateralPushRelabel.java:236-244 | the minimum relabel computes is at most every residual neighbour's height and is attained, or is Integer.MAX_VALUE when there is none |
| `PushRelabel.Solver.Relabel` | Bilateral/BilateralPushRelabel.java:231-247 | the height becomes 1 + that minimum, in Java int arithmetic |
| `PushRelabel.Solver.Discharge` | Bilateral/BilateralPushRelabel.java:252-270 | keeps the preflow; finished exactly when u's excess is 0; u's excess stays non-negative; neighbours' excesses only grow |
| `PushRelabel.Solver.VisitNeighbor` | Bilateral/BilateralPushRelabel.java:257-266 | one step of the cursor loop: push when admissible, otherwise advance; keeps the preflow |
| `PushRelabel.Solver.Advance` | Bilateral/BilateralPushRelabel.java:196-201 | a vertex whose height rose moves to the head of V and the walk resumes at index 1; otherwise the walk moves on by one |
| `PushRelabel.Solver.RelabelToFront` | Bilateral/BilateralPushRelabel.java:189-204 | V stays a rearrangement of itself, the flow stays a preflow, and a finished walk leaves V's last vertex without excess |
| `PushRelabel.Solver.DrainedFlow` | Bilateral/BilateralPushRelabel.java:189-204 | a preflow with no employee holding excess is a unit flow with no net inflow at any employee |
| `PushRelabel.Solver.ComputeMatchSet` | Bilateral/BilateralPushRelabel.java:337-346 | matches gains exactly the ends of the flow-carrying left-to-right edges |
| `PushRelabel.Solver.ComputeMinVertexCover` | Bilateral/BilateralPushRelabel.java:300-318 | the König set is the least closed set from side1's unmatched vertices, and the result's ids are (side2 ∩ T) ∪ (side1 \ T) |
| `PushRelabel.Solver.ComputeInvitees` | Bilateral/BilateralPushRelabel.java:278-293 | invitees gain the left-first cover if it holds the friend, otherwise the right-first cover; on a drained unit flow that cover covers every team |
| `PushRelabel.Solver.ReadResult` | Bilateral/BilateralPushRelabel.java:85-86 | matches are the ends of the flow, and the invitees cover every team when the flow is drained |
| `PushRelabel.Solver.Solve` | Bilateral/BilateralPushRelabel.java:83-88 | the flow stays a preflow, matches are the ends of the final flow, and the invitees cover every team when no employee is left with excess |
| `FlowSums.DrainedIsMatching` | Bilateral/BilateralPushRelabel.java:337-346 | a drained unit flow uses each vertex in at most one team edge |
| `FlowSums.FlowEndsAreMatched` | Bilateral/BilateralPushRelabel.java:337-346 | the ends of the flow-carrying edges are exactly the vertices with a mate |
| `FlowSums.DrainedKonigReady` | Bilateral/BilateralPushRelabel.java:278-293 | on a drained unit flow, König's construction gets a matching from either side |
| `Good1.AddToEdgeInfo` | Bilateral/Bilateral.java.good1.java:383-394 | adds to the existing (u, v) value; every other lookup and the entries present are unchanged |
| `Good1.SetEdgeInfoAt` | Bilateral/Bilateral.java.good1.java:363-373 | after setEdgeInfo, (u, v) reads newVal and every other lookup reads what it did before |
| `Good1.ResidualBounds` | Bilateral/Bilateral.java.good1.java:312-326 | within capacity, residual capacity is never negative and never above the capacity it uses |
| `Good1.PushedFlow` | Bilateral/Bilateral.java.good1.java:262-268 | delta more on the forward entry or delta less on the reverse one, nothing else, within capacity |
| `Good1.Vertex.CompareTo` | Bilateral/Bilateral.java.good1.java:516-518 | -1, 0 or 1 as this id is smaller, equal or larger |
| `Good1.CompareToIsOrder` | Bilateral/Bilateral.java.good1.java:516-518 | compareTo is antisymmetric and transitive, so the TreeMap and TreeSet order by id |
| `Good1.NewVertex` | Bilateral/Bilateral.java.good1.java:448-450 | a new vertex has the id, all counters 0 and no neighbours |
| `Good1.SetUpSides` | Bilateral/Bilateral.java.good1.java:97-133 | V is the friend (when a left id), the other left ids, then the right ids; LV and RV are the two locations |
| `Good1.SetUpCounters` | Bilateral/Bilateral.java.good1.java:78-119 | after setup left vertices have excess 1, the source -\|L\| and height \|V\| + 2, and every other height is 0 |
| `Good1.SetUpReady` | Bilateral/Bilateral.java.good1.java:78-95 | the setup state is consistent, has the network's shape, and V lists every employee once |
| `Good1.MoveExcessKeepsTotal` | Bilateral/Bilateral.java.good1.java:270-272 | moving excess between two vertices keeps the total excess |
| `Good1.MinResidualHeightIsLeast` | Bilateral/Bilateral.java.good1.java:279-287 | the minimum relabel computes is at most every residual neighbour's height and is attained, or is Integer.MAX_VALUE |
| `Good1.MatchedEndsOk` | Bilateral/Bilateral.java.good1.java:240-249 | the collected ends are exactly the vertices with a mate |
| `Good1.CoversFromEitherSide` | Bilateral/Bilateral.java.good1.java:183-198 | both König covers, for a matching, cover every team |
| `Good1.Solver.constructor` | Bilateral/Bilateral.java.good1.java:63-67 | the solver holds the setup state of the instance, with empty matches and invitees |
| `Good1.Solver.Initialize` | Bilateral/Bilateral.java.good1.java:78-95 | the fields become the setup state: source side, sink side, teams, bias, source height |
| `Good1.Solver.SetupSourceSide` | Bilateral/Bilateral.java.good1.java:97-119 | the state after the source passes, with the source's excess lowered by \|L\| |
| `Good1.Solver.SetupSinkSide` | Bilateral/Bilateral.java.good1.java:121-133 | the state after the sink passes |
| `Good1.Solver.SetupLRNeighbors` | Bilateral/Bilateral.java.good1.java:135-148 | the state after one pass per team |
| `Good1.Solver.BiasForFriend` | Bilateral/Bilateral.java.good1.java:150-162 | the state after each friend neighbour moves the friend to the front or the back of its list |
| `Good1.Solver.Push` | Bilateral/Bilateral.java.good1.java:253-273 | moves delta = min(excess, residual) from u to v and changes the flow by PushedFlow |
| `Good1.Solver.Relabel` | Bilateral/Bilateral.java.good1.java:275-290 | u's height becomes 1 + the least residual-neighbour height, in Java int arithmetic; nothing else changes |
| `Good1.Solver.Discharge` | Bilateral/Bilateral.java.good1.java:292-310 | finished exactly when u's excess is spent; a non-negative excess stays non-negative; other excesses only grow |
| `Good1.Solver.FrontStep` | Bilateral/Bilateral.java.good1.java:167-176 | a discharged vertex whose height rose goes to the head of V and the walk resumes after it |
| `Good1.Solver.RelabelToFront` | Bilateral/Bilateral.java.good1.java:164-178 | V stays a rearrangement of itself, and a finished walk leaves V's last vertex without excess |
| `Good1.Solver.ComputeMatchSet` | Bilateral/Bilateral.java.good1.java:240-249 | matches gains exactly the ends of the flow-carrying edges out of the left side |
| `Good1.Solver.ComputeMinVertexCover` | Bilateral/Bilateral.java.good1.java:200-224 | the König set is the least closed set from side1's unmatched vertices, and the result is (side2 ∩ T) ∪ (side1 \ T) |
| `Good1.Solver.ComputeInvitees` | Bilateral/Bilateral.java.good1.java:183-198 | invitees gain the left-first cover if it holds the friend, otherwise the right-first one; for a matching that covers every team |
| `Good1.Solver.Solve` | Bilateral/Bilateral.java.good1.java:69-75 | matches are the matched ends, and the invitees cover every team when the final flow is a matching |
| `Bipush.Edge.constructor` | Bilateral/BilateralBipush.java:471-476 | the ends and the flow as given, with inMatch == (flow > 0) |
| `Bipush.Edge.UpdateMatchStatus` | Bilateral/BilateralBipush.java:554-556 | inMatch == (flow > 0) |
| `Bipush.Edge.GetNeighbor` | Bilateral/BilateralBipush.java:478-492 | from one end, the other end |
| `Bipush.Edge.GetResidualCapacity` | Bilateral/BilateralBipush.java:494-503 | capacity - flow from start to finish, the flow otherwise; between 0 and 1 on a 0/1 flow |
| `Bipush.Edge.SetFlow` | Bilateral/BilateralBipush.java:535-538 | the flow as given, with inMatch kept equal to (flow > 0) |
| `Bipush.Edge.AddToFlow` | Bilateral/BilateralBipush.java:539-542 | the flow grows by the increment, with inMatch kept equal to (flow > 0) |
| `Bipush.Vertex.constructor` | Bilateral/BilateralBipush.java:582-584 | the id, height and excess 0, no edges |
| `Bipush.Vertex.AddToExcess` | Bilateral/BilateralBipush.java:596 | the excess grows by the increment |
| `Bipush.Vertex.AddToEdges` | Bilateral/BilateralBipush.java:606 | appends the edge |
| `Bipush.Vertex.MoveToFrontOfEdges` | Bilateral/BilateralBipush.java:608-611 | the edge moves to index 0 and the others keep their order |
| `Bipush.Vertex.MoveToBackOfEdges` | Bilateral/BilateralBipush.java:612-615 | the edge moves to the end and the others keep their order |
| `Bipush.Registry.VertexFromId` | Bilateral/BilateralBipush.java:573-580 | the registered vertex of the id, created on the first lookup and the same object afterwards |
| `Bipush.PushAmount` | Bilateral/BilateralBipush.java:274-280 | the least of the excess and the two residual capacities: at most each, and equal to one of them |
| `Bipush.HopBalance` | Bilateral/BilateralBipush.java:281-293 | a push along u-v-w changes net inflow only at u and w, by -d and +d; v's is unchanged |
| `Bipush.MinHeightIsLeast` | Bilateral/BilateralBipush.java:338-351 | the minimum relabel computes is at most the height of every non-excluded neighbour with residual capacity and is attained, or is Integer.MAX_VALUE |
| `Bipush.MatchedEndsMembers` | Bilateral/BilateralBipush.java:358-376 | x is a collected end exactly when it is an end of a team edge with positive flow |
| `Bipush.SideChoice` | Bilateral/BilateralBipush.java:93-101 | the source side is the location with no more ids than the other; the two sides are the two locations, disjoint; each team is oriented from the source side |
| `Bipush.MatchedEndsMated` | Bilateral/BilateralBipush.java:358-376 | on a valid flow of the team edges, the collected ends are exactly the vertices with a mate |
| `Bipush.CoverListIds` | Bilateral/BilateralBipush.java:419-424 | the ids of side2.retainAll(T) followed by side1.removeAll(T) are (side2 ∩ T) ∪ (side1 \ T) |
| `Bipush.Solver.Bipush` | Bilateral/BilateralBipush.java:269-294 | moves d = min(excess(u), residual(u, v), residual(v, w)) from u's excess to w's; v's excess is unchanged; each hop's flow changes by d in its direction; inMatch follows the flow |
| `Bipush.Solver.PushAlongHop` | Bilateral/BilateralBipush.java:269-294 | a two-hop push keeps every vertex's excess equal to its net inflow, and u's excess drops but stays non-negative |
| `Bipush.Solver.Relabel` | Bilateral/BilateralBipush.java:332-353 | u's height becomes 1 + the least height of a non-excluded residual neighbour, in Java int arithmetic |
| `Bipush.Solver.BipushRelabel` | Bilateral/BilateralBipush.java:239-266 | pushes along the first two-hop path it finds, relabelling a middle vertex it could not pass; with no eligible edge at all it relabels u; u's excess never grows |
| `Bipush.Solver.TryHop` | Bilateral/BilateralBipush.java:248-260 | pushes exactly when the middle vertex has an onward eligible edge; otherwise relabels the middle vertex, excluding u |
| `Bipush.Solver.BipushDischarge` | Bilateral/BilateralBipush.java:299-304 | keeps the solver's invariant; drained exactly when u's excess is 0 |
| `Bipush.Solver.DischargeAt` | Bilateral/BilateralBipush.java:222-233 | a discharged vertex whose height rose goes to the head of V and the walk resumes after it; otherwise it moves on by one |
| `Bipush.Solver.RelabelToFront` | Bilateral/BilateralBipush.java:218-235 | V stays a rearrangement of itself, and a finished walk leaves V's last vertex without excess |
| `Bipush.Solver.ComputeMatchSet` | Bilateral/BilateralBipush.java:358-376 | matches gains both ends of every team edge with positive flow, in E's order |
| `Bipush.Solver.ComputeMinVertexCover` | Bilateral/BilateralBipush.java:407-428 | the König set is the least closed set from side1's unmatched vertices; the result's ids are (side2 ∩ T) ∪ (side1 \ T); for a matching it touches every edge |
| `Bipush.Solver.ComputeInvitees` | Bilateral/BilateralBipush.java:385-404 | invitees gain the ids of the (LV, RV) cover if it holds the friend, otherwise of the (RV, LV) cover; for a matching that covers every team |
| `Bipush.Solver.AddInvitees` | Bilateral/BilateralBipush.java:397-399 | appends the result's ids in order |
| `Bipush.Solver.ReadResult` | Bilateral/BilateralBipush.java:83-84 | matches are the matched ends of E; the invitees cover every team when the flow is a matching |
| `Bipush.Solver.Solve` | Bilateral/BilateralBipush.java:79-85 | keeps the invariant; matches are the matched ends of the final flow; the invitees cover every team when that flow is a matching |
| `Bipush.Solver.constructor` | Bilateral/BilateralBipush.java:73-77 | the solver is valid and set up, with the smaller location on the source side and the source at height 2\|LV\| |
| `Bipush.Solver.Initialize` | Bilateral/BilateralBipush.java:88-118 | builds the network with the smaller id set as LV and sets the source's height to 2\|LV\| |
| `Bipush.Solver.SetupSourceSide` | Bilateral/BilateralBipush.java:123-144 | every id of the source side is registered and linked to the source with flow 1 and excess 1, and the source's excess ends at -\|LV\| |
| `Bipush.Solver.SetupSinkSide` | Bilateral/BilateralBipush.java:148-159 | every id of the sink side is registered and given an edge into the sink with flow 0, put on its own list and, as line 154 writes it, on the source's; the source's excess is unchanged |
| `Bipush.Solver.SetupNeighbors` | Bilateral/BilateralBipush.java:162-182 | every team gets one flow-0 edge from its source-side member to its sink-side member, on both members' lists |
| `Bipush.Solver.LinkToSource` | Bilateral/BilateralBipush.java:123-144 | a source edge with flow 1 for a new left vertex, whose excess is 1; the friend goes to the front of V, others to the back |
| `Bipush.Solver.LinkToSink` | Bilateral/BilateralBipush.java:148-159 | an edge from a new right vertex to the sink with flow 0, put on the right vertex's and on the source's edge list |
| `Bipush.Solver.LinkTeam` | Bilateral/BilateralBipush.java:162-182 | a team edge from the source-side end with flow 0, appended to E and to both ends' lists |
| `Bipush.Solver.BiasForFriend` | Bilateral/BilateralBipush.java:184-196 | each neighbour of the friend moves the shared edge to the front when it flows into the friend and to the back otherwise |
| `JavaText.Wrap` | Bilateral/BilateralPushRelabel.java:246 | Java int arithmetic: the value itself within int range, otherwise congruent modulo 2^32 |
| `JavaText.ParseInt` | BestBefore/BestBefore.java:49-52 | a value is always a Java int, and every failure is a NumberFormatException |
| `JavaText.ParseFormatRoundTrip` | BestBefore/BestBefore.java:96-99 | parsing what %0wd prints gives back the number |
| `JavaText.SplitPieces` | BestBefore/BestBefore.java:111-113 | split without the separator gives the whole string; no piece holds the separator |
| `JavaText.PiecesJoin` | BestBefore/BestBefore.java:111-113 | joining the pieces with the separator gives back the string |
| `JavaText.LexLessTransitive` | BestBefore/BestBefore.java:17-25 | String.compareTo order is transitive |
| `JavaText.LexLessTotal` | BestBefore/BestBefore.java:17-25 | any two strings are equal or ordered one way |
| `JavaText.LeastIsLeast` | BestBefore/BestBefore.java:17-25 | the priority queue's head is in the queue and nothing in it is smaller |
| `JavaText.FixedOrder` | BestBefore/BestBefore.java:96-99 | zero-padded numbers of one width compare as strings the way they compare as numbers |
| `BestBefore.DateValidator.constructor` | BestBefore/BestBefore.java:150 | the fields start at 0 |
| `BestBefore.DateValidator.IsValid` | BestBefore/BestBefore.java:152-160 | stores the canonical year, the month and the day, and answers whether the year is in 2000..2999, the month in 1..12 and the day in 1..days-in-month |
| `BestBefore.DateValidator.IsValidDateString` | BestBefore/BestBefore.java:162-173 | false exactly when a 4-character field before any failing parse lies outside 2000..2999; a field that does not parse throws NumberFormatException |
| `BestBefore.DateStringCheckTrue` | BestBefore/BestBefore.java:162-172 | isValidDateString answers true exactly when every field is either not four characters long or a year in 2000..2999 |
| `BestBefore.DateStringCheckFalse` | BestBefore/BestBefore.java:162-172 | it answers false exactly when some four-character field parses to a year outside 2000..2999 and every field before it passes |
| `BestBefore.DateStringCheckThrows` | BestBefore/BestBefore.java:162-172 | it throws exactly when some four-character field does not parse and every field before it passes |
| `BestBefore.DateStringCheckMeans` | BestBefore/BestBefore.java:162-172 | the three outcomes of isValidDateString together, stated without the scan |
| `BestBefore.FormCheckTotal` | BestBefore/BestBefore.java:111-117 | once dateFromString has parsed the '/'-fields, stringFormIsValid on the same fields cannot throw |
| `BestBefore.DateValidator.CanonicalizeYear` | BestBefore/BestBefore.java:175-178 | years 0..99 gain 2000 and the rest stay |
| `BestBefore.CanonicalYearFacts` | BestBefore/BestBefore.java:175-178 | 0..99 maps into 2000..2099, other years are fixed, and canonicalizing twice changes nothing |
| `BestBefore.DaysInMonthFacts` | BestBefore/BestBefore.java:198-214 | months have 28 to 31 days; February has 29 exactly in leap years; other months do not depend on the year |
| `BestBefore.YearLength` | BestBefore/BestBefore.java:216-218 | the month table adds up to 366 days in a leap year and 365 otherwise |
| `BestBefore.PotentialDate.constructor` | BestBefore/BestBefore.java:44-47 | keeps the string and the numbers |
| `BestBefore.PotentialDate.FromFields` | BestBefore/BestBefore.java:49-51 | the first three fields are parsed left to right: the first NumberFormatException ends it; otherwise a fresh date holding the string and the three numbers |
| `BestBefore.PotentialDate.DateFromString` | BestBefore/BestBefore.java:111-117 | IllegalArgumentException unless split("/") (trailing empty pieces dropped) gives exactly three fields; otherwise the left-to-right parseInt outcome of the three, kept with the input string |
| `BestBefore.PotentialDate.StringFormIsValid` | BestBefore/BestBefore.java:54-56 | isValidDateString on the '/'-fields of the original string |
| `BestBefore.PotentialDate.GetDatePermutations` | BestBefore/BestBefore.java:68-83 | six dates; date i sends input number j to position datePermIdxs[i][j] |
| `BestBefore.PermIdxsFacts` | BestBefore/BestBefore.java:70 | each row of datePermIdxs is an arrangement of 0, 1, 2 |
| `BestBefore.ArrangementsAreRearrangements` | BestBefore/BestBefore.java:68-83 | each generated date holds the three input numbers in some order |
| `BestBefore.EveryOrderingGenerated` | BestBefore/BestBefore.java:68-83 | every ordering of the three numbers is one of the six dates |
| `BestBefore.PotentialDate.AddValidPermutationsTo` | BestBefore/BestBefore.java:58-66 | appends the output of each legal permutation, in row order |
| `BestBefore.OutputDateFields` | BestBefore/BestBefore.java:96-99 | a legal date prints as a 4-digit year, '-', a 2-digit month, '-', a 2-digit day, 10 characters, and each field parses back |
| `BestBefore.OutputOrderIsDateOrder` | BestBefore/BestBefore.java:96-99 | for legal dates, string order of the output is calendar order, and equal output is equal dates |
| `BestBefore.Disambiguate` | BestBefore/BestBefore.java:7-32 | what main prints for the input, or the exception that ends it |
| `BestBefore.AnswerIsEarliestDate` | BestBefore/BestBefore.java:17-25 | when some ordering is legal, the output is a legal ordering that no other legal ordering precedes in the calendar |
| `BestBefore.AnswerIllegal` | BestBefore/BestBefore.java:11-22 | for any input dateFromString accepts, the form check does not throw, and the output is "<input> is illegal" exactly when the string form is invalid or no ordering is a legal date |

## Left out

- PushRelabel.Solver.Discharge, Good1.Solver.Discharge, Bipush.Solver.BipushDischarge: the source loops while the excess is positive. The model takes a `fuel` bound on the steps and says through `finished`/`drained` whether the excess reached 0. Termination of push-relabel is not proved.
- PushRelabel.Solver.RelabelToFront, Good1.Solver.RelabelToFront, Bipush.Solver.RelabelToFront: fuel-bounded as well. A finished walk is promised only that V's last vertex is drained, not every vertex; that no vertex keeps excess at the end is not proved.
- PushRelabel.Solver.Solve: it does not prove that relabel-to-front drains every employee, so team coverage is stated under that condition (`Drained()`). It does not state a maximum matching, a minimum cover or \|cover\| = \|matching\|; the BFS solver's `Solve` does.
- Good1.Solver.Solve, Bipush.Solver.Solve: team coverage is stated under the condition that the final flow is a matching, which is not derived from the push-relabel run. Minimality is not stated.
- Bipush.Solver.ComputeMinVertexCover, Good1.Solver.ComputeMinVertexCover, PushRelabel.Solver.ComputeMinVertexCover: König runs on the team graph built from the instance and the current flow. The source's konigDFS walks each vertex's own list. The solvers' invariants tie those lists to that graph, and the result does not depend on the walk order.
- EdgeTable.Flow, EdgeTable.Capacity: `Edges::getFlow` and `Edges::getCapacity` (Edges.cpp:43, 75) fall off the end without a `return` when the entry exists, which is undefined behaviour. The model returns the stored value, the evident intent.
- EdgeTable.Edges.FlipFlow: the message to stderr for a missing entry becomes the `known` result.
- JavaText.ParseInt: accepts only the ASCII digits 0-9 (with an optional sign). `Integer.parseInt` also accepts other Unicode decimal digits.
- BestBefore.DateValidator.IsValidDateString: a field's length counts characters (code points), where `String.length()` counts UTF-16 units. They differ only outside the Basic Multilingual Plane.
- FlowNetwork.WellFormed: the input has no repeated team. A repeated team line would add both neighbour entries again, and the input format rules that out.
- PushRelabel.AddToEdgeInfo, PushRelabel.Edges.AddToFlow, PushRelabel.Edges.FlipFlow, Good1.AddToEdgeInfo: require the entry to exist. Java unboxes a missing entry and throws NullPointerException, and every call site passes an existing entry.
- BfsSolver.BilateralBfs.ComputeInvitees: the in-place sort of LV and RV (BilateralBFS.cpp:192-193) only orders the sets König's construction reads, so the model works on sets of ids.
- Excess is an unbounded integer where Java uses `int`. It never exceeds the number of employees (at most 1000 per location), so no overflow occurs. Heights are Java `int`s with wrap-around.
- Iteration order of Java's HashSets and C++'s unordered_set (matches, invitees, König set) is not modelled: the model uses sets. The bipush solver's lists keep their order.
- BilateralBipush.java:154 puts the right-to-sink edges on the source's edge list. `Bipush.Solver.LinkToSink` models this as written, and no sink reachability is claimed from it.
- BilateralBipush.java `push(u, v, e)` (307-327) and `setupInitialMatching` (198-209) are never called, so they are not modelled.
- Input parsing (`ProjectParams`, `fromStdIn`, `dateFromStdin`), `main`, `printSolution`, `toString`, debug output and timing are not modelled. `BestBefore.Disambiguate` takes the input line as a parameter.
- The static registries (`Vertex::vertices`, `idToVertex`, `empToVertex`) become objects or maps owned by the solver. Shared-pointer ownership and hashing are not modelled.
- BilateralHopcroftKarp.java, VertexCoverChecker.java, genRandTeams.java and Lottery.java are not part of this model. The cover property the checker tests is stated as `FlowNetwork.CoversTeams`.
