# graph-search in Dafny

This project models the core of a small graph-search library. The library has three parts:

- **The graph store.** A directed graph is kept as an adjacency map from each node name to the set of its children. Its weighted variant adds two things: a heuristic weight per node, and a weight per edge stored under the string key `parent + "->" + child`.
- **A best-first engine (A\*).** It keeps a search tree, made of a parent map and a cost-so-far map `g`. It also keeps an unordered open set, scanned linearly for the least `g + h`, and an iteration counter. When the goal is extracted, the engine backtracks the path and returns it with the goal's cost.
- **A traversal engine.** It does breadth-first or depth-first search over an unweighted graph. Each node has a state (0 unopened, 1 open, 2 visited) and a parent. A double-ended buffer is always popped at its right end, and new nodes are pushed on the left (breadth-first) or on the right (depth-first).

Modules:

- `GraphRep` (`graph_rep.dfy`): the classes `DirectedGraph` and `WeightedGraph`, and the edge-key function with its collision.
- `Forward` (`algo_forward.dfy`): three parts.
  - The run of A\* as values. `Relax` expands one node. `Run` is a whole search with an iteration bound, which always extracts a fixed best node. `TieFreeRun` is that run when no extraction has a tie.
  - The class `Astar`, whose methods perform the same steps on its fields.
  - The proofs connecting the two.
- `Traversal` (`algo_traversal.dfy`): three parts.
  - One iteration as a value (`Iteration`).
  - The engine invariant `TravOk`. It is stated about a ghost map holding each discovered node's depth in the parent tree.
  - The class `Search`. BFS and DFS are one class with a `lifo` flag, because the depth-first class differs only in where it pushes.
- `Fixtures` (`fixtures.dfy`): the two weighted example graphs with known answers, followed one iteration at a time.
- `Wrappers` (`wrappers.dfy`): `Option`.

What is proved, in outline:

- **Graph store.**
  - Adding a node or an edge keeps the graph well formed and touches only what it should.
  - Re-adding an existing node or edge changes nothing. The one exception is the weighted `AddNode`, which still overwrites the weight.
  - The weighted `AddEdge` ignores an edge whose key is already taken, even when a different pair produced that key.
- **A\*.**
  - `ExtractBestNodeFromBuffer` returns an open node of least estimate.
  - `ExpandNode` performs exactly `Relax`.
  - The engine invariant (`SearchOk`) is kept. One part of it, the ordering of parent links by (cost, stamp), makes the parents acyclic, so backtracking terminates.
  - A returned path starts at the start and ends at the goal. Each node on it is its successor's recorded parent, it is a graph path, it repeats no node, and its edge weights sum to at most the reported cost.
  - The set of flagged nodes (the inadmissibility report) is exactly the set of path nodes whose heuristic exceeds the cost still to go.
  - `NoPath` means no path reaches the goal.
  - When the run is tie-free, the outcome is the one `TieFreeRun` predicts.
- **Traversal.**
  - Every iteration keeps the invariant, and the loop ends in at most as many iterations as there are nodes.
  - A returned path is a duplicate-free graph path from start to goal. For breadth-first search, no path from start to goal has fewer nodes.
  - An empty result means the goal cannot be reached.
- **Fixtures.**
  - German network from SB to WB: A\* stops in iteration 6, and the path is SB, KL, Frankfurt, WB at cost 289.
  - "Long way round" graph: A\* stops in iteration 6, and the path is Start, C, D, E, Goal at cost 96. Node E is re-parented from Start to D on the way.

Two behaviours of the graph store are easy to miss:

- Re-adding an existing node to the weighted graph reports that the node is already there, but still overwrites its weight (graph_rep.py:79-82, via the base class's message at graph_rep.py:19-20). `WeightedGraph.AddNode` does the same.
- The weighted graph ignores a new edge whenever its *key* is already recorded, even when a different pair produced that key (graph_rep.py:91-94). `CollidingEdges` shows this.

## Model

| member | source | states |
|---|---|---|
| GraphRep.EdgeName | graph_rep.py:83-85 | the key of an edge: the parent, then `->`, then the child, so its length is theirs plus two (the layout itself is stated in EdgeNameParts) |
| GraphRep.EdgeNameParts | graph_rep.py:83-85 | the edge key is the parent, the two characters `->`, then the child, at the stated positions |
| GraphRep.EdgeNameCollision | graph_rep.py:84-85 | the pairs ("a->b", "c") and ("a", "b->c") differ but get the same key |
| GraphRep.EdgeNameInjective | graph_rep.py:84-85 | when neither parent name contains `->`, equal keys mean equal pairs |
| GraphRep.DirectedGraph.constructor | graph_rep.py:2-8 | a new graph has an empty adjacency map |
| GraphRep.DirectedGraph.AddNode | graph_rep.py:17-22 | an existing node leaves the map unchanged; a new node is added with no children |
| GraphRep.DirectedGraph.AddEdge | graph_rep.py:25-36 | requires parent != child (the self-loop assertion); missing endpoints are created; the child joins the parent's set; other nodes are unchanged; an existing edge changes nothing; the graph stays well formed |
| GraphRep.DirectedGraph.ListAllNodes | graph_rep.py:39-40 | the result holds exactly the nodes |
| GraphRep.DirectedGraph.ListLeafNodes | graph_rep.py:41-46 | a node is in the result iff it is a node with an empty child set |
| GraphRep.DirectedGraph.GetAdjTableAsDict | graph_rep.py:48-53 | the copy has all nodes, or all but the leaves when excluding; each kept entry equals the graph's |
| GraphRep.WeightedGraph.constructor | graph_rep.py:75-78 | all three maps start empty |
| GraphRep.WeightedGraph.ListAllNodes | graph_rep.py:39-40 | the inherited lister: the result holds exactly the nodes |
| GraphRep.WeightedGraph.AddNode | graph_rep.py:79-82 | adds the node when missing and always records the new weight; edge weights are unchanged |
| GraphRep.WeightedGraph.AddEdge | graph_rep.py:86-96 | requires distinct endpoints that both exist; a taken key changes nothing; otherwise the child is added and the weight stored under the key; the invariant is kept |
| GraphRep.WeightedGraph.GetCostNode | graph_rep.py:97-98 | a weight is found iff the node exists (`None` is the lookup error), and it is the stored one |
| GraphRep.WeightedGraph.GetCostEdge | graph_rep.py:100-101 | found iff the edge's key is stored, and then it is the weight stored under that key; every graph edge has one |
| GraphRep.CollidingEdges | graph_rep.py:86-96 | after adding ("a->b","c") and then ("a","b->c"), only the first edge and its weight are recorded |
| Forward.BestExists | algo_forward.py:58-68 | every non-empty open set has a node of least estimate |
| Forward.Pick | algo_forward.py:58-72 | the chosen node is an open node that no open node beats |
| Forward.Relax | algo_forward.py:100-126 | the expansion of one node as a value: the tree, cost and open-set entries already present are kept, and the iteration count is unchanged (the full effect is in RelaxFacts and RelaxAddOne) |
| Forward.RelaxFacts | algo_forward.py:100-126 | after expanding a node, its children are in the tree and no child costs more than the route through it; a reached node changes only on a strictly cheaper route, and then its parent, cost and open membership change together |
| Forward.RelaxNone | algo_forward.py:102 | relaxing no children changes nothing |
| Forward.RelaxAddOne | algo_forward.py:102-126 | relaxing one more child changes that child alone, and only when it improves |
| Forward.ImproveKeepsLinked | algo_forward.py:118-126 | with non-negative weights, re-parenting a node at strictly lower cost keeps every parent link sound |
| Forward.ImproveKeepsOk | algo_forward.py:102-126 | improving one child keeps the engine invariant |
| Forward.FrontierStep | algo_forward.py:96-126 | expanding a non-goal node keeps these facts: a reached goal is still open, and every closed node's children are reached |
| Forward.FrontierExhausted | algo_forward.py:134-136 | with an empty open set, no graph path from the start reaches the goal |
| Forward.Run | algo_forward.py:94-136 | the loop as a value, at most `fuel` iterations: the counter grows by at most `fuel`; a reached run has taken the goal out of the open set; a run with no solution has an empty open set |
| Forward.RunStep | algo_forward.py:94-136 | one iteration of a tie-free run extracts `Pick`'s node and stops or continues exactly as the loop does |
| Forward.UniqueStep | algo_forward.py:94-126 | when a unique best node is not the goal, the run continues from its expansion with one iteration less |
| Forward.UniqueGoal | algo_forward.py:94-98 | when the goal is the unique best node, the run stops there, reached |
| Forward.RunReached | algo_forward.py:96-98 | extracting the goal ends the run the loop is on |
| Forward.RunContinues | algo_forward.py:100-136 | after expanding a non-goal node, the run stops with no solution if nothing is open, and otherwise goes on from the new tree |
| Forward.ChainExtend | algo_forward.py:140-154 | stepping from the front of a partial backtracked path to its recorded parent gives a longer partial path, with a node not already on it |
| Forward.ChainComplete | algo_forward.py:140-155 | a partial path that has reached the start is a full tree path from start to goal |
| Forward.StopOf | algo_forward.py:134-155 | a found path corresponds to reaching the goal, and no path to an exhausted open set |
| Forward.Astar.constructor | algo_forward.py:34-49 | requires start and goal in the graph; the tree is {start: None}, g is {start: 0}, the open set is {start} and the counter is 0 |
| Forward.Astar.NodeIsVisited | algo_forward.py:51-52 | a node is visited exactly when the tree holds it |
| Forward.Astar.CalcTotalCostEst | algo_forward.py:54-56 | the estimate is the node's cost so far plus its heuristic weight |
| Forward.Astar.ExtractBestNodeFromBuffer | algo_forward.py:58-72 | the result is an open node of least estimate, and exactly that node leaves the open set |
| Forward.Astar.RelaxChild | algo_forward.py:103-126 | a new child, or one reached more cheaply, gets parent `current`, its new cost and a place in the buffer; otherwise nothing changes |
| Forward.Astar.RelaxNext | algo_forward.py:102-126 | one turn of the child loop: when the tree was `Relax` over the children done so far, it is `Relax` over them plus `c`, and the invariant is kept |
| Forward.Astar.ExpandNode | algo_forward.py:100-126 | the tree after the child loop is `Relax` of the tree before, in any child order |
| Forward.Astar.Backtrack | algo_forward.py:138-155 | the path is a tree path from start to goal; `flagged` is exactly the set of path nodes (goal excepted) whose heuristic exceeds the cost still to go |
| Forward.Astar.Step | algo_forward.py:95-126 | counts the iteration and extracts a best node; it then either leaves the goal extracted or expands the node as `Relax` does |
| Forward.Astar.Advance | algo_forward.py:94-136 | one iteration: the goal is reached, or the search proves no path exists, or it goes on; on a tie-free run each case matches the run |
| Forward.Astar.Iterate | algo_forward.py:94-155 | one iteration, and when it stops the search, the backtracked path with the goal's cost, or `NoPath` |
| Forward.Astar.Solve | algo_forward.py:74-155 | a found path is a tree path whose cost is g(goal), with flagged nodes as in Backtrack; `NoPath` means the goal cannot be reached; a tie-free run's outcome and final state are `TieFreeRun`'s |
| Traversal.Unvisited | algo_traversal.py:36-41 | a node is in the set iff its state is 0 |
| Traversal.Iteration | algo_traversal.py:59-74 | one loop iteration as a value: it counts once and leaves the popped node visited (the rest is in IterationOk, IterationVisits and IterationForward) |
| Traversal.InitOk | algo_traversal.py:19-34 | the freshly constructed state satisfies the engine invariant, with start at depth 0 |
| Traversal.BufferStep | algo_traversal.py:59-74 | after an iteration the buffer holds exactly the open nodes, each once, and start is no longer unopened |
| Traversal.DiscoveredStep | algo_traversal.py:63-74 | an iteration discovers exactly the children it opens |
| Traversal.ParentStep | algo_traversal.py:70-74 | unopened nodes keep no parent; start never gets one; the counter equals the number of visited nodes |
| Traversal.BaseStep | algo_traversal.py:59-74 | an iteration keeps the shared invariant, with the depth map extended one level below the popped node |
| Traversal.BfsStep | algo_traversal.py:43-74 | breadth-first: depths along the buffer stay sorted within one level, and no path reaches a discovered node in fewer edges than its depth |
| Traversal.IterationOk | algo_traversal.py:55-74 | one iteration keeps the full invariant, for both strategies |
| Traversal.IterationShrinks | algo_traversal.py:55-74 | each iteration shrinks the unopened set, or leaves it and shortens the buffer, so the loop terminates |
| Traversal.IterationForward | algo_traversal.py:70-73 | states only go up, and a parent once set never changes |
| Traversal.IterationVisits | algo_traversal.py:73 | after an iteration a node is visited iff it was visited before or is the popped node |
| Traversal.IterBound | algo_traversal.py:74 | the counter never exceeds the number of nodes |
| Traversal.Exhausted | algo_traversal.py:56-57 | with an empty buffer, every node reachable from start has been visited |
| Traversal.BfsShortest | algo_traversal.py:43-49 | breadth-first: every path from start to a discovered node has at least depth + 1 nodes |
| Traversal.Search.constructor | algo_traversal.py:19-34 | requires start and goal in the graph; copies the adjacency with leaves kept; all nodes unopened and parentless; the buffer is [start]; the counter is 0; the invariant holds |
| Traversal.Search.FromWeighted | algo_traversal.py:19-34 | the same start-up over a weighted graph (the traversal accepts any directed graph, algo_traversal.py:20): the adjacency is copied, and the initial state and invariant are as for the plain graph |
| Traversal.Search.GetUnvisitedNodeSet | algo_traversal.py:36-41 | the result is exactly the set of nodes in state 0 |
| Traversal.Search.AddNodesToBuffer | algo_traversal.py:43-49 | pushes each node of the set once, on the left end (BFS) or, as at algo_traversal.py:85-92, on the right end (DFS) |
| Traversal.Search.MarkOpened | algo_traversal.py:70-72 | the nodes of the set become open with parent `current`; nothing else changes |
| Traversal.Search.Step | algo_traversal.py:59-74 | pops the right end, pushes its unopened children, marks them open under it and itself visited: exactly `Iteration` |
| Traversal.Search.Advance | algo_traversal.py:55-74 | one iteration keeps the invariant, extends the depth map, counts once, and decreases the termination measure |
| Traversal.Search.Backtrack | algo_traversal.py:77-82 | the path has the goal's depth + 1 nodes, runs from start to goal, is a graph path and repeats no node; when start == goal it is [start] |
| Traversal.Search.Traverse | algo_traversal.py:51-74 | loops until the goal is popped, leaving it visited, or the buffer is empty; and the counter never exceeds the node count; for BFS, every path to the goal has at least depth(goal) + 1 nodes; when the loop ends without the goal, the buffer is empty and, if the goal was not visited before the call, unreachable |
| Traversal.Search.Solve | algo_traversal.py:51-82 | a result comes only after the goal was popped and marked visited, and is a duplicate-free graph path from start to goal, shortest for BFS; `None` means the buffer ran dry, and, when the goal was not visited before the call, that the goal is unreachable; on a fresh engine start == goal gives [start] after one iteration; the counter never exceeds the node count |
| Fixtures.LongwayGraphOk | graph_examples.py:131-147 | the long-way-round graph satisfies the weighted-graph invariant |
| Fixtures.LongwayStep4 | graph_examples.py:115-117 | in iteration 4, expanding D re-parents E from Start to D at cost 86 and keeps Goal at 100 |
| Fixtures.LongwayRun | algo_forward.py:165-166 | with budget 6 or more, the run from Start is tie-free and reaches the goal in iteration 6 in the tree `LongEnd` |
| Fixtures.LongwayPath | graph_examples.py:149-154 | the only tree path in the final tree is Start, C, D, E, Goal |
| Fixtures.LongwayAnswer | graph_examples.py:149-154 | any tie-free search on this graph stops with the goal reached, after 6 iterations, at cost 96, along Start, C, D, E, Goal, with E re-parented to D |
| Fixtures.GermanGraphOk | graph_examples.py:75-96 | the German network satisfies the weighted-graph invariant |
| Fixtures.GermanStep4 | graph_examples.py:93-96 | in iteration 4, expanding Frankfurt re-parents WB from LH to Frankfurt at cost 289 |
| Fixtures.GermanRun | algo_forward.py:162-163 | with budget 6 or more, the run from SB is tie-free and extracts WB in iteration 6 |
| Fixtures.GermanPath | graph_examples.py:99-104 | the only tree path in the final tree is SB, KL, Frankfurt, WB |
| Fixtures.GermanAnswer | graph_examples.py:99-104 | any tie-free search on this network stops at WB after 6 iterations, at cost 289, along SB, KL, Frankfurt, WB |

## Left out

- Graph names, `__str__`, `print_adj_table`, `viz` and the informational `print` calls are left out because they are output only. `validate_heuristics`'s printed warning becomes the `flagged` set returned by `Astar.Backtrack` and `Astar.Solve`.
- The demo `test_directed_graph`, the `__main__` blocks and the `graph_algo_verifier` class in graph_examples.py are left out as code. Only the fixture data of its two example classes is used, as constants in `Fixtures`.
- `isinstance` assertions are left out because Dafny's types enforce them. The numeric-weight assertions are covered because weights are `real`.
- The other assertions (start and goal present, no self-loop, weighted-edge endpoints present, and `calc_total_cost_est`'s check that the node is visited) become `requires` clauses.
- Floating point becomes exact `real` arithmetic. The fixture values are exact either way.
- Set iteration order is left out because the source leaves it to the runtime. Loops over sets pick any element.
- Forward.Pick: when several open nodes share the least estimate, the model picks an arbitrary fixed one; the source takes the first in its list order. So `Astar.Solve` ties its result to `TieFreeRun` only when no such tie occurs, as in both fixtures.
- Forward.Astar.Solve: takes the iteration bound `fuel` as its first parameter, ahead of `validateHeuristics` (default `true`, as in the source), and may return `FuelExhausted`; the bound and that outcome are not in the source. With non-negative edge weights the source's `while True` loop terminates because the tree's costs settle. With a negative cycle reachable from the start it may never end, since the nodes on the cycle keep improving each other and re-entering the buffer. Neither argument is modelled.
- Forward.Astar.Solve: requires non-negative edge weights, which the source does not check. With a negative cycle the source's parent links can form a cycle, and backtracking would not terminate.
- Forward.Astar.Solve: does not prove that the path is cheapest when the heuristic is admissible. It proves that the path is a sound tree path with cost g(goal), and the two fixtures' answers.
- The source's `extract_best_node_from_buffer` indexes the first list element; on an empty buffer that raises an error, which `requires buffer != {}` excludes. The engine's own loop never reaches that case.
- Forward.Astar.Backtrack: puts each parent in front of the path, where the source appends and then reverses. The resulting sequence is the same.
- Traversal.Search.AddNodesToBuffer: the order in which a set's nodes enter the buffer is an arbitrary enumeration (`batch`), as in the source, rather than one particular order.
- Traversal.Search.Solve: the "goal unreachable" conclusion of an empty result is stated for an engine whose goal was not already visited (`old(Searching())`). A fresh engine always satisfies this. A second `solve` on a finished engine is modelled but not characterised further.
- Traversal.Search.Valid: the engine invariant carries a ghost map of node depths, passed by the caller, which the source does not have. It is needed to state the breadth-first shortest-path property.
- The A* engine's `graph` is a shared reference, as in the source (`graph` is an alias). The traversal engine's adjacency is a copy of the dict with its inner sets shared. The model does not follow later mutation of the graph during a search; like the source's design, it assumes the graph is built before the search.
