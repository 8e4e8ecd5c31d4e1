/**
  Uninformed traversal: breadth-first and depth-first search over a directed
  graph. Every node carries a state (0 unopened, 1 open, 2 visited) and a
  parent; a double-ended buffer holds the open nodes. Each iteration pops the
  right end, pushes the node's still-unopened children (on the left for
  breadth-first, on the right for depth-first), marks them open with the popped
  node as parent and marks the popped node visited. The loop stops after
  expanding the goal, or when the buffer is empty; a found path is read back
  along the parents.
 */
module Traversal {
  import opened Wrappers
  import opened GraphRep

  /** The node states. */
  const Unopened: nat := 0
  const Opened: nat := 1
  const Visited: nat := 2

  /** The engine's state as a value: node states, parents, buffer (right end popped first), iteration count. */
  datatype Trav = Trav(state: map<string, nat>, parent: map<string, Option<string>>, buffer: seq<string>, iter: nat)

  /** The nodes in state 0. */
  function Unvisited(state: map<string, nat>): (out: set<string>)
    ensures forall n :: n in out <==> n in state && state[n] == Unopened
  {
    set n | n in state && state[n] == Unopened
  }

  /** The nodes in state 2. */
  ghost function Expanded(state: map<string, nat>): set<string>
  {
    set n | n in state && state[n] == Visited
  }

  /** The nodes the search has seen: every node out of state 0, and the start node. */
  ghost function Discovered(t: Trav, start: string): set<string>
  {
    set n | n in t.state && (t.state[n] != Unopened || n == start)
  }

  predicate Distinct(s: seq<string>)
  {
    forall i, j :: 0 <= i < j < |s| ==> s[i] != s[j]
  }

  /** `batch` lists the elements of `s`, each once, in some order. */
  ghost predicate Enumerates(batch: seq<string>, s: set<string>)
  {
    Distinct(batch) && forall x :: x in batch <==> x in s
  }

  /** The state right after construction: every node unopened and parentless, the buffer holding `start`. */
  function InitTrav(nodes: set<string>, start: string): Trav
  {
    Trav(map n | n in nodes :: Unopened, map n | n in nodes :: None, [start], 0)
  }

  /** The children of `cur` that are still unopened. */
  function NewNodes(adj: map<string, set<string>>, t: Trav, cur: string): set<string>
    requires cur in adj
  {
    adj[cur] * Unvisited(t.state)
  }

  /** The buffer without its right end. */
  function Pop(t: Trav): Trav
    requires |t.buffer| > 0
  {
    t.(buffer := t.buffer[..|t.buffer| - 1])
  }

  /** `batch` pushed on the right end (depth-first) or on the left end (breadth-first). */
  function Pushed(t: Trav, batch: seq<string>, lifo: bool): Trav
  {
    t.(buffer := if lifo then t.buffer + batch else batch + t.buffer)
  }

  /** The nodes of `toAdd` marked open with parent `cur`. */
  function Marked(t: Trav, toAdd: set<string>, cur: string): Trav
  {
    t.(state := map n | n in t.state :: if n in toAdd then Opened else t.state[n],
       parent := map n | n in t.parent :: if n in toAdd then Some(cur) else t.parent[n])
  }

  /** `cur` marked visited, and the iteration counted. */
  function Finished(t: Trav, cur: string): Trav
  {
    t.(state := t.state[cur := Visited], iter := t.iter + 1)
  }

  /**
    One iteration: pop the right end `cur`, push its unopened children in the
    order `batch`, mark them open under `cur`, mark `cur` visited.
   */
  function Iteration(adj: map<string, set<string>>, t: Trav, batch: seq<string>, lifo: bool): (r: Trav)
    requires |t.buffer| > 0 && t.buffer[|t.buffer| - 1] in adj
    ensures var cur := t.buffer[|t.buffer| - 1];
            r.iter == t.iter + 1 && cur in r.state && r.state[cur] == Visited
  {
    var cur := t.buffer[|t.buffer| - 1];
    Finished(Marked(Pushed(Pop(t), batch, lifo), NewNodes(adj, t, cur), cur), cur)
  }

  /** The depth map after `cur` adds `toAdd` one level below itself. */
  ghost function NextDepth(depth: map<string, nat>, cur: string, toAdd: set<string>): map<string, nat>
    requires cur in depth
  {
    map n | n in depth.Keys + toAdd :: if n in toAdd then depth[cur] + 1 else depth[n]
  }

  /** Node `n` hangs one level below its parent, which has `n` as a child. */
  ghost predicate TreeLink(adj: map<string, set<string>>, t: Trav, depth: map<string, nat>, n: string)
  {
    && n in t.parent && t.parent[n].Some?
    && var p := t.parent[n].value;
    && p in depth && p in adj && n in adj[p] && n in depth && depth[n] == depth[p] + 1
  }

  /**
    The breadth-first invariant: the buffer holds nodes of known depth, depths do not decrease towards the right end
    and span at most one level, and no path from `start` reaches a discovered
    node in fewer edges than its depth.
   */
  ghost predicate BfsOk(adj: map<string, set<string>>, start: string, t: Trav, depth: map<string, nat>)
  {
    && (forall i :: 0 <= i < |t.buffer| ==> t.buffer[i] in depth)
    && (forall i, j {:trigger depth[t.buffer[i]], depth[t.buffer[j]]} :: 0 <= i < j < |t.buffer| ==> depth[t.buffer[i]] >= depth[t.buffer[j]])
    && (|t.buffer| > 0 ==> depth[t.buffer[0]] <= depth[t.buffer[|t.buffer| - 1]] + 1)
    && (forall q :: IsPath(adj, q) && q[0] == start && q[|q| - 1] in depth ==> |q| - 1 >= depth[q[|q| - 1]])
  }

  /** The maps cover exactly the nodes, with states 0 to 2. */
  ghost predicate ShapeOk(adj: map<string, set<string>>, t: Trav)
  {
    && t.state.Keys == adj.Keys && t.parent.Keys == adj.Keys
    && (forall n :: n in t.state ==> t.state[n] <= Visited)
  }

  /**
    The buffer holds, once each, the open nodes and the start node while it is
    unopened, which is only before the first iteration; start never has a
    parent and is never open.
   */
  ghost predicate BufferOk(adj: map<string, set<string>>, start: string, t: Trav)
    requires ShapeOk(adj, t)
  {
    && start in adj
    && Distinct(t.buffer)
    && (forall i :: 0 <= i < |t.buffer| ==> t.buffer[i] in adj)
    && (forall n :: n in adj ==> (n in t.buffer <==> t.state[n] == Opened || (n == start && t.state[n] == Unopened)))
    && t.parent[start] == None && t.state[start] != Opened
    && (t.state[start] == Unopened ==> t.buffer == [start] && t.iter == 0)
  }

  /** Unopened nodes other than start have no parent. */
  ghost predicate OrphansOk(adj: map<string, set<string>>, start: string, t: Trav)
    requires ShapeOk(adj, t)
  {
    forall n :: n in adj && n != start && t.state[n] == Unopened ==> t.parent[n] == None
  }

  /**
    `depth` covers the discovered nodes, start at depth 0 and every other one
    one level below its parent; a visited node's children are all discovered.
   */
  ghost predicate DepthOk(adj: map<string, set<string>>, start: string, t: Trav, depth: map<string, nat>)
    requires ShapeOk(adj, t)
  {
    && depth.Keys == Discovered(t, start) && start in depth && depth[start] == 0
    && (forall n {:trigger TreeLink(adj, t, depth, n)} :: n in depth && n != start ==> TreeLink(adj, t, depth, n))
    && (forall n :: n in t.state && t.state[n] == Visited ==> adj[n] <= depth.Keys)
  }

  /**
    The engine invariant shared by both strategies: a well-formed graph, `ShapeOk`, `BufferOk`,
    `OrphansOk`, `DepthOk`, and the iteration count is the number of visited
    nodes.
   */
  ghost predicate BaseOk(adj: map<string, set<string>>, start: string, t: Trav, depth: map<string, nat>)
  {
    && WellFormed(adj) && ShapeOk(adj, t) && BufferOk(adj, start, t) && OrphansOk(adj, start, t) && DepthOk(adj, start, t, depth)
    && t.iter == |Expanded(t.state)|
  }

  /** The engine invariant: `BaseOk`, and `BfsOk` for breadth-first search. */
  ghost predicate TravOk(adj: map<string, set<string>>, start: string, lifo: bool, t: Trav, depth: map<string, nat>)
  {
    && BaseOk(adj, start, t, depth)
    && (!lifo ==> BfsOk(adj, start, t, depth))
  }

  /** Joining two duplicate-free sequences with no common element gives a duplicate-free sequence. */
  lemma DistinctConcat(a: seq<string>, b: seq<string>)
    requires Distinct(a) && Distinct(b)
    requires forall x :: x in a ==> x !in b
    ensures Distinct(a + b)
  {
    forall i, j | 0 <= i < j < |a + b|
      ensures (a + b)[i] != (a + b)[j]
    {
      if j >= |a| && i < |a| {
        assert (a + b)[i] in a && (a + b)[j] in b;
      }
    }
  }

  /** Dropping the right end of a duplicate-free sequence leaves the other elements, still duplicate-free. */
  lemma PopFacts(b: seq<string>)
    requires |b| > 0 && Distinct(b)
    ensures Distinct(b[..|b| - 1])
    ensures forall x :: x in b[..|b| - 1] <==> x in b && x != b[|b| - 1]
  {
    assert b == b[..|b| - 1] + [b[|b| - 1]];
  }

  /** An enumeration of a set is as long as the set is large. */
  lemma {:induction false} EnumerationLength(batch: seq<string>, s: set<string>)
    requires Enumerates(batch, s)
    ensures |batch| == |s|
    decreases |batch|
  {
    if |batch| > 0 {
      var x := batch[|batch| - 1];
      PopFacts(batch);
      EnumerationLength(batch[..|batch| - 1], s - {x});
    } else {
      assert s == {};
    }
  }

  /**
    The popped node `cur` is a discovered node, with children in the graph, that is not yet visited, and its
    unopened children `toAdd` are neither `cur` itself nor the start node nor
    any discovered node.
   */
  ghost predicate PoppedOk(adj: map<string, set<string>>, start: string, t: Trav, depth: map<string, nat>,
                           cur: string, toAdd: set<string>)
    requires t.state.Keys == adj.Keys
  {
    && cur in adj && adj[cur] <= adj.Keys && cur in depth && t.state[cur] != Visited && cur !in toAdd
    && (forall n :: n in toAdd ==> n in adj && n != start && t.state[n] == Unopened && n !in depth)
  }

  /**
    One iteration node by node: `cur` becomes visited, the nodes of `toAdd`
    become open under `cur`, everything else keeps its state and parent, and
    the buffer loses its right end and gains `batch`.
   */
  ghost predicate UpdatedOk(adj: map<string, set<string>>, lifo: bool, t: Trav, batch: seq<string>,
                            cur: string, toAdd: set<string>, t1: Trav)
    requires |t.buffer| > 0 && t.state.Keys == adj.Keys && t.parent.Keys == adj.Keys
  {
    && t1.state.Keys == adj.Keys && t1.parent.Keys == adj.Keys && t1.iter == t.iter + 1
    && (forall n :: n in adj ==> t1.state[n] == (if n == cur then Visited else if n in toAdd then Opened else t.state[n]))
    && (forall n :: n in adj ==> t1.parent[n] == (if n in toAdd then Some(cur) else t.parent[n]))
    && t1.buffer == if lifo then t.buffer[..|t.buffer| - 1] + batch else batch + t.buffer[..|t.buffer| - 1]
  }

  /** Everything the step lemmas need to know about one iteration. */
  ghost predicate StepFacts(adj: map<string, set<string>>, start: string, lifo: bool, t: Trav, depth: map<string, nat>,
                            batch: seq<string>, cur: string, toAdd: set<string>, t1: Trav)
    requires |t.buffer| > 0 && t.state.Keys == adj.Keys && t.parent.Keys == adj.Keys
  {
    PoppedOk(adj, start, t, depth, cur, toAdd) && UpdatedOk(adj, lifo, t, batch, cur, toAdd, t1)
  }

  /** The node popped from the buffer satisfies `PoppedOk`. */
  lemma PoppedFacts(adj: map<string, set<string>>, start: string, t: Trav, depth: map<string, nat>,
                    cur: string, toAdd: set<string>)
    requires WellFormed(adj) && ShapeOk(adj, t) && BufferOk(adj, start, t) && DepthOk(adj, start, t, depth) && |t.buffer| > 0
    requires cur == t.buffer[|t.buffer| - 1] && toAdd == NewNodes(adj, t, cur)
    ensures PoppedOk(adj, start, t, depth, cur, toAdd)
  {
    assert cur in t.buffer;
    if t.state[start] == Unopened {
      assert cur == start;
    }
    assert t.state[cur] == Opened || cur == start;
    assert cur in Discovered(t, start);
    forall n | n in toAdd
      ensures n !in depth
    {
      assert n !in Discovered(t, start);
    }
  }

  /** `Iteration` satisfies `UpdatedOk`. */
  lemma UpdatedFacts(adj: map<string, set<string>>, lifo: bool, t: Trav, batch: seq<string>,
                     cur: string, toAdd: set<string>, t1: Trav)
    requires |t.buffer| > 0 && t.state.Keys == adj.Keys && t.parent.Keys == adj.Keys
    requires cur == t.buffer[|t.buffer| - 1] && cur in adj && toAdd == NewNodes(adj, t, cur)
    requires t1 == Iteration(adj, t, batch, lifo)
    ensures UpdatedOk(adj, lifo, t, batch, cur, toAdd, t1)
  {
  }

  /** What one iteration does, as `StepFacts` states it. */
  lemma IterationFacts(adj: map<string, set<string>>, start: string, lifo: bool, t: Trav, depth: map<string, nat>,
                       batch: seq<string>, cur: string, toAdd: set<string>, t1: Trav)
    requires WellFormed(adj) && ShapeOk(adj, t) && BufferOk(adj, start, t) && DepthOk(adj, start, t, depth) && |t.buffer| > 0
    requires cur == t.buffer[|t.buffer| - 1] && toAdd == NewNodes(adj, t, cur)
    requires t1 == Iteration(adj, t, batch, lifo)
    ensures StepFacts(adj, start, lifo, t, depth, batch, cur, toAdd, t1)
  {
    PoppedFacts(adj, start, t, depth, cur, toAdd);
    UpdatedFacts(adj, lifo, t, batch, cur, toAdd, t1);
  }

  /** After one iteration the buffer again holds exactly the open nodes, once each, and the start node is no longer unopened. */
  lemma BufferStep(adj: map<string, set<string>>, start: string, lifo: bool, t: Trav, depth: map<string, nat>,
                   batch: seq<string>, cur: string, toAdd: set<string>, t1: Trav)
    requires ShapeOk(adj, t) && BufferOk(adj, start, t) && |t.buffer| > 0
    requires cur == t.buffer[|t.buffer| - 1] && toAdd == NewNodes(adj, t, cur)
    requires Enumerates(batch, toAdd) && StepFacts(adj, start, lifo, t, depth, batch, cur, toAdd, t1)
    ensures Distinct(t1.buffer)
    ensures forall i :: 0 <= i < |t1.buffer| ==> t1.buffer[i] in adj
    ensures forall n :: n in adj ==> (n in t1.buffer <==> t1.state[n] == Opened)
    ensures t1.state[start] != Unopened
  {
    var rest := t.buffer[..|t.buffer| - 1];
    PopFacts(t.buffer);
    assert forall x :: x in rest ==> x !in batch;
    forall i | 0 <= i < |t1.buffer|
      ensures t1.buffer[i] in adj
    {
      assert t1.buffer[i] in t1.buffer;
    }
    if lifo {
      DistinctConcat(rest, batch);
    } else {
      DistinctConcat(batch, rest);
    }
    if t.state[start] == Unopened {
      assert cur == start;
    }
    forall n | n in adj
      ensures n in t1.buffer <==> t1.state[n] == Opened
    {
      assert n in t1.buffer <==> n in rest || n in toAdd;
    }
  }

  /** One iteration discovers exactly the children it opens. */
  lemma DiscoveredStep(adj: map<string, set<string>>, start: string, t: Trav, t1: Trav, cur: string, toAdd: set<string>)
    requires t.state.Keys == adj.Keys && t1.state.Keys == adj.Keys && toAdd <= adj.Keys
    requires cur in Discovered(t, start)
    requires forall n :: n in adj ==> t1.state[n] == (if n == cur then Visited else if n in toAdd then Opened else t.state[n])
    ensures Discovered(t1, start) == Discovered(t, start) + toAdd
  {
    forall n | n in Discovered(t1, start)
      ensures n in Discovered(t, start) + toAdd
    {
      if n != cur && n !in toAdd {
        assert n in Discovered(t, start);
      }
    }
  }

  /**
    After one iteration the depth map, extended by one level below `cur`, again
    covers exactly the discovered nodes, each hanging below its parent.
   */
  lemma TreeStep(adj: map<string, set<string>>, start: string, lifo: bool, t: Trav, depth: map<string, nat>,
                 batch: seq<string>, cur: string, toAdd: set<string>, t1: Trav, d1: map<string, nat>)
    requires ShapeOk(adj, t) && DepthOk(adj, start, t, depth) && |t.buffer| > 0
    requires StepFacts(adj, start, lifo, t, depth, batch, cur, toAdd, t1) && toAdd == NewNodes(adj, t, cur)
    requires d1 == NextDepth(depth, cur, toAdd)
    ensures d1.Keys == Discovered(t1, start) && start in d1 && d1[start] == 0
    ensures forall n {:trigger TreeLink(adj, t1, d1, n)} :: n in d1 && n != start ==> TreeLink(adj, t1, d1, n)
  {
    assert cur in Discovered(t, start);
    DiscoveredStep(adj, start, t, t1, cur, toAdd);
    forall n | n in d1 && n != start
      ensures TreeLink(adj, t1, d1, n)
    {
      if n !in toAdd {
        assert TreeLink(adj, t, depth, n);
      }
    }
  }

  /** After one iteration the children of every visited node are discovered. */
  lemma VisitedStep(adj: map<string, set<string>>, start: string, lifo: bool, t: Trav, depth: map<string, nat>,
                    batch: seq<string>, cur: string, toAdd: set<string>, t1: Trav, d1: map<string, nat>)
    requires ShapeOk(adj, t) && DepthOk(adj, start, t, depth) && |t.buffer| > 0
    requires StepFacts(adj, start, lifo, t, depth, batch, cur, toAdd, t1) && toAdd == NewNodes(adj, t, cur)
    requires d1 == NextDepth(depth, cur, toAdd)
    ensures forall n :: n in t1.state && t1.state[n] == Visited ==> adj[n] <= d1.Keys
  {
    forall n | n in t1.state && t1.state[n] == Visited
      ensures adj[n] <= d1.Keys
    {
      if n == cur {
        forall c | c in adj[cur]
          ensures c in d1
        {
          if t.state[c] != Unopened {
            assert c in Discovered(t, start);
          }
        }
      }
    }
  }

  /** After one iteration the unopened nodes other than start still have no parent, and start's parent stays empty. */
  lemma ParentStep(adj: map<string, set<string>>, start: string, lifo: bool, t: Trav, depth: map<string, nat>,
                   batch: seq<string>, cur: string, toAdd: set<string>, t1: Trav)
    requires ShapeOk(adj, t) && BufferOk(adj, start, t) && OrphansOk(adj, start, t) && t.iter == |Expanded(t.state)| && |t.buffer| > 0
    requires cur == t.buffer[|t.buffer| - 1] && toAdd == NewNodes(adj, t, cur)
    requires StepFacts(adj, start, lifo, t, depth, batch, cur, toAdd, t1)
    ensures t1.state.Keys == adj.Keys && t1.parent.Keys == adj.Keys
    ensures forall n :: n in t1.state ==> t1.state[n] <= Visited
    ensures t1.parent[start] == None && t1.state[start] != Opened
    ensures forall n :: n in adj && n != start && t1.state[n] == Unopened ==> t1.parent[n] == None
    ensures t1.iter == |Expanded(t1.state)|
  {
    assert Expanded(t1.state) == Expanded(t.state) + {cur};
  }

  /** One iteration preserves the shared engine invariant, with the depth map extended one level below the popped node. */
  lemma BaseStep(adj: map<string, set<string>>, start: string, lifo: bool, t: Trav, depth: map<string, nat>, batch: seq<string>)
    requires BaseOk(adj, start, t, depth) && |t.buffer| > 0
    requires Enumerates(batch, NewNodes(adj, t, t.buffer[|t.buffer| - 1]))
    ensures var cur := t.buffer[|t.buffer| - 1];
            && cur in depth
            && BaseOk(adj, start, Iteration(adj, t, batch, lifo), NextDepth(depth, cur, NewNodes(adj, t, cur)))
  {
    var cur := t.buffer[|t.buffer| - 1];
    var toAdd := NewNodes(adj, t, cur);
    var t1 := Iteration(adj, t, batch, lifo);
    IterationFacts(adj, start, lifo, t, depth, batch, cur, toAdd, t1);
    var d1 := NextDepth(depth, cur, toAdd);
    BufferStep(adj, start, lifo, t, depth, batch, cur, toAdd, t1);
    TreeStep(adj, start, lifo, t, depth, batch, cur, toAdd, t1, d1);
    VisitedStep(adj, start, lifo, t, depth, batch, cur, toAdd, t1, d1);
    ParentStep(adj, start, lifo, t, depth, batch, cur, toAdd, t1);
  }

  /** The prefix of a path that drops its last node is a path. */
  lemma PathPrefix(adj: map<string, set<string>>, q: seq<string>)
    requires IsPath(adj, q) && |q| >= 2
    ensures IsPath(adj, q[..|q| - 1])
  {
    assert q[|q| - 2] in adj;
  }

  /**
    Breadth-first: a path from start to a node not yet discovered has more
    edges than the depth of the node about to be popped.
   */
  lemma {:induction false} UndiscoveredFar(adj: map<string, set<string>>, start: string, t: Trav, depth: map<string, nat>, q: seq<string>)
    requires ShapeOk(adj, t) && BufferOk(adj, start, t) && DepthOk(adj, start, t, depth) && BfsOk(adj, start, t, depth)
    requires |t.buffer| > 0
    requires IsPath(adj, q) && q[0] == start && q[|q| - 1] !in depth
    ensures |q| - 1 >= depth[t.buffer[|t.buffer| - 1]] + 1
    decreases |q|
  {
    var k := |q| - 1;
    assert k >= 1;
    var y := q[k - 1];
    var front := q[..k];
    PathPrefix(adj, q);
    assert front[|front| - 1] == y && front[0] == start;
    if y in depth {
      assert q[k] in adj[y];
      assert t.state[y] != Visited;
      assert y in Discovered(t, start);
      assert y in t.buffer;
      var i :| 0 <= i < |t.buffer| && t.buffer[i] == y;
      assert depth[y] >= depth[t.buffer[|t.buffer| - 1]];
      assert |front| - 1 >= depth[y];
    } else {
      UndiscoveredFar(adj, start, t, depth, front);
    }
  }

  /**
    Nodes one level below `level` put in front of nodes at `level` or one
    below, in non-increasing order, keep the order non-increasing.
   */
  lemma OrderedConcat(d: map<string, nat>, front: seq<string>, back: seq<string>, level: nat)
    requires forall i :: 0 <= i < |front| ==> front[i] in d && d[front[i]] == level + 1
    requires forall i :: 0 <= i < |back| ==> back[i] in d && level <= d[back[i]] <= level + 1
    requires forall i, j :: 0 <= i < j < |back| ==> d[back[i]] >= d[back[j]]
    ensures forall i :: 0 <= i < |front + back| ==> (front + back)[i] in d
    ensures forall i, j :: 0 <= i < j < |front + back| ==> d[(front + back)[i]] >= d[(front + back)[j]]
  {
    var s := front + back;
    forall i | 0 <= i < |s|
      ensures s[i] in d && level <= d[s[i]] <= level + 1
    {
      if i >= |front| {
        assert s[i] == back[i - |front|];
      }
    }
    forall i, j | 0 <= i < j < |s|
      ensures d[s[i]] >= d[s[j]]
    {
      if i >= |front| {
        assert s[i] == back[i - |front|] && s[j] == back[j - |front|];
      }
    }
  }

  /**
    Breadth-first: after one iteration the buffer's depths still do not
    decrease towards the right end and still span at most one level, the new
    children, one level below the popped node, sitting on the left.
   */
  lemma BfsOrderStep(adj: map<string, set<string>>, start: string, t: Trav, depth: map<string, nat>,
                     batch: seq<string>, cur: string, toAdd: set<string>, t1: Trav, d1: map<string, nat>)
    requires ShapeOk(adj, t) && BfsOk(adj, start, t, depth) && |t.buffer| > 0 && cur == t.buffer[|t.buffer| - 1]
    requires StepFacts(adj, start, false, t, depth, batch, cur, toAdd, t1) && Enumerates(batch, toAdd)
    requires d1 == NextDepth(depth, cur, toAdd)
    ensures forall i :: 0 <= i < |t1.buffer| ==> t1.buffer[i] in d1
    ensures forall i, j :: 0 <= i < j < |t1.buffer| ==> d1[t1.buffer[i]] >= d1[t1.buffer[j]]
    ensures |t1.buffer| > 0 ==> d1[t1.buffer[0]] <= d1[t1.buffer[|t1.buffer| - 1]] + 1
  {
    var b := t.buffer;
    var k := |b| - 1;
    var level := depth[cur];
    var rest := b[..k];
    assert t1.buffer == batch + rest;
    forall i | 0 <= i < |batch|
      ensures batch[i] in d1 && d1[batch[i]] == level + 1
    {
      assert batch[i] in toAdd;
    }
    forall i | 0 <= i < k
      ensures rest[i] in d1 && d1[rest[i]] == depth[b[i]] && level <= depth[b[i]] <= level + 1
    {
      assert rest[i] == b[i] && b[i] in depth && b[i] !in toAdd;
      assert depth[b[0]] >= depth[b[i]];
    }
    forall i, j | 0 <= i < j < |rest|
      ensures d1[rest[i]] >= d1[rest[j]]
    {
      assert depth[b[i]] >= depth[b[j]];
    }
    OrderedConcat(d1, batch, rest, level);
    if |t1.buffer| > 0 {
      var last := |t1.buffer| - 1;
      if k > 0 {
        assert t1.buffer[last] == rest[k - 1];
      }
      if |batch| == 0 {
        assert t1.buffer[0] == rest[0];
      }
    }
  }

  /**
    Breadth-first: after one iteration still no path from start reaches a
    discovered node in fewer edges than its depth; for the newly opened
    children this is `UndiscoveredFar`.
   */
  lemma BfsPathStep(adj: map<string, set<string>>, start: string, t: Trav, depth: map<string, nat>,
                    batch: seq<string>, cur: string, toAdd: set<string>, t1: Trav, d1: map<string, nat>)
    requires ShapeOk(adj, t) && BufferOk(adj, start, t) && DepthOk(adj, start, t, depth) && BfsOk(adj, start, t, depth)
    requires |t.buffer| > 0 && cur == t.buffer[|t.buffer| - 1]
    requires StepFacts(adj, start, false, t, depth, batch, cur, toAdd, t1)
    requires d1 == NextDepth(depth, cur, toAdd)
    ensures forall q :: IsPath(adj, q) && q[0] == start && q[|q| - 1] in d1 ==> |q| - 1 >= d1[q[|q| - 1]]
  {
    forall q | IsPath(adj, q) && q[0] == start && q[|q| - 1] in d1
      ensures |q| - 1 >= d1[q[|q| - 1]]
    {
      if q[|q| - 1] in toAdd {
        UndiscoveredFar(adj, start, t, depth, q);
      }
    }
  }

  /** Breadth-first: one iteration preserves `BfsOk`. */
  lemma BfsStep(adj: map<string, set<string>>, start: string, t: Trav, depth: map<string, nat>, batch: seq<string>)
    requires WellFormed(adj) && ShapeOk(adj, t) && BufferOk(adj, start, t) && DepthOk(adj, start, t, depth)
    requires BfsOk(adj, start, t, depth) && |t.buffer| > 0
    requires Enumerates(batch, NewNodes(adj, t, t.buffer[|t.buffer| - 1]))
    ensures var cur := t.buffer[|t.buffer| - 1];
            && cur in depth
            && BfsOk(adj, start, Iteration(adj, t, batch, false), NextDepth(depth, cur, NewNodes(adj, t, cur)))
  {
    var cur := t.buffer[|t.buffer| - 1];
    var toAdd := NewNodes(adj, t, cur);
    var t1 := Iteration(adj, t, batch, false);
    IterationFacts(adj, start, false, t, depth, batch, cur, toAdd, t1);
    var d1 := NextDepth(depth, cur, toAdd);
    BfsOrderStep(adj, start, t, depth, batch, cur, toAdd, t1, d1);
    BfsPathStep(adj, start, t, depth, batch, cur, toAdd, t1, d1);
  }

  /** The node about to be popped is a node of the graph with a depth. */
  lemma PoppedDiscovered(adj: map<string, set<string>>, start: string, lifo: bool, t: Trav, depth: map<string, nat>)
    requires TravOk(adj, start, lifo, t, depth) && |t.buffer| > 0
    ensures t.buffer[|t.buffer| - 1] in adj && t.buffer[|t.buffer| - 1] in depth
  {
    var cur := t.buffer[|t.buffer| - 1];
    assert cur in t.buffer;
    assert cur in Discovered(t, start);
  }

  /** One iteration preserves the engine invariant, with the depth map extended one level below the popped node. */
  lemma IterationOk(adj: map<string, set<string>>, start: string, lifo: bool, t: Trav, depth: map<string, nat>, batch: seq<string>)
    requires TravOk(adj, start, lifo, t, depth) && |t.buffer| > 0
    requires Enumerates(batch, NewNodes(adj, t, t.buffer[|t.buffer| - 1]))
    ensures var cur := t.buffer[|t.buffer| - 1];
            && cur in depth
            && TravOk(adj, start, lifo, Iteration(adj, t, batch, lifo), NextDepth(depth, cur, NewNodes(adj, t, cur)))
  {
    var cur := t.buffer[|t.buffer| - 1];
    var toAdd := NewNodes(adj, t, cur);
    var t1 := Iteration(adj, t, batch, lifo);
    BaseStep(adj, start, lifo, t, depth, batch);
    if !lifo {
      BfsStep(adj, start, t, depth, batch);
    }
  }

  /**
    Each iteration makes progress: it opens some unopened node, or else the
    buffer gets shorter. This is why the search loop ends.
   */
  lemma IterationShrinks(adj: map<string, set<string>>, lifo: bool, t: Trav, batch: seq<string>)
    requires |t.buffer| > 0 && t.buffer[|t.buffer| - 1] in adj
    requires t.state.Keys == adj.Keys && t.parent.Keys == adj.Keys
    requires Enumerates(batch, NewNodes(adj, t, t.buffer[|t.buffer| - 1]))
    ensures var t1 := Iteration(adj, t, batch, lifo);
            || Unvisited(t1.state) < Unvisited(t.state)
            || (Unvisited(t1.state) == Unvisited(t.state) && |t1.buffer| < |t.buffer|)
  {
    var cur := t.buffer[|t.buffer| - 1];
    var toAdd := NewNodes(adj, t, cur);
    var t1 := Iteration(adj, t, batch, lifo);
    UpdatedFacts(adj, lifo, t, batch, cur, toAdd, t1);
    assert Unvisited(t1.state) <= Unvisited(t.state);
    if toAdd != {} {
      var n :| n in toAdd;
      assert n in Unvisited(t.state) - Unvisited(t1.state);
    } else {
      EnumerationLength(batch, toAdd);
    }
  }

  /**
    States only move forward (0 to 1 to 2, or 0 to 2 for start) and a parent,
    once assigned, is never overwritten.
   */
  lemma IterationForward(adj: map<string, set<string>>, start: string, lifo: bool, t: Trav, depth: map<string, nat>, batch: seq<string>)
    requires TravOk(adj, start, lifo, t, depth) && |t.buffer| > 0
    requires Enumerates(batch, NewNodes(adj, t, t.buffer[|t.buffer| - 1]))
    ensures var t1 := Iteration(adj, t, batch, lifo);
            forall n :: n in t.state ==>
              && n in t1.state && t.state[n] <= t1.state[n]
              && (t.parent[n].Some? ==> t1.parent[n] == t.parent[n])
  {
    var cur := t.buffer[|t.buffer| - 1];
    var toAdd := NewNodes(adj, t, cur);
    var t1 := Iteration(adj, t, batch, lifo);
    IterationFacts(adj, start, lifo, t, depth, batch, cur, toAdd, t1);
  }

  /** The iteration count never exceeds the number of nodes: each iteration visits a node for the first time. */
  lemma IterBound(adj: map<string, set<string>>, start: string, lifo: bool, t: Trav, depth: map<string, nat>)
    requires TravOk(adj, start, lifo, t, depth)
    ensures t.iter <= |adj.Keys|
  {
    assert Expanded(t.state) <= adj.Keys;
    SubsetCard(Expanded(t.state), adj.Keys);
  }

  /** A subset is no larger than its superset. */
  lemma {:induction false} SubsetCard(a: set<string>, b: set<string>)
    requires a <= b
    ensures |a| <= |b|
    decreases |a|
  {
    if a != {} {
      var x :| x in a;
      SubsetCard(a - {x}, b - {x});
    }
  }

  /**
    Once the buffer is empty, the visited nodes are closed under edges: every
    path from start ends at a visited node.
   */
  lemma Exhausted(adj: map<string, set<string>>, start: string, lifo: bool, t: Trav, depth: map<string, nat>)
    requires TravOk(adj, start, lifo, t, depth) && |t.buffer| == 0
    ensures forall q :: IsPath(adj, q) && q[0] == start ==> q[|q| - 1] in t.state && t.state[q[|q| - 1]] == Visited
  {
    var done := Expanded(t.state);
    assert start !in t.buffer;
    forall n | n in done
      ensures n in adj && adj[n] <= done
    {
      forall c | c in adj[n]
        ensures c in done
      {
        assert c in depth && c in Discovered(t, start);
        assert c !in t.buffer;
      }
    }
    assert Closed(adj, done);
    forall q | IsPath(adj, q) && q[0] == start
      ensures q[|q| - 1] in t.state && t.state[q[|q| - 1]] == Visited
    {
      PathStaysInside(adj, done, q);
    }
  }

  /** Breadth-first: no path from start reaches a discovered node in fewer edges than its depth. */
  lemma BfsShortest(adj: map<string, set<string>>, start: string, t: Trav, depth: map<string, nat>, n: string)
    requires TravOk(adj, start, false, t, depth) && n in depth
    ensures forall q :: IsPath(adj, q) && q[0] == start && q[|q| - 1] == n ==> |q| >= depth[n] + 1
  {
  }

  /** The state right after construction satisfies the engine invariant, start alone at depth 0. */
  lemma InitOk(adj: map<string, set<string>>, start: string, lifo: bool)
    requires WellFormed(adj) && start in adj
    ensures TravOk(adj, start, lifo, InitTrav(adj.Keys, start), map[start := 0])
  {
    var t := InitTrav(adj.Keys, start);
    assert Discovered(t, start) == {start};
    assert Expanded(t.state) == {};
    forall q | IsPath(adj, q) && q[0] == start && q[|q| - 1] in map[start := 0]
      ensures |q| - 1 >= 0
    {
    }
  }

  /** Only the popped node becomes visited in an iteration. */
  lemma IterationVisits(adj: map<string, set<string>>, t: Trav, batch: seq<string>, lifo: bool, n: string)
    requires |t.buffer| > 0 && t.buffer[|t.buffer| - 1] in adj && n in t.state
    ensures var t1 := Iteration(adj, t, batch, lifo);
            n in t1.state && (t1.state[n] == Visited <==> n == t.buffer[|t.buffer| - 1] || t.state[n] == Visited)
  {
  }

  /**
    The traversal engine. `lifo` selects the strategy: `false` is
    breadth-first search (new nodes enter on the left end of the buffer),
    `true` is depth-first search (new nodes enter on the right end); both pop
    the right end. The invariant `Valid(depth)` is stated about a ghost depth
    map, recording how far below start each discovered node hangs in the
    parent tree, that the caller carries along.
   */
  class Search {
    const start: string
    const goal: string
    const lifo: bool
    var adjacency: map<string, set<string>>
    var nodeParent: map<string, Option<string>>
    var nodeState: map<string, nat>
    var buffer: seq<string>
    var iter: nat

    /** The engine's state as a value. */
    function Snapshot(): Trav
      reads this
    {
      Trav(nodeState, nodeParent, buffer, iter)
    }

    /**
      The engine invariant `TravOk` on the current state, with `depth` as the
      depths of the discovered nodes. It is compared with
      `true` so that the verifier checks it as one fact rather than conjunct by
      conjunct.
     */
    ghost predicate Valid(depth: map<string, nat>)
      reads this
    {
      TravOk(adjacency, start, lifo, Snapshot(), depth) == true && goal in adjacency
    }

    /** The goal has not been visited yet. */
    ghost predicate Searching()
      reads this
    {
      goal in nodeState && nodeState[goal] != Visited
    }

    /** Copies the graph's adjacency, leaves every node unopened and parentless, and puts start in the buffer. */
    constructor (start: string, goal: string, graph: DirectedGraph, lifo: bool)
      requires graph.Valid()
      requires start in graph.ListAllNodes() && goal in graph.ListAllNodes()
      ensures this.start == start && this.goal == goal && this.lifo == lifo && adjacency == graph.adj
      ensures Snapshot() == InitTrav(graph.adj.Keys, start) && Valid(map[start := 0]) && Searching()
    {
      var nodeSet := graph.ListAllNodes();
      this.start, this.goal, this.lifo := start, goal, lifo;
      var table := graph.GetAdjTableAsDict(false);
      assert table == graph.adj;
      adjacency := table;
      nodeParent := map n | n in nodeSet :: None;
      nodeState := map n | n in nodeSet :: Unopened;
      buffer := [start];
      iter := 0;
      InitOk(graph.adj, start, lifo);
    }

    /**
      The same start-up over a weighted graph, which is a directed graph too:
      its adjacency is copied, and its weights play no part in the traversal.
     */
    constructor FromWeighted(start: string, goal: string, graph: WeightedGraph, lifo: bool)
      requires graph.Valid()
      requires start in graph.ListAllNodes() && goal in graph.ListAllNodes()
      ensures this.start == start && this.goal == goal && this.lifo == lifo && adjacency == graph.adj
      ensures Snapshot() == InitTrav(graph.adj.Keys, start) && Valid(map[start := 0]) && Searching()
    {
      var nodeSet := graph.ListAllNodes();
      this.start, this.goal, this.lifo := start, goal, lifo;
      adjacency := graph.adj;
      nodeParent := map n | n in nodeSet :: None;
      nodeState := map n | n in nodeSet :: Unopened;
      buffer := [start];
      iter := 0;
      InitOk(graph.adj, start, lifo);
    }

    /** Collects, one node at a time, the nodes still in state 0. */
    method GetUnvisitedNodeSet() returns (out: set<string>)
      ensures out == Unvisited(nodeState)
    {
      out := {};
      var todo := nodeState.Keys;
      while todo != {}
        invariant todo <= nodeState.Keys
        invariant forall n :: n in out <==> n in nodeState.Keys - todo && nodeState[n] == Unopened
        decreases todo
      {
        var node :| node in todo;
        if nodeState[node] == Unopened {
          out := out + {node};
        }
        todo := todo - {node};
      }
    }

    /**
      Pushes the nodes of `toAdd` one at a time, on the left end for
      breadth-first search and on the right end for depth-first search;
      `batch` is the order in which they end up in the buffer.
     */
    method AddNodesToBuffer(toAdd: set<string>) returns (ghost batch: seq<string>)
      modifies this
      ensures Enumerates(batch, toAdd)
      ensures Snapshot() == Pushed(old(Snapshot()), batch, lifo)
      ensures adjacency == old(adjacency)
    {
      batch := [];
      var buf := buffer;
      var todo := toAdd;
      while todo != {}
        invariant todo <= toAdd && Distinct(batch)
        invariant forall x :: x in batch <==> x in toAdd - todo
        invariant buf == if lifo then buffer + batch else batch + buffer
        invariant Snapshot() == old(Snapshot()) && adjacency == old(adjacency)
        decreases todo
      {
        var node :| node in todo;
        DistinctConcat(batch, [node]);
        DistinctConcat([node], batch);
        if lifo {
          buf := buf + [node];
          batch := batch + [node];
        } else {
          buf := [node] + buf;
          batch := [node] + batch;
        }
        todo := todo - {node};
      }
      ghost var pushed := Pushed(Snapshot(), batch, lifo);
      assert buf == pushed.buffer;
      buffer := buf;
    }

    /** Marks every node of `toAdd` open, with parent `current`. */
    method MarkOpened(toAdd: set<string>, current: string)
      requires toAdd <= nodeState.Keys && toAdd <= nodeParent.Keys
      modifies this
      ensures Snapshot() == Marked(old(Snapshot()), toAdd, current)
      ensures adjacency == old(adjacency)
    {
      var state, parent := nodeState, nodeParent;
      var todo := toAdd;
      while todo != {}
        invariant todo <= toAdd && state.Keys == nodeState.Keys && parent.Keys == nodeParent.Keys
        invariant forall n :: n in state ==> state[n] == if n in toAdd - todo then Opened else nodeState[n]
        invariant forall n :: n in parent ==> parent[n] == if n in toAdd - todo then Some(current) else nodeParent[n]
        decreases todo
      {
        var node :| node in todo;
        state := state[node := Opened];
        parent := parent[node := Some(current)];
        todo := todo - {node};
      }
      ghost var marked := Marked(Snapshot(), toAdd, current);
      assert state == marked.state;
      assert parent == marked.parent;
      nodeState, nodeParent := state, parent;
    }
  
    /**
      One pass of the search loop: pop the right end of the buffer, push its
      unopened children (when there are any), mark them open under it, and
      mark it visited.
     */
    method Step() returns (current: string, ghost batch: seq<string>)
      requires |buffer| > 0 && buffer[|buffer| - 1] in adjacency
      requires nodeState.Keys == adjacency.Keys && nodeParent.Keys == adjacency.Keys
      modifies this
      ensures adjacency == old(adjacency)
      ensures current == old(buffer[|buffer| - 1])
      ensures Enumerates(batch, NewNodes(adjacency, old(Snapshot()), current))
      ensures Snapshot() == Iteration(adjacency, old(Snapshot()), batch, lifo)
    {
      ghost var t := Snapshot();
      current := buffer[|buffer| - 1];
      buffer := buffer[..|buffer| - 1];
      var candidate := adjacency[current];
      var unvisited := GetUnvisitedNodeSet();
      var toAdd := candidate * unvisited;
      assert toAdd == NewNodes(adjacency, t, current);
      batch := [];
      if |toAdd| > 0 {
        batch := AddNodesToBuffer(toAdd);
      }
      MarkOpened(toAdd, current);
      nodeState := nodeState[current := Visited];
      iter := iter + 1;
    }

    /**
      `Step`, with the engine invariant carried across it: the popped node
      leaves one level of new children below itself in the depth map.
     */
    method Advance(ghost depth: map<string, nat>) returns (current: string, ghost depth': map<string, nat>)
      requires Valid(depth) && |buffer| > 0
      modifies this
      ensures Valid(depth') && adjacency == old(adjacency)
      ensures current == old(buffer[|buffer| - 1]) && current in depth && depth' == NextDepth(depth, current, NewNodes(adjacency, old(Snapshot()), current))
      ensures old(Searching()) && current != goal ==> Searching()
      ensures || Unvisited(nodeState) < old(Unvisited(nodeState))
              || (Unvisited(nodeState) == old(Unvisited(nodeState)) && |buffer| < old(|buffer|))
      ensures current in nodeState && nodeState[current] == Visited
      ensures iter == old(iter) + 1
    {
      ghost var t := Snapshot();
      ghost var batch;
      PoppedDiscovered(adjacency, start, lifo, t, depth);
      current, batch := Step();
      IterationOk(adjacency, start, lifo, t, depth, batch);
      depth' := NextDepth(depth, current, NewNodes(adjacency, t, current));
      IterationShrinks(adjacency, lifo, t, batch);
      IterationVisits(adjacency, t, batch, lifo, goal);
      IterationVisits(adjacency, t, batch, lifo, current);
    }

    /**
      Reads the path back from the goal along the parents, prepending each
      parent until start is reached.
     */
    method Backtrack(ghost depth: map<string, nat>) returns (path: seq<string>)
      requires Valid(depth) && goal in depth
      ensures |path| == depth[goal] + 1 && path[0] == start && path[|path| - 1] == goal
      ensures IsPath(adjacency, path) && Distinct(path)
      ensures goal == start ==> path == [start]
    {
      path := [goal];
      while path[0] != start
        invariant |path| > 0 && path[|path| - 1] == goal && IsPath(adjacency, path)
        invariant forall i :: 0 <= i < |path| ==> path[i] in depth && depth[path[i]] + |path| - 1 == depth[goal] + i
        decreases depth[path[0]]
      {
        var node := path[0];
        assert TreeLink(adjacency, Snapshot(), depth, node);
        var parent := nodeParent[node].value;
        path := [parent] + path;
      }
      forall i, j | 0 <= i < j < |path|
        ensures path[i] != path[j]
      {
        assert depth[path[i]] < depth[path[j]];
      }
    }

    /**
      The forward traversal: runs the search loop until the goal is popped
      (`found`) or the buffer runs dry.
     */
    method Traverse(ghost depth: map<string, nat>) returns (found: bool, ghost depth': map<string, nat>)
      requires Valid(depth)
      modifies this
      ensures Valid(depth') && adjacency == old(adjacency)
      ensures found ==> goal in depth' && goal in nodeState && nodeState[goal] == Visited
      ensures found && !lifo ==>
              forall q :: IsPath(adjacency, q) && q[0] == start && q[|q| - 1] == goal ==> |q| >= depth'[goal] + 1
      ensures !found ==> buffer == []
      ensures !found && old(Searching()) ==>
              forall q :: IsPath(adjacency, q) && q[0] == start ==> q[|q| - 1] != goal
      ensures iter <= |adjacency.Keys|
      ensures old(Snapshot()) == InitTrav(adjacency.Keys, start) && start == goal ==> found && iter == 1
    {
      depth' := depth;
      var current: Option<string> := None;
      while current != Some(goal)
        invariant Valid(depth') && adjacency == old(adjacency)
        invariant current == Some(goal) ==> goal in depth' && goal in nodeState && nodeState[goal] == Visited
        invariant old(Searching()) && current != Some(goal) ==> Searching()
        invariant old(Snapshot()) == InitTrav(adjacency.Keys, start) && start == goal ==>
                  if current == None then Snapshot() == old(Snapshot()) else iter == 1
        decreases Unvisited(nodeState), |buffer|
      {
        if |buffer| == 0 {
          Exhausted(adjacency, start, lifo, Snapshot(), depth');
          IterBound(adjacency, start, lifo, Snapshot(), depth');
          return false, depth';
        }
        var node;
        node, depth' := Advance(depth');
        current := Some(node);
      }
      found := true;
      IterBound(adjacency, start, lifo, Snapshot(), depth');
      if !lifo {
        BfsShortest(adjacency, start, Snapshot(), depth', goal);
      }
    }

    /**
      Runs the forward traversal, then reads the path back. `None` means the
      buffer ran dry before the goal was popped.
     */
    method Solve(ghost depth: map<string, nat>) returns (result: Option<seq<string>>)
      requires Valid(depth)
      modifies this
      ensures adjacency == old(adjacency)
      ensures result.Some? ==> var path := result.value;
              && |path| > 0 && path[0] == start && path[|path| - 1] == goal
              && IsPath(adjacency, path) && Distinct(path)
      ensures result.Some? ==> goal in nodeState && nodeState[goal] == Visited
      ensures result.Some? && start == goal ==> result.value == [start]
      ensures result.Some? && !lifo ==>
              forall q :: IsPath(adjacency, q) && q[0] == start && q[|q| - 1] == goal ==> |q| >= |result.value|
      ensures result.None? ==> buffer == []
      ensures result.None? && old(Searching()) ==>
              forall q :: IsPath(adjacency, q) && q[0] == start ==> q[|q| - 1] != goal
      ensures iter <= |adjacency.Keys|
      ensures old(Snapshot()) == InitTrav(adjacency.Keys, start) && start == goal ==> result == Some([start]) && iter == 1
    {
      var found;
      ghost var d;
      found, d := Traverse(depth);
      if !found {
        return None;
      }
      var path := Backtrack(d);
      result := Some(path);
    }
  }
}
