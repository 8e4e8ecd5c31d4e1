/**
  The graph store: a directed graph kept as an adjacency map from node name to
  the set of its children, and a weighted variant that adds a heuristic weight
  per node and a weight per edge, the latter keyed by the string
  `parent + "->" + child`.
 */
module GraphRep {
  import opened Wrappers

  /** No child set holds its own parent, and every child is itself a node. */
  ghost predicate WellFormed(adj: map<string, set<string>>)
  {
    forall p, c {:trigger c in adj[p]} :: p in adj && c in adj[p] ==> c in adj && c != p
  }

  /**
    The invariant of the weighted graph's three maps: a well-formed adjacency
    map, a heuristic weight for exactly the nodes, and a recorded weight under
    the key of every adjacency edge.
   */
  ghost predicate WeightedOk(adj: map<string, set<string>>, costNode: map<string, real>, costEdge: map<string, real>)
  {
    && WellFormed(adj)
    && costNode.Keys == adj.Keys
    && forall p, c :: p in adj && c in adj[p] ==> EdgeName(p, c) in costEdge
  }

  /** `q` is a non-empty walk along adjacency edges. */
  ghost predicate IsPath(adj: map<string, set<string>>, q: seq<string>)
  {
    && |q| >= 1
    && q[|q| - 1] in adj
    && forall i :: 0 <= i < |q| - 1 ==> q[i] in adj && q[i + 1] in adj[q[i]]
  }

  /** Every node of `s` is a graph node whose children all lie in `s`. */
  ghost predicate Closed(adj: map<string, set<string>>, s: set<string>)
  {
    forall n :: n in s ==> n in adj && adj[n] <= s
  }

  /** A walk that starts inside a closed set never leaves it. */
  lemma {:induction false} PathStaysInside(adj: map<string, set<string>>, s: set<string>, q: seq<string>)
    requires Closed(adj, s) && IsPath(adj, q) && q[0] in s
    ensures q[|q| - 1] in s
  {
    if |q| > 1 {
      var q' := q[..|q| - 1];
      assert IsPath(adj, q') by {
        assert q'[|q'| - 1] == q[|q| - 2];
      }
      PathStaysInside(adj, s, q');
      assert q[|q| - 1] in adj[q[|q| - 2]];
    }
  }

  /** The nodes without outgoing edges. */
  ghost function Leaves(adj: map<string, set<string>>): set<string>
  {
    set n | n in adj && adj[n] == {}
  }

  /** True when `s` contains the two characters `->` next to each other. */
  predicate HasArrow(s: string)
  {
    exists i :: 0 <= i < |s| - 1 && s[i] == '-' && s[i + 1] == '>'
  }

  /** The key under which the weighted graph stores an edge's weight. */
  function EdgeName(parent: string, child: string): (key: string)
    ensures |key| == |parent| + 2 + |child|
  {
    parent + "->" + child
  }

  /** The key is the parent, then `->`, then the child. */
  lemma EdgeNameParts(parent: string, child: string)
    ensures var key := EdgeName(parent, child);
            && |key| == |parent| + 2 + |child|
            && key[..|parent|] == parent && key[|parent| + 2..] == child
            && key[|parent|] == '-' && key[|parent| + 1] == '>'
  {
  }

  /** Two different pairs can share one key: the edge key is not injective. */
  lemma EdgeNameCollision()
    ensures ("a->b", "c") != ("a", "b->c")
    ensures EdgeName("a->b", "c") == EdgeName("a", "b->c")
  {
    assert "a->b" != "a" by { assert |"a->b"| != |"a"|; }
  }

  /** When no parent name contains `->`, the key determines the pair. */
  lemma EdgeNameInjective(p: string, c: string, p': string, c': string)
    requires !HasArrow(p) && !HasArrow(p')
    requires EdgeName(p, c) == EdgeName(p', c')
    ensures p == p' && c == c'
  {
    var e := EdgeName(p, c);
    EdgeNameParts(p, c);
    EdgeNameParts(p', c');
    assert |p| == |p'|;
    assert p == e[..|p|] == p';
  }

  /** The unweighted graph; `add_edge` creates missing endpoints. */
  class DirectedGraph {
    var adj: map<string, set<string>>

    ghost predicate Valid()
      reads this
    {
      WellFormed(adj)
    }

    constructor ()
      ensures Valid() && adj == map[]
    {
      adj := map[];
    }

    /** Adds `name` with no children; an existing node is left as it is. */
    method AddNode(name: string)
      requires Valid()
      modifies this
      ensures Valid()
      ensures name in old(adj) ==> adj == old(adj)
      ensures name !in old(adj) ==> adj == old(adj)[name := {}]
    {
      if name !in adj {
        adj := adj[name := {}];
      }
    }

    /** Adds the edge `parent -> child`, first adding whichever endpoint is missing. */
    method AddEdge(parent: string, child: string)
      requires Valid()
      requires parent != child
      modifies this
      ensures Valid()
      ensures adj.Keys == old(adj).Keys + {parent, child}
      ensures child in adj[parent]
      ensures adj[parent] == (if parent in old(adj) then old(adj)[parent] else {}) + {child}
      ensures child !in old(adj) ==> adj[child] == {}
      ensures forall n :: n in old(adj) && n != parent ==> adj[n] == old(adj)[n]
      ensures parent in old(adj) && child in old(adj)[parent] ==> adj == old(adj)
    {
      AddNode(parent);
      AddNode(child);
      if parent in adj && child in adj[parent] {
        return;
      }
      adj := adj[parent := adj[parent] + {child}];
    }

    function ListAllNodes(): (nodes: set<string>)
      reads this
      ensures forall n :: n in nodes <==> n in adj
    {
      adj.Keys
    }

    /** Collects, one node at a time, the nodes whose child set is empty. */
    method ListLeafNodes() returns (leaves: set<string>)
      ensures forall n :: n in leaves <==> n in adj && adj[n] == {}
      ensures leaves <= ListAllNodes()
    {
      leaves := {};
      var todo := adj.Keys;
      while todo != {}
        invariant todo <= adj.Keys
        invariant forall n :: n in leaves <==> n in adj && n !in todo && adj[n] == {}
        decreases todo
      {
        var n :| n in todo;
        if |adj[n]| == 0 {
          leaves := leaves + {n};
        }
        todo := todo - {n};
      }
    }

    /**
      A copy of the adjacency map, with the leaf nodes' entries deleted when
      `excludeLeaves` holds; the graph itself is not altered.
     */
    method GetAdjTableAsDict(excludeLeaves: bool := true) returns (table: map<string, set<string>>)
      ensures table.Keys == if excludeLeaves then adj.Keys - Leaves(adj) else adj.Keys
      ensures forall n :: n in table ==> table[n] == adj[n]
    {
      table := adj;
      if excludeLeaves {
        var leaves := ListLeafNodes();
        var todo := leaves;
        while todo != {}
          invariant todo <= leaves
          invariant table.Keys == adj.Keys - (leaves - todo)
          invariant forall n :: n in table ==> table[n] == adj[n]
          decreases todo
        {
          var n :| n in todo;
          table := table - {n};
          todo := todo - {n};
        }
        assert leaves == Leaves(adj);
      }
    }
  }

  /**
    The weighted graph. Edges may only join existing nodes; an edge whose key
    is already recorded is ignored, even when the key came from another pair.
   */
  class WeightedGraph {
    var adj: map<string, set<string>>
    var costNode: map<string, real>
    var costEdge: map<string, real>

    ghost predicate Valid()
      reads this
    {
      WeightedOk(adj, costNode, costEdge)
    }

    constructor ()
      ensures Valid() && adj == map[] && costNode == map[] && costEdge == map[]
    {
      adj, costNode, costEdge := map[], map[], map[];
    }

    /** Adds `name` if absent and, in every case, records `weight` as its weight. */
    method AddNode(name: string, weight: real := 0.0)
      requires Valid()
      modifies this
      ensures Valid()
      ensures adj == if name in old(adj) then old(adj) else old(adj)[name := {}]
      ensures costNode == old(costNode)[name := weight]
      ensures costEdge == old(costEdge)
    {
      if name !in adj {
        adj := adj[name := {}];
      }
      costNode := costNode[name := weight];
    }

    /** Adds `parent -> child` with `weight` unless the edge's key is already recorded. */
    method AddEdge(parent: string, child: string, weight: real := 0.0)
      requires Valid()
      requires parent != child
      requires parent in ListAllNodes() && child in ListAllNodes()
      modifies this
      ensures Valid()
      ensures adj.Keys == old(adj).Keys && costNode == old(costNode)
      ensures EdgeName(parent, child) in old(costEdge) ==>
                adj == old(adj) && costEdge == old(costEdge)
      ensures EdgeName(parent, child) !in old(costEdge) ==>
                && adj == old(adj)[parent := old(adj)[parent] + {child}]
                && costEdge == old(costEdge)[EdgeName(parent, child) := weight]
    {
      var key := EdgeName(parent, child);
      if key in costEdge {
        return;
      }
      adj := adj[parent := adj[parent] + {child}];
      costEdge := costEdge[key := weight];
    }

    function ListAllNodes(): (nodes: set<string>)
      reads this
      ensures forall n :: n in nodes <==> n in adj
    {
      adj.Keys
    }

    /** The heuristic weight of `name`; `None` stands for the source's lookup error. */
    function GetCostNode(name: string): (w: Option<real>)
      reads this
      ensures Valid() ==> (w.Some? <==> name in adj)
      ensures w.Some? ==> name in costNode && w.value == costNode[name]
    {
      if name in costNode then Some(costNode[name]) else None
    }

    /** The weight of `parent -> child`, looked up by its string key. */
    function GetCostEdge(parent: string, child: string): (w: Option<real>)
      reads this
      ensures Valid() && parent in adj && child in adj[parent] ==> w.Some?
      ensures w.Some? <==> EdgeName(parent, child) in costEdge
      ensures w.Some? ==> w.value == costEdge[EdgeName(parent, child)]
    {
      var key := EdgeName(parent, child);
      if key in costEdge then Some(costEdge[key]) else None
    }
  }

  /** The four nodes of the collision example, without edges. */
  method CollisionNodes() returns (g: WeightedGraph)
    ensures fresh(g) && g.Valid()
    ensures g.adj == map["a->b" := {}, "c" := {}, "a" := {}, "b->c" := {}]
    ensures g.costEdge == map[]
  {
    g := new WeightedGraph();
    g.AddNode("a->b");
    g.AddNode("c");
    g.AddNode("a");
    g.AddNode("b->c");
  }

  /**
    Adding `("a->b", "c")` and then `("a", "b->c")`: the second call finds its
    key taken and records neither its child nor its weight.
   */
  method CollidingEdges() returns (g: WeightedGraph)
    ensures fresh(g) && g.Valid()
    ensures g.adj == map["a->b" := {"c"}, "c" := {}, "a" := {}, "b->c" := {}]
    ensures g.costEdge == map[EdgeName("a", "b->c") := 1.0]
  {
    g := CollisionNodes();
    g.AddEdge("a->b", "c", 1.0);
    assert {} + {"c"} == {"c"};
    EdgeNameCollision();
    g.AddEdge("a", "b->c", 2.0);
  }
}
