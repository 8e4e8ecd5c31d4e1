/**
  A* over the weighted graph: a search tree (parent map and cost-so-far map
  `g`), an unordered open set scanned for the least `g + h`, and an iteration
  counter. The value-level functions below give one search step and a whole
  run; the class `Astar` carries out the same steps on its fields.
 */
module Forward {
  import opened Wrappers
  import opened GraphRep

  /** The search state of one run: parent links, costs so far, open set, iterations. */
  datatype Tree = Tree(parent: map<string, Option<string>>, g: map<string, real>, open: set<string>, iter: nat)

  /** How a run ended: the goal was taken from the open set, the open set ran dry, or the bound ran out. */
  datatype Stop = Reached | NoSolution | OutOfFuel

  datatype RunResult = RunResult(stop: Stop, tree: Tree)

  /** The state a fresh engine starts from. */
  function InitTree(start: string): Tree
  {
    Tree(map[start := None], map[start := 0.0], {start}, 0)
  }

  /** The tree's maps share their keys, lie among the nodes, and cover the open set. */
  ghost predicate TreeOk(adj: map<string, set<string>>, t: Tree)
  {
    t.parent.Keys == t.g.Keys && t.g.Keys <= adj.Keys && t.open <= t.g.Keys
  }

  ghost predicate NonNegative(w: map<string, real>)
  {
    forall k :: k in w ==> w[k] >= 0.0
  }

  function Weight(w: map<string, real>, p: string, c: string): real
    requires EdgeName(p, c) in w
  {
    w[EdgeName(p, c)]
  }

  /** The estimated total cost `g(n) + h(n)` that ranks open nodes. */
  function F(t: Tree, h: map<string, real>, n: string): real
    requires n in t.g && n in h
  {
    t.g[n] + h[n]
  }

  /** `n` is an open node whose estimate no other open node beats. */
  ghost predicate IsBest(t: Tree, h: map<string, real>, n: string)
    requires t.open <= t.g.Keys && t.open <= h.Keys
  {
    n in t.open && forall m :: m in t.open ==> F(t, h, n) <= F(t, h, m)
  }

  /** Every other open node has a strictly larger estimate than `n`. */
  ghost predicate UniqueBest(t: Tree, h: map<string, real>, n: string)
    requires t.open <= t.g.Keys && t.open <= h.Keys && n in t.open
  {
    forall m :: m in t.open && m != n ==> F(t, h, n) < F(t, h, m)
  }

  lemma {:induction false} BestExists(t: Tree, h: map<string, real>, s: set<string>)
    requires s != {} && s <= t.g.Keys && s <= h.Keys
    ensures exists n :: n in s && forall m :: m in s ==> F(t, h, n) <= F(t, h, m)
  {
    var x :| x in s;
    if s != {x} {
      BestExists(t, h, s - {x});
      var y :| y in s - {x} && forall m :: m in s - {x} ==> F(t, h, y) <= F(t, h, m);
      if F(t, h, x) <= F(t, h, y) {
        assert forall m :: m in s ==> F(t, h, x) <= F(t, h, m);
      } else {
        assert forall m :: m in s ==> F(t, h, y) <= F(t, h, m);
      }
    }
  }

  /** A fixed choice among the open nodes of least estimate. */
  ghost function Pick(t: Tree, h: map<string, real>): (n: string)
    requires t.open != {} && t.open <= t.g.Keys && t.open <= h.Keys
    ensures IsBest(t, h, n)
  {
    BestExists(t, h, t.open);
    var x :| x in t.open && forall m :: m in t.open ==> F(t, h, x) <= F(t, h, m);
    assert IsBest(t, h, x);
    var n :| IsBest(t, h, n); n
  }

  /** Expanding `cur` reaches child `c` for the first time or by a strictly cheaper way. */
  predicate Improves(w: map<string, real>, t: Tree, cur: string, c: string)
    requires cur in t.g && EdgeName(cur, c) in w
  {
    c !in t.parent || (c in t.g && t.g[c] > t.g[cur] + Weight(w, cur, c))
  }

  /**
    The tree after expanding `cur` towards the children in `S`: each child that
    improves gets parent `cur`, cost `g(cur) + w(cur, child)` and a place in the
    open set; nothing else changes.
   */
  function Relax(w: map<string, real>, t: Tree, cur: string, S: set<string>): (r: Tree)
    requires cur in t.g
    requires forall c :: c in S ==> EdgeName(cur, c) in w
    ensures t.parent.Keys <= r.parent.Keys && t.g.Keys <= r.g.Keys && t.open <= r.open && r.iter == t.iter
  {
    var better := set c | c in S && Improves(w, t, cur, c);
    Tree(map n | n in t.parent.Keys + better :: if n in better then Some(cur) else t.parent[n],
         map n | n in t.g.Keys + better :: if n in better then t.g[cur] + Weight(w, cur, n) else t.g[n],
         t.open + better,
         t.iter)
  }

  /**
    What a relaxation promises: the children join the tree, new nodes are open,
    every child ends no dearer than through `cur`, and a reached node changes
    only on a strictly cheaper way through `cur`, when its parent, cost and
    open-set membership change together.
   */
  lemma RelaxFacts(w: map<string, real>, t: Tree, cur: string, S: set<string>)
    requires cur in t.g
    requires forall c :: c in S ==> EdgeName(cur, c) in w
    ensures var r := Relax(w, t, cur, S);
            && r.parent.Keys == t.parent.Keys + S
            && (t.parent.Keys == t.g.Keys ==> r.g.Keys == r.parent.Keys)
            && t.g.Keys <= r.g.Keys && t.open <= r.open && r.iter == t.iter
            && (forall n :: n in r.parent && n !in t.parent ==> n in r.open)
            && (forall c :: c in S && c in r.g ==> r.g[c] <= t.g[cur] + Weight(w, cur, c))
            && (forall n :: n in t.parent && n in t.g && (r.parent[n] != t.parent[n] || r.g[n] != t.g[n]) ==>
                  && n in S && r.parent[n] == Some(cur) && n in r.open
                  && r.g[n] == t.g[cur] + Weight(w, cur, n) < t.g[n])
  {
  }

  /** One iteration: count it and take the chosen best node `n` out of the open set. */
  function Extracted(t: Tree, n: string): Tree
  {
    t.(open := t.open - {n}, iter := t.iter + 1)
  }

  /**
    The run from `t` with at most `fuel` iterations, always extracting `Pick`:
    stop at the goal, expand anything else, and stop when the open set is empty.
   */
  ghost function Run(adj: map<string, set<string>>, h: map<string, real>, w: map<string, real>,
                     goal: string, t: Tree, fuel: nat): (r: RunResult)
    requires WeightedOk(adj, h, w) && TreeOk(adj, t) && t.open != {}
    ensures t.iter <= r.tree.iter <= t.iter + fuel
    ensures r.stop == Reached ==> goal !in r.tree.open
    ensures r.stop == NoSolution ==> r.tree.open == {}
    decreases fuel
  {
    if fuel == 0 then RunResult(OutOfFuel, t)
    else
      var n := Pick(t, h);
      var t1 := Extracted(t, n);
      if n == goal then RunResult(Reached, t1)
      else
        RelaxFacts(w, t1, n, adj[n]);
        var t2 := Relax(w, t1, n, adj[n]);
        if t2.open == {} then RunResult(NoSolution, t2)
        else Run(adj, h, w, goal, t2, fuel - 1)
  }

  /** Along the run from `t`, every extraction has a single best node. */
  ghost predicate TieFree(adj: map<string, set<string>>, h: map<string, real>, w: map<string, real>,
                          goal: string, t: Tree, fuel: nat)
    requires WeightedOk(adj, h, w) && TreeOk(adj, t) && t.open != {}
    decreases fuel
  {
    fuel == 0 ||
    var n := Pick(t, h);
    && UniqueBest(t, h, n)
    && (n == goal ||
        (RelaxFacts(w, Extracted(t, n), n, adj[n]);
         var t2 := Relax(w, Extracted(t, n), n, adj[n]);
         t2.open == {} || TieFree(adj, h, w, goal, t2, fuel - 1)))
  }

  /** The state after child `c` of `cur` improves. */
  function Improved(w: map<string, real>, t: Tree, cur: string, c: string): Tree
    requires cur in t.g && EdgeName(cur, c) in w
  {
    t.(parent := t.parent[c := Some(cur)], g := t.g[c := t.g[cur] + Weight(w, cur, c)], open := t.open + {c})
  }

  /** Relaxing no child changes nothing. */
  lemma RelaxNone(w: map<string, real>, t: Tree, cur: string)
    requires cur in t.g
    ensures Relax(w, t, cur, {}) == t
  {
    var r := Relax(w, t, cur, {});
    assert r.parent == t.parent;
    assert r.g == t.g;
  }

  /** Adding one more child to a relaxation updates that child alone, and only when it improves. */
  lemma RelaxAddOne(w: map<string, real>, t: Tree, cur: string, S: set<string>, c: string)
    requires cur in t.g && cur !in S && c != cur && c !in S
    requires forall x :: x in S + {c} ==> EdgeName(cur, x) in w
    ensures var r := Relax(w, t, cur, S);
            Relax(w, t, cur, S + {c}) == if Improves(w, r, cur, c) then Improved(w, r, cur, c) else r
  {
    var r := Relax(w, t, cur, S);
    var r' := Relax(w, t, cur, S + {c});
    var better := set x | x in S && Improves(w, t, cur, x);
    var better' := set x | x in S + {c} && Improves(w, t, cur, x);
    assert cur !in better && c !in better;
    assert r.g[cur] == t.g[cur];
    assert (c in r.parent <==> c in t.parent) && (c in r.g <==> c in t.g);
    assert c in r.g ==> r.g[c] == t.g[c];
    if Improves(w, t, cur, c) {
      assert better' == better + {c};
      assert r'.parent == r.parent[c := Some(cur)];
      assert r'.g == r.g[c := r.g[cur] + Weight(w, cur, c)];
      assert r'.open == r.open + {c};
    } else {
      assert better' == better;
    }
  }

  /** Node `n`'s link to its parent: a reached node with `n` as a child, cheaper, or equal and older. */
  ghost predicate LinkOk(adj: map<string, set<string>>, w: map<string, real>, parent: map<string, Option<string>>,
                         g: map<string, real>, stamp: map<string, nat>, n: string)
  {
    && n in parent && parent[n].Some?
    && var p := parent[n].value;
    && p in parent && p in adj && n in adj[p] && EdgeName(p, n) in w
    && n in g && p in g && n in stamp && p in stamp
    && g[n] >= g[p] + w[EdgeName(p, n)]
    && (g[n] > g[p] || stamp[n] > stamp[p])
  }

  /** Every reached node other than `start` has a sound parent link. */
  ghost predicate Linked(adj: map<string, set<string>>, w: map<string, real>, parent: map<string, Option<string>>,
                         g: map<string, real>, stamp: map<string, nat>, start: string)
  {
    forall n {:trigger LinkOk(adj, w, parent, g, stamp, n)} :: n in parent && n != start ==> LinkOk(adj, w, parent, g, stamp, n)
  }

  /**
    Re-parenting `c` under `cur` at a strictly smaller cost, with a stamp newer
    than every other, keeps every parent link sound when weights are non-negative.
   */
  lemma ImproveKeepsLinked(adj: map<string, set<string>>, w: map<string, real>, t: Tree,
                           stamp: map<string, nat>, start: string, cur: string, c: string, clock: nat)
    requires Linked(adj, w, t.parent, t.g, stamp, start) && NonNegative(w)
    requires t.parent.Keys == t.g.Keys == stamp.Keys && forall n :: n in stamp ==> stamp[n] < clock
    requires cur in t.parent && cur in adj && c in adj[cur] && c != cur && c != start
    requires EdgeName(cur, c) in w
    requires Improves(w, t, cur, c)
    ensures var t' := Improved(w, t, cur, c); Linked(adj, w, t'.parent, t'.g, stamp[c := clock], start)
  {
    var t' := Improved(w, t, cur, c);
    var stamp' := stamp[c := clock];
    forall n | n in t'.parent && n != start
      ensures LinkOk(adj, w, t'.parent, t'.g, stamp', n)
    {
      if n != c {
        assert LinkOk(adj, w, t.parent, t.g, stamp, n);
        var p := t.parent[n].value;
        if p == c {
          assert w[EdgeName(p, n)] >= 0.0;
        }
      }
    }
  }

  /** Backtracking order: `a` is cheaper than `b`, or as cheap and stamped earlier. */
  ghost predicate Precedes(g: map<string, real>, stamp: map<string, nat>, a: string, b: string)
  {
    a in g && b in g && a in stamp && b in stamp && (g[a] < g[b] || (g[a] == g[b] && stamp[a] < stamp[b]))
  }

  /** The sum of the edge weights along `q`. */
  function PathCost(w: map<string, real>, q: seq<string>): real
    requires forall i :: 0 <= i < |q| - 1 ==> EdgeName(q[i], q[i + 1]) in w
    decreases |q|
  {
    if |q| <= 1 then 0.0 else Weight(w, q[0], q[1]) + PathCost(w, q[1..])
  }

  /**
    The invariant of an A* engine's state: a sound graph holding start and
    goal, a tree whose maps agree, `start` as an unparented root at cost 0,
    non-negative costs, a stamp per reached node older than `clock`, and a
    sound parent link for every other reached node.
   */
  ghost predicate SearchOk(adj: map<string, set<string>>, h: map<string, real>, w: map<string, real>,
                           start: string, goal: string, t: Tree, stamp: map<string, nat>, clock: nat)
  {
    && WeightedOk(adj, h, w)
    && start in adj && goal in adj
    && TreeOk(adj, t)
    && start in t.parent && t.parent[start] == None && t.g[start] == 0.0
    && (forall n :: n in t.g ==> t.g[n] >= 0.0)
    && stamp.Keys == t.parent.Keys
    && (forall n :: n in stamp ==> stamp[n] < clock)
    && Linked(adj, w, t.parent, t.g, stamp, start)
  }

  /**
    The frontier property of a search that has not stopped: a reached goal is still
    open, and every closed node has all its children reached.
  */
  ghost predicate Frontier(adj: map<string, set<string>>, goal: string, t: Tree)
  {
    && (goal in t.parent ==> goal in t.open)
    && forall n :: n in t.parent && n !in t.open ==> n in adj && adj[n] <= t.parent.Keys
  }

  /** Extracting and expanding a node other than the goal keeps the frontier property. */
  lemma FrontierStep(adj: map<string, set<string>>, h: map<string, real>, w: map<string, real>,
                     goal: string, t: Tree, n: string)
    requires WeightedOk(adj, h, w) && TreeOk(adj, t) && Frontier(adj, goal, t)
    requires n in t.open && n != goal
    ensures n in adj && forall c :: c in adj[n] ==> EdgeName(n, c) in w
    ensures Frontier(adj, goal, Relax(w, Extracted(t, n), n, adj[n]))
  {
    var t1 := Extracted(t, n);
    RelaxFacts(w, t1, n, adj[n]);
    var t2 := Relax(w, t1, n, adj[n]);
    assert n !in adj[n];
    forall m | m in t2.parent && m !in t2.open
      ensures m in adj && adj[m] <= t2.parent.Keys
    {
      assert m in t.parent && m !in t1.open;
    }
  }

  /** A search whose open set ran empty has reached everything reachable, so not the goal. */
  lemma FrontierExhausted(adj: map<string, set<string>>, start: string, goal: string, t: Tree)
    requires Frontier(adj, goal, t) && t.open == {} && start in t.parent
    ensures forall q :: IsPath(adj, q) && q[0] == start ==> q[|q| - 1] != goal
  {
    assert Closed(adj, t.parent.Keys);
    forall q | IsPath(adj, q) && q[0] == start
      ensures q[|q| - 1] != goal
    {
      PathStaysInside(adj, t.parent.Keys, q);
    }
  }

  /**
    One iteration of a tie-free run: the node the loop extracts is `Pick`'s, and the
    run stops or continues exactly as the loop does.
  */
  lemma RunStep(adj: map<string, set<string>>, h: map<string, real>, w: map<string, real>,
                goal: string, t: Tree, fuel: nat, n: string)
    requires WeightedOk(adj, h, w) && TreeOk(adj, t) && t.open != {} && fuel > 0
    requires TieFree(adj, h, w, goal, t, fuel) && IsBest(t, h, n)
    ensures n == Pick(t, h)
    ensures n == goal ==> Run(adj, h, w, goal, t, fuel) == RunResult(Reached, Extracted(t, n))
    ensures n != goal ==>
              (RelaxFacts(w, Extracted(t, n), n, adj[n]);
               var t2 := Relax(w, Extracted(t, n), n, adj[n]);
               && TreeOk(adj, t2)
               && (t2.open == {} ==> Run(adj, h, w, goal, t, fuel) == RunResult(NoSolution, t2))
               && (t2.open != {} ==> Run(adj, h, w, goal, t, fuel) == Run(adj, h, w, goal, t2, fuel - 1)
                                     && TieFree(adj, h, w, goal, t2, fuel - 1)))
  {
  }

  /** When `n` is the one best open node and not the goal, the run goes on from `n`'s expansion `t2`. */
  lemma UniqueStep(adj: map<string, set<string>>, h: map<string, real>, w: map<string, real>,
                   goal: string, t: Tree, fuel: nat, rest: nat, n: string, t2: Tree)
    requires WeightedOk(adj, h, w) && TreeOk(adj, t) && fuel == rest + 1 && n in t.open && n != goal
    requires UniqueBest(t, h, n)
    requires t2 == Relax(w, Extracted(t, n), n, adj[n]) && t2.open != {}
    ensures TreeOk(adj, t2)
    ensures Run(adj, h, w, goal, t, fuel) == Run(adj, h, w, goal, t2, rest)
    ensures TieFree(adj, h, w, goal, t, fuel) == TieFree(adj, h, w, goal, t2, rest)
  {
    var p := Pick(t, h);
    assert p == n;
    RelaxFacts(w, Extracted(t, n), n, adj[n]);
  }

  /** When the goal is the one best open node, the run stops there, tie-free. */
  lemma UniqueGoal(adj: map<string, set<string>>, h: map<string, real>, w: map<string, real>,
                   goal: string, t: Tree, fuel: nat)
    requires WeightedOk(adj, h, w) && TreeOk(adj, t) && fuel > 0 && goal in t.open
    requires UniqueBest(t, h, goal)
    ensures TieFree(adj, h, w, goal, t, fuel)
    ensures Run(adj, h, w, goal, t, fuel) == RunResult(Reached, Extracted(t, goal))
  {
    var p := Pick(t, h);
    assert p == goal;
  }

  /**
    The run from `t` when it is tie-free, and `None` when some extraction has a tie
    (or when the graph or `t` is not one a run starts from).
  */
  ghost function TieFreeRun(adj: map<string, set<string>>, h: map<string, real>, w: map<string, real>,
                            goal: string, t: Tree, fuel: nat): Option<RunResult>
  {
    if WeightedOk(adj, h, w) && TreeOk(adj, t) && t.open != {} && TieFree(adj, h, w, goal, t, fuel)
    then Some(Run(adj, h, w, goal, t, fuel))
    else None
  }

  /** A tie-free run from `t0` with `fuel` stops with `stop` in state `t`. */
  ghost predicate EndsAs(adj: map<string, set<string>>, h: map<string, real>, w: map<string, real>,
                         goal: string, t0: Tree, fuel: nat, stop: Stop, t: Tree)
  {
    TieFreeRun(adj, h, w, goal, t0, fuel).Some? ==>
      TieFreeRun(adj, h, w, goal, t0, fuel) == Some(RunResult(stop, t))
  }

  /*
    The lemmas below follow the search loop along a run. `run` is the run the loop
    started on (`TieFreeRun` of its first state); the loop, standing at `t` with
    `budget` iterations left, is on that run when `run.Some?` implies
    `TieFreeRun(..., t, budget) == run`.
  */

  /** Extracting the goal ends the run the loop is on, right after the extraction. */
  lemma RunReached(adj: map<string, set<string>>, h: map<string, real>, w: map<string, real>,
                   goal: string, t: Tree, budget: nat, run: Option<RunResult>)
    requires WeightedOk(adj, h, w) && TreeOk(adj, t) && t.open != {} && budget > 0 && IsBest(t, h, goal)
    requires run.Some? ==> TieFreeRun(adj, h, w, goal, t, budget) == run
    ensures run.Some? ==> run == Some(RunResult(Reached, Extracted(t, goal)))
  {
    if run.Some? {
      RunStep(adj, h, w, goal, t, budget, goal);
    }
  }

  /**
    Extracting and expanding a node `n` other than the goal gives `t2`; the run the
    loop is on stops there if nothing is open and otherwise goes on from `t2`.
  */
  lemma RunContinues(adj: map<string, set<string>>, h: map<string, real>, w: map<string, real>,
                     goal: string, t: Tree, budget: nat, n: string, t2: Tree, run: Option<RunResult>)
    requires WeightedOk(adj, h, w) && TreeOk(adj, t) && t.open != {} && budget > 0 && IsBest(t, h, n) && n != goal
    requires run.Some? ==> TieFreeRun(adj, h, w, goal, t, budget) == run
    requires forall c :: c in adj[n] ==> EdgeName(n, c) in w
    requires t2 == Relax(w, Extracted(t, n), n, adj[n])
    ensures TreeOk(adj, t2)
    ensures t2.open == {} && run.Some? ==> run == Some(RunResult(NoSolution, t2))
    ensures t2.open != {} && run.Some? ==> TieFreeRun(adj, h, w, goal, t2, budget - 1) == run
  {
    if run.Some? {
      RunStep(adj, h, w, goal, t, budget, n);
    } else {
      RelaxFacts(w, Extracted(t, n), n, adj[n]);
    }
  }

  /** The run depends on the budget's value only. */
  lemma SameBudget(adj: map<string, set<string>>, h: map<string, real>, w: map<string, real>,
                   goal: string, t: Tree, a: nat, b: nat)
    requires a == b + 1
    ensures TieFreeRun(adj, h, w, goal, t, a - 1) == TieFreeRun(adj, h, w, goal, t, b)
  {
  }

  /** A loop on the run that has used up its budget ends the run where it stands. */
  lemma RunOutOfFuel(adj: map<string, set<string>>, h: map<string, real>, w: map<string, real>,
                     goal: string, t: Tree, run: Option<RunResult>)
    requires run.Some? ==> TieFreeRun(adj, h, w, goal, t, 0) == run
    ensures run.Some? ==> run == Some(RunResult(OutOfFuel, t))
  {
  }

  /** Improving one child, with a fresh stamp, keeps the engine invariant. */
  lemma ImproveKeepsOk(adj: map<string, set<string>>, h: map<string, real>, w: map<string, real>,
                       start: string, goal: string, t: Tree, stamp: map<string, nat>, clock: nat,
                       cur: string, c: string)
    requires SearchOk(adj, h, w, start, goal, t, stamp, clock) && NonNegative(w)
    requires cur in t.parent && c in adj[cur]
    requires Improves(w, t, cur, c)
    ensures SearchOk(adj, h, w, start, goal, Improved(w, t, cur, c), stamp[c := clock], clock + 1)
  {
    var t' := Improved(w, t, cur, c);
    assert c != start;
    assert TreeOk(adj, t');
    assert t'.parent[start] == None && t'.g[start] == 0.0;
    assert forall n :: n in t'.g ==> t'.g[n] >= 0.0;
    var stamp' := stamp[c := clock];
    assert stamp'.Keys == t'.parent.Keys;
    assert forall n :: n in stamp' ==> stamp'[n] < clock + 1;
    ImproveKeepsLinked(adj, w, t, stamp, start, cur, c, clock);
  }

  /** Moving one element from the pending set to the finished set. */
  lemma RemoveOne<T>(all: set<T>, todo: set<T>, x: T)
    requires todo <= all && x in todo
    ensures all - (todo - {x}) == (all - todo) + {x}
  {
  }

  /**
    `fwd` is a suffix of the backtracked path, ending at `goal`: each node is the
    recorded parent of the next, the nodes strictly increase in backtracking
    order, and their edges cost no more than the cost difference they span.
  */
  ghost predicate Chain(adj: map<string, set<string>>, w: map<string, real>, parent: map<string, Option<string>>,
                        g: map<string, real>, stamp: map<string, nat>, goal: string, fwd: seq<string>)
  {
    && |fwd| >= 1 && fwd[|fwd| - 1] == goal
    && (forall i :: 0 <= i < |fwd| ==> fwd[i] in parent && fwd[i] in g)
    && (forall i :: 0 <= i < |fwd| - 1 ==> parent[fwd[i + 1]] == Some(fwd[i]))
    && (forall i, j :: 0 <= i < j < |fwd| ==> Precedes(g, stamp, fwd[i], fwd[j]))
    && IsPath(adj, fwd)
    && (forall i :: 0 <= i < |fwd| - 1 ==> EdgeName(fwd[i], fwd[i + 1]) in w)
    && PathCost(w, fwd) <= g[goal] - g[fwd[0]]
  }

  /** Stepping from the front of a chain to its parent extends the chain. */
  lemma ChainExtend(adj: map<string, set<string>>, w: map<string, real>, parent: map<string, Option<string>>,
                    g: map<string, real>, stamp: map<string, nat>, start: string, goal: string, fwd: seq<string>)
    requires Linked(adj, w, parent, g, stamp, start) && NonNegative(w)
    requires Chain(adj, w, parent, g, stamp, goal, fwd) && fwd[0] != start
    ensures parent[fwd[0]].Some? && parent[fwd[0]].value !in fwd
    ensures Chain(adj, w, parent, g, stamp, goal, [parent[fwd[0]].value] + fwd)
  {
    var n := fwd[0];
    assert LinkOk(adj, w, parent, g, stamp, n);
    var p := parent[n].value;
    assert w[EdgeName(p, n)] >= 0.0;
    PrecedesCons(g, stamp, p, fwd);
    PathCons(adj, p, fwd);
    var fwd' := [p] + fwd;
    assert fwd'[1..] == fwd;
    assert PathCost(w, fwd') == Weight(w, p, n) + PathCost(w, fwd);
  }

  /** A node preceding the front of a pairwise-ordered sequence keeps it ordered, and is new to it. */
  lemma PrecedesCons(g: map<string, real>, stamp: map<string, nat>, p: string, fwd: seq<string>)
    requires |fwd| >= 1 && Precedes(g, stamp, p, fwd[0])
    requires forall i, j :: 0 <= i < j < |fwd| ==> Precedes(g, stamp, fwd[i], fwd[j])
    ensures p !in fwd
    ensures forall i, j :: 0 <= i < j < |[p] + fwd| ==> Precedes(g, stamp, ([p] + fwd)[i], ([p] + fwd)[j])
  {
    var fwd' := [p] + fwd;
    forall i, j | 0 <= i < j < |fwd'|
      ensures Precedes(g, stamp, fwd'[i], fwd'[j])
    {
      if i == 0 && j > 1 {
        assert Precedes(g, stamp, fwd[0], fwd[j - 1]);
      } else if i > 0 {
        assert Precedes(g, stamp, fwd[i - 1], fwd[j - 1]);
      }
    }
    forall j | 0 <= j < |fwd|
      ensures fwd[j] != p
    {
      assert Precedes(g, stamp, fwd'[0], fwd'[j + 1]);
    }
  }

  /** A path stays a path with one more node in front that has an edge to its first node. */
  lemma PathCons(adj: map<string, set<string>>, p: string, fwd: seq<string>)
    requires IsPath(adj, fwd) && p in adj && fwd[0] in adj[p]
    ensures IsPath(adj, [p] + fwd)
  {
    var fwd' := [p] + fwd;
    forall i | 0 <= i < |fwd'| - 1
      ensures fwd'[i] in adj && fwd'[i + 1] in adj[fwd'[i]]
    {
      if i > 0 {
        assert fwd'[i] == fwd[i - 1] && fwd'[i + 1] == fwd[i];
      }
    }
  }

  /** The elements of a sequence with one more element in front. */
  lemma ElementsCons(x: string, s: seq<string>)
    ensures (set y | y in [x] + s) == (set y | y in s) + {x}
  {
  }

  /**
    `path` runs from `start` to `goal` along recorded parent links and graph edges,
    repeats no node, and its edges cost at most the goal's cumulative cost.
  */
  ghost predicate TreePath(adj: map<string, set<string>>, w: map<string, real>, parent: map<string, Option<string>>,
                           g: map<string, real>, start: string, goal: string, path: seq<string>)
  {
    && |path| >= 1 && path[0] == start && path[|path| - 1] == goal
    && IsPath(adj, path)
    && (forall i :: 0 <= i < |path| ==> path[i] in parent && path[i] in g && path[i] in adj)
    && (forall i :: 0 <= i < |path| - 1 ==> parent[path[i + 1]] == Some(path[i]))
    && (forall i, j :: 0 <= i < j < |path| ==> path[i] != path[j])
    && (forall i :: 0 <= i < |path| - 1 ==> EdgeName(path[i], path[i + 1]) in w)
    && goal in g && PathCost(w, path) <= g[goal]
  }

  /**
    `flagged` holds, when validation is on, exactly the path nodes before the goal
    whose heuristic exceeds the cost still to go along the path.
  */
  ghost predicate FlaggedOk(h: map<string, real>, g: map<string, real>, goal: string, path: seq<string>,
                            validate: bool, flagged: set<string>)
  {
    forall x :: x in flagged <==>
      validate && x in path && x != goal && x in g && x in h && goal in g && g[goal] - g[x] < h[x]
  }

  /** A chain that has arrived at the start, whose cost is zero, is a tree path. */
  lemma ChainComplete(adj: map<string, set<string>>, w: map<string, real>, parent: map<string, Option<string>>,
                      g: map<string, real>, stamp: map<string, nat>, start: string, goal: string, path: seq<string>)
    requires Chain(adj, w, parent, g, stamp, goal, path) && path[0] == start && start in g && g[start] == 0.0
    ensures TreePath(adj, w, parent, g, start, goal, path)
  {
    forall i, j | 0 <= i < j < |path|
      ensures path[i] != path[j]
    {
      assert Precedes(g, stamp, path[i], path[j]);
    }
    forall i | 0 <= i < |path|
      ensures path[i] in adj
    {
      assert IsPath(adj, path);
    }
  }

  /** What a call of `Solve` returns: a path with its cost, no solution, or an exhausted iteration bound. */
  datatype Outcome = Found(path: seq<string>, cost: real) | NoPath | FuelExhausted

  /** The kind of stop an outcome corresponds to. */
  function StopOf(result: Outcome): (stop: Stop)
    ensures stop == Reached <==> result.Found?
    ensures stop == NoSolution <==> result.NoPath?
  {
    match result
    case Found(_, _) => Reached
    case NoPath => NoSolution
    case FuelExhausted => OutOfFuel
  }

  class Astar {
    const start: string
    const goal: string
    const graph: WeightedGraph
    var treeParent: map<string, Option<string>>
    var treeCumCost: map<string, real>
    var buffer: set<string>
    var iter: nat
    /** When each reached node last got its parent; orders the tree for backtracking. */
    ghost var stamp: map<string, nat>
    ghost var clock: nat

    function Snapshot(): Tree
      reads this
    {
      Tree(treeParent, treeCumCost, buffer, iter)
    }

    ghost predicate Valid()
      reads this, graph
    {
      SearchOk(graph.adj, graph.costNode, graph.costEdge, start, goal, Snapshot(), stamp, clock)
    }

    /** The search has not yet stopped: see `Frontier`. */
    ghost predicate Searching()
      reads this, graph
    {
      Frontier(graph.adj, goal, Snapshot())
    }

    constructor (start: string, goal: string, graph: WeightedGraph)
      requires graph.Valid()
      requires start in graph.ListAllNodes() && goal in graph.ListAllNodes()
      ensures this.start == start && this.goal == goal && this.graph == graph
      ensures Valid() && Searching() && Snapshot() == InitTree(start)
    {
      this.start, this.goal, this.graph := start, goal, graph;
      treeCumCost := map[start := 0.0];
      treeParent := map[start := None];
      buffer := {start};
      iter := 0;
      stamp := map[start := 0];
      clock := 1;
    }

    /** A node counts as visited exactly when the tree holds it. */
    function NodeIsVisited(node: string): (visited: bool)
      reads this
      ensures treeParent.Keys == treeCumCost.Keys ==> (visited <==> node in treeCumCost)
    {
      node in treeParent
    }

    /** The estimated total cost of a visited node. */
    function CalcTotalCostEst(node: string): (f: real)
      reads this, graph
      requires Valid() && NodeIsVisited(node)
      ensures f == treeCumCost[node] + graph.GetCostNode(node).value
    {
      treeCumCost[node] + graph.costNode[node]
    }

    /** Scans the open set for a node of least estimate and removes it. */
    method ExtractBestNodeFromBuffer() returns (best: string)
      requires Valid() && buffer != {}
      modifies this
      ensures Valid()
      ensures IsBest(old(Snapshot()), graph.costNode, best)
      ensures Snapshot() == old(Snapshot()).(open := old(buffer) - {best})
      ensures stamp == old(stamp) && clock == old(clock)
    {
      var rest := buffer;
      best :| best in rest;
      var fLowest := CalcTotalCostEst(best);
      rest := rest - {best};
      while rest != {}
        invariant rest <= buffer && best in buffer
        invariant fLowest == F(Snapshot(), graph.costNode, best)
        invariant forall m :: m in buffer && m !in rest ==> fLowest <= F(Snapshot(), graph.costNode, m)
        decreases rest
      {
        var n :| n in rest;
        var f := CalcTotalCostEst(n);
        if f < fLowest {
          best, fLowest := n, f;
        }
        rest := rest - {n};
      }
      buffer := buffer - {best};
    }

    /**
      One pass of the expansion loop: relaxes the single child `c` of `current`.
      A node seen for the first time, or reached more cheaply, gets `current` as
      parent, its new cumulative cost and a place in the buffer.
    */
    method RelaxChild(current: string, c: string)
      requires current in treeCumCost && treeParent.Keys == treeCumCost.Keys
      requires EdgeName(current, c) in graph.costEdge
      modifies this
      ensures var t := old(Snapshot());
              Snapshot() == if Improves(graph.costEdge, t, current, c) then Improved(graph.costEdge, t, current, c) else t
      ensures var better := Improves(graph.costEdge, old(Snapshot()), current, c);
              && stamp == (if better then old(stamp)[c := old(clock)] else old(stamp))
              && clock == (if better then old(clock) + 1 else old(clock))
    {
      ghost var t := Snapshot();
      var w := graph.GetCostEdge(current, c).value;
      assert w == Weight(graph.costEdge, current, c);
      if !NodeIsVisited(c) {
        treeParent := treeParent[c := Some(current)];
        treeCumCost := treeCumCost[c := treeCumCost[current] + w];
        buffer := buffer + {c};
        stamp, clock := stamp[c := clock], clock + 1;
      } else {
        var alternative := treeCumCost[current] + w;
        if treeCumCost[c] > alternative {
          treeCumCost := treeCumCost[c := alternative];
          treeParent := treeParent[c := Some(current)];
          buffer := buffer + {c};
          stamp, clock := stamp[c := clock], clock + 1;
        }
      }
    }

    /** One step of the expansion loop: relaxing `c` extends the relaxation of `done` by `c`. */
    method RelaxNext(current: string, c: string, ghost t0: Tree, ghost done: set<string>)
      requires Valid() && NonNegative(graph.costEdge) && current in treeParent
      requires c in graph.adj[current] && done <= graph.adj[current] && c !in done
      requires current in t0.g && Snapshot() == Relax(graph.costEdge, t0, current, done)
      requires forall x :: x in graph.adj[current] ==> EdgeName(current, x) in graph.costEdge
      modifies this
      ensures Valid() && current in treeParent
      ensures Snapshot() == Relax(graph.costEdge, t0, current, done + {c})
    {
      ghost var t, st, ck := Snapshot(), stamp, clock;
      RelaxChild(current, c);
      if Improves(graph.costEdge, t, current, c) {
        ImproveKeepsOk(graph.adj, graph.costNode, graph.costEdge, start, goal, t, st, ck, current, c);
      }
      RelaxAddOne(graph.costEdge, t0, current, done, c);
    }

    /** Relaxes every child of `current`, in any order. */
    method ExpandNode(current: string)
      requires Valid() && NonNegative(graph.costEdge) && current in treeParent
      modifies this
      ensures Valid()
      ensures Snapshot() == Relax(graph.costEdge, old(Snapshot()), current, graph.adj[current])
    {
      var children := graph.adj[current];
      ghost var t0 := Snapshot();
      assert forall x :: x in children ==> EdgeName(current, x) in graph.costEdge;
      var todo := children;
      assert children - todo == {};
      RelaxNone(graph.costEdge, t0, current);
      while todo != {}
        invariant todo <= children
        invariant forall x :: x in children ==> EdgeName(current, x) in graph.costEdge
        invariant Valid() && current in treeParent
        invariant Snapshot() == Relax(graph.costEdge, t0, current, children - todo)
        decreases todo
      {
        var c :| c in todo;
        ghost var done := children - todo;
        RelaxNext(current, c, t0, done);
        RemoveOne(children, todo, c);
        todo := todo - {c};
      }
      assert children - todo == graph.adj[current];
    }

    /**
      Follows the recorded parents back from the goal to the start, putting each
      parent in front, so the path comes out in forward order. With `validateHeuristics`, `flagged` collects the path
      nodes (the goal excepted) whose heuristic exceeds the cost still to go along
      the path found; those are the nodes the search reports as inadmissible.
    */
    method Backtrack(validateHeuristics: bool) returns (path: seq<string>, flagged: set<string>)
      requires graph.Valid() && NonNegative(graph.costEdge) && goal in graph.adj
      requires start in treeCumCost && treeCumCost[start] == 0.0
      requires goal in treeParent && goal in treeCumCost && Linked(graph.adj, graph.costEdge, treeParent, treeCumCost, stamp, start)
      ensures TreePath(graph.adj, graph.costEdge, treeParent, treeCumCost, start, goal, path)
      ensures FlaggedOk(graph.costNode, treeCumCost, goal, path, validateHeuristics, flagged)
    {
      path := [goal];
      flagged := {};
      while path[0] != start
        invariant Chain(graph.adj, graph.costEdge, treeParent, treeCumCost, stamp, goal, path)
        invariant FlaggedOk(graph.costNode, treeCumCost, goal, path, validateHeuristics, flagged)
        decreases treeParent.Keys - set x | x in path
      {
        ChainExtend(graph.adj, graph.costEdge, treeParent, treeCumCost, stamp, start, goal, path);
        var next := treeParent[path[0]].value;
        if validateHeuristics {
          var remaining := treeCumCost[goal] - treeCumCost[next];
          var heuristic := graph.GetCostNode(next).value;
          if remaining < heuristic {
            flagged := flagged + {next};
          }
        }
        ElementsCons(next, path);
        path := [next] + path;
      }
      ChainComplete(graph.adj, graph.costEdge, treeParent, treeCumCost, stamp, start, goal, path);
    }

    /**
      The body of the search loop up to the goal test: count the iteration,
      extract a best open node and, unless it is the goal, expand it.
    */
    method Step() returns (current: string)
      requires Valid() && Searching() && buffer != {} && NonNegative(graph.costEdge)
      modifies this
      ensures Valid() && IsBest(old(Snapshot()), graph.costNode, current)
      ensures current == goal ==> Snapshot() == Extracted(old(Snapshot()), current)
      ensures current != goal ==>
                && Searching()
                && Snapshot() == Relax(graph.costEdge, Extracted(old(Snapshot()), current), current, graph.adj[current])
    {
      ghost var t := Snapshot();
      iter := iter + 1;
      current := ExtractBestNodeFromBuffer();
      assert Snapshot() == Extracted(t, current);
      if current != goal {
        FrontierStep(graph.adj, graph.costNode, graph.costEdge, goal, t, current);
        ExpandNode(current);
      }
    }

    /**
      One iteration of the search loop, on `run` (see `RunReached`): `Step`, then
      the test for an exhausted buffer. `stop` is `None` when the loop goes on.
    */
    method Advance(ghost run: Option<RunResult>, budget: nat) returns (stop: Option<Stop>)
      requires Valid() && Searching() && buffer != {} && NonNegative(graph.costEdge) && budget > 0
      requires run.Some? ==> TieFreeRun(graph.adj, graph.costNode, graph.costEdge, goal, Snapshot(), budget) == run
      modifies this
      ensures Valid() && stop != Some(OutOfFuel)
      ensures stop == Some(Reached) ==> goal in treeParent && (run.Some? ==> run == Some(RunResult(Reached, Snapshot())))
      ensures stop == Some(NoSolution) ==>
                && (forall q :: IsPath(graph.adj, q) && q[0] == start ==> q[|q| - 1] != goal)
                && (run.Some? ==> run == Some(RunResult(NoSolution, Snapshot())))
      ensures stop == None ==>
                && Searching() && buffer != {}
                && (run.Some? ==> TieFreeRun(graph.adj, graph.costNode, graph.costEdge, goal, Snapshot(), budget - 1) == run)
    {
      ghost var t := Snapshot();
      var current := Step();
      if current == goal {
        RunReached(graph.adj, graph.costNode, graph.costEdge, goal, t, budget, run);
        return Some(Reached);
      }
      RunContinues(graph.adj, graph.costNode, graph.costEdge, goal, t, budget, current, Snapshot(), run);
      if buffer == {} {
        FrontierExhausted(graph.adj, start, goal, Snapshot());
        return Some(NoSolution);
      }
      return None;
    }

    /**
      One iteration of the search loop and, when it stops the search, the answer:
      the backtracked path with the goal's cumulative cost, or `NoPath`.
    */
    method Iterate(validateHeuristics: bool, ghost run: Option<RunResult>, budget: nat)
      returns (result: Option<Outcome>, flagged: set<string>)
      requires Valid() && Searching() && buffer != {} && NonNegative(graph.costEdge) && budget > 0
      requires run.Some? ==> TieFreeRun(graph.adj, graph.costNode, graph.costEdge, goal, Snapshot(), budget) == run
      modifies this
      ensures Valid()
      ensures result.Some? ==> !result.value.FuelExhausted? && (run.Some? ==> run == Some(RunResult(StopOf(result.value), Snapshot())))
      ensures result.Some? && result.value.Found? ==>
                && TreePath(graph.adj, graph.costEdge, treeParent, treeCumCost, start, goal, result.value.path)
                && result.value.cost == treeCumCost[goal]
                && FlaggedOk(graph.costNode, treeCumCost, goal, result.value.path, validateHeuristics, flagged)
      ensures result.Some? && result.value.NoPath? ==>
                && flagged == {}
                && forall q :: IsPath(graph.adj, q) && q[0] == start ==> q[|q| - 1] != goal
      ensures result.None? ==>
                && Searching() && buffer != {}
                && (run.Some? ==> TieFreeRun(graph.adj, graph.costNode, graph.costEdge, goal, Snapshot(), budget - 1) == run)
    {
      var stop := Advance(run, budget);
      flagged := {};
      if stop.Some? {
        if stop.value == Reached {
          var path;
          path, flagged := Backtrack(validateHeuristics);
          return Some(Found(path, treeCumCost[goal])), flagged;
        }
        return Some(NoPath), flagged;
      }
      return None, flagged;
    }

    /**
      The search loop, cut off after `fuel` iterations. Each iteration extracts a
      best open node, stops at the goal and otherwise expands the node; an empty
      buffer means that no path exists. On success the path is backtracked and
      returned with the goal's cumulative cost.
    */
    method Solve(fuel: nat, validateHeuristics: bool := true) returns (result: Outcome, flagged: set<string>)
      requires Valid() && Searching() && buffer != {} && NonNegative(graph.costEdge)
      modifies this
      ensures Valid()
      ensures result.Found? ==>
                && TreePath(graph.adj, graph.costEdge, treeParent, treeCumCost, start, goal, result.path)
                && result.cost == treeCumCost[goal]
                && FlaggedOk(graph.costNode, treeCumCost, goal, result.path, validateHeuristics, flagged)
      ensures result.NoPath? ==> forall q :: IsPath(graph.adj, q) && q[0] == start ==> q[|q| - 1] != goal
      ensures !result.Found? ==> flagged == {}
      ensures EndsAs(graph.adj, graph.costNode, graph.costEdge, goal, old(Snapshot()), fuel, StopOf(result), Snapshot())
    {
      ghost var run := TieFreeRun(graph.adj, graph.costNode, graph.costEdge, goal, Snapshot(), fuel);
      var budget := fuel;
      while budget > 0
        invariant Valid() && Searching() && buffer != {}
        invariant run.Some? ==> TieFreeRun(graph.adj, graph.costNode, graph.costEdge, goal, Snapshot(), budget) == run
        decreases budget
      {
        var answer;
        answer, flagged := Iterate(validateHeuristics, run, budget);
        if answer.Some? {
          return answer.value, flagged;
        }
        var rest := budget - 1;
        SameBudget(graph.adj, graph.costNode, graph.costEdge, goal, Snapshot(), budget, rest);
        budget := rest;
      }
      RunOutOfFuel(graph.adj, graph.costNode, graph.costEdge, goal, Snapshot(), run);
      return FuelExhausted, {};
    }
  }
}
