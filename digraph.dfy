/**
 * The part of a networkx `DiGraph` the attribution graph relies on, as a value:
 * nodes with an optional attribute record, directed edges with an attribute
 * record, both kept in insertion order, `add_node`, `add_edge`, the successor
 * view, and the enumeration of all simple paths from a source to a target.
 */
module DiGraph {
  import opened Common

  type NodeId = string
  type EdgeKey = (NodeId, NodeId)

  /**
   * `nodes` maps an id to its attributes, `None` for a node that `add_edge`
   * created and that was never given any; `order` lists the ids in the order
   * they were first added. `edges` maps an ordered pair to its attributes;
   * `edgeOrder` lists the pairs in the order they were first added, which is
   * also the order of each node's successors.
   */
  datatype Graph<A, E> = Graph(
    nodes: map<NodeId, Option<A>>,
    order: seq<NodeId>,
    edges: map<EdgeKey, E>,
    edgeOrder: seq<EdgeKey>)
  {
    /** The order lists are duplicate-free and list exactly the keys; every edge joins two nodes. */
    ghost predicate WellFormed()
    {
      && Distinct(order)
      && (forall i :: 0 <= i < |order| ==> order[i] in nodes)
      && (forall id :: id in nodes ==> id in order)
      && Distinct(edgeOrder)
      && (forall i :: 0 <= i < |edgeOrder| ==> edgeOrder[i] in edges)
      && (forall e :: e in edges ==> e in edgeOrder)
      && (forall e :: e in edges ==> e.0 in nodes && e.1 in nodes)
    }
  }

  /** `nx.DiGraph()`. */
  function EmptyGraph<A, E>(): (g: Graph<A, E>)
    ensures g.WellFormed()
    ensures |g.nodes| == 0 && |g.edges| == 0
  {
    Graph(map[], [], map[], [])
  }

  /**
   * `add_node(id, **attrs)` with every attribute given: the node's attributes
   * are replaced, and a new id goes to the end of the node order.
   */
  function AddNode<A, E>(g: Graph<A, E>, id: NodeId, a: A): (g': Graph<A, E>)
    requires g.WellFormed()
    ensures g'.WellFormed()
    ensures g'.nodes == g.nodes[id := Some(a)]
    ensures g'.edges == g.edges && g'.edgeOrder == g.edgeOrder
    ensures |g'.nodes| == |g.nodes| + (if id in g.nodes then 0 else 1)
    ensures id in g.nodes ==> g'.order == g.order
    ensures id !in g.nodes ==> g'.order == g.order + [id]
  {
    if id in g.nodes then g.(nodes := g.nodes[id := Some(a)])
    else g.(nodes := g.nodes[id := Some(a)], order := g.order + [id])
  }

  /** A node that is not yet there is added without attributes. */
  function EnsureNode<A, E>(g: Graph<A, E>, id: NodeId): (g': Graph<A, E>)
    requires g.WellFormed()
    ensures g'.WellFormed()
    ensures g'.nodes.Keys == g.nodes.Keys + {id}
    ensures forall x :: x in g.nodes ==> g'.nodes[x] == g.nodes[x]
    ensures id !in g.nodes ==> g'.nodes[id] == None
    ensures g'.edges == g.edges && g'.edgeOrder == g.edgeOrder
    ensures g'.order == g.order + (if id in g.nodes then [] else [id])
  {
    if id in g.nodes then g
    else g.(nodes := g.nodes[id := None], order := g.order + [id])
  }

  /**
   * `add_edge(u, v, **attrs)` with every attribute given: a missing endpoint
   * is created without attributes (first `u`, then `v`), and the edge's
   * attributes are replaced; a new pair goes to the end of the edge order.
   */
  function AddEdge<A, E>(g: Graph<A, E>, u: NodeId, v: NodeId, e: E): (g': Graph<A, E>)
    requires g.WellFormed()
    ensures g'.WellFormed()
    ensures g'.edges == g.edges[(u, v) := e]
    ensures g'.nodes.Keys == g.nodes.Keys + {u, v}
    ensures forall x :: x in g.nodes ==> g'.nodes[x] == g.nodes[x]
    ensures forall x :: x in g'.nodes && x !in g.nodes ==> g'.nodes[x] == None
    ensures |g'.edges| == |g.edges| + (if (u, v) in g.edges then 0 else 1)
  {
    var g1 := EnsureNode(g, u);
    var g2 := EnsureNode(g1, v);
    assert g2.nodes.Keys == g.nodes.Keys + {u, v};
    assert forall x :: x in g.nodes ==> g2.nodes[x] == g.nodes[x];
    assert forall x :: x in g2.nodes && x !in g.nodes ==> g2.nodes[x] == None;
    PutEdge(g2, u, v, e)
  }

  /** Stores the attributes of an edge whose endpoints are already nodes. */
  function PutEdge<A, E>(g: Graph<A, E>, u: NodeId, v: NodeId, e: E): (g': Graph<A, E>)
    requires g.WellFormed() && u in g.nodes && v in g.nodes
    ensures g'.WellFormed()
    ensures g'.nodes == g.nodes && g'.order == g.order
    ensures g'.edges == g.edges[(u, v) := e]
    ensures g'.edgeOrder == if (u, v) in g.edges then g.edgeOrder else g.edgeOrder + [(u, v)]
    ensures |g'.edges| == |g.edges| + (if (u, v) in g.edges then 0 else 1)
  {
    var k := (u, v);
    var es := if k in g.edges then g.edgeOrder else g.edgeOrder + [k];
    assert Distinct(es);
    assert forall x :: x in g.edges[k := e] ==> x in es;
    g.(edges := g.edges[k := e], edgeOrder := es)
  }

  /** Re-adding a node with new attributes is the same as adding it once: the last write wins. */
  lemma {:induction false} AddNodeLastWins<A, E>(g: Graph<A, E>, id: NodeId, a: A, b: A)
    requires g.WellFormed()
    ensures AddNode(AddNode(g, id, a), id, b) == AddNode(g, id, b)
  {
    var g1 := AddNode(g, id, a);
    assert g1.nodes[id := Some(b)] == g.nodes[id := Some(b)];
  }

  /** The targets of the pairs of `es` whose source is `u`, in the order of `es`. */
  function Targets(es: seq<EdgeKey>, u: NodeId): (vs: seq<NodeId>)
    ensures forall v :: v in vs <==> (u, v) in es
    ensures Distinct(es) ==> Distinct(vs)
  {
    if es == [] then []
    else
      var rest := Targets(es[..|es| - 1], u);
      var last := es[|es| - 1];
      assert forall v :: (u, v) in es <==> (u, v) in es[..|es| - 1] || (u, v) == last by {
        assert es == es[..|es| - 1] + [last];
      }
      rest + (if last.0 == u then [last.1] else [])
  }

  /** `G.successors(u)`: the heads of the edges out of `u`, in insertion order, each once. */
  function Successors<A, E>(g: Graph<A, E>, u: NodeId): (vs: seq<NodeId>)
    requires g.WellFormed()
    ensures forall v :: v in vs <==> (u, v) in g.edges
    ensures forall v :: v in vs ==> v in g.nodes
    ensures Distinct(vs)
  {
    Targets(g.edgeOrder, u)
  }

  /** Consecutive nodes are joined by an edge. */
  ghost predicate IsWalk<A, E>(g: Graph<A, E>, p: seq<NodeId>)
  {
    forall i :: 0 <= i < |p| - 1 ==> (p[i], p[i + 1]) in g.edges
  }

  /** A walk extended along an edge out of its last node is a walk. */
  lemma WalkExtend<A, E>(g: Graph<A, E>, path: seq<NodeId>, v: NodeId)
    requires |path| > 0 && IsWalk(g, path) && (path[|path| - 1], v) in g.edges
    ensures IsWalk(g, path + [v])
  {
    var path' := path + [v];
    forall i | 0 <= i < |path'| - 1 ensures (path'[i], path'[i + 1]) in g.edges {
      if i < |path| - 1 {
        assert path'[i] == path[i] && path'[i + 1] == path[i + 1];
      }
    }
  }

  /** Every prefix of a walk is a walk. */
  lemma WalkPrefix<A, E>(g: Graph<A, E>, p: seq<NodeId>, k: nat)
    requires IsWalk(g, p) && k <= |p|
    ensures IsWalk(g, p[..k])
  {
    forall i | 0 <= i < k - 1 ensures (p[..k][i], p[..k][i + 1]) in g.edges {
      assert p[..k][i] == p[i] && p[..k][i + 1] == p[i + 1];
    }
  }

  /** A simple path to `target`: at least one edge, no node twice, ending at `target`. */
  ghost predicate IsSimplePathTo<A, E>(g: Graph<A, E>, p: seq<NodeId>, target: NodeId)
  {
    |p| >= 2 && p[|p| - 1] == target && Distinct(p) && IsWalk(g, p)
  }

  /** The set of ids on a path, so that a DFS step can be seen to shrink what is left to visit. */
  function OnPath(path: seq<NodeId>): set<NodeId>
  {
    set x | x in path
  }

  /**
   * Depth-first search: every simple path to `target` that extends `path`
   * through one of `succs` (the successors of the last node of `path` not yet
   * tried), in the order the search finds them. A successor already on the
   * path is skipped; reaching `target` ends a path.
   */
  function Dfs<A, E>(g: Graph<A, E>, path: seq<NodeId>, target: NodeId, succs: seq<NodeId>): seq<seq<NodeId>>
    requires g.WellFormed()
    requires forall v :: v in succs ==> v in g.nodes
    decreases g.nodes.Keys - OnPath(path), |succs|
  {
    if succs == [] then []
    else
      var v := succs[0];
      var here :=
        if v in path then []
        else if v == target then [path + [v]]
        else
          assert OnPath(path + [v]) == OnPath(path) + {v};
          Dfs(g, path + [v], target, Successors(g, v));
      here + Dfs(g, path, target, succs[1..])
  }

  /** Everything the search returns is a simple path to `target` that extends `path` through `succs`. */
  lemma {:induction false} DfsSound<A, E>(g: Graph<A, E>, path: seq<NodeId>, target: NodeId, succs: seq<NodeId>, p: seq<NodeId>)
    requires g.WellFormed()
    requires forall v :: v in succs ==> v in g.nodes
    requires |path| > 0 && Distinct(path) && target !in path && IsWalk(g, path)
    requires forall v :: v in succs ==> (path[|path| - 1], v) in g.edges
    requires p in Dfs(g, path, target, succs)
    ensures IsSimplePathTo(g, p, target)
    ensures |p| > |path| && p[..|path|] == path && p[|path|] in succs
    decreases g.nodes.Keys - OnPath(path), |succs|
  {
    var v := succs[0];
    assert v in succs;
    assert forall x :: x in succs[1..] ==> x in succs;
    var rest := Dfs(g, path, target, succs[1..]);
    if v in path {
      assert p in rest;
      DfsSound(g, path, target, succs[1..], p);
    } else if v == target {
      if p == path + [v] {
        WalkExtend(g, path, v);
      } else {
        assert p in rest;
        DfsSound(g, path, target, succs[1..], p);
      }
    } else {
      assert OnPath(path + [v]) == OnPath(path) + {v};
      var deeper := Dfs(g, path + [v], target, Successors(g, v));
      assert Dfs(g, path, target, succs) == deeper + rest;
      if p in deeper {
        var path' := path + [v];
        WalkExtend(g, path, v);
        DfsSound(g, path', target, Successors(g, v), p);
        assert p[..|path|] == p[..|path'|][..|path|];
      } else {
        DfsSound(g, path, target, succs[1..], p);
      }
    }
  }

  /** Every simple path to `target` that extends `path` through `succs` is found by the search. */
  lemma {:induction false} DfsComplete<A, E>(g: Graph<A, E>, path: seq<NodeId>, target: NodeId, succs: seq<NodeId>, p: seq<NodeId>)
    requires g.WellFormed()
    requires forall v :: v in succs ==> v in g.nodes
    requires IsSimplePathTo(g, p, target)
    requires |p| > |path| && p[..|path|] == path && p[|path|] in succs
    ensures p in Dfs(g, path, target, succs)
    decreases g.nodes.Keys - OnPath(path), |succs|
  {
    var n := |path|;
    var v := succs[0];
    var rest := Dfs(g, path, target, succs[1..]);
    if p[n] == v {
      assert v !in path by {
        forall i | 0 <= i < n ensures path[i] != v {
          assert path[i] == p[i];
        }
      }
      if v == target {
        assert n == |p| - 1;
        assert p == path + [v];
      } else {
        assert n + 1 < |p|;
        assert OnPath(path + [v]) == OnPath(path) + {v};
        assert p[..n + 1] == path + [v];
        assert (p[n], p[n + 1]) in g.edges;
        DfsComplete(g, path + [v], target, Successors(g, v), p);
      }
    } else {
      DfsComplete(g, path, target, succs[1..], p);
    }
  }

  lemma DistinctConcat<T>(a: seq<T>, b: seq<T>)
    requires Distinct(a) && Distinct(b)
    requires forall x :: x in a ==> x !in b
    ensures Distinct(a + b)
  {
    forall i, j | 0 <= i < j < |a + b| ensures (a + b)[i] != (a + b)[j] {
      if i < |a| && j >= |a| {
        assert (a + b)[i] in a && (a + b)[j] in b;
      }
    }
  }

  /** A path found below successor `v` continues the current path with `v`. */
  lemma DfsBranchShape<A, E>(g: Graph<A, E>, path: seq<NodeId>, target: NodeId, v: NodeId, x: seq<NodeId>)
    requires g.WellFormed()
    requires |path| > 0 && Distinct(path) && target !in path && IsWalk(g, path)
    requires (path[|path| - 1], v) in g.edges && v !in path && v != target
    requires x in Dfs(g, path + [v], target, Successors(g, v))
    ensures |x| > |path| && x[|path|] == v
  {
    var path' := path + [v];
    WalkExtend(g, path, v);
    DfsSound(g, path', target, Successors(g, v), x);
    assert x[|path|] == x[..|path'|][|path|];
  }

  /** The search never returns the same path twice, because the successor lists have no repeats. */
  lemma {:induction false} DfsDistinct<A, E>(g: Graph<A, E>, path: seq<NodeId>, target: NodeId, succs: seq<NodeId>)
    requires g.WellFormed()
    requires forall v :: v in succs ==> v in g.nodes
    requires |path| > 0 && Distinct(path) && target !in path && IsWalk(g, path)
    requires forall v :: v in succs ==> (path[|path| - 1], v) in g.edges
    requires Distinct(succs)
    ensures Distinct(Dfs(g, path, target, succs))
    decreases g.nodes.Keys - OnPath(path), |succs|
  {
    if succs != [] {
      var v := succs[0];
      assert v in succs;
      assert forall x :: x in succs[1..] ==> x in succs;
      var rest := Dfs(g, path, target, succs[1..]);
      assert Distinct(succs[1..]);
      DfsDistinct(g, path, target, succs[1..]);
      var here :=
        if v in path then []
        else if v == target then [path + [v]]
        else Dfs(g, path + [v], target, Successors(g, v));
      assert Dfs(g, path, target, succs) == here + rest;
      if v !in path && v != target {
        var path' := path + [v];
        assert OnPath(path') == OnPath(path) + {v};
        WalkExtend(g, path, v);
        DfsDistinct(g, path', target, Successors(g, v));
      }
      forall x | x in here ensures |x| > |path| && x[|path|] == v {
        if v != target {
          DfsBranchShape(g, path, target, v, x);
        }
      }
      forall x | x in rest ensures |x| > |path| && x[|path|] in succs[1..] {
        DfsSound(g, path, target, succs[1..], x);
      }
      assert v !in succs[1..] by {
        forall i | 0 <= i < |succs[1..]| ensures succs[1..][i] != v {
          assert succs[1..][i] == succs[i + 1];
        }
      }
      DistinctConcat(here, rest);
    }
  }

  /**
   * `nx.all_simple_paths(G, source, target)` for `source != target`: every
   * simple path from `source` to `target`, each exactly once, in the order a
   * depth-first search along the successor lists finds them.
   */
  function AllSimplePaths<A, E>(g: Graph<A, E>, source: NodeId, target: NodeId): (ps: seq<seq<NodeId>>)
    requires g.WellFormed() && source in g.nodes && target in g.nodes && source != target
    ensures forall p :: p in ps ==> IsSimplePathTo(g, p, target) && p[0] == source
    ensures forall i :: 0 <= i < |ps| ==> IsSimplePathTo(g, ps[i], target) && ps[i][0] == source
    ensures forall p :: IsSimplePathTo(g, p, target) && p[0] == source ==> p in ps
    ensures Distinct(ps)
  {
    var succs := Successors(g, source);
    var ps := Dfs(g, [source], target, succs);
    forall p | p in ps ensures IsSimplePathTo(g, p, target) && p[0] == source {
      DfsSound(g, [source], target, succs, p);
    }
    forall p | IsSimplePathTo(g, p, target) && p[0] == source ensures p in ps {
      assert p[..1] == [source];
      assert (p[0], p[1]) in g.edges;
      DfsComplete(g, [source], target, succs, p);
    }
    DfsDistinct(g, [source], target, succs);
    ps
  }

  /** A simple path enters its target along an edge: a target without incoming edges ends no path. */
  lemma PathEntersTarget<A, E>(g: Graph<A, E>, p: seq<NodeId>, target: NodeId)
    requires IsSimplePathTo(g, p, target)
    ensures (p[|p| - 2], target) in g.edges
  {
    assert (p[|p| - 2], p[|p| - 1]) in g.edges;
  }
}
