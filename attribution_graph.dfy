/**
 * The multi-layer attribution graph: every OPSEC signal is a node carrying its
 * attribution weight and the risk label derived from it, every correlation is
 * a directed edge carrying its strength. The graph ranks the simple paths that
 * lead to a target signal by combined weight and summarises its strongest
 * signals and correlations in a report.
 */
module AttributionGraph {
  import opened Common
  import opened DiGraph
  import StableSort

  /** `_get_risk_level`: the band of an attribution weight; every lower bound is inclusive. */
  function RiskLevel(w: real): (r: Risk)
    ensures r == Critical <==> w >= 0.80
    ensures r == High <==> 0.60 <= w < 0.80
    ensures r == Medium <==> 0.40 <= w < 0.60
    ensures r == Low <==> 0.20 <= w < 0.40
    ensures r == Minimal <==> w < 0.20
  {
    if w >= 0.80 then Critical
    else if w >= 0.60 then High
    else if w >= 0.40 then Medium
    else if w >= 0.20 then Low
    else Minimal
  }

  /** A heavier signal never gets a milder label. */
  lemma RiskLevelMonotone(a: real, b: real)
    requires a <= b
    ensures RiskLevel(a).Rank() <= RiskLevel(b).Rank()
  {
  }

  /** The attributes `add_signal` gives a node. */
  datatype SignalAttrs = SignalAttrs(layer: string, attributionWeight: real, description: string, riskLevel: Risk)

  /** The attributes `add_correlation` gives an edge; `weight` is the correlation strength. */
  datatype CorrelationAttrs = CorrelationAttrs(weight: real, description: string)

  type SignalGraph = Graph<SignalAttrs, CorrelationAttrs>

  /** One entry of the `signals` list. */
  datatype SignalRecord = SignalRecord(id: NodeId, layer: string, aw: real, description: string)

  /** One entry of the `correlations` list. */
  datatype CorrelationRecord = CorrelationRecord(from: NodeId, to: NodeId, strength: real, description: string)

  /** Every node that carries attributes is labelled with the band of its own weight. */
  ghost predicate RiskLevelsCurrent(g: SignalGraph)
  {
    forall id :: id in g.nodes && g.nodes[id].Some? ==>
      g.nodes[id].value.riskLevel == RiskLevel(g.nodes[id].value.attributionWeight)
  }

  /** All weights and strengths lie in [0, 1], as the parameters are documented. */
  ghost predicate UnitWeights(g: SignalGraph)
  {
    && (forall id :: id in g.nodes && g.nodes[id].Some? ==> 0.0 <= g.nodes[id].value.attributionWeight <= 1.0)
    && (forall k :: k in g.edges ==> 0.0 <= g.edges[k].weight <= 1.0)
  }

  /** A node's weight as path scoring reads it: a node without attributes counts 0.5. */
  function PathSourceWeight(n: Option<SignalAttrs>): (w: real)
    ensures n.None? ==> w == 0.5
    ensures n.Some? ==> w == n.value.attributionWeight
  {
    match n
    case Some(a) => a.attributionWeight
    case None => 0.5
  }

  /** A node's weight as the report reads it: a node without attributes counts 0. */
  function ReportWeight(n: Option<SignalAttrs>): (w: real)
    ensures n.None? ==> w == 0.0
    ensures n.Some? ==> w == n.value.attributionWeight
  {
    match n
    case Some(a) => a.attributionWeight
    case None => 0.0
  }

  // ---------------------------------------------------------------------------
  // Attribution paths
  // ---------------------------------------------------------------------------

  /**
   * The strength of the edge from `u` to `v`. Scoring reads it only along a
   * walk, where the edge exists; the stand-in of 0.5 for a missing pair is
   * the default the strength lookup names and is never reached there.
   */
  function Strength(g: SignalGraph, u: NodeId, v: NodeId): (w: real)
    ensures (u, v) in g.edges ==> w == g.edges[(u, v)].weight
  {
    if (u, v) in g.edges then g.edges[(u, v)].weight else 0.5
  }

  /** The weight of the node a path starts from: 0.5 for a node without attributes. */
  function SourceWeight(g: SignalGraph, id: NodeId): (w: real)
    ensures id in g.nodes ==> w == PathSourceWeight(g.nodes[id])
  {
    if id in g.nodes then PathSourceWeight(g.nodes[id]) else 0.5
  }

  /** The product of the correlation strengths along a path (1 for a single node). */
  function EdgeProduct(g: SignalGraph, p: seq<NodeId>): real
    decreases |p|
  {
    if |p| < 2 then 1.0
    else EdgeProduct(g, p[..|p| - 1]) * Strength(g, p[|p| - 2], p[|p| - 1])
  }

  /** With strengths in [0, 1] the product along a path lies in [0, 1]. */
  lemma {:induction false} EdgeProductInUnit(g: SignalGraph, p: seq<NodeId>)
    requires UnitWeights(g)
    ensures 0.0 <= EdgeProduct(g, p) <= 1.0
    decreases |p|
  {
    if |p| >= 2 {
      EdgeProductInUnit(g, p[..|p| - 1]);
      ScaleBounds(Strength(g, p[|p| - 2], p[|p| - 1]), EdgeProduct(g, p[..|p| - 1]));
      assert EdgeProduct(g, p) == EdgeProduct(g, p[..|p| - 1]) * Strength(g, p[|p| - 2], p[|p| - 1]);
    }
  }

  /** One entry of the result of `calculate_attribution_paths`; the path is kept as its node list. */
  datatype PathResult = PathResult(path: seq<NodeId>, attributionWeight: real, hops: int)

  /** The sort key of the path ranking. */
  function PathKey(r: PathResult): real
  {
    r.attributionWeight
  }

  /** The entry for one path: strengths along it times the weight of its first node. */
  function Score(g: SignalGraph, p: seq<NodeId>): (e: PathResult)
    requires |p| >= 1
    ensures e.path == p && e.hops == |p| - 1
    ensures |p| == 1 ==> e.attributionWeight == SourceWeight(g, p[0])
  {
    PathResult(p, EdgeProduct(g, p) * SourceWeight(g, p[0]), |p| - 1)
  }

  /**
   * Correlation only attenuates: with weights and strengths in [0, 1], a
   * path's combined weight lies between 0 and the weight of its source.
   */
  lemma PathAttenuates(g: SignalGraph, p: seq<NodeId>)
    requires UnitWeights(g) && |p| >= 1
    ensures 0.0 <= Score(g, p).attributionWeight <= SourceWeight(g, p[0]) <= 1.0
  {
    var w := SourceWeight(g, p[0]);
    assert 0.0 <= w <= 1.0 by {
      if p[0] in g.nodes && g.nodes[p[0]].Some? {
        assert 0.0 <= g.nodes[p[0]].value.attributionWeight <= 1.0;
      }
    }
    var e := EdgeProduct(g, p);
    EdgeProductInUnit(g, p);
    ScaleBounds(e, w);
    assert Score(g, p).attributionWeight == e * w;
    assert e * w <= w;
  }

  /** The entries for a list of paths, in list order. */
  function ScoreAll(g: SignalGraph, ps: seq<seq<NodeId>>): seq<PathResult>
    requires forall i :: 0 <= i < |ps| ==> |ps[i]| >= 1
  {
    if ps == [] then []
    else
      ScoreAll(g, ps[..|ps| - 1]) + [Score(g, ps[|ps| - 1])]
  }

  lemma {:induction false} ScoreAllSound(g: SignalGraph, ps: seq<seq<NodeId>>, r: PathResult)
    requires forall i :: 0 <= i < |ps| ==> |ps[i]| >= 1
    requires r in ScoreAll(g, ps)
    ensures r.path in ps && r == Score(g, r.path)
    decreases |ps|
  {
    var ps' := ps[..|ps| - 1];
    assert forall p :: p in ps' ==> p in ps;
    if r != Score(g, ps[|ps| - 1]) {
      ScoreAllSound(g, ps', r);
    }
  }

  lemma {:induction false} ScoreAllComplete(g: SignalGraph, ps: seq<seq<NodeId>>, p: seq<NodeId>)
    requires forall i :: 0 <= i < |ps| ==> |ps[i]| >= 1
    requires p in ps
    ensures Score(g, p) in ScoreAll(g, ps)
    decreases |ps|
  {
    var ps' := ps[..|ps| - 1];
    assert ps == ps' + [ps[|ps| - 1]];
    assert forall q :: q in ps' ==> q in ps;
    if p != ps[|ps| - 1] {
      ScoreAllComplete(g, ps', p);
    }
  }

  lemma {:induction false} ScoreAllDistinct(g: SignalGraph, ps: seq<seq<NodeId>>)
    requires forall i :: 0 <= i < |ps| ==> |ps[i]| >= 1
    requires Distinct(ps)
    ensures Distinct(ScoreAll(g, ps))
    decreases |ps|
  {
    if ps != [] {
      var ps', last := ps[..|ps| - 1], ps[|ps| - 1];
      assert forall p :: p in ps' ==> p in ps;
      assert Distinct(ps') by {
        forall i, j | 0 <= i < j < |ps'| ensures ps'[i] != ps'[j] {
          assert ps'[i] == ps[i] && ps'[j] == ps[j];
        }
      }
      ScoreAllDistinct(g, ps');
      forall r | r in ScoreAll(g, ps') ensures r !in [Score(g, last)] {
        ScoreAllSound(g, ps', r);
        assert last !in ps' by {
          forall i | 0 <= i < |ps'| ensures ps'[i] != last {
            assert ps'[i] == ps[i];
          }
        }
      }
      DistinctConcat(ScoreAll(g, ps'), [Score(g, last)]);
    }
  }

  /** The entries for one source: its simple paths to the target in enumeration order; none from the target itself. */
  ghost function FromSource(g: SignalGraph, s: NodeId, target: NodeId): seq<PathResult>
    requires g.WellFormed() && s in g.nodes && target in g.nodes
  {
    if s == target then [] else ScoreAll(g, AllSimplePaths(g, s, target))
  }

  lemma FromSourceSound(g: SignalGraph, s: NodeId, target: NodeId, r: PathResult)
    requires g.WellFormed() && s in g.nodes && target in g.nodes
    requires r in FromSource(g, s, target)
    ensures IsSimplePathTo(g, r.path, target) && r.path[0] == s && r == Score(g, r.path)
  {
    ScoreAllSound(g, AllSimplePaths(g, s, target), r);
  }

  lemma FromSourceComplete(g: SignalGraph, s: NodeId, target: NodeId, p: seq<NodeId>)
    requires g.WellFormed() && s in g.nodes && target in g.nodes
    requires IsSimplePathTo(g, p, target) && p[0] == s
    ensures Score(g, p) in FromSource(g, s, target)
  {
    assert p[0] != p[|p| - 1];
    ScoreAllComplete(g, AllSimplePaths(g, s, target), p);
  }

  lemma FromSourceDistinct(g: SignalGraph, s: NodeId, target: NodeId)
    requires g.WellFormed() && s in g.nodes && target in g.nodes
    ensures Distinct(FromSource(g, s, target))
  {
    if s != target {
      ScoreAllDistinct(g, AllSimplePaths(g, s, target));
    }
  }

  /**
   * The entries in the order the loops of `calculate_attribution_paths`
   * produce them: for every source other than the target, in node order, the
   * simple paths from it to the target in enumeration order.
   */
  ghost function Enumerated(g: SignalGraph, sources: seq<NodeId>, target: NodeId): seq<PathResult>
    requires g.WellFormed() && target in g.nodes
    requires forall k :: 0 <= k < |sources| ==> sources[k] in g.nodes
  {
    if sources == [] then []
    else Enumerated(g, sources[..|sources| - 1], target) + FromSource(g, sources[|sources| - 1], target)
  }

  /** Every entry is a simple path to the target and carries its own score. */
  lemma {:induction false} EnumeratedSound(g: SignalGraph, sources: seq<NodeId>, target: NodeId, r: PathResult)
    requires g.WellFormed() && target in g.nodes
    requires forall k :: 0 <= k < |sources| ==> sources[k] in g.nodes
    requires r in Enumerated(g, sources, target)
    ensures IsSimplePathTo(g, r.path, target) && r.path[0] in sources && r == Score(g, r.path)
    decreases |sources|
  {
    var rest, s := sources[..|sources| - 1], sources[|sources| - 1];
    assert sources == rest + [s];
    if r in Enumerated(g, rest, target) {
      EnumeratedSound(g, rest, target, r);
    } else {
      FromSourceSound(g, s, target, r);
    }
  }

  /** Every simple path to the target from a listed source has its entry. */
  lemma {:induction false} EnumeratedComplete(g: SignalGraph, sources: seq<NodeId>, target: NodeId, p: seq<NodeId>)
    requires g.WellFormed() && target in g.nodes
    requires forall k :: 0 <= k < |sources| ==> sources[k] in g.nodes
    requires IsSimplePathTo(g, p, target) && p[0] in sources
    ensures Score(g, p) in Enumerated(g, sources, target)
    decreases |sources|
  {
    var rest, s := sources[..|sources| - 1], sources[|sources| - 1];
    assert sources == rest + [s];
    if p[0] == s {
      FromSourceComplete(g, s, target, p);
    } else {
      EnumeratedComplete(g, rest, target, p);
    }
  }

  /** No entry occurs twice when no source is listed twice. */
  lemma {:induction false} EnumeratedDistinct(g: SignalGraph, sources: seq<NodeId>, target: NodeId)
    requires g.WellFormed() && target in g.nodes
    requires forall k :: 0 <= k < |sources| ==> sources[k] in g.nodes
    requires Distinct(sources)
    ensures Distinct(Enumerated(g, sources, target))
    decreases |sources|
  {
    if sources != [] {
      var rest, s := sources[..|sources| - 1], sources[|sources| - 1];
      assert sources == rest + [s];
      assert Distinct(rest) by {
        forall i, j | 0 <= i < j < |rest| ensures rest[i] != rest[j] {
          assert rest[i] == sources[i] && rest[j] == sources[j];
        }
      }
      EnumeratedDistinct(g, rest, target);
      FromSourceDistinct(g, s, target);
      assert s !in rest by {
        forall i | 0 <= i < |rest| ensures rest[i] != s {
          assert rest[i] == sources[i];
        }
      }
      forall r | r in Enumerated(g, rest, target) ensures IsSimplePathTo(g, r.path, target) && r.path[0] in rest {
        EnumeratedSound(g, rest, target, r);
      }
      forall r | r in FromSource(g, s, target) ensures IsSimplePathTo(g, r.path, target) && r.path[0] == s {
        FromSourceSound(g, s, target, r);
      }
      DistinctConcat(Enumerated(g, rest, target), FromSource(g, s, target));
    }
  }

  /** The unsorted list `calculate_attribution_paths` builds. */
  ghost function AttributionPaths(g: SignalGraph, target: NodeId): (r: seq<PathResult>)
    requires g.WellFormed() && target in g.nodes
    ensures forall e :: e in r ==> IsSimplePathTo(g, e.path, target) && e == Score(g, e.path)
    ensures Distinct(r)
  {
    var r := Enumerated(g, g.order, target);
    assert forall e :: e in r ==> IsSimplePathTo(g, e.path, target) && e == Score(g, e.path) by {
      forall e | e in r ensures IsSimplePathTo(g, e.path, target) && e == Score(g, e.path) {
        EnumeratedSound(g, g.order, target, e);
      }
    }
    EnumeratedDistinct(g, g.order, target);
    r
  }

  /** The result of `calculate_attribution_paths`: the ranked entries, or the outcome the model reports for a target that is not a node. */
  datatype PathsOutcome = Ranked(paths: seq<PathResult>) | NodeNotFound

  /**
   * The product loop for one path, started at 1.0. On the enumerated paths,
   * which are walks, every strength read is the weight of an existing edge.
   */
  method CombinedStrength(g: SignalGraph, path: seq<NodeId>) returns (combined: real)
    requires |path| >= 1
    ensures combined == EdgeProduct(g, path)
  {
    combined := 1.0;
    var j := 0;
    while j < |path| - 1
      invariant 0 <= j <= |path| - 1
      invariant combined == EdgeProduct(g, path[..j + 1])
    {
      assert path[..j + 2][..j + 1] == path[..j + 1];
      combined := combined * Strength(g, path[j], path[j + 1]);
      j := j + 1;
    }
    assert path[..|path|] == path;
  }

  /** The inner loop over the simple paths from one source: one scored entry per path, in order. */
  method ScoreEach(g: SignalGraph, source: NodeId, all: seq<seq<NodeId>>) returns (scored: seq<PathResult>)
    requires source in g.nodes
    requires forall i :: 0 <= i < |all| ==> |all[i]| >= 2 && all[i][0] == source
    ensures scored == ScoreAll(g, all)
  {
    scored := [];
    var k := 0;
    while k < |all|
      invariant 0 <= k <= |all|
      invariant scored == ScoreAll(g, all[..k])
    {
      var path := all[k];
      var combined := CombinedStrength(g, path);
      combined := combined * PathSourceWeight(g.nodes[source]);
      assert PathResult(path, combined, |path| - 1) == Score(g, path) by {
        assert path[0] == source;
      }
      assert all[..k + 1][..k] == all[..k];
      assert ScoreAll(g, all[..k + 1]) == ScoreAll(g, all[..k]) + [Score(g, path)];
      scored := scored + [PathResult(path, combined, |path| - 1)];
      k := k + 1;
    }
    assert all[..k] == all;
  }

  /** The entries for one source other than the target, in enumeration order. */
  method ScoreSource(g: SignalGraph, source: NodeId, target: NodeId) returns (scored: seq<PathResult>)
    requires g.WellFormed() && source in g.nodes && target in g.nodes && source != target
    ensures scored == FromSource(g, source, target)
  {
    var all := AllSimplePaths(g, source, target);
    scored := ScoreEach(g, source, all);
  }

  /** The entries of one more source extend the list. */
  lemma EnumeratedStep(g: SignalGraph, sources: seq<NodeId>, i: nat, target: NodeId)
    requires g.WellFormed() && target in g.nodes && i < |sources|
    requires forall k :: 0 <= k < |sources| ==> sources[k] in g.nodes
    ensures Enumerated(g, sources[..i + 1], target) == Enumerated(g, sources[..i], target) + FromSource(g, sources[i], target)
  {
    assert sources[..i + 1][..i] == sources[..i];
  }

  /** The loops of `calculate_attribution_paths` over a known target, then the sort. */
  method RankPaths(g: SignalGraph, target: NodeId) returns (ranked: seq<PathResult>)
    requires g.WellFormed() && target in g.nodes
    ensures StableSort.IsStableSortDesc(ranked, AttributionPaths(g, target), PathKey)
  {
    var unsorted: seq<PathResult> := [];
    var i := 0;
    while i < |g.order|
      invariant 0 <= i <= |g.order|
      invariant unsorted == Enumerated(g, g.order[..i], target)
    {
      var source := g.order[i];
      var scored: seq<PathResult> := [];
      if source != target {
        scored := ScoreSource(g, source, target);
      }
      EnumeratedStep(g, g.order, i, target);
      unsorted := unsorted + scored;
      i := i + 1;
    }
    assert g.order[..i] == g.order;
    ranked := StableSort.SortDesc(unsorted, PathKey);
  }

  /**
   * What the ranking of the enumerated entries holds: exactly the simple paths
   * to the target, each once and with its own score, and under unit weights
   * no entry outweighs its source.
   */
  lemma RankingFacts(g: SignalGraph, target: NodeId, ranked: seq<PathResult>)
    requires g.WellFormed() && target in g.nodes
    requires StableSort.IsStableSortDesc(ranked, AttributionPaths(g, target), PathKey)
    ensures forall e :: e in ranked ==> IsSimplePathTo(g, e.path, target) && e == Score(g, e.path)
    ensures forall p :: IsSimplePathTo(g, p, target) ==> Score(g, p) in ranked
    ensures forall e :: e in ranked ==> |e.path| >= 2 && e.path[0] != target && e.hops == |e.path| - 1
    ensures ranked == [] <==> !exists p :: IsSimplePathTo(g, p, target)
    ensures Distinct(ranked)
    ensures UnitWeights(g) ==>
      forall e :: e in ranked ==>
        (IsSimplePathTo(g, e.path, target) && e.path[0] in g.nodes &&
         0.0 <= e.attributionWeight <= SourceWeight(g, e.path[0]))
  {
    var unsorted := AttributionPaths(g, target);
    forall e | e in ranked
      ensures IsSimplePathTo(g, e.path, target) && e == Score(g, e.path)
    {
      assert e in multiset(unsorted);
      EnumeratedSound(g, g.order, target, e);
    }
    forall e | e in ranked ensures |e.path| >= 2 && e.path[0] != target && e.hops == |e.path| - 1 {
      assert IsSimplePathTo(g, e.path, target) && e == Score(g, e.path);
      assert e.path[0] != e.path[|e.path| - 1];
    }
    if ranked != [] {
      assert ranked[0] in ranked;
      assert IsSimplePathTo(g, ranked[0].path, target);
    }
    forall p | IsSimplePathTo(g, p, target) ensures Score(g, p) in ranked {
      assert (p[0], p[1]) in g.edges;
      EnumeratedComplete(g, g.order, target, p);
      assert Score(g, p) in multiset(ranked);
    }
    EnumeratedDistinct(g, g.order, target);
    DistinctPermutation(ranked, unsorted);
    if UnitWeights(g) {
      forall e | e in ranked
        ensures IsSimplePathTo(g, e.path, target) && e.path[0] in g.nodes && 0.0 <= e.attributionWeight <= SourceWeight(g, e.path[0])
      {
        assert (e.path[0], e.path[1]) in g.edges;
        PathAttenuates(g, e.path);
      }
    }
  }

  // ---------------------------------------------------------------------------
  // Report
  // ---------------------------------------------------------------------------

  /** A line of the high-risk section: id, layer (default "Unknown"), weight (default 0), description (default ""). */
  datatype HighRiskEntry = HighRiskEntry(id: NodeId, layer: string, attributionWeight: real, description: string)

  /** A line of the strongest-correlations section. */
  datatype StrongEntry = StrongEntry(source: NodeId, target: NodeId, strength: real, description: string)

  /** The content of `generate_report`: the two counts and the two ranked sections, or the "No graph data" error. */
  datatype Report =
    | Report(totalSignals: nat, totalCorrelations: nat, highRisk: seq<HighRiskEntry>, strongest: seq<StrongEntry>)
    | NoGraphData

  function HighRiskKey(e: HighRiskEntry): real
  {
    e.attributionWeight
  }

  function StrongKey(e: StrongEntry): real
  {
    e.strength
  }

  /** The high-risk line for a node, reading every attribute with its default. */
  function HighRiskEntryOf(id: NodeId, n: Option<SignalAttrs>): HighRiskEntry
  {
    HighRiskEntry(
      id,
      match n case Some(a) => a.layer case None => "Unknown",
      ReportWeight(n),
      match n case Some(a) => a.description case None => "")
  }

  /** `e` is the line of a node whose weight exceeds 0.70. */
  ghost predicate IsHighRiskEntry(g: SignalGraph, e: HighRiskEntry)
  {
    e.id in g.nodes && ReportWeight(g.nodes[e.id]) > 0.70 && e == HighRiskEntryOf(e.id, g.nodes[e.id])
  }

  /** `e` is the line of an edge whose strength exceeds 0.70. */
  ghost predicate IsStrongEntry(g: SignalGraph, e: StrongEntry)
  {
    && (e.source, e.target) in g.edges
    && g.edges[(e.source, e.target)].weight > 0.70
    && e == StrongEntry(e.source, e.target, g.edges[(e.source, e.target)].weight, g.edges[(e.source, e.target)].description)
  }

  /** The high-risk lines of `ids`, in list order. */
  function HighRiskIn(g: SignalGraph, ids: seq<NodeId>): (r: seq<HighRiskEntry>)
    requires forall k :: 0 <= k < |ids| ==> ids[k] in g.nodes
    ensures |r| <= |ids|
    ensures forall k :: 0 <= k < |r| ==> r[k].attributionWeight > 0.70
  {
    if ids == [] then []
    else
      var id := ids[|ids| - 1];
      HighRiskIn(g, ids[..|ids| - 1])
        + (if ReportWeight(g.nodes[id]) > 0.70 then [HighRiskEntryOf(id, g.nodes[id])] else [])
  }

  lemma {:induction false} HighRiskInExact(g: SignalGraph, ids: seq<NodeId>, e: HighRiskEntry)
    requires forall k :: 0 <= k < |ids| ==> ids[k] in g.nodes
    ensures e in HighRiskIn(g, ids) <==> e.id in ids && IsHighRiskEntry(g, e)
    decreases |ids|
  {
    if ids != [] {
      var rest, id := ids[..|ids| - 1], ids[|ids| - 1];
      assert ids == rest + [id];
      HighRiskInExact(g, rest, e);
    }
  }

  /** A weight above 0.70 in the report belongs to a node that carries attributes. */
  lemma HighRiskHasAttributes(g: SignalGraph, e: HighRiskEntry)
    requires IsHighRiskEntry(g, e)
    ensures g.nodes[e.id].Some? && e.attributionWeight == g.nodes[e.id].value.attributionWeight > 0.70
  {
  }

  /** The strong lines for the edges from `u` to each of `vs`, in list order. */
  function StrongOut(g: SignalGraph, u: NodeId, vs: seq<NodeId>): (r: seq<StrongEntry>)
    requires forall k :: 0 <= k < |vs| ==> (u, vs[k]) in g.edges
    ensures |r| <= |vs|
    ensures forall k :: 0 <= k < |r| ==> r[k].source == u && r[k].strength > 0.70
  {
    if vs == [] then []
    else
      var v := vs[|vs| - 1];
      var a := g.edges[(u, v)];
      StrongOut(g, u, vs[..|vs| - 1]) + (if a.weight > 0.70 then [StrongEntry(u, v, a.weight, a.description)] else [])
  }

  /** The strong lines in networkx edge order: by source node in `us`, then by successor. */
  function StrongIn(g: SignalGraph, us: seq<NodeId>): (r: seq<StrongEntry>)
    requires g.WellFormed()
    ensures forall k :: 0 <= k < |r| ==> r[k].strength > 0.70 && r[k].source in us
  {
    if us == [] then []
    else
      var u := us[|us| - 1];
      StrongIn(g, us[..|us| - 1]) + StrongOut(g, u, Successors(g, u))
  }

  lemma {:induction false} StrongOutExact(g: SignalGraph, u: NodeId, vs: seq<NodeId>, e: StrongEntry)
    requires forall k :: 0 <= k < |vs| ==> (u, vs[k]) in g.edges
    ensures e in StrongOut(g, u, vs) <==> e.source == u && e.target in vs && IsStrongEntry(g, e)
    decreases |vs|
  {
    if vs != [] {
      var rest, v := vs[..|vs| - 1], vs[|vs| - 1];
      assert vs == rest + [v];
      StrongOutExact(g, u, rest, e);
    }
  }

  lemma {:induction false} StrongInExact(g: SignalGraph, us: seq<NodeId>, e: StrongEntry)
    requires g.WellFormed()
    ensures e in StrongIn(g, us) <==> e.source in us && IsStrongEntry(g, e)
    decreases |us|
  {
    if us != [] {
      var rest, u := us[..|us| - 1], us[|us| - 1];
      assert us == rest + [u];
      StrongInExact(g, rest, e);
      StrongOutExact(g, u, Successors(g, u), e);
    }
  }

  /** Adding an edge keeps every label current: old nodes keep their attributes, new ones have none. */
  lemma AddEdgeKeepsLabels(g: SignalGraph, g': SignalGraph, u: NodeId, v: NodeId, e: CorrelationAttrs)
    requires g.WellFormed() && RiskLevelsCurrent(g) && g' == AddEdge(g, u, v, e)
    ensures RiskLevelsCurrent(g')
  {
    forall id | id in g'.nodes && g'.nodes[id].Some?
      ensures g'.nodes[id].value.riskLevel == RiskLevel(g'.nodes[id].value.attributionWeight)
    {
      assert id in g.nodes;
    }
  }

  // ---------------------------------------------------------------------------
  // The visualizer
  // ---------------------------------------------------------------------------

  /**
   * `AttributionGraphVisualizer` with networkx present: the graph and the two
   * logs of what was added. `add_signal` and `add_correlation` guard on the
   * graph's presence only (the intended reading of their guard);
   * `calculate_attribution_paths` and `generate_report` treat a graph without
   * nodes as their `if not self.graph` does.
   */
  class AttributionGraphVisualizer {
    var graph: SignalGraph
    var signals: seq<SignalRecord>
    var correlations: seq<CorrelationRecord>

    ghost predicate Valid()
      reads this
    {
      graph.WellFormed() && RiskLevelsCurrent(graph)
    }

    constructor ()
      ensures Valid()
      ensures graph == EmptyGraph() && signals == [] && correlations == []
    {
      graph := EmptyGraph();
      signals := [];
      correlations := [];
    }

    /** `add_signal`: the node's attributes are replaced, and the call is logged. */
    method AddSignal(signalId: NodeId, layer: string, attributionWeight: real, description: string := "")
      requires Valid()
      modifies this
      ensures Valid()
      ensures graph == AddNode(old(graph), signalId, SignalAttrs(layer, attributionWeight, description, RiskLevel(attributionWeight)))
      ensures graph.nodes[signalId] == Some(SignalAttrs(layer, attributionWeight, description, RiskLevel(attributionWeight)))
      ensures forall id :: id in old(graph.nodes) && id != signalId ==> id in graph.nodes && graph.nodes[id] == old(graph.nodes[id])
      ensures graph.edges == old(graph.edges)
      ensures |graph.nodes| == |old(graph.nodes)| + (if signalId in old(graph.nodes) then 0 else 1)
      ensures signals == old(signals) + [SignalRecord(signalId, layer, attributionWeight, description)]
      ensures correlations == old(correlations)
    {
      graph := AddNode(graph, signalId, SignalAttrs(layer, attributionWeight, description, RiskLevel(attributionWeight)));
      signals := signals + [SignalRecord(signalId, layer, attributionWeight, description)];
    }

    /**
     * `add_correlation`: the edge's attributes are replaced (a repeated pair
     * keeps only the last strength), missing endpoints appear without
     * attributes, and the call is logged.
     */
    method AddCorrelation(signal1: NodeId, signal2: NodeId, correlationStrength: real, description: string := "")
      requires Valid()
      modifies this
      ensures Valid()
      ensures graph == AddEdge(old(graph), signal1, signal2, CorrelationAttrs(correlationStrength, description))
      ensures signal1 in graph.nodes && signal2 in graph.nodes
      ensures (signal1, signal2) in graph.edges && graph.edges[(signal1, signal2)] == CorrelationAttrs(correlationStrength, description)
      ensures correlations == old(correlations) + [CorrelationRecord(signal1, signal2, correlationStrength, description)]
      ensures signals == old(signals)
    {
      var g := AddEdge(graph, signal1, signal2, CorrelationAttrs(correlationStrength, description));
      AddEdgeKeepsLabels(graph, g, signal1, signal2, CorrelationAttrs(correlationStrength, description));
      graph := g;
      correlations := correlations + [CorrelationRecord(signal1, signal2, correlationStrength, description)];
    }

    /**
     * `calculate_attribution_paths`: every simple path from another node to
     * the target, scored, and ranked by combined weight, highest first, ties
     * in enumeration order. An unknown target is an error unless the graph has
     * no node to start from.
     */
    method CalculateAttributionPaths(targetNode: NodeId) returns (r: PathsOutcome)
      requires Valid()
      ensures targetNode !in graph.nodes ==> r == (if |graph.nodes| == 0 then Ranked([]) else NodeNotFound)
      ensures targetNode in graph.nodes ==> r.Ranked?
      ensures targetNode in graph.nodes ==> StableSort.IsStableSortDesc(r.paths, AttributionPaths(graph, targetNode), PathKey)
      ensures targetNode in graph.nodes ==>
        forall e :: e in r.paths ==> IsSimplePathTo(graph, e.path, targetNode) && e == Score(graph, e.path)
      ensures targetNode in graph.nodes ==>
        forall p :: IsSimplePathTo(graph, p, targetNode) ==> Score(graph, p) in r.paths
      ensures targetNode in graph.nodes ==> Distinct(r.paths)
      ensures targetNode in graph.nodes && UnitWeights(graph) ==>
        forall e :: e in r.paths ==>
          (IsSimplePathTo(graph, e.path, targetNode) && e.path[0] in graph.nodes &&
           0.0 <= e.attributionWeight <= SourceWeight(graph, e.path[0]))
    {
      var g := graph;
      if targetNode !in g.nodes {
        if |g.nodes| == 0 {
          return Ranked([]);
        }
        return NodeNotFound;
      }
      var ranked := RankPaths(g, targetNode);
      RankingFacts(g, targetNode, ranked);
      r := Ranked(ranked);
    }

    /**
     * `generate_report`: on a graph without nodes the "No graph data" error
     * (`if not self.graph` tests the graph's truth value); otherwise the node
     * and edge counts, the nodes whose weight exceeds 0.70 and the edges whose
     * strength exceeds 0.70, each section ranked highest first with ties in
     * graph order.
     */
    method GenerateReport() returns (report: Report)
      requires Valid()
      ensures report.NoGraphData? <==> !GraphTruthy(graph)
      ensures report.Report? ==> report.totalSignals == |graph.nodes| && report.totalCorrelations == |graph.edges|
      ensures report.Report? ==> StableSort.IsStableSortDesc(report.highRisk, HighRiskIn(graph, graph.order), HighRiskKey)
      ensures report.Report? ==> forall e :: e in report.highRisk <==> IsHighRiskEntry(graph, e)
      ensures report.Report? ==> StableSort.IsStableSortDesc(report.strongest, StrongIn(graph, graph.order), StrongKey)
      ensures report.Report? ==> forall e :: e in report.strongest <==> IsStrongEntry(graph, e)
    {
      var g := graph;
      if !GraphTruthy(g) {
        return NoGraphData;
      }
      var highRisk := HighRiskIn(g, g.order);
      var strong := StrongIn(g, g.order);
      var highRanked := StableSort.SortDesc(highRisk, HighRiskKey);
      var strongRanked := StableSort.SortDesc(strong, StrongKey);
      forall e ensures e in highRanked <==> IsHighRiskEntry(g, e) {
        assert e in highRanked <==> e in multiset(highRisk);
        HighRiskInExact(g, g.order, e);
      }
      forall e ensures e in strongRanked <==> IsStrongEntry(g, e) {
        assert e in strongRanked <==> e in multiset(strong);
        StrongInExact(g, g.order, e);
      }
      report := Report(|g.nodes|, |g.edges|, highRanked, strongRanked);
    }
  }

  // ---------------------------------------------------------------------------
  // The presence guard as written
  // ---------------------------------------------------------------------------

  /** The truth value of a networkx graph, which `if not self.graph` tests: true exactly when it has a node. */
  predicate GraphTruthy(g: SignalGraph)
  {
    |g.nodes| > 0
  }

  /** A graph is falsy exactly when it is the empty graph `nx.DiGraph()`: no nodes leaves no edges and no order. */
  lemma FalsyIsEmpty(g: SignalGraph)
    requires g.WellFormed()
    ensures !GraphTruthy(g) <==> g == EmptyGraph()
  {
    if !GraphTruthy(g) {
      assert g.nodes == map[];
      assert multiset(g.order) == multiset{};
      assert g.edges == map[];
      assert multiset(g.edgeOrder) == multiset{};
    }
  }

  /** A call of `add_signal` or `add_correlation`. */
  datatype Call =
    | SignalCall(signalId: NodeId, layer: string, attributionWeight: real, description: string)
    | CorrelationCall(signal1: NodeId, signal2: NodeId, strength: real, description: string)

  /** One call with the guard as written: a graph without nodes is left alone. */
  function ApplyAsWritten(g: SignalGraph, c: Call): (g': SignalGraph)
    requires g.WellFormed()
    ensures g'.WellFormed()
    ensures !GraphTruthy(g) ==> g' == g
    ensures GraphTruthy(g) ==> GraphTruthy(g')
  {
    if !GraphTruthy(g) then g
    else
      match c
      case SignalCall(id, layer, w, d) => AddNode(g, id, SignalAttrs(layer, w, d, RiskLevel(w)))
      case CorrelationCall(u, v, s, d) => AddEdge(g, u, v, CorrelationAttrs(s, d))
  }

  /** A sequence of calls with the guard as written, in call order. */
  function RunAsWritten(g: SignalGraph, calls: seq<Call>): (g': SignalGraph)
    requires g.WellFormed()
    ensures g'.WellFormed()
    ensures !GraphTruthy(g) ==> g' == g
    ensures GraphTruthy(g) ==> GraphTruthy(g')
    decreases |calls|
  {
    if calls == [] then g else RunAsWritten(ApplyAsWritten(g, calls[0]), calls[1..])
  }

  /** With the guard as written, a fresh visualizer's graph never gets a node, whatever is added. */
  lemma {:induction false} AsWrittenGraphStaysEmpty(calls: seq<Call>)
    ensures RunAsWritten(EmptyGraph(), calls) == EmptyGraph()
    ensures !GraphTruthy(RunAsWritten(EmptyGraph(), calls))
    decreases |calls|
  {
    if calls != [] {
      AsWrittenGraphStaysEmpty(calls[1..]);
    }
  }
}
