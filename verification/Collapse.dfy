// Shrinking a graph to a node budget: nested regions fold into one node each,
// deepest first, and whatever is still too much is cut off.
module Collapse {
  import opened Model
  import opened Diff

  type Path = seq<nat>

  datatype NodeId = OpNode(idx: OpIdx) | GhostNode(idx: OpIdx) | ClusterNode(path: Path)

  datatype Caption = OpLabel(name: string, resultType: Option<string>) | CountLabel(count: nat)

  datatype GraphNode = GraphNode(
    id: NodeId,
    caption: Caption,
    opName: string,
    lineRange: (nat, nat),
    cluster: Path,
    change: Option<ChangeClass>,
    collapsedCount: nat,
    opIdx: Option<OpIdx>,
    side: Option<SnapshotSide>)

  datatype GraphEdge = GraphEdge(from: NodeId, to: NodeId, removed: bool)

  datatype Graph = Graph(nodes: seq<GraphNode>, edges: seq<GraphEdge>, clusters: seq<Path>, truncated: bool)

  // ------------------------------------------------------------ path order

  predicate LexLess(a: Path, b: Path) {
    if b == [] then false
    else if a == [] then true
    else a[0] < b[0] || (a[0] == b[0] && LexLess(a[1..], b[1..]))
  }

  lemma {:induction false} LexTotal(a: Path, b: Path)
    ensures a == b || LexLess(a, b) || LexLess(b, a)
  {
    if a != [] && b != [] && a[0] == b[0] {
      LexTotal(a[1..], b[1..]);
      assert a[1..] == b[1..] ==> a == [a[0]] + a[1..] == b;
    }
  }

  lemma {:induction false} LexTransitive(a: Path, b: Path, c: Path)
    requires LexLess(a, b) && LexLess(b, c)
    ensures LexLess(a, c)
  {
    if a != [] && a[0] == b[0] == c[0] {
      LexTransitive(a[1..], b[1..], c[1..]);
    }
  }

  lemma {:induction false} LexIrreflexive(a: Path)
    ensures !LexLess(a, a)
  {
    if a != [] {
      LexIrreflexive(a[1..]);
    }
  }

  /** Deeper regions come first, then lexicographic order. */
  predicate PathBefore(a: Path, b: Path) {
    |a| > |b| || (|a| == |b| && LexLess(a, b))
  }

  predicate InPathOrder(paths: seq<Path>) {
    forall i, j :: 0 <= i < j < |paths| ==> PathBefore(paths[i], paths[j])
  }

  /** Sorted insertion that drops a path already present. */
  function InsertPath(paths: seq<Path>, p: Path): (r: seq<Path>)
    requires InPathOrder(paths)
    ensures InPathOrder(r)
    ensures forall q :: q in r <==> q in paths || q == p
  {
    if paths == [] then [p]
    else if p == paths[0] then paths
    else if PathBefore(p, paths[0]) then
      assert forall j :: 0 <= j < |paths| ==> PathBefore(p, paths[j]) by {
        forall j | 0 <= j < |paths|
          ensures PathBefore(p, paths[j])
        {
          if j > 0 && |p| == |paths[0]| == |paths[j]| { LexTransitive(p, paths[0], paths[j]); }
        }
      }
      [p] + paths
    else
      var rest := InsertPath(paths[1..], p);
      LexTotal(p, paths[0]);
      assert forall q :: q in rest ==> PathBefore(paths[0], q) by {
        assert forall q :: q in paths[1..] ==> PathBefore(paths[0], q);
      }
      [paths[0]] + rest
  }

  // --------------------------------------------------- candidates to collapse

  predicate Real(node: GraphNode) { node.collapsedCount == 0 }

  function ShallowestDepth(nodes: seq<GraphNode>): (r: Option<nat>)
    ensures r.None? ==> forall i :: 0 <= i < |nodes| ==> !Real(nodes[i])
    ensures r.Some? ==> forall i :: 0 <= i < |nodes| && Real(nodes[i]) ==> r.value <= |nodes[i].cluster|
    ensures r.Some? ==> exists i :: 0 <= i < |nodes| && Real(nodes[i]) && r.value == |nodes[i].cluster|
  {
    if nodes == [] then None
    else
      var n := |nodes| - 1;
      var best := ShallowestDepth(nodes[..n]);
      if !Real(nodes[n]) then best
      else if best.None? || |nodes[n].cluster| < best.value then Some(|nodes[n].cluster|)
      else best
  }

  /** The depth of the function body itself, which is never collapsed. */
  function RootDepth(nodes: seq<GraphNode>): nat {
    match ShallowestDepth(nodes) case Some(d) => d case None => 0
  }

  /** The distinct deeper paths, as `sort`, `dedup` and `sort_by` leave them. */
  function CandidatePaths(nodes: seq<GraphNode>, depth: nat): (r: seq<Path>)
    ensures InPathOrder(r)
    ensures forall p :: p in r <==>
      exists i :: 0 <= i < |nodes| && Real(nodes[i]) && |nodes[i].cluster| > depth && nodes[i].cluster == p
  {
    if nodes == [] then []
    else
      var n := |nodes| - 1;
      var sofar := CandidatePaths(nodes[..n], depth);
      if Real(nodes[n]) && |nodes[n].cluster| > depth then InsertPath(sofar, nodes[n].cluster) else sofar
  }

  // -------------------------------------------------------- one collapse step

  predicate InCluster(node: GraphNode, path: Path) {
    Real(node) && node.cluster != [] && path <= node.cluster
  }

  function HiddenIds(nodes: seq<GraphNode>, path: Path): (r: seq<NodeId>) {
    if nodes == [] then []
    else (if InCluster(nodes[0], path) then [nodes[0].id] else []) + HiddenIds(nodes[1..], path)
  }

  function Without(nodes: seq<GraphNode>, hidden: set<NodeId>): (r: seq<GraphNode>) {
    if nodes == [] then []
    else (if nodes[0].id in hidden then [] else [nodes[0]]) + Without(nodes[1..], hidden)
  }

  function MetaNode(path: Path, count: nat): GraphNode {
    GraphNode(ClusterNode(path), CountLabel(count), "(cluster)", (0, 0), path, None, count, None, None)
  }

  function Remap(hidden: set<NodeId>, path: Path, id: NodeId): NodeId {
    if id in hidden then ClusterNode(path) else id
  }

  function RemapEdge(hidden: set<NodeId>, path: Path, e: GraphEdge): GraphEdge {
    GraphEdge(Remap(hidden, path, e.from), Remap(hidden, path, e.to), e.removed)
  }

  /** The first `n` edges redirected, without loops and without repeats. */
  function RemapEdges(edges: seq<GraphEdge>, hidden: set<NodeId>, path: Path, n: nat): (r: seq<GraphEdge>)
    requires n <= |edges|
    ensures forall i, j :: 0 <= i < j < |r| ==> r[i] != r[j]
    ensures forall e :: e in r <==> e.from != e.to && exists k :: 0 <= k < n && RemapEdge(hidden, path, edges[k]) == e
  {
    if n == 0 then []
    else
      var sofar := RemapEdges(edges, hidden, path, n - 1);
      var e := RemapEdge(hidden, path, edges[n - 1]);
      if e.from != e.to && e !in sofar then sofar + [e] else sofar
  }

  function ToSet<T>(s: seq<T>): set<T> { set x | x in s }

  function Collapsed(g: Graph, path: Path): Graph {
    var hidden := HiddenIds(g.nodes, path);
    if hidden == [] then g
    else
      Graph(Without(g.nodes, ToSet(hidden)) + [MetaNode(path, |hidden|)],
            RemapEdges(g.edges, ToSet(hidden), path, |g.edges|),
            g.clusters + [path],
            g.truncated)
  }

  method CollapseCluster(g: Graph, path: Path) returns (r: Graph)
    ensures r == Collapsed(g, path)
  {
    var hidden := HiddenIds(g.nodes, path);
    if hidden == [] {
      return g;
    }
    var hiddenSet := ToSet(hidden);
    var edges := RedirectEdges(g.edges, hiddenSet, path);
    r := Graph(Without(g.nodes, hiddenSet) + [MetaNode(path, |hidden|)], edges, g.clusters + [path], g.truncated);
  }

  method RedirectEdges(all: seq<GraphEdge>, hidden: set<NodeId>, path: Path) returns (edges: seq<GraphEdge>)
    ensures edges == RemapEdges(all, hidden, path, |all|)
  {
    edges := [];
    var seen: set<GraphEdge> := {};
    for n := 0 to |all|
      invariant edges == RemapEdges(all, hidden, path, n) && seen == ToSet(edges)
    {
      edges, seen := AddEdge(edges, seen, RemapEdge(hidden, path, all[n]));
    }
  }

  method AddEdge(edges: seq<GraphEdge>, seen: set<GraphEdge>, e: GraphEdge)
      returns (more: seq<GraphEdge>, known: set<GraphEdge>)
    requires seen == ToSet(edges)
    ensures more == (if e.from != e.to && e !in edges then edges + [e] else edges) && known == ToSet(more)
  {
    more, known := edges, seen;
    if e.from != e.to && e !in seen {
      known := seen + {e};
      more := edges + [e];
    }
  }

  // ------------------------------------------------------------- truncation

  function MetaNodes(nodes: seq<GraphNode>): (r: seq<GraphNode>)
  {
    if nodes == [] then []
    else MetaNodes(nodes[..|nodes| - 1]) + if nodes[|nodes| - 1].collapsedCount > 0 then [nodes[|nodes| - 1]] else []
  }

  function RealNodes(nodes: seq<GraphNode>): (r: seq<GraphNode>)
  {
    if nodes == [] then []
    else RealNodes(nodes[..|nodes| - 1]) + if Real(nodes[|nodes| - 1]) then [nodes[|nodes| - 1]] else []
  }

  function Ids(nodes: seq<GraphNode>): (r: set<NodeId>) {
    set i | 0 <= i < |nodes| :: nodes[i].id
  }

  function Retain(edges: seq<GraphEdge>, kept: set<NodeId>): (r: seq<GraphEdge>)
    ensures forall e :: e in r <==> e in edges && e.from in kept && e.to in kept
  {
    if edges == [] then []
    else (if edges[0].from in kept && edges[0].to in kept then [edges[0]] else []) + Retain(edges[1..], kept)
  }

  function Take<T>(s: seq<T>, n: nat): seq<T> { if n <= |s| then s[..n] else s }

  function Truncated(g: Graph, budget: nat): Graph {
    if budget > 0 && |g.nodes| > budget then
      var nodes := Take(MetaNodes(g.nodes) + RealNodes(g.nodes), budget);
      Graph(nodes, Retain(g.edges, Ids(nodes)), g.clusters, true)
    else g
  }

  method MaybeTruncate(g: Graph, budget: nat) returns (r: Graph)
    ensures r == Truncated(g, budget)
  {
    r := g;
    if budget > 0 && |g.nodes| > budget {
      var metas: seq<GraphNode>, reals: seq<GraphNode> := [], [];
      for i := 0 to |g.nodes|
        invariant metas == MetaNodes(g.nodes[..i]) && reals == RealNodes(g.nodes[..i])
      {
        assert g.nodes[..i + 1][..i] == g.nodes[..i];
        if g.nodes[i].collapsedCount > 0 {
          metas := metas + [g.nodes[i]];
        } else {
          reals := reals + [g.nodes[i]];
        }
      }
      assert g.nodes[..|g.nodes|] == g.nodes;
      var nodes := Take(metas + reals, budget);
      r := Graph(nodes, Retain(g.edges, Ids(nodes)), g.clusters, true);
    }
  }

  // --------------------------------------------------------------- the loop

  /** The first `k` candidates collapsed one after the other. */
  function CollapseFirst(g: Graph, paths: seq<Path>, k: nat): Graph
    requires k <= |paths|
  {
    if k == 0 then g else Collapsed(CollapseFirst(g, paths, k - 1), paths[k - 1])
  }

  /** How many candidates the loop takes: it stops as soon as the budget is met. */
  function Needed(g: Graph, paths: seq<Path>, budget: nat, k: nat): (r: nat)
    requires k <= |paths|
    ensures k <= r <= |paths|
    decreases |paths| - k
  {
    if k == |paths| || |CollapseFirst(g, paths, k).nodes| <= budget then k
    else Needed(g, paths, budget, k + 1)
  }

  /** The loop stops at the first graph within budget, or when the candidates run out. */
  lemma {:induction false} NeededIsFirst(g: Graph, paths: seq<Path>, budget: nat, k: nat, j: nat)
    requires k <= j <= |paths|
    ensures var r := Needed(g, paths, budget, k);
      && (j == r && r < |paths| ==> |CollapseFirst(g, paths, j).nodes| <= budget)
      && (j < r ==> |CollapseFirst(g, paths, j).nodes| > budget)
    decreases |paths| - k
  {
    if k < |paths| && |CollapseFirst(g, paths, k).nodes| > budget && k < j {
      NeededIsFirst(g, paths, budget, k + 1, j);
    }
  }

  /** The budgeted graph before anything is cut off. */
  function Folded(g: Graph, budget: nat): Graph {
    if |g.nodes| <= budget || budget == 0 then g
    else
      var paths := CandidatePaths(g.nodes, RootDepth(g.nodes));
      CollapseFirst(g, paths, Needed(g, paths, budget, 0))
  }

  method CollapseToBudget(g: Graph, budget: nat) returns (r: Graph)
    ensures r == Truncated(Folded(g, budget), budget)
  {
    if |g.nodes| <= budget || budget == 0 {
      r := MaybeTruncate(g, budget);
      return;
    }
    var paths := CandidatePaths(g.nodes, RootDepth(g.nodes));
    r := FoldWhileOver(g, paths, budget);
    r := MaybeTruncate(r, budget);
  }

  method FoldWhileOver(g: Graph, paths: seq<Path>, budget: nat) returns (r: Graph)
    ensures r == CollapseFirst(g, paths, Needed(g, paths, budget, 0))
  {
    r := g;
    var k := 0;
    while k < |paths|
      invariant 0 <= k <= |paths| && r == CollapseFirst(g, paths, k)
      invariant Needed(g, paths, budget, 0) == Needed(g, paths, budget, k)
    {
      NeededHere(g, paths, budget, k, r);
      if |r.nodes| <= budget {
        return;
      }
      r := CollapseCluster(r, paths[k]);
      k := k + 1;
    }
  }

  lemma NeededHere(g: Graph, paths: seq<Path>, budget: nat, k: nat, r: Graph)
    requires k < |paths| && r == CollapseFirst(g, paths, k)
    ensures Needed(g, paths, budget, k) == if |r.nodes| <= budget then k else Needed(g, paths, budget, k + 1)
    ensures CollapseFirst(g, paths, k + 1) == Collapsed(r, paths[k])
  {
  }
}
