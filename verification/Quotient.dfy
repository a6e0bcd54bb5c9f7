// Collapsing is exactly a graph quotient: what folding the deepest regions
// first leaves of the nodes, the edges and the counts.
module Quotient {
  import opened Model
  import opened Diff
  import opened Collapse

  /** A freshly extracted graph: distinct real nodes, edges between them, no loops. */
  ghost predicate Plain(g: Graph) {
    && (forall i :: 0 <= i < |g.nodes| ==> Real(g.nodes[i]) && !g.nodes[i].id.ClusterNode?)
    && (forall i, j :: 0 <= i < j < |g.nodes| ==> g.nodes[i].id != g.nodes[j].id)
    && Closed(g)
    && !g.truncated
  }

  /** No dangling edge and no self-loop. */
  ghost predicate Closed(g: Graph) {
    forall e :: e in g.edges ==> e.from in Ids(g.nodes) && e.to in Ids(g.nodes) && e.from != e.to
  }

  // ---------------------------------------------------- the quotient's nodes

  /** Original nodes whose region is not folded, in their original order. */
  function Survivors(nodes: seq<GraphNode>, done: seq<Path>): (r: seq<GraphNode>) {
    if nodes == [] then []
    else (if nodes[0].cluster in done then [] else [nodes[0]]) + Survivors(nodes[1..], done)
  }

  /** How many original nodes have exactly this region path. */
  function CountAt(nodes: seq<GraphNode>, path: Path): nat {
    if nodes == [] then 0 else (if nodes[0].cluster == path then 1 else 0) + CountAt(nodes[1..], path)
  }

  function Metas(nodes: seq<GraphNode>, done: seq<Path>): (r: seq<GraphNode>)
    ensures |r| == |done|
  {
    seq(|done|, i requires 0 <= i < |done| => MetaNode(done[i], CountAt(nodes, done[i])))
  }

  /** The original node carrying an id. */
  function NodeWith(nodes: seq<GraphNode>, id: NodeId): (r: Option<GraphNode>)
    ensures r.Some? <==> id in Ids(nodes)
    ensures r.Some? ==> r.value in nodes && r.value.id == id
  {
    if nodes == [] then None
    else
      var rest := NodeWith(nodes[1..], id);
      assert forall i :: 0 < i < |nodes| ==> nodes[i] == nodes[1..][i - 1];
      if nodes[0].id == id then Some(nodes[0]) else rest
  }

  /** The class an original node belongs to once the regions in `done` are folded. */
  function Home(nodes: seq<GraphNode>, done: seq<Path>, id: NodeId): NodeId {
    match NodeWith(nodes, id)
    case Some(n) => if n.cluster in done then ClusterNode(n.cluster) else id
    case None => id
  }

  function HomeEdge(nodes: seq<GraphNode>, done: seq<Path>, e: GraphEdge): GraphEdge {
    GraphEdge(Home(nodes, done, e.from), Home(nodes, done, e.to), e.removed)
  }

  /** `g` is `g0` with each region in `done` shrunk to a point. */
  ghost predicate IsQuotient(g0: Graph, done: seq<Path>, g: Graph) {
    && g.nodes == Survivors(g0.nodes, done) + Metas(g0.nodes, done)
    && g.clusters == g0.clusters + done
    && g.truncated == g0.truncated
    && EdgesAreImages(g0, done, g.edges)
    && (done != [] ==> forall i, j :: 0 <= i < j < |g.edges| ==> g.edges[i] != g.edges[j])
  }

  /** Classes are joined exactly when some original edge of the same kind joined members of them. */
  ghost predicate EdgesAreImages(g0: Graph, done: seq<Path>, edges: seq<GraphEdge>) {
    forall e :: e in edges <==>
      e.from != e.to && exists e0 :: e0 in g0.edges && HomeEdge(g0.nodes, done, e0) == e
  }

  /** The next region is folded only when everything strictly inside it already is. */
  predicate Deepest(nodes: seq<GraphNode>, done: seq<Path>, path: Path) {
    forall i :: 0 <= i < |nodes| && path <= nodes[i].cluster && nodes[i].cluster != path ==> nodes[i].cluster in done
  }

  predicate Inhabited(nodes: seq<GraphNode>, done: seq<Path>) {
    forall i :: 0 <= i < |done| ==> CountAt(nodes, done[i]) > 0
  }

  // --------------------------------------------------------- hidden nodes

  function IdsAt(nodes: seq<GraphNode>, path: Path): (r: seq<NodeId>) {
    if nodes == [] then [] else (if nodes[0].cluster == path then [nodes[0].id] else []) + IdsAt(nodes[1..], path)
  }

  lemma {:induction false} IdsAtCount(nodes: seq<GraphNode>, path: Path)
    ensures |IdsAt(nodes, path)| == CountAt(nodes, path)
    ensures forall id :: id in IdsAt(nodes, path) <==>
      exists i :: 0 <= i < |nodes| && nodes[i].cluster == path && nodes[i].id == id
  {
    if nodes != [] {
      IdsAtCount(nodes[1..], path);
      assert forall i :: 0 < i < |nodes| ==> nodes[i] == nodes[1..][i - 1];
    }
  }

  lemma {:induction false} HiddenOfConcat(a: seq<GraphNode>, b: seq<GraphNode>, path: Path)
    ensures HiddenIds(a + b, path) == HiddenIds(a, path) + HiddenIds(b, path)
  {
    if a == [] {
      assert a + b == b;
    } else {
      var head := if InCluster(a[0], path) then [a[0].id] else [];
      HiddenOfConcat(a[1..], b, path);
      assert (a + b)[1..] == a[1..] + b;
      Associate(head, HiddenIds(a[1..], path), HiddenIds(b, path));
    }
  }

  lemma {:induction false} MetasNotHidden(metas: seq<GraphNode>, path: Path)
    requires forall i :: 0 <= i < |metas| ==> !Real(metas[i])
    ensures HiddenIds(metas, path) == []
  {
    if metas != [] {
      MetasNotHidden(metas[1..], path);
    }
  }

  /** Deepest first: what a step hides is exactly the nodes of that very region. */
  lemma {:induction false} HiddenIsRegion(nodes: seq<GraphNode>, done: seq<Path>, path: Path)
    requires path != [] && path !in done && Deepest(nodes, done, path)
    requires forall i :: 0 <= i < |nodes| ==> Real(nodes[i])
    ensures HiddenIds(Survivors(nodes, done), path) == IdsAt(nodes, path)
  {
    if nodes != [] {
      HiddenIsRegion(nodes[1..], done, path);
      var head := if nodes[0].cluster in done then [] else [nodes[0]];
      HiddenOfConcat(head, Survivors(nodes[1..], done), path);
    }
  }

  // ------------------------------------------------------ remaining nodes

  lemma {:induction false} WithoutConcat(a: seq<GraphNode>, b: seq<GraphNode>, hidden: set<NodeId>)
    ensures Without(a + b, hidden) == Without(a, hidden) + Without(b, hidden)
  {
    if a == [] {
      assert a + b == b;
    } else {
      WithoutConcat(a[1..], b, hidden);
      assert (a + b)[1..] == a[1..] + b;
      Associate(if a[0].id in hidden then [] else [a[0]], Without(a[1..], hidden), Without(b, hidden));
    }
  }

  lemma {:induction false} WithoutNone(nodes: seq<GraphNode>, hidden: set<NodeId>)
    requires forall i :: 0 <= i < |nodes| ==> nodes[i].id !in hidden
    ensures Without(nodes, hidden) == nodes
  {
    if nodes != [] {
      WithoutNone(nodes[1..], hidden);
    }
  }

  lemma {:induction false} SurvivorsStep(nodes: seq<GraphNode>, done: seq<Path>, path: Path, hidden: set<NodeId>)
    requires forall i :: 0 <= i < |nodes| ==> (nodes[i].id in hidden <==> nodes[i].cluster == path)
    ensures Without(Survivors(nodes, done), hidden) == Survivors(nodes, done + [path])
  {
    if nodes != [] {
      SurvivorsStep(nodes[1..], done, path, hidden);
      var head := if nodes[0].cluster in done then [] else [nodes[0]];
      WithoutConcat(head, Survivors(nodes[1..], done), hidden);
    }
  }

  lemma HiddenById(nodes: seq<GraphNode>, path: Path)
    requires forall i, j :: 0 <= i < j < |nodes| ==> nodes[i].id != nodes[j].id
    ensures forall i :: 0 <= i < |nodes| ==> (nodes[i].id in ToSet(IdsAt(nodes, path)) <==> nodes[i].cluster == path)
  {
    IdsAtCount(nodes, path);
  }

  lemma HomeStep(nodes: seq<GraphNode>, done: seq<Path>, path: Path, id: NodeId)
    requires forall i, j :: 0 <= i < j < |nodes| ==> nodes[i].id != nodes[j].id
    requires forall i :: 0 <= i < |nodes| ==> !nodes[i].id.ClusterNode?
    requires id in Ids(nodes) && path !in done
    ensures Remap(ToSet(IdsAt(nodes, path)), path, Home(nodes, done, id)) == Home(nodes, done + [path], id)
  {
    HiddenById(nodes, path);
    IdsAtCount(nodes, path);
    var n := NodeWith(nodes, id).value;
    var i :| 0 <= i < |nodes| && nodes[i] == n;
    if n.cluster in done {
      assert ClusterNode(n.cluster) !in IdsAt(nodes, path);
    }
  }

  // ------------------------------------------------------------- one step

  lemma CollapseStep(g0: Graph, done: seq<Path>, g: Graph, path: Path)
    requires Plain(g0) && IsQuotient(g0, done, g) && Inhabited(g0.nodes, done)
    requires path != [] && path !in done && Deepest(g0.nodes, done, path) && CountAt(g0.nodes, path) > 0
    ensures IsQuotient(g0, done + [path], Collapsed(g, path)) && Inhabited(g0.nodes, done + [path])
  {
    var nodes := g0.nodes;
    var hidden := HiddenIds(g.nodes, path);
    var next := Collapsed(g, path);
    StepHides(g0, done, g, path);
    assert hidden == IdsAt(nodes, path);
    IdsAtCount(nodes, path);
    StepNodes(g0, done, g, path);
    StepEdges(g0, done, g, path);
  }

  lemma StepHides(g0: Graph, done: seq<Path>, g: Graph, path: Path)
    requires Plain(g0) && g.nodes == Survivors(g0.nodes, done) + Metas(g0.nodes, done) && Inhabited(g0.nodes, done)
    requires path != [] && path !in done && Deepest(g0.nodes, done, path)
    ensures HiddenIds(g.nodes, path) == IdsAt(g0.nodes, path)
  {
    HiddenOfConcat(Survivors(g0.nodes, done), Metas(g0.nodes, done), path);
    MetasNotHidden(Metas(g0.nodes, done), path);
    HiddenIsRegion(g0.nodes, done, path);
  }

  lemma StepNodes(g0: Graph, done: seq<Path>, g: Graph, path: Path)
    requires Plain(g0) && g.nodes == Survivors(g0.nodes, done) + Metas(g0.nodes, done)
    ensures Without(g.nodes, ToSet(IdsAt(g0.nodes, path))) + [MetaNode(path, CountAt(g0.nodes, path))]
         == Survivors(g0.nodes, done + [path]) + Metas(g0.nodes, done + [path])
  {
    var hidden := ToSet(IdsAt(g0.nodes, path));
    var metas := Metas(g0.nodes, done);
    HiddenById(g0.nodes, path);
    IdsAtCount(g0.nodes, path);
    WithoutConcat(Survivors(g0.nodes, done), metas, hidden);
    SurvivorsStep(g0.nodes, done, path, hidden);
    WithoutNone(metas, hidden);
    assert Metas(g0.nodes, done + [path]) == metas + [MetaNode(path, CountAt(g0.nodes, path))];
  }

  lemma EdgeStep(g0: Graph, done: seq<Path>, path: Path, e0: GraphEdge)
    requires Plain(g0) && e0 in g0.edges && path !in done
    ensures RemapEdge(ToSet(IdsAt(g0.nodes, path)), path, HomeEdge(g0.nodes, done, e0))
      == HomeEdge(g0.nodes, done + [path], e0)
  {
    HomeStep(g0.nodes, done, path, e0.from);
    HomeStep(g0.nodes, done, path, e0.to);
  }

  lemma StepEdges(g0: Graph, done: seq<Path>, g: Graph, path: Path)
    requires Plain(g0) && EdgesAreImages(g0, done, g.edges) && path !in done
    ensures EdgesAreImages(g0, done + [path], RemapEdges(g.edges, ToSet(IdsAt(g0.nodes, path)), path, |g.edges|))
  {
    var hidden := ToSet(IdsAt(g0.nodes, path));
    var edges := RemapEdges(g.edges, hidden, path, |g.edges|);
    forall e
      ensures e in edges <==>
        e.from != e.to && exists e0 :: e0 in g0.edges && HomeEdge(g0.nodes, done + [path], e0) == e
    {
      if e in edges {
        var k :| 0 <= k < |g.edges| && RemapEdge(hidden, path, g.edges[k]) == e;
        assert g.edges[k] in g.edges;
        var e0 :| e0 in g0.edges && HomeEdge(g0.nodes, done, e0) == g.edges[k];
        EdgeStep(g0, done, path, e0);
      }
      if e.from != e.to && exists e0 :: e0 in g0.edges && HomeEdge(g0.nodes, done + [path], e0) == e {
        var e0 :| e0 in g0.edges && HomeEdge(g0.nodes, done + [path], e0) == e;
        EdgeStep(g0, done, path, e0);
        var mid := HomeEdge(g0.nodes, done, e0);
        assert mid.from != mid.to;
        assert mid in g.edges;
        var k :| 0 <= k < |g.edges| && g.edges[k] == mid;
      }
    }
  }

  // ------------------------------------------------------------ the theorem

  lemma NothingFolded(g: Graph)
    requires Plain(g) && g.clusters == []
    ensures IsQuotient(g, [], g) && Inhabited(g.nodes, [])
  {
    NoneInNothing(g.nodes);
    EdgesUnfolded(g);
  }

  lemma EdgesUnfolded(g: Graph)
    requires Plain(g)
    ensures EdgesAreImages(g, [], g.edges)
  {
    forall e
      ensures e in g.edges <==> e.from != e.to && exists e0 :: e0 in g.edges && HomeEdge(g.nodes, [], e0) == e
    {
      HomeIsHere(g, e);
      if e.from != e.to && exists e0 :: e0 in g.edges && HomeEdge(g.nodes, [], e0) == e {
        var e0 :| e0 in g.edges && HomeEdge(g.nodes, [], e0) == e;
        HomeIsHere(g, e0);
      }
    }
  }

  lemma HomeIsHere(g: Graph, e: GraphEdge)
    ensures HomeEdge(g.nodes, [], e) == e
  {
  }

  lemma {:induction false} NoneInNothing(nodes: seq<GraphNode>)
    ensures Survivors(nodes, []) == nodes
  {
    if nodes != [] {
      NoneInNothing(nodes[1..]);
    }
  }

  lemma {:induction false} CountPositive(nodes: seq<GraphNode>, path: Path, i: nat)
    requires i < |nodes| && nodes[i].cluster == path
    ensures CountAt(nodes, path) > 0
  {
    if i > 0 {
      CountPositive(nodes[1..], path, i - 1);
    }
  }

  /** In candidate order each region's strictly deeper regions come earlier. */
  lemma CandidateIsDeepest(nodes: seq<GraphNode>, paths: seq<Path>, k: nat)
    requires paths == CandidatePaths(nodes, RootDepth(nodes)) && k < |paths|
    requires forall i :: 0 <= i < |nodes| ==> Real(nodes[i])
    ensures paths[k] != [] && paths[k] !in paths[..k] && Deepest(nodes, paths[..k], paths[k])
      && CountAt(nodes, paths[k]) > 0
  {
    var p := paths[k];
    assert p in paths;
    var i :| 0 <= i < |nodes| && Real(nodes[i]) && |nodes[i].cluster| > RootDepth(nodes) && nodes[i].cluster == p;
    CountPositive(nodes, p, i);
    NotEarlier(paths, k);
    forall j | 0 <= j < |nodes| && p <= nodes[j].cluster && nodes[j].cluster != p
      ensures nodes[j].cluster in paths[..k]
    {
      DeeperIsEarlier(paths, k, nodes[j].cluster);
    }
  }

  lemma NotEarlier(paths: seq<Path>, k: nat)
    requires InPathOrder(paths) && k < |paths|
    ensures paths[k] !in paths[..k]
  {
    LexIrreflexive(paths[k]);
    assert forall j :: 0 <= j < k ==> PathBefore(paths[j], paths[k]);
  }

  lemma DeeperIsEarlier(paths: seq<Path>, k: nat, q: Path)
    requires InPathOrder(paths) && k < |paths| && q in paths && |q| > |paths[k]|
    ensures q in paths[..k]
  {
    assert forall m :: k < m < |paths| ==> PathBefore(paths[k], paths[m]);
    var l :| 0 <= l < |paths| && paths[l] == q;
  }

  lemma OneMoreFolded(g: Graph, paths: seq<Path>, k: nat, h: Graph)
    requires Plain(g) && paths == CandidatePaths(g.nodes, RootDepth(g.nodes)) && k < |paths|
    requires IsQuotient(g, paths[..k], h) && Inhabited(g.nodes, paths[..k])
    ensures IsQuotient(g, paths[..k + 1], Collapsed(h, paths[k])) && Inhabited(g.nodes, paths[..k + 1])
  {
    CandidateIsDeepest(g.nodes, paths, k);
    CollapseStep(g, paths[..k], h, paths[k]);
    PrefixGrows(paths, k);
  }

  lemma {:induction false} CollapseFirstIsQuotient(g: Graph, paths: seq<Path>, k: nat)
    requires Plain(g) && g.clusters == [] && paths == CandidatePaths(g.nodes, RootDepth(g.nodes)) && k <= |paths|
    ensures IsQuotient(g, paths[..k], CollapseFirst(g, paths, k)) && Inhabited(g.nodes, paths[..k])
  {
    if k == 0 {
      NothingFolded(g);
    } else {
      CollapseFirstIsQuotient(g, paths, k - 1);
      OneMoreFolded(g, paths, k - 1, CollapseFirst(g, paths, k - 1));
    }
  }

  /** The regions the budget makes the engine fold. */
  function FoldedPaths(g: Graph, budget: nat): (r: seq<Path>)
  {
    if |g.nodes| <= budget || budget == 0 then []
    else
      var paths := CandidatePaths(g.nodes, RootDepth(g.nodes));
      paths[..Needed(g, paths, budget, 0)]
  }

  /** Before truncation the budgeted graph is exactly the quotient of the full one. */
  lemma FoldedIsQuotient(g: Graph, budget: nat)
    requires Plain(g) && g.clusters == []
    ensures IsQuotient(g, FoldedPaths(g, budget), Folded(g, budget))
    ensures Inhabited(g.nodes, FoldedPaths(g, budget)) && InPathOrder(FoldedPaths(g, budget))
  {
    if |g.nodes| <= budget || budget == 0 {
      NothingFolded(g);
    } else {
      var paths := CandidatePaths(g.nodes, RootDepth(g.nodes));
      CollapseFirstIsQuotient(g, paths, Needed(g, paths, budget, 0));
    }
  }

  // --------------------------------------------------------- conservation

  /** A node stands for itself or for the operations it hides. */
  function Weight(nodes: seq<GraphNode>): nat {
    if nodes == [] then 0
    else Weight(nodes[..|nodes| - 1]) + if nodes[|nodes| - 1].collapsedCount > 0
      then nodes[|nodes| - 1].collapsedCount else 1
  }

  lemma {:induction false} WeightConcat(a: seq<GraphNode>, b: seq<GraphNode>)
    ensures Weight(a + b) == Weight(a) + Weight(b)
  {
    if b == [] {
      assert a + b == a;
    } else {
      WeightConcat(a, b[..|b| - 1]);
      assert (a + b)[..|a + b| - 1] == a + b[..|b| - 1];
    }
  }

  lemma {:induction false} WeightOfReal(nodes: seq<GraphNode>)
    requires forall i :: 0 <= i < |nodes| ==> Real(nodes[i])
    ensures Weight(nodes) == |nodes|
  {
    if nodes != [] {
      WeightOfReal(nodes[..|nodes| - 1]);
    }
  }

  lemma {:induction false} SurvivorsShrink(nodes: seq<GraphNode>, done: seq<Path>, path: Path)
    requires path !in done
    ensures |Survivors(nodes, done)| == |Survivors(nodes, done + [path])| + CountAt(nodes, path)
  {
    if nodes != [] {
      SurvivorsShrink(nodes[1..], done, path);
    }
  }

  lemma {:induction false} SurvivorsMembers(nodes: seq<GraphNode>, done: seq<Path>)
    ensures forall n :: n in Survivors(nodes, done) <==> n in nodes && n.cluster !in done
  {
    if nodes != [] {
      SurvivorsMembers(nodes[1..], done);
      assert forall n :: n in nodes <==> n == nodes[0] || n in nodes[1..];
    }
  }

  lemma {:induction false} WeightOfQuotient(nodes: seq<GraphNode>, done: seq<Path>)
    requires forall i :: 0 <= i < |nodes| ==> Real(nodes[i])
    requires Inhabited(nodes, done) && InPathOrder(done)
    ensures |Survivors(nodes, done)| + Weight(Metas(nodes, done)) == |nodes|
    decreases |done|
  {
    if done == [] {
      NoneInNothing(nodes);
    } else {
      var k := |done| - 1;
      var less := done[..k];
      WeightOfQuotient(nodes, less);
      LexIrreflexive(done[k]);
      SurvivorsShrink(nodes, less, done[k]);
      assert less + [done[k]] == done;
      assert Metas(nodes, done)[..k] == Metas(nodes, less);
    }
  }

  /** Survivors count one, cluster nodes their hidden operations: together the original count. */
  lemma FoldedConservesNodes(g: Graph, budget: nat)
    requires Plain(g) && g.clusters == []
    ensures Weight(Folded(g, budget).nodes) == |g.nodes|
  {
    var done := FoldedPaths(g, budget);
    FoldedIsQuotient(g, budget);
    WeightOfQuotient(g.nodes, done);
    SurvivorsMembers(g.nodes, done);
    WeightConcat(Survivors(g.nodes, done), Metas(g.nodes, done));
    forall i | 0 <= i < |Survivors(g.nodes, done)|
      ensures Real(Survivors(g.nodes, done)[i])
    {
      assert Survivors(g.nodes, done)[i] in Survivors(g.nodes, done);
    }
    WeightOfReal(Survivors(g.nodes, done));
  }

  // ----------------------------------------------- what the caller receives

  ghost predicate DistinctIds(nodes: seq<GraphNode>) {
    forall i, j :: 0 <= i < j < |nodes| ==> nodes[i].id != nodes[j].id
  }

  lemma {:induction false} SurvivorsDistinct(nodes: seq<GraphNode>, done: seq<Path>)
    requires DistinctIds(nodes)
    ensures DistinctIds(Survivors(nodes, done))
  {
    if nodes != [] {
      SurvivorsDistinct(nodes[1..], done);
      SurvivorsMembers(nodes[1..], done);
      var rest := Survivors(nodes[1..], done);
      forall j | 0 <= j < |rest|
        ensures rest[j].id != nodes[0].id
      {
        assert rest[j] in rest;
        var k :| 0 <= k < |nodes[1..]| && nodes[1..][k] == rest[j];
        assert nodes[k + 1] == rest[j];
      }
    }
  }

  /** Every class has one node, and every node is somebody's class. */
  lemma OneNodePerClass(g: Graph, done: seq<Path>, nodes: seq<GraphNode>)
    requires Plain(g) && Inhabited(g.nodes, done) && InPathOrder(done)
    requires nodes == Survivors(g.nodes, done) + Metas(g.nodes, done)
    ensures DistinctIds(nodes)
    ensures forall id :: id in Ids(g.nodes) ==> Home(g.nodes, done, id) in Ids(nodes)
    ensures forall id :: id in Ids(nodes) ==> exists o :: o in Ids(g.nodes) && Home(g.nodes, done, o) == id
  {
    SurvivorsDistinct(g.nodes, done);
    ClassesDistinct(g, done, nodes);
    forall id | id in Ids(g.nodes)
      ensures Home(g.nodes, done, id) in Ids(nodes)
    {
      HomeExists(g, done, nodes, id);
    }
    forall id | id in Ids(nodes)
      ensures exists o :: o in Ids(g.nodes) && Home(g.nodes, done, o) == id
    {
      var o := HomeOfSomeone(g, done, nodes, id);
    }
  }

  lemma ClassesDistinct(g: Graph, done: seq<Path>, nodes: seq<GraphNode>)
    requires Plain(g) && InPathOrder(done) && DistinctIds(Survivors(g.nodes, done))
    requires nodes == Survivors(g.nodes, done) + Metas(g.nodes, done)
    ensures DistinctIds(nodes)
  {
    var s := Survivors(g.nodes, done);
    SurvivorsMembers(g.nodes, done);
    forall i, j | 0 <= i < j < |nodes|
      ensures nodes[i].id != nodes[j].id
    {
      if i < |s| <= j {
        assert s[i] in s;
      } else if |s| <= i {
        assert PathBefore(done[i - |s|], done[j - |s|]);
        LexIrreflexive(done[i - |s|]);
      }
    }
  }

  lemma HomeExists(g: Graph, done: seq<Path>, nodes: seq<GraphNode>, id: NodeId)
    requires id in Ids(g.nodes) && nodes == Survivors(g.nodes, done) + Metas(g.nodes, done)
    ensures Home(g.nodes, done, id) in Ids(nodes)
  {
    var n := NodeWith(g.nodes, id).value;
    SurvivorsMembers(g.nodes, done);
    var k: nat;
    if n.cluster in done {
      var i :| 0 <= i < |done| && done[i] == n.cluster;
      k := |Survivors(g.nodes, done)| + i;
    } else {
      assert n in Survivors(g.nodes, done);
      k :| 0 <= k < |Survivors(g.nodes, done)| && Survivors(g.nodes, done)[k] == n;
    }
    assert nodes[k].id == Home(g.nodes, done, id);
  }

  lemma NodeWithItself(nodes: seq<GraphNode>, i: nat)
    requires DistinctIds(nodes) && i < |nodes|
    ensures NodeWith(nodes, nodes[i].id) == Some(nodes[i])
  {
    var n := NodeWith(nodes, nodes[i].id).value;
    var j :| 0 <= j < |nodes| && nodes[j] == n;
  }

  lemma {:induction false} CountWitness(nodes: seq<GraphNode>, path: Path) returns (i: nat)
    requires CountAt(nodes, path) > 0
    ensures i < |nodes| && nodes[i].cluster == path
  {
    if nodes[0].cluster == path {
      i := 0;
    } else {
      i := CountWitness(nodes[1..], path);
      i := i + 1;
    }
  }

  lemma SomeoneBehind(g: Graph, done: seq<Path>, nodes: seq<GraphNode>, k: nat) returns (i: nat)
    requires Inhabited(g.nodes, done) && k < |nodes|
    requires nodes == Survivors(g.nodes, done) + Metas(g.nodes, done)
    ensures i < |g.nodes|
    ensures var s := Survivors(g.nodes, done);
      if k < |s| then g.nodes[i] == s[k] && g.nodes[i].cluster !in done
      else k - |s| < |done| && g.nodes[i].cluster == done[k - |s|]
  {
    var s := Survivors(g.nodes, done);
    if k < |s| {
      SurvivorsMembers(g.nodes, done);
      assert s[k] in s;
      i :| 0 <= i < |g.nodes| && g.nodes[i] == s[k];
    } else {
      assert CountAt(g.nodes, done[k - |s|]) > 0;
      i := CountWitness(g.nodes, done[k - |s|]);
    }
  }

  lemma HomeOfSomeone(g: Graph, done: seq<Path>, nodes: seq<GraphNode>, id: NodeId)
      returns (o: NodeId)
    requires Plain(g) && Inhabited(g.nodes, done) && id in Ids(nodes)
    requires nodes == Survivors(g.nodes, done) + Metas(g.nodes, done)
    ensures o in Ids(g.nodes) && Home(g.nodes, done, o) == id
  {
    var k :| 0 <= k < |nodes| && nodes[k].id == id;
    var i := SomeoneBehind(g, done, nodes, k);
    NodeWithItself(g.nodes, i);
    o := g.nodes[i].id;
  }

  lemma FoldedClosed(g: Graph, budget: nat)
    requires Plain(g) && g.clusters == []
    ensures Closed(Folded(g, budget)) && DistinctIds(Folded(g, budget).nodes)
    ensures forall id :: id in Ids(g.nodes) ==>
      Home(g.nodes, FoldedPaths(g, budget), id) in Ids(Folded(g, budget).nodes)
    ensures forall id :: id in Ids(Folded(g, budget).nodes) ==>
      exists o :: o in Ids(g.nodes) && Home(g.nodes, FoldedPaths(g, budget), o) == id
  {
    FoldedIsQuotient(g, budget);
    OneNodePerClass(g, FoldedPaths(g, budget), Folded(g, budget).nodes);
  }

  lemma {:induction false} MetaMembers(nodes: seq<GraphNode>, n: GraphNode)
    ensures n in MetaNodes(nodes) <==> n in nodes && !Real(n)
  {
    if nodes != [] {
      MetaMembers(nodes[..|nodes| - 1], n);
      assert nodes == nodes[..|nodes| - 1] + [nodes[|nodes| - 1]];
    }
  }

  lemma {:induction false} RealMembers(nodes: seq<GraphNode>, n: GraphNode)
    ensures n in RealNodes(nodes) <==> n in nodes && Real(n)
  {
    if nodes != [] {
      RealMembers(nodes[..|nodes| - 1], n);
      assert nodes == nodes[..|nodes| - 1] + [nodes[|nodes| - 1]];
    }
  }

  lemma {:induction false} PartitionSizes(nodes: seq<GraphNode>)
    ensures |MetaNodes(nodes)| + |RealNodes(nodes)| == |nodes|
  {
    if nodes != [] {
      PartitionSizes(nodes[..|nodes| - 1]);
    }
  }

  lemma PartitionMembers(nodes: seq<GraphNode>)
    ensures forall n :: n in MetaNodes(nodes) <==> n in nodes && !Real(n)
    ensures forall n :: n in RealNodes(nodes) <==> n in nodes && Real(n)
    ensures |MetaNodes(nodes)| + |RealNodes(nodes)| == |nodes|
  {
    PartitionSizes(nodes);
    forall n
      ensures n in MetaNodes(nodes) <==> n in nodes && !Real(n)
      ensures n in RealNodes(nodes) <==> n in nodes && Real(n)
    {
      MetaMembers(nodes, n);
      RealMembers(nodes, n);
    }
  }

  /**
   * The graph handed out for a positive budget: never more nodes than the budget, no dangling
   * edge, no self-loop, flagged when something was cut, and a region summary is cut only
   * when nothing but summaries is left.
   */
  lemma BudgetedGraphIsSound(g: Graph, budget: nat)
    requires Plain(g) && g.clusters == []
    ensures var r := Truncated(Folded(g, budget), budget);
      && Closed(r)
      && (budget > 0 ==> |r.nodes| <= budget)
      && (r.truncated <==> |r.nodes| < |Folded(g, budget).nodes|)
      && (forall n :: n in r.nodes ==> n in Folded(g, budget).nodes)
      && ((exists n :: n in r.nodes && Real(n)) ==> forall n :: n in Folded(g, budget).nodes && !Real(n) ==>
           n in r.nodes)
      && (forall e :: e in r.edges <==> e in Folded(g, budget).edges && e.from in Ids(r.nodes) && e.to in Ids(r.nodes))
  {
    var f := Folded(g, budget);
    FoldedIsQuotient(g, budget);
    FoldedClosed(g, budget);
    if budget > 0 && |f.nodes| > budget {
      MetasCutLast(f.nodes, budget);
    }
  }

  lemma MetasCutLast(nodes: seq<GraphNode>, budget: nat)
    requires |nodes| > budget
    ensures var kept := Take(MetaNodes(nodes) + RealNodes(nodes), budget);
      && |kept| == budget
      && (forall n :: n in kept ==> n in nodes)
      && ((exists n :: n in kept && Real(n)) ==> forall n :: n in nodes && !Real(n) ==> n in kept)
  {
    PartitionMembers(nodes);
    var metas, reals := MetaNodes(nodes), RealNodes(nodes);
    var kept := Take(metas + reals, budget);
    assert kept == (metas + reals)[..budget];
    if budget <= |metas| {
      assert kept == metas[..budget];
    } else {
      assert kept == metas + reals[..budget - |metas|];
    }
  }
}
