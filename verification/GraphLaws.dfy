// What the nodes of a data-flow graph show, in terms of the operations behind
// them, and which of them a budget folds away.
module GraphLaws {
  import opened Model
  import opened Diff
  import opened Collapse
  import opened Quotient
  import opened Dataflow
  import DiffLaws

  // ------------------------------------------------------------- before folding

  /** The caption is the name, and the first result type if there is one. */
  predicate CaptionTells(op: ParsedOp, caption: Caption) {
    && caption.OpLabel? && caption.name == op.name
    && (if |op.resultTypes| == 0 then caption.resultType.None?
        else caption.resultType.Some? && caption.resultType.value == op.resultTypes[0])
  }

  /** The node shows the operation: its name, lines, region and index; it hides nothing. */
  predicate Shows(op: ParsedOp, node: GraphNode) {
    && CaptionTells(op, node.caption) && node.opName == op.name
    && node.lineRange.0 == op.lineStart && node.lineRange.1 == op.lineEnd
    && node.cluster == op.regionPath && node.opIdx == Some(op.idx) && node.collapsedCount == 0
  }

  /** One node to an operation of the scope, in scope order. */
  predicate FullTells(m: ParsedModule, ops: seq<OpIdx>, nodes: seq<GraphNode>)
    requires InBounds(ops, |m.ops|)
  {
    |nodes| == |ops| && forall i :: 0 <= i < |ops| ==>
      && Shows(m.ops[ops[i]], nodes[i]) && nodes[i].id == OpNode(ops[i])
      && nodes[i].change.None? && nodes[i].side.None?
  }

  lemma FullGraphTells(m: ParsedModule, ops: seq<OpIdx>)
    requires WellFormed(m) && InBounds(ops, |m.ops|)
    ensures FullTells(m, ops, FullGraph(m, ops).nodes)
  {
  }

  /** How many of the first `n` changes are removals. */
  function Removals(changes: seq<OpChange>, n: nat): nat
    requires n <= |changes|
  {
    if n == 0 then 0
    else Removals(changes, n - 1) + if changes[n - 1].before.Some? && changes[n - 1].after.None? then 1 else 0
  }

  /** An operation of after, classified by the change that reports it. */
  ghost predicate AfterTells(after: ParsedModule, a: OpIdx, changes: seq<OpChange>, node: GraphNode)
    requires a < |after.ops|
  {
    && Shows(after.ops[a], node) && node.id == OpNode(a) && node.side == Some(After)
    && (forall c :: c in changes && c.after == Some(a) ==> node.change == Some(c.kind))
    && ((forall c :: c in changes ==> c.after != Some(a)) ==> node.change == Some(Unchanged))
  }

  /** The ghost of the operation a removal reports. */
  predicate GhostTells(before: ParsedModule, c: OpChange, node: GraphNode) {
    && c.before.Some? && c.before.value < |before.ops| && Shows(before.ops[c.before.value], node)
    && node.id == GhostNode(c.before.value) && node.side == Some(Before) && node.change == Some(Removed)
  }

  /** First the operations of after, in scope order, then a ghost to each removal, in diff order. */
  ghost predicate DiffNodesTell(before: ParsedModule, after: ParsedModule, a: seq<OpIdx>, changes: seq<OpChange>,
      nodes: seq<GraphNode>)
    requires InBounds(a, |after.ops|)
  {
    && |nodes| == |a| + Removals(changes, |changes|)
    && (forall i :: 0 <= i < |a| ==> AfterTells(after, a[i], changes, nodes[i]))
    && (forall j :: 0 <= j < |changes| && changes[j].before.Some? && changes[j].after.None? ==>
         GhostAt(before, changes, j, |a|, nodes))
  }

  predicate GhostAt(before: ParsedModule, changes: seq<OpChange>, j: nat, from: nat, nodes: seq<GraphNode>)
    requires j < |changes|
  {
    var k := from + Removals(changes, j);
    k < |nodes| && GhostTells(before, changes[j], nodes[k])
  }

  /** After operations are each in at most one change, and what has no after operation was removed. */
  ghost predicate ChangesOk(changes: seq<OpChange>) {
    && (forall i, j :: 0 <= i < j < |changes| && changes[i].after.Some? ==> changes[i].after != changes[j].after)
    && (forall i :: 0 <= i < |changes| && changes[i].after.None? ==> IsRemoved(changes[i]))
  }

  lemma {:induction false} ClassesAreKinds(changes: seq<OpChange>, n: nat, a: OpIdx)
    requires n <= |changes| && ChangesOk(changes)
    ensures forall j :: 0 <= j < n && changes[j].after == Some(a) ==>
      a in AfterClasses(changes, n) && AfterClasses(changes, n)[a] == changes[j].kind
    ensures (forall j :: 0 <= j < n ==> changes[j].after != Some(a)) ==> a !in AfterClasses(changes, n)
  {
    if n > 0 {
      ClassesAreKinds(changes, n - 1, a);
      forall j | 0 <= j < n && changes[j].after == Some(a)
        ensures a in AfterClasses(changes, n) && AfterClasses(changes, n)[a] == changes[j].kind
      {
        if j < n - 1 {
          assert changes[j].after != changes[n - 1].after;
        }
      }
    }
  }

  lemma {:induction false} RemovedPlaces(changes: seq<OpChange>, n: nat)
    requires n <= |changes| && ChangesOk(changes)
    ensures |RemovedBefore(changes, n)| == Removals(changes, n)
    ensures forall j :: 0 <= j < n && changes[j].before.Some? && changes[j].after.None? ==>
      Removals(changes, j) < |RemovedBefore(changes, n)|
      && RemovedBefore(changes, n)[Removals(changes, j)] == changes[j].before.value
  {
    if n > 0 {
      RemovedPlaces(changes, n - 1);
    }
  }

  lemma {:induction false} DiffNodesAreTold(before: ParsedModule, after: ParsedModule, a: seq<OpIdx>,
      changes: seq<OpChange>)
    requires WellFormed(before) && WellFormed(after) && InBounds(a, |after.ops|) && ChangesOk(changes)
    requires InBounds(RemovedBefore(changes, |changes|), |before.ops|)
    ensures DiffNodesTell(before, after, a, changes, DiffNodes(before, after, a, changes))
  {
    var nodes := DiffNodes(before, after, a, changes);
    RemovedPlaces(changes, |changes|);
    forall i | 0 <= i < |a|
      ensures AfterTells(after, a[i], changes, nodes[i])
    {
      ClassesAreKinds(changes, |changes|, a[i]);
      assert forall j :: 0 <= j < |changes| ==> changes[j] in changes;
    }
    forall j | 0 <= j < |changes| && changes[j].before.Some? && changes[j].after.None?
      ensures GhostAt(before, changes, j, |a|, nodes)
    {
      assert nodes[|a| + Removals(changes, j)] == GhostOf(before.ops[changes[j].before.value], changes[j].before.value);
    }
  }

  lemma {:induction false} DiffChangesOk(before: ParsedModule, after: ParsedModule, func: string)
    requires WellFormed(before) && WellFormed(after) && after.Scope(func).Some?
    ensures ChangesOk(Difference(before, after, func).changes)
  {
    var changes := Difference(before, after, func).changes;
    if before.Scope(func).Some? {
      DiffConserves(before, after, func);
      DifferenceCovers(before, after, func);
      forall i, j | 0 <= i < j < |changes| && changes[i].after.Some?
        ensures changes[i].after != changes[j].after
      {
        assert AfterFields(changes)[i] == changes[i].after && AfterFields(changes)[j] == changes[j].after;
      }
    }
  }

  /** Behind every diff request stands the graph of the after operations and the removed ones. */
  lemma {:induction false} UnfoldedDiffTells(before: ParsedModule, after: ParsedModule, func: string)
    requires WellFormed(before) && WellFormed(after)
    ensures var nodes := UnfoldedDiff(before, after, func).nodes;
      if after.Scope(func).None? then FullTells(before, before.ScopeOps(func), nodes)
      else DiffNodesTell(before, after, after.ScopeOps(func), Difference(before, after, func).changes, nodes)
  {
    if after.Scope(func).None? {
      FullGraphTells(before, before.ScopeOps(func));
    } else {
      RemovedBeforeInBounds(before, after, func);
      DiffChangesOk(before, after, func);
      DiffNodesAreTold(before, after, after.ScopeOps(func), Difference(before, after, func).changes);
    }
  }

  // --------------------------------------------------------------- after folding

  /** The nodes show these operations, one each. */
  predicate Shown(nodes: seq<GraphNode>, ops: seq<ParsedOp>) {
    |nodes| == |ops| && forall i :: 0 <= i < |ops| ==> Shows(ops[i], nodes[i])
  }

  /** How many of the first `n` operations lie in none of the regions. */
  function Outside(ops: seq<ParsedOp>, n: nat, regions: seq<Path>): nat
    requires n <= |ops|
  {
    if n == 0 then 0 else Outside(ops, n - 1, regions) + if ops[n - 1].regionPath in regions then 0 else 1
  }

  /** How many of the first `n` operations lie directly in the region. */
  function Inside(ops: seq<ParsedOp>, n: nat, region: Path): nat
    requires n <= |ops|
  {
    if n == 0 then 0 else Inside(ops, n - 1, region) + if ops[n - 1].regionPath == region then 1 else 0
  }

  /** Some operation lies less deep: the region is not the function body itself. */
  predicate Nested(ops: seq<ParsedOp>, region: Path) {
    exists k :: 0 <= k < |ops| && |ops[k].regionPath| < |region|
  }

  /** The node of a folded region: named by its path, with the number of its operations, and nothing else. */
  predicate SummaryTells(ops: seq<ParsedOp>, region: Path, node: GraphNode) {
    var n := Inside(ops, |ops|, region);
    && n > 0 && node.id == ClusterNode(region) && node.cluster == region
    && node.caption == CountLabel(n) && node.collapsedCount == n && node.opName == "(cluster)"
    && node.lineRange == (0, 0) && node.change.None? && node.opIdx.None? && node.side.None?
  }

  /** The regions are folded deepest first, and only those of nested operations. */
  predicate RegionsTell(ops: seq<ParsedOp>, regions: seq<Path>) {
    && (forall j :: 0 <= j < |regions| ==> Nested(ops, regions[j]))
    && InPathOrder(regions)
    && (forall i, j :: 0 <= i < |ops| && 0 <= j < |regions| ==>
         Nested(ops, ops[i].regionPath) && PathBefore(ops[i].regionPath, regions[j]) ==> ops[i].regionPath in regions)
  }

  /** Operations outside the folded regions keep their nodes, in order; behind them each region has its summary. */
  predicate NodesTell(ops: seq<ParsedOp>, nodes: seq<GraphNode>, regions: seq<Path>, folded: seq<GraphNode>)
    requires |nodes| == |ops|
  {
    && |folded| == Outside(ops, |ops|, regions) + |regions|
    && (forall i :: 0 <= i < |ops| && ops[i].regionPath !in regions ==> KeptAt(ops, nodes, regions, folded, i))
    && (forall j :: 0 <= j < |regions| ==> SummaryTells(ops, regions[j], folded[Outside(ops, |ops|, regions) + j]))
  }

  predicate KeptAt(ops: seq<ParsedOp>, nodes: seq<GraphNode>, regions: seq<Path>, folded: seq<GraphNode>, i: nat)
    requires i < |ops| == |nodes|
  {
    Outside(ops, i, regions) < |folded| && folded[Outside(ops, i, regions)] == nodes[i]
  }

  /** No region more is folded than the budget asks for, and no fewer while there are any. */
  predicate BudgetTells(ops: seq<ParsedOp>, budget: nat, regions: seq<Path>) {
    && (budget == 0 || |ops| <= budget ==> regions == [])
    && (forall k :: 0 <= k < |regions| ==> Outside(ops, |ops|, regions[..k]) + k > budget)
    && (budget > 0 ==>
         || Outside(ops, |ops|, regions) + |regions| <= budget
         || forall i :: 0 <= i < |ops| && Nested(ops, ops[i].regionPath) ==> ops[i].regionPath in regions)
  }

  lemma {:induction false} SurvivorPlaces(nodes: seq<GraphNode>, ops: seq<ParsedOp>, n: nat, regions: seq<Path>)
    requires Shown(nodes, ops) && n <= |ops|
    ensures |Survivors(nodes[..n], regions)| == Outside(ops, n, regions)
    ensures forall i :: 0 <= i < n && ops[i].regionPath !in regions ==>
      KeptAt(ops, nodes, regions, Survivors(nodes[..n], regions), i)
  {
    if n > 0 {
      SurvivorPlaces(nodes, ops, n - 1, regions);
      assert nodes[..n] == nodes[..n - 1] + [nodes[n - 1]];
      OneMoreSurvivor(nodes[..n - 1], nodes[n - 1], regions);
    }
  }

  lemma OneMoreSurvivor(front: seq<GraphNode>, last: GraphNode, regions: seq<Path>)
    ensures Survivors(front + [last], regions)
      == Survivors(front, regions) + if last.cluster in regions then [] else [last]
    decreases |front|
  {
    if front != [] {
      OneMoreSurvivor(front[1..], last, regions);
      assert (front + [last])[1..] == front[1..] + [last];
      Associate(if front[0].cluster in regions then [] else [front[0]], Survivors(front[1..], regions),
        if last.cluster in regions then [] else [last]);
    } else {
      assert [] + [last] == [last];
    }
  }

  lemma {:induction false} CountsAgree(nodes: seq<GraphNode>, ops: seq<ParsedOp>, n: nat, region: Path)
    requires Shown(nodes, ops) && n <= |ops|
    ensures CountAt(nodes[..n], region) == Inside(ops, n, region)
  {
    if n > 0 {
      CountsAgree(nodes, ops, n - 1, region);
      assert nodes[..n] == nodes[..n - 1] + [nodes[n - 1]];
      OneMoreCount(nodes[..n - 1], nodes[n - 1], region);
    }
  }

  lemma {:induction false} OneMoreCount(front: seq<GraphNode>, last: GraphNode, region: Path)
    ensures CountAt(front + [last], region) == CountAt(front, region) + if last.cluster == region then 1 else 0
  {
    if front != [] {
      OneMoreCount(front[1..], last, region);
      assert (front + [last])[1..] == front[1..] + [last];
    } else {
      assert [] + [last] == [last];
    }
  }

  lemma FoldedNodesTell(g: Graph, ops: seq<ParsedOp>, regions: seq<Path>, f: Graph)
    requires Shown(g.nodes, ops) && IsQuotient(g, regions, f) && Inhabited(g.nodes, regions)
    ensures NodesTell(ops, g.nodes, regions, f.nodes)
  {
    assert g.nodes[..|ops|] == g.nodes;
    SurvivorPlaces(g.nodes, ops, |ops|, regions);
    var kept := Survivors(g.nodes, regions);
    forall i | 0 <= i < |ops| && ops[i].regionPath !in regions
      ensures KeptAt(ops, g.nodes, regions, f.nodes, i)
    {
      assert KeptAt(ops, g.nodes, regions, kept, i);
    }
    forall j | 0 <= j < |regions|
      ensures SummaryTells(ops, regions[j], f.nodes[|kept| + j])
    {
      CountsAgree(g.nodes, ops, |ops|, regions[j]);
      assert CountAt(g.nodes, regions[j]) > 0;
    }
  }

  /** A path is a candidate exactly when it is a nested operation's region. */
  lemma CandidatesAreRegions(nodes: seq<GraphNode>, ops: seq<ParsedOp>, p: Path)
    requires Shown(nodes, ops)
    ensures p in CandidatePaths(nodes, RootDepth(nodes)) <==>
      Nested(ops, p) && exists i :: 0 <= i < |ops| && ops[i].regionPath == p
  {
    var depth := ShallowestDepth(nodes);
    if p in CandidatePaths(nodes, RootDepth(nodes)) {
      var i :| 0 <= i < |nodes| && Real(nodes[i]) && |nodes[i].cluster| > RootDepth(nodes) && nodes[i].cluster == p;
      var k :| 0 <= k < |nodes| && Real(nodes[k]) && depth.value == |nodes[k].cluster|;
      assert |ops[k].regionPath| < |p| && ops[i].regionPath == p;
    }
    if Nested(ops, p) && exists i :: 0 <= i < |ops| && ops[i].regionPath == p {
      var i :| 0 <= i < |ops| && ops[i].regionPath == p;
      var k :| 0 <= k < |ops| && |ops[k].regionPath| < |p|;
      assert depth.value <= |nodes[k].cluster|;
      assert Real(nodes[i]) && |nodes[i].cluster| > RootDepth(nodes) && nodes[i].cluster == p;
    }
  }

  lemma PrefixTells(nodes: seq<GraphNode>, ops: seq<ParsedOp>, n: nat)
    requires Shown(nodes, ops) && n <= |CandidatePaths(nodes, RootDepth(nodes))|
    ensures RegionsTell(ops, CandidatePaths(nodes, RootDepth(nodes))[..n])
  {
    var paths := CandidatePaths(nodes, RootDepth(nodes));
    forall j | 0 <= j < n
      ensures Nested(ops, paths[j])
    {
      assert paths[j] in paths;
      CandidatesAreRegions(nodes, ops, paths[j]);
    }
    forall i, j | 0 <= i < |ops| && 0 <= j < n && Nested(ops, ops[i].regionPath)
      && PathBefore(ops[i].regionPath, paths[j])
      ensures ops[i].regionPath in paths[..n]
    {
      CandidatesAreRegions(nodes, ops, ops[i].regionPath);
      EarlierIsEarlier(paths, ops[i].regionPath, j);
    }
  }

  lemma EarlierIsEarlier(paths: seq<Path>, p: Path, j: nat)
    requires InPathOrder(paths) && p in paths && j < |paths| && PathBefore(p, paths[j])
    ensures exists k :: 0 <= k < j && paths[k] == p
  {
    var k :| 0 <= k < |paths| && paths[k] == p;
    LexIrreflexive(p);
    if j < k {
      assert PathBefore(paths[j], paths[k]);
      NotBothBefore(p, paths[j]);
    }
  }

  lemma NotBothBefore(a: Path, b: Path)
    ensures !(PathBefore(a, b) && PathBefore(b, a))
  {
    if PathBefore(a, b) && PathBefore(b, a) {
      LexTransitive(a, b, a);
      LexIrreflexive(a);
    }
  }

  lemma SizeAfter(g: Graph, ops: seq<ParsedOp>, paths: seq<Path>, k: nat)
    requires Plain(g) && g.clusters == [] && Shown(g.nodes, ops) && k <= |paths|
    requires paths == CandidatePaths(g.nodes, RootDepth(g.nodes))
    ensures |CollapseFirst(g, paths, k).nodes| == Outside(ops, |ops|, paths[..k]) + k
  {
    CollapseFirstIsQuotient(g, paths, k);
    FoldedNodesTell(g, ops, paths[..k], CollapseFirst(g, paths, k));
  }

  lemma BudgetIsKept(g: Graph, ops: seq<ParsedOp>, budget: nat)
    requires Plain(g) && g.clusters == [] && Shown(g.nodes, ops)
    ensures BudgetTells(ops, budget, FoldedPaths(g, budget))
  {
    if |g.nodes| <= budget || budget == 0 {
      NoneOutside(ops, |ops|);
    } else {
      var paths := CandidatePaths(g.nodes, RootDepth(g.nodes));
      var n := Needed(g, paths, budget, 0);
      forall k | 0 <= k < n
        ensures Outside(ops, |ops|, paths[..n][..k]) + k > budget
      {
        NeededIsFirst(g, paths, budget, 0, k);
        SizeAfter(g, ops, paths, k);
        assert paths[..n][..k] == paths[..k];
      }
      NeededIsFirst(g, paths, budget, 0, n);
      SizeAfter(g, ops, paths, n);
      if n == |paths| {
        assert paths[..n] == paths;
        forall i | 0 <= i < |ops| && Nested(ops, ops[i].regionPath)
          ensures ops[i].regionPath in paths
        {
          CandidatesAreRegions(g.nodes, ops, ops[i].regionPath);
        }
      }
    }
  }

  lemma {:induction false} NoneOutside(ops: seq<ParsedOp>, n: nat)
    requires n <= |ops|
    ensures Outside(ops, n, []) == n
  {
    if n > 0 {
      NoneOutside(ops, n - 1);
    }
  }

  /** What folding to a budget makes of a graph that shows the operations. */
  ghost predicate FoldedTells(g: Graph, ops: seq<ParsedOp>, budget: nat, folded: Graph)
    requires |g.nodes| == |ops|
  {
    exists regions :: FoldsTo(g, ops, budget, regions, folded)
  }

  ghost predicate FoldsTo(g: Graph, ops: seq<ParsedOp>, budget: nat, regions: seq<Path>, folded: Graph)
    requires |g.nodes| == |ops|
  {
    && folded.clusters == regions && RegionsTell(ops, regions) && BudgetTells(ops, budget, regions)
    && NodesTell(ops, g.nodes, regions, folded.nodes)
  }

  /** Which regions fold, and what is left, told by the operations' own region paths. */
  lemma FoldingTells(g: Graph, ops: seq<ParsedOp>, budget: nat)
    requires Plain(g) && g.clusters == [] && Shown(g.nodes, ops)
    ensures FoldedTells(g, ops, budget, Folded(g, budget))
  {
    var regions := FoldedPaths(g, budget);
    FoldedIsQuotient(g, budget);
    FoldedNodesTell(g, ops, regions, Folded(g, budget));
    BudgetIsKept(g, ops, budget);
    if |g.nodes| > budget && budget > 0 {
      PrefixTells(g.nodes, ops, Needed(g, CandidatePaths(g.nodes, RootDepth(g.nodes)), budget, 0));
    }
    assert FoldsTo(g, ops, budget, regions, Folded(g, budget));
  }

  // ------------------------------------------------------------ the graphs handed out

  /** The operations of a scope. */
  function OpsOf(m: ParsedModule, ops: seq<OpIdx>): seq<ParsedOp>
    requires InBounds(ops, |m.ops|)
  {
    seq(|ops|, i requires 0 <= i < |ops| => m.ops[ops[i]])
  }

  /** The graph of one module shows its scope, folded by its regions and then cut to the budget. */
  lemma GraphTells(m: ParsedModule, func: string, budget: nat)
    requires WellFormed(m) && m.Scope(func).Some?
    ensures var ops, full := m.ScopeOps(func), FullGraph(m, m.ScopeOps(func));
      && FullTells(m, ops, full.nodes) && Shown(full.nodes, OpsOf(m, ops))
      && FoldedTells(full, OpsOf(m, ops), budget, Folded(full, budget))
      && Extracted(m, func, budget) == Truncated(Folded(full, budget), budget)
  {
    var ops, full := m.ScopeOps(func), FullGraph(m, m.ScopeOps(func));
    FullGraphTells(m, ops);
    FullGraphIsPlain(m, ops);
    FoldingTells(full, OpsOf(m, ops), budget);
  }

  /** The after operations of a scope, and then the removed ones in diff order. */
  function DiffOps(before: ParsedModule, after: ParsedModule, a: seq<OpIdx>, changes: seq<OpChange>): seq<ParsedOp>
    requires InBounds(a, |after.ops|) && InBounds(RemovedBefore(changes, |changes|), |before.ops|)
  {
    OpsOf(after, a) + OpsOf(before, RemovedBefore(changes, |changes|))
  }

  lemma {:induction false} DiffGraphShows(before: ParsedModule, after: ParsedModule, a: seq<OpIdx>,
      changes: seq<OpChange>)
    requires InBounds(a, |after.ops|) && InBounds(RemovedBefore(changes, |changes|), |before.ops|)
    ensures Shown(DiffNodes(before, after, a, changes), DiffOps(before, after, a, changes))
  {
  }

  /** The graph of a diff shows the after scope and the removed operations, folded by their regions and then cut. */
  lemma {:induction false} DiffGraphTells(before: ParsedModule, after: ParsedModule, func: string, budget: nat)
    requires WellFormed(before) && WellFormed(after) && after.Scope(func).Some?
    ensures var changes, full := Difference(before, after, func).changes, UnfoldedDiff(before, after, func);
      && InBounds(RemovedBefore(changes, |changes|), |before.ops|)
      && var ops := DiffOps(before, after, after.ScopeOps(func), changes);
      && DiffNodesTell(before, after, after.ScopeOps(func), changes, full.nodes) && Shown(full.nodes, ops)
      && FoldedTells(full, ops, budget, Folded(full, budget))
      && ExtractedDiff(before, after, func, budget) == Truncated(Folded(full, budget), budget)
  {
    var changes, full := Difference(before, after, func).changes, UnfoldedDiff(before, after, func);
    RemovedBeforeInBounds(before, after, func);
    UnfoldedDiffTells(before, after, func);
    UnfoldedDiffIsPlain(before, after, func);
    DiffGraphShows(before, after, after.ScopeOps(func), changes);
    FoldingTells(full, DiffOps(before, after, after.ScopeOps(func), changes), budget);
  }
}
