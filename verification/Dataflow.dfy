// Def-use graphs of one function, plain or as a diff with ghosts for removed
// operations.
module Dataflow {
  import opened Model
  import opened Matcher
  import opened Diff
  import opened Collapse
  import opened Quotient

  // ------------------------------------------------------------ definitions

  function Defines(results: seq<string>, op: OpIdx, n: nat, sofar: map<string, OpIdx>): map<string, OpIdx>
    requires n <= |results|
  {
    if n == 0 then sofar else Defines(results, op, n - 1, sofar)[results[n - 1] := op]
  }

  /** Result names of the first `n` operations; a later definition overwrites an earlier one. */
  function Definitions(m: ParsedModule, ops: seq<OpIdx>, n: nat): (r: map<string, OpIdx>)
    requires n <= |ops| && InBounds(ops, |m.ops|)
  {
    if n == 0 then map[]
    else
      var op := m.ops[ops[n - 1]];
      Defines(op.results, ops[n - 1], |op.results|, Definitions(m, ops, n - 1))
  }

  method CollectDefinitions(m: ParsedModule, ops: seq<OpIdx>) returns (r: map<string, OpIdx>)
    requires InBounds(ops, |m.ops|)
    ensures r == Definitions(m, ops, |ops|)
  {
    r := map[];
    for n := 0 to |ops|
      invariant r == Definitions(m, ops, n)
    {
      ghost var sofar := r;
      var results := m.ops[ops[n]].results;
      for k := 0 to |results|
        invariant r == Defines(results, ops[n], k, sofar)
      {
        r := r[results[k] := ops[n]];
      }
    }
  }

  /** `d` is the last operation of the list that defines the name. */
  predicate LastDefinition(m: ParsedModule, ops: seq<OpIdx>, name: string, d: OpIdx)
    requires InBounds(ops, |m.ops|)
  {
    exists i :: 0 <= i < |ops| && ops[i] == d && name in m.ops[d].results
      && forall j :: i < j < |ops| ==> name !in m.ops[ops[j]].results
  }

  lemma {:induction false} DefinesLookup(results: seq<string>, op: OpIdx, n: nat, sofar: map<string, OpIdx>,
      name: string)
    requires n <= |results|
    ensures name in Defines(results, op, n, sofar) <==> name in sofar || name in results[..n]
    ensures name in results[..n] ==> Defines(results, op, n, sofar)[name] == op
    ensures name in sofar && name !in results[..n] ==> Defines(results, op, n, sofar)[name] == sofar[name]
  {
    if n > 0 {
      DefinesLookup(results, op, n - 1, sofar, name);
      assert results[..n] == results[..n - 1] + [results[n - 1]];
    }
  }

  lemma {:induction false} DefinitionsUpTo(m: ParsedModule, ops: seq<OpIdx>, n: nat, name: string)
    requires n <= |ops| && InBounds(ops, |m.ops|)
    ensures name in Definitions(m, ops, n) ==>
      (exists i :: 0 <= i < n && ops[i] == Definitions(m, ops, n)[name] && name in m.ops[ops[i]].results
         && forall j :: i < j < n ==> name !in m.ops[ops[j]].results)
    ensures name !in Definitions(m, ops, n) ==> forall j :: 0 <= j < n ==> name !in m.ops[ops[j]].results
  {
    if n > 0 {
      var op := m.ops[ops[n - 1]];
      DefinitionsUpTo(m, ops, n - 1, name);
      DefinesLookup(op.results, ops[n - 1], |op.results|, Definitions(m, ops, n - 1), name);
      assert op.results[..|op.results|] == op.results;
    }
  }

  /** The map answers with the last definition, and with nothing exactly when there is none. */
  lemma DefinitionsAreLast(m: ParsedModule, ops: seq<OpIdx>, name: string, d: OpIdx)
    requires InBounds(ops, |m.ops|)
    ensures var defs := Definitions(m, ops, |ops|);
      (name in defs && defs[name] == d) <==> LastDefinition(m, ops, name, d)
  {
    DefinitionsUpTo(m, ops, |ops|, name);
  }

  // ------------------------------------------------------------------ edges

  /** The edges one use contributes after its first `k` operands, on top of `sofar`. */
  function UseEdges(defs: map<string, OpIdx>, use: OpIdx, operands: seq<string>, k: nat,
      sofar: seq<GraphEdge>): (r: seq<GraphEdge>)
    requires k <= |operands|
  {
    if k == 0 then sofar
    else
      var before := UseEdges(defs, use, operands, k - 1, sofar);
      if operands[k - 1] !in defs || defs[operands[k - 1]] == use then before
      else
        var e := GraphEdge(OpNode(defs[operands[k - 1]]), OpNode(use), false);
        if e in before then before else before + [e]
  }

  function EdgesUpTo(m: ParsedModule, ops: seq<OpIdx>, n: nat): (r: seq<GraphEdge>)
    requires n <= |ops| && InBounds(ops, |m.ops|)
  {
    if n == 0 then []
    else
      var operands := m.ops[ops[n - 1]].operands;
      UseEdges(Definitions(m, ops, |ops|), ops[n - 1], operands, |operands|, EdgesUpTo(m, ops, n - 1))
  }

  function DefUseEdges(m: ParsedModule, ops: seq<OpIdx>): seq<GraphEdge>
    requires InBounds(ops, |m.ops|)
  {
    EdgesUpTo(m, ops, |ops|)
  }

  method DataflowEdges(m: ParsedModule, ops: seq<OpIdx>) returns (edges: seq<GraphEdge>)
    requires InBounds(ops, |m.ops|)
    ensures edges == DefUseEdges(m, ops)
  {
    var definitions := CollectDefinitions(m, ops);
    edges := [];
    var seen: set<(OpIdx, OpIdx)> := {};
    for n := 0 to |ops|
      invariant edges == EdgesUpTo(m, ops, n)
      invariant forall d: OpIdx, u: OpIdx :: (d, u) in seen <==> GraphEdge(OpNode(d), OpNode(u), false) in edges
    {
      edges, seen := EdgesOfUse(definitions, ops[n], m.ops[ops[n]].operands, ops, edges, seen);
    }
  }

  method EdgesOfUse(definitions: map<string, OpIdx>, use: OpIdx, operands: seq<string>, ghost ops: seq<OpIdx>,
      sofar: seq<GraphEdge>, seenBefore: set<(OpIdx, OpIdx)>)
    returns (edges: seq<GraphEdge>, seen: set<(OpIdx, OpIdx)>)
    requires forall d: OpIdx, u: OpIdx :: (d, u) in seenBefore <==> GraphEdge(OpNode(d), OpNode(u), false) in sofar
    ensures edges == UseEdges(definitions, use, operands, |operands|, sofar)
    ensures forall d: OpIdx, u: OpIdx :: (d, u) in seen <==> GraphEdge(OpNode(d), OpNode(u), false) in edges
  {
    edges, seen := sofar, seenBefore;
    for k := 0 to |operands|
      invariant edges == UseEdges(definitions, use, operands, k, sofar)
      invariant forall d: OpIdx, u: OpIdx :: (d, u) in seen <==> GraphEdge(OpNode(d), OpNode(u), false) in edges
    {
      if operands[k] in definitions {
        var definition := definitions[operands[k]];
        if definition != use && (definition, use) !in seen {
          seen := seen + {(definition, use)};
          edges := edges + [GraphEdge(OpNode(definition), OpNode(use), false)];
        }
      }
    }
  }

  /** A use reads a value whose last definition in the scope is another operation. */
  predicate Reads(m: ParsedModule, ops: seq<OpIdx>, d: OpIdx, u: OpIdx)
    requires InBounds(ops, |m.ops|)
  {
    u in ops && d != u && exists name :: name in m.ops[u].operands && LastDefinition(m, ops, name, d)
  }

  lemma {:induction false} UseEdgesMeaning(defs: map<string, OpIdx>, use: OpIdx, operands: seq<string>, k: nat,
      sofar: seq<GraphEdge>, e: GraphEdge)
    requires k <= |operands|
    ensures e in UseEdges(defs, use, operands, k, sofar) <==>
      || e in sofar
      || (exists i :: 0 <= i < k && operands[i] in defs && defs[operands[i]] != use
            && e == GraphEdge(OpNode(defs[operands[i]]), OpNode(use), false))
  {
    if k > 0 {
      UseEdgesMeaning(defs, use, operands, k - 1, sofar, e);
    }
  }

  lemma {:induction false} EdgesUpToMeaning(m: ParsedModule, ops: seq<OpIdx>, n: nat, e: GraphEdge)
    requires n <= |ops| && InBounds(ops, |m.ops|)
    ensures e in EdgesUpTo(m, ops, n) <==>
      exists d, i :: 0 <= i < n && Reads(m, ops, d, ops[i]) && e == GraphEdge(OpNode(d), OpNode(ops[i]), false)
  {
    if n > 0 {
      EdgesUpToMeaning(m, ops, n - 1, e);
      var use := ops[n - 1];
      var operands, defs := m.ops[use].operands, Definitions(m, ops, |ops|);
      UseEdgesMeaning(defs, use, operands, |operands|, EdgesUpTo(m, ops, n - 1), e);
      if e in EdgesUpTo(m, ops, n) && e !in EdgesUpTo(m, ops, n - 1) {
        var i :| 0 <= i < |operands| && operands[i] in defs && defs[operands[i]] != use
          && e == GraphEdge(OpNode(defs[operands[i]]), OpNode(use), false);
        DefinitionsAreLast(m, ops, operands[i], defs[operands[i]]);
        assert Reads(m, ops, defs[operands[i]], ops[n - 1]);
      }
      forall d | Reads(m, ops, d, use) && e == GraphEdge(OpNode(d), OpNode(use), false)
        ensures e in EdgesUpTo(m, ops, n)
      {
        var name :| name in operands && LastDefinition(m, ops, name, d);
        DefinitionsAreLast(m, ops, name, d);
        var i :| 0 <= i < |operands| && operands[i] == name;
      }
    }
  }

  /** The edges are exactly the def-use pairs, each listed once. */
  lemma EdgesAreDefUse(m: ParsedModule, ops: seq<OpIdx>, d: OpIdx, u: OpIdx)
    requires InBounds(ops, |m.ops|)
    ensures GraphEdge(OpNode(d), OpNode(u), false) in DefUseEdges(m, ops) <==> Reads(m, ops, d, u)
  {
    var e := GraphEdge(OpNode(d), OpNode(u), false);
    EdgesUpToMeaning(m, ops, |ops|, e);
    if Reads(m, ops, d, u) {
      var i :| 0 <= i < |ops| && ops[i] == u;
      assert Reads(m, ops, d, ops[i]);
    }
  }

  predicate NoRepeats(edges: seq<GraphEdge>) {
    forall i, j :: 0 <= i < j < |edges| ==> edges[i] != edges[j]
  }

  lemma {:induction false} UseEdgesDistinct(defs: map<string, OpIdx>, use: OpIdx, operands: seq<string>, k: nat,
      sofar: seq<GraphEdge>)
    requires k <= |operands| && NoRepeats(sofar)
    ensures NoRepeats(UseEdges(defs, use, operands, k, sofar))
  {
    if k > 0 {
      UseEdgesDistinct(defs, use, operands, k - 1, sofar);
    }
  }

  lemma {:induction false} EdgesDistinct(m: ParsedModule, ops: seq<OpIdx>, n: nat)
    requires n <= |ops| && InBounds(ops, |m.ops|)
    ensures NoRepeats(EdgesUpTo(m, ops, n))
  {
    if n > 0 {
      EdgesDistinct(m, ops, n - 1);
      var operands := m.ops[ops[n - 1]].operands;
      UseEdgesDistinct(Definitions(m, ops, |ops|), ops[n - 1], operands, |operands|, EdgesUpTo(m, ops, n - 1));
    }
  }

  // -------------------------------------------------------------- one module

  function CaptionOf(op: ParsedOp): Caption {
    OpLabel(op.name, if op.resultTypes == [] then None else Some(op.resultTypes[0]))
  }

  function NodeOf(op: ParsedOp, change: Option<ChangeClass>, side: Option<SnapshotSide>): GraphNode {
    GraphNode(OpNode(op.idx), CaptionOf(op), op.name, (op.lineStart, op.lineEnd), op.regionPath, change, 0,
      Some(op.idx), side)
  }

  function FullGraph(m: ParsedModule, ops: seq<OpIdx>): Graph
    requires InBounds(ops, |m.ops|)
  {
    Graph(seq(|ops|, i requires 0 <= i < |ops| => NodeOf(m.ops[ops[i]], None, None)), DefUseEdges(m, ops), [], false)
  }

  function Extracted(m: ParsedModule, func: string, budget: nat): Graph
    requires ScopesInBounds(m)
  {
    if m.Scope(func).None? then Graph([], [], [], false)
    else Truncated(Folded(FullGraph(m, m.ScopeOps(func)), budget), budget)
  }

  method ExtractDataflow(m: ParsedModule, func: string, budget: nat) returns (g: Graph)
    requires ScopesInBounds(m)
    ensures g == Extracted(m, func, budget)
  {
    if m.Scope(func).None? {
      return Graph([], [], [], false);
    }
    var ops := m.Scope(func).value.ops;
    var nodes := seq(|ops|, i requires 0 <= i < |ops| => NodeOf(m.ops[ops[i]], None, None));
    var edges := DataflowEdges(m, ops);
    g := CollapseToBudget(Graph(nodes, edges, [], false), budget);
  }

  lemma FullGraphIsPlain(m: ParsedModule, ops: seq<OpIdx>)
    requires WellFormed(m) && InBounds(ops, |m.ops|) && StrictlyIncreasing(ops)
    ensures Plain(FullGraph(m, ops)) && FullGraph(m, ops).clusters == []
  {
    var g := FullGraph(m, ops);
    forall e | e in g.edges
      ensures e.from in Ids(g.nodes) && e.to in Ids(g.nodes) && e.from != e.to
    {
      EdgesUpToMeaning(m, ops, |ops|, e);
      var d, i :| 0 <= i < |ops| && Reads(m, ops, d, ops[i]) && e == GraphEdge(OpNode(d), OpNode(ops[i]), false);
      var name :| name in m.ops[ops[i]].operands && LastDefinition(m, ops, name, d);
      var j :| 0 <= j < |ops| && ops[j] == d;
      assert g.nodes[i].id == e.to && g.nodes[j].id == e.from;
    }
  }

  // --------------------------------------------------------- diffed modules

  function AfterClasses(changes: seq<OpChange>, n: nat): map<OpIdx, ChangeClass>
    requires n <= |changes|
  {
    if n == 0 then map[]
    else if changes[n - 1].after.Some? then AfterClasses(changes, n - 1)[changes[n - 1].after.value :=
      changes[n - 1].kind]
    else AfterClasses(changes, n - 1)
  }

  function BeforeToAfter(changes: seq<OpChange>, n: nat): map<OpIdx, OpIdx>
    requires n <= |changes|
  {
    if n == 0 then map[]
    else
      var c := changes[n - 1];
      if c.after.Some? && c.before.Some? then BeforeToAfter(changes, n - 1)[c.before.value := c.after.value]
      else BeforeToAfter(changes, n - 1)
  }

  function RemovedBefore(changes: seq<OpChange>, n: nat): (r: seq<OpIdx>)
    requires n <= |changes|
  {
    if n == 0 then []
    else RemovedBefore(changes, n - 1) + if IsRemoved(changes[n - 1]) then [changes[n - 1].before.value] else []
  }

  function Endpoint(beforeToAfter: map<OpIdx, OpIdx>, b: OpIdx): NodeId {
    if b in beforeToAfter then OpNode(beforeToAfter[b]) else GhostNode(b)
  }

  function GhostOf(op: ParsedOp, b: OpIdx): GraphNode {
    GraphNode(GhostNode(b), CaptionOf(op), op.name, (op.lineStart, op.lineEnd), op.regionPath, Some(Removed), 0,
      Some(op.idx), Some(Before))
  }

  function AfterNode(after: ParsedModule, classes: map<OpIdx, ChangeClass>, a: OpIdx): GraphNode
    requires a < |after.ops|
  {
    NodeOf(after.ops[a], Some(if a in classes then classes[a] else Unchanged), Some(After))
  }

  /** What a removed operation used to read: one edge per operand with a known definition. */
  function Incoming(defs: map<string, OpIdx>, ends: map<OpIdx, OpIdx>, b: OpIdx, operands: seq<string>,
      k: nat): (r: seq<GraphEdge>)
    requires k <= |operands|
  {
    if k == 0 then []
    else
      Incoming(defs, ends, b, operands, k - 1) +
      if operands[k - 1] in defs && defs[operands[k - 1]] != b
      then [GraphEdge(Endpoint(ends, defs[operands[k - 1]]), GhostNode(b), true)] else []
  }

  predicate UsesResultOf(m: ParsedModule, user: OpIdx, b: OpIdx)
    requires user < |m.ops| && b < |m.ops|
  {
    exists name :: name in m.ops[user].operands && name in m.ops[b].results
  }

  /** Who used to read a removed operation. */
  function Outgoing(m: ParsedModule, ends: map<OpIdx, OpIdx>, b: OpIdx, ops: seq<OpIdx>, k: nat): (r: seq<GraphEdge>)
    requires k <= |ops| && InBounds(ops, |m.ops|) && b < |m.ops|
  {
    if k == 0 then []
    else
      Outgoing(m, ends, b, ops, k - 1) +
      if ops[k - 1] != b && UsesResultOf(m, ops[k - 1], b)
      then [GraphEdge(GhostNode(b), Endpoint(ends, ops[k - 1]), true)] else []
  }

  function GhostEdges(m: ParsedModule, ops: seq<OpIdx>, ends: map<OpIdx, OpIdx>, removed: seq<OpIdx>,
      n: nat): (r: seq<GraphEdge>)
    requires n <= |removed| && InBounds(ops, |m.ops|) && InBounds(removed, |m.ops|)
  {
    if n == 0 then []
    else
      var b := removed[n - 1];
      GhostEdges(m, ops, ends, removed, n - 1)
      + Incoming(Definitions(m, ops, |ops|), ends, b, m.ops[b].operands, |m.ops[b].operands|)
      + Outgoing(m, ends, b, ops, |ops|)
  }

  function DiffNodes(before: ParsedModule, after: ParsedModule, a: seq<OpIdx>,
      changes: seq<OpChange>): (r: seq<GraphNode>)
    requires InBounds(a, |after.ops|) && InBounds(RemovedBefore(changes, |changes|), |before.ops|)
  {
    var classes, removed := AfterClasses(changes, |changes|), RemovedBefore(changes, |changes|);
    seq(|a|, i requires 0 <= i < |a| => AfterNode(after, classes, a[i]))
    + seq(|removed|, i requires 0 <= i < |removed| => GhostOf(before.ops[removed[i]], removed[i]))
  }

  /** The diff graph of two scopes before any folding. */
  function DiffGraph(before: ParsedModule, after: ParsedModule, b: seq<OpIdx>, a: seq<OpIdx>,
      changes: seq<OpChange>): Graph
    requires InBounds(b, |before.ops|) && InBounds(a, |after.ops|) && InBounds(RemovedBefore(changes, |changes|),
      |before.ops|)
  {
    var removed := RemovedBefore(changes, |changes|);
    Graph(DiffNodes(before, after, a, changes),
          DefUseEdges(after, a) + GhostEdges(before, b, BeforeToAfter(changes, |changes|), removed, |removed|),
          [], false)
  }

  lemma {:induction false} RemovedBeforeMeaning(changes: seq<OpChange>, n: nat, b: OpIdx)
    requires n <= |changes|
    ensures b in RemovedBefore(changes, n) <==>
      exists i :: 0 <= i < n && IsRemoved(changes[i]) && changes[i].before == Some(b)
  {
    if n > 0 {
      RemovedBeforeMeaning(changes, n - 1, b);
    }
  }

  lemma RemovedBeforeInBounds(before: ParsedModule, after: ParsedModule, func: string)
    requires ScopesInBounds(before) && ScopesInBounds(after)
    ensures var changes := Difference(before, after, func).changes;
      InBounds(RemovedBefore(changes, |changes|), |before.ops|)
  {
    var changes := Difference(before, after, func).changes;
    var removed := RemovedBefore(changes, |changes|);
    forall k | 0 <= k < |removed|
      ensures removed[k] < |before.ops|
    {
      RemovedBeforeMeaning(changes, |changes|, removed[k]);
      assert removed[k] in removed;
      var i :| 0 <= i < |changes| && IsRemoved(changes[i]) && changes[i].before == Some(removed[k]);
      RemovalsComeFromPairs(before, after, func, changes[i]);
    }
  }

  lemma RemovalsComeFromPairs(before: ParsedModule, after: ParsedModule, func: string, c: OpChange)
    requires ScopesInBounds(before) && ScopesInBounds(after)
    requires c in Difference(before, after, func).changes && IsRemoved(c)
    ensures c.before.value < |before.ops|
  {
    var pairs := Pairing(before, after, func);
    var unsorted := RemovedIn(before, after, pairs, |pairs|);
    SpliceMembers(Drain(SortIndices(after.ScopeOps(func)), ByAfter(before, after, pairs, |pairs|)),
      SortRemoved(unsorted));
    SortRemovedMembers(unsorted);
    RemovedInLists(before, after, pairs, |pairs|);
    DrainHasNoRemoval(SortIndices(after.ScopeOps(func)), ByAfter(before, after, pairs, |pairs|), c);
  }

  lemma DrainHasNoRemoval(order: seq<OpIdx>, byAfter: map<OpIdx, OpChange>, c: OpChange)
    requires forall a :: a in byAfter ==> byAfter[a].after == Some(a) && byAfter[a].kind != Removed
    requires IsRemoved(c)
    ensures c !in Drain(order, byAfter)
  {
  }

  lemma {:induction false} InsertRemovedMembers(s: seq<OpChange>, c: OpChange)
    requires AllRemoved(s) && IsRemoved(c)
    ensures forall d :: d in InsertRemoved(s, c) <==> d in s || d == c
  {
    if s != [] && s[|s| - 1].before.value > c.before.value {
      InsertRemovedMembers(s[..|s| - 1], c);
      assert s == s[..|s| - 1] + [s[|s| - 1]];
    }
  }

  lemma {:induction false} SortRemovedMembers(s: seq<OpChange>)
    requires AllRemoved(s)
    ensures forall d :: d in SortRemoved(s) <==> d in s
  {
    if s != [] {
      SortRemovedMembers(s[..|s| - 1]);
      InsertRemovedMembers(SortRemoved(s[..|s| - 1]), s[|s| - 1]);
      assert s == s[..|s| - 1] + [s[|s| - 1]];
    }
  }

  function ExtractedDiff(before: ParsedModule, after: ParsedModule, func: string, budget: nat): Graph
    requires ScopesInBounds(before) && ScopesInBounds(after)
  {
    if after.Scope(func).None? then Extracted(before, func, budget)
    else
      var changes := Difference(before, after, func).changes;
      RemovedBeforeInBounds(before, after, func);
      Truncated(Folded(DiffGraph(before, after, before.ScopeOps(func), after.ScopeOps(func), changes), budget), budget)
  }

  method ExtractDataflowDiff(before: ParsedModule, after: ParsedModule, func: string, budget: nat) returns (g: Graph)
    requires ScopesInBounds(before) && ScopesInBounds(after)
    ensures g == ExtractedDiff(before, after, func, budget)
  {
    if after.Scope(func).None? {
      g := ExtractDataflow(before, func, budget);
      return;
    }
    var diff := DiffFunction(before, after, func);
    RemovedBeforeInBounds(before, after, func);
    var a, b := after.Scope(func).value.ops, before.ScopeOps(func);
    var afterClasses, removedBefore, beforeToAfter := SortChanges(diff.changes);
    var nodes := seq(|a|, i requires 0 <= i < |a| => AfterNode(after, afterClasses, a[i]));
    nodes := nodes + seq(|removedBefore|,
      i requires 0 <= i < |removedBefore| => GhostOf(before.ops[removedBefore[i]], removedBefore[i]));
    var edges := DataflowEdges(after, a);
    var ghosts := CollectGhostEdges(before, b, beforeToAfter, removedBefore);
    g := CollapseToBudget(Graph(nodes, edges + ghosts, [], false), budget);
  }

  method SortChanges(changes: seq<OpChange>)
    returns (afterClasses: map<OpIdx, ChangeClass>, removedBefore: seq<OpIdx>, beforeToAfter: map<OpIdx, OpIdx>)
    ensures afterClasses == AfterClasses(changes, |changes|)
    ensures removedBefore == RemovedBefore(changes, |changes|)
    ensures beforeToAfter == BeforeToAfter(changes, |changes|)
  {
    afterClasses, removedBefore, beforeToAfter := map[], [], map[];
    for n := 0 to |changes|
      invariant afterClasses == AfterClasses(changes, n)
      invariant removedBefore == RemovedBefore(changes, n)
      invariant beforeToAfter == BeforeToAfter(changes, n)
    {
      var c := changes[n];
      if c.after.Some? {
        afterClasses := afterClasses[c.after.value := c.kind];
        if c.before.Some? {
          beforeToAfter := beforeToAfter[c.before.value := c.after.value];
        }
      } else if c.before.Some? && c.kind == Removed {
        removedBefore := removedBefore + [c.before.value];
      }
    }
  }

  method CollectGhostEdges(m: ParsedModule, ops: seq<OpIdx>, ends: map<OpIdx, OpIdx>, removed: seq<OpIdx>)
    returns (edges: seq<GraphEdge>)
    requires InBounds(ops, |m.ops|) && InBounds(removed, |m.ops|)
    ensures edges == GhostEdges(m, ops, ends, removed, |removed|)
  {
    var definitions := CollectDefinitions(m, ops);
    edges := [];
    for n := 0 to |removed|
      invariant edges == GhostEdges(m, ops, ends, removed, n)
    {
      edges := CollectIncoming(definitions, ends, removed[n], m.ops[removed[n]].operands, edges);
      edges := CollectOutgoing(m, ends, removed[n], ops, edges);
    }
  }

  method CollectIncoming(definitions: map<string, OpIdx>, ends: map<OpIdx, OpIdx>, b: OpIdx, operands: seq<string>,
      sofar: seq<GraphEdge>)
    returns (edges: seq<GraphEdge>)
    ensures edges == sofar + Incoming(definitions, ends, b, operands, |operands|)
  {
    edges := sofar;
    for k := 0 to |operands|
      invariant edges == sofar + Incoming(definitions, ends, b, operands, k)
    {
      if operands[k] in definitions && definitions[operands[k]] != b {
        edges := edges + [GraphEdge(Endpoint(ends, definitions[operands[k]]), GhostNode(b), true)];
      }
    }
  }

  method CollectOutgoing(m: ParsedModule, ends: map<OpIdx, OpIdx>, b: OpIdx, ops: seq<OpIdx>, sofar: seq<GraphEdge>)
    returns (edges: seq<GraphEdge>)
    requires InBounds(ops, |m.ops|) && b < |m.ops|
    ensures edges == sofar + Outgoing(m, ends, b, ops, |ops|)
  {
    edges := sofar;
    for k := 0 to |ops|
      invariant edges == sofar + Outgoing(m, ends, b, ops, k)
    {
      if ops[k] != b && UsesResultOf(m, ops[k], b) {
        edges := edges + [GraphEdge(GhostNode(b), Endpoint(ends, ops[k]), true)];
      }
    }
  }

  // --------------------------------------------------- what the edges mean

  lemma {:induction false} IncomingMeaning(defs: map<string, OpIdx>, ends: map<OpIdx, OpIdx>, b: OpIdx,
      operands: seq<string>, k: nat, e: GraphEdge)
    requires k <= |operands|
    ensures e in Incoming(defs, ends, b, operands, k) <==>
      exists i :: 0 <= i < k && operands[i] in defs && defs[operands[i]] != b && e == GraphEdge(Endpoint(ends,
        defs[operands[i]]), GhostNode(b), true)
  {
    if k > 0 {
      IncomingMeaning(defs, ends, b, operands, k - 1, e);
    }
  }

  lemma {:induction false} OutgoingMeaning(m: ParsedModule, ends: map<OpIdx, OpIdx>, b: OpIdx, ops: seq<OpIdx>, k: nat,
      e: GraphEdge)
    requires k <= |ops| && InBounds(ops, |m.ops|) && b < |m.ops|
    ensures e in Outgoing(m, ends, b, ops, k) <==>
      exists i :: 0 <= i < k && ops[i] != b && UsesResultOf(m, ops[i], b) && e == GraphEdge(GhostNode(b),
        Endpoint(ends, ops[i]), true)
  {
    if k > 0 {
      OutgoingMeaning(m, ends, b, ops, k - 1, e);
    }
  }

  /** Before the pass, `d` fed `u` and one of the two was the removed operation `b`. */
  predicate FedRemoved(m: ParsedModule, ops: seq<OpIdx>, d: OpIdx, u: OpIdx, b: OpIdx)
    requires InBounds(ops, |m.ops|) && b < |m.ops|
  {
    d != u && (
      || (u == b && exists name :: name in m.ops[b].operands && LastDefinition(m, ops, name, d))
      || (d == b && u in ops && u < |m.ops| && exists name :: name in m.ops[u].operands && name in m.ops[b].results))
  }

  ghost predicate FromAnyRemoved(m: ParsedModule, ops: seq<OpIdx>, ends: map<OpIdx, OpIdx>, removed: seq<OpIdx>, n: nat,
      e: GraphEdge)
    requires n <= |removed| && InBounds(ops, |m.ops|) && InBounds(removed, |m.ops|)
  {
    exists i :: 0 <= i < n && FromRemoved(m, ops, ends, removed[i], e)
  }

  lemma OneMoreRemoved(m: ParsedModule, ops: seq<OpIdx>, ends: map<OpIdx, OpIdx>, removed: seq<OpIdx>, n: nat,
      e: GraphEdge)
    requires n < |removed| && InBounds(ops, |m.ops|) && InBounds(removed, |m.ops|)
    ensures FromAnyRemoved(m, ops, ends, removed, n + 1, e)
      <==> FromAnyRemoved(m, ops, ends, removed, n, e) || FromRemoved(m, ops, ends, removed[n], e)
  {
  }

  lemma {:induction false} GhostEdgesMeaning(m: ParsedModule, ops: seq<OpIdx>, ends: map<OpIdx, OpIdx>,
      removed: seq<OpIdx>, n: nat, e: GraphEdge)
    requires n <= |removed| && InBounds(ops, |m.ops|) && InBounds(removed, |m.ops|)
    ensures e in GhostEdges(m, ops, ends, removed, n) <==> FromAnyRemoved(m, ops, ends, removed, n, e)
  {
    if n > 0 {
      GhostEdgesMeaning(m, ops, ends, removed, n - 1, e);
      OneMoreGhost(m, ops, ends, removed, n, e);
      OneMoreRemoved(m, ops, ends, removed, n - 1, e);
    }
  }

  lemma OneMoreGhost(m: ParsedModule, ops: seq<OpIdx>, ends: map<OpIdx, OpIdx>, removed: seq<OpIdx>, n: nat,
      e: GraphEdge)
    requires 0 < n <= |removed| && InBounds(ops, |m.ops|) && InBounds(removed, |m.ops|)
    ensures e in GhostEdges(m, ops, ends, removed, n) <==>
      e in GhostEdges(m, ops, ends, removed, n - 1) || FromRemoved(m, ops, ends, removed[n - 1], e)
  {
    var b := removed[n - 1];
    OneGhostMeaning(m, ops, ends, b, e);
    var incoming := Incoming(Definitions(m, ops, |ops|), ends, b, m.ops[b].operands, |m.ops[b].operands|);
    var outgoing := Outgoing(m, ends, b, ops, |ops|);
    InOneOfThree(GhostEdges(m, ops, ends, removed, n - 1), incoming, outgoing, e);
  }

  lemma InOneOfThree(a: seq<GraphEdge>, b: seq<GraphEdge>, c: seq<GraphEdge>, e: GraphEdge)
    ensures e in a + b + c <==> e in a || e in b || e in c
  {
  }

  /** The edge is drawn, flagged as removed, between where the two ends are shown now. */
  predicate FromRemoved(m: ParsedModule, ops: seq<OpIdx>, ends: map<OpIdx, OpIdx>, b: OpIdx, e: GraphEdge)
    requires InBounds(ops, |m.ops|) && b < |m.ops|
  {
    e.removed && (
      || (e.to == GhostNode(b) && exists d :: d in ops && FedRemoved(m, ops, d, b, b) && e.from == Endpoint(ends, d))
      || (e.from == GhostNode(b) && exists u :: u in ops && FedRemoved(m, ops, b, u, b) && e.to == Endpoint(ends, u)))
  }

  lemma OneGhostMeaning(m: ParsedModule, ops: seq<OpIdx>, ends: map<OpIdx, OpIdx>, b: OpIdx, e: GraphEdge)
    requires InBounds(ops, |m.ops|) && b < |m.ops|
    ensures FromRemoved(m, ops, ends, b, e) <==>
      || e in Incoming(Definitions(m, ops, |ops|), ends, b, m.ops[b].operands, |m.ops[b].operands|)
      || e in Outgoing(m, ends, b, ops, |ops|)
  {
    IncomingIsFed(m, ops, ends, b, e);
    OutgoingIsFed(m, ops, ends, b, e);
  }

  lemma IncomingIsFed(m: ParsedModule, ops: seq<OpIdx>, ends: map<OpIdx, OpIdx>, b: OpIdx, e: GraphEdge)
    requires InBounds(ops, |m.ops|) && b < |m.ops|
    ensures e in Incoming(Definitions(m, ops, |ops|), ends, b, m.ops[b].operands, |m.ops[b].operands|) <==>
      && e.removed && e.to == GhostNode(b)
      && exists d :: d in ops && FedRemoved(m, ops, d, b, b) && e.from == Endpoint(ends, d)
  {
    var defs, operands := Definitions(m, ops, |ops|), m.ops[b].operands;
    IncomingMeaning(defs, ends, b, operands, |operands|, e);
    if e in Incoming(defs, ends, b, operands, |operands|) {
      var i :| 0 <= i < |operands| && operands[i] in defs && defs[operands[i]] != b
        && e == GraphEdge(Endpoint(ends, defs[operands[i]]), GhostNode(b), true);
      DefinitionsAreLast(m, ops, operands[i], defs[operands[i]]);
      assert FedRemoved(m, ops, defs[operands[i]], b, b);
    }
    if && e.removed && e.to == GhostNode(b)
       && exists d :: d in ops && FedRemoved(m, ops, d, b, b) && e.from == Endpoint(ends, d) {
      var d :| d in ops && FedRemoved(m, ops, d, b, b) && e.from == Endpoint(ends, d);
      var name :| name in operands && LastDefinition(m, ops, name, d);
      DefinitionsAreLast(m, ops, name, d);
      var i :| 0 <= i < |operands| && operands[i] == name;
    }
  }

  lemma OutgoingIsFed(m: ParsedModule, ops: seq<OpIdx>, ends: map<OpIdx, OpIdx>, b: OpIdx, e: GraphEdge)
    requires InBounds(ops, |m.ops|) && b < |m.ops|
    ensures e in Outgoing(m, ends, b, ops, |ops|) <==>
      && e.removed && e.from == GhostNode(b)
      && exists u :: u in ops && FedRemoved(m, ops, b, u, b) && e.to == Endpoint(ends, u)
  {
    OutgoingMeaning(m, ends, b, ops, |ops|, e);
    if e in Outgoing(m, ends, b, ops, |ops|) {
      var i :| 0 <= i < |ops| && ops[i] != b && UsesResultOf(m, ops[i], b)
        && e == GraphEdge(GhostNode(b), Endpoint(ends, ops[i]), true);
      assert FedRemoved(m, ops, b, ops[i], b);
    }
    if && e.removed && e.from == GhostNode(b)
       && exists u :: u in ops && FedRemoved(m, ops, b, u, b) && e.to == Endpoint(ends, u) {
      var u :| u in ops && FedRemoved(m, ops, b, u, b) && e.to == Endpoint(ends, u);
      var i :| 0 <= i < |ops| && ops[i] == u;
    }
  }

  // ------------------------------------------------------------- soundness

  lemma {:induction false} BeforeToAfterMeaning(changes: seq<OpChange>, n: nat, b: OpIdx)
    requires n <= |changes|
    ensures b in BeforeToAfter(changes, n) <==>
      exists i :: 0 <= i < n && changes[i].before == Some(b) && changes[i].after.Some?
    ensures b in BeforeToAfter(changes, n) ==>
      exists i :: 0 <= i < n && changes[i].before == Some(b) && changes[i].after == Some(BeforeToAfter(changes, n)[b])
  {
    if n > 0 {
      BeforeToAfterMeaning(changes, n - 1, b);
    }
  }

  /** What the structural diff guarantees about its changes. */
  ghost predicate CoversScopes(changes: seq<OpChange>, b: seq<OpIdx>, a: seq<OpIdx>) {
    && (forall op :: op in b ==> exists i :: 0 <= i < |changes| && changes[i].before == Some(op))
    && (forall i, j :: 0 <= i < j < |changes| && changes[i].before.Some? ==> changes[i].before != changes[j].before)
    && (forall i :: 0 <= i < |changes| && changes[i].after.Some? ==> changes[i].after.value in a)
    && forall i :: 0 <= i < |changes| ==> (changes[i].after.None? <==> IsRemoved(changes[i]))
  }

  /** Every before operation is shown: as the after operation it became, or as a ghost. */
  lemma {:induction false} EndpointIsShown(before: ParsedModule, after: ParsedModule, b: seq<OpIdx>, a: seq<OpIdx>,
      changes: seq<OpChange>, op: OpIdx)
    requires WellFormed(after) && InBounds(a, |after.ops|) && InBounds(RemovedBefore(changes, |changes|), |before.ops|)
    requires CoversScopes(changes, b, a) && op in b
    ensures Endpoint(BeforeToAfter(changes, |changes|), op) in Ids(DiffNodes(before, after, a, changes))
  {
    var nodes := DiffNodes(before, after, a, changes);
    var ends := BeforeToAfter(changes, |changes|);
    var i :| 0 <= i < |changes| && changes[i].before == Some(op);
    BeforeToAfterMeaning(changes, |changes|, op);
    if op in ends {
      var k :| 0 <= k < |changes| && changes[k].before == Some(op) && changes[k].after == Some(ends[op]);
      assert changes[k].after.value in a;
      var j :| 0 <= j < |a| && a[j] == ends[op];
      assert nodes[j].id == OpNode(ends[op]);
    } else {
      RemovedIsShown(before, after, a, changes, op, i);
    }
  }

  lemma {:induction false} RemovedIsShown(before: ParsedModule, after: ParsedModule, a: seq<OpIdx>,
      changes: seq<OpChange>, op: OpIdx, i: nat)
    requires InBounds(a, |after.ops|) && InBounds(RemovedBefore(changes, |changes|), |before.ops|)
    requires i < |changes| && IsRemoved(changes[i]) && changes[i].before == Some(op)
    ensures GhostNode(op) in Ids(DiffNodes(before, after, a, changes))
  {
    var removed := RemovedBefore(changes, |changes|);
    RemovedBeforeMeaning(changes, |changes|, op);
    var j :| 0 <= j < |removed| && removed[j] == op;
    assert DiffNodes(before, after, a, changes)[|a| + j].id == GhostNode(op);
  }

  predicate NoDuplicates(s: seq<OpIdx>) {
    forall i, j :: 0 <= i < j < |s| ==> s[i] != s[j]
  }

  lemma {:induction false} RemovedBeforeDistinct(changes: seq<OpChange>, n: nat)
    requires n <= |changes|
    requires forall i, j :: 0 <= i < j < |changes| && changes[i].before.Some? ==> changes[i].before != changes[j].before
    ensures NoDuplicates(RemovedBefore(changes, n))
  {
    if n > 0 {
      RemovedBeforeDistinct(changes, n - 1);
      var sofar := RemovedBefore(changes, n - 1);
      forall i | 0 <= i < |sofar| && IsRemoved(changes[n - 1])
        ensures sofar[i] != changes[n - 1].before.value
      {
        assert sofar[i] in sofar;
        RemovedBeforeMeaning(changes, n - 1, sofar[i]);
      }
    }
  }

  lemma {:induction false} DiffNodesDistinct(before: ParsedModule, after: ParsedModule, b: seq<OpIdx>, a: seq<OpIdx>,
      changes: seq<OpChange>)
    requires WellFormed(after) && InBounds(a, |after.ops|) && StrictlyIncreasing(a)
    requires InBounds(RemovedBefore(changes, |changes|), |before.ops|) && CoversScopes(changes, b, a)
    ensures DistinctIds(DiffNodes(before, after, a, changes))
  {
    var nodes, removed := DiffNodes(before, after, a, changes), RemovedBefore(changes, |changes|);
    RemovedBeforeDistinct(changes, |changes|);
    assert forall i :: 0 <= i < |a| ==> nodes[i].id == OpNode(a[i]);
    assert forall i :: |a| <= i < |nodes| ==> nodes[i].id == GhostNode(removed[i - |a|]);
  }

  lemma GhostIsShown(before: ParsedModule, after: ParsedModule, b: seq<OpIdx>, a: seq<OpIdx>, changes: seq<OpChange>,
      r: OpIdx)
    requires InBounds(a, |after.ops|) && InBounds(RemovedBefore(changes, |changes|), |before.ops|)
    requires CoversScopes(changes, b, a) && r in RemovedBefore(changes, |changes|)
    ensures GhostNode(r) in Ids(DiffNodes(before, after, a, changes))
  {
    RemovedBeforeMeaning(changes, |changes|, r);
    var i :| 0 <= i < |changes| && IsRemoved(changes[i]) && changes[i].before == Some(r);
    RemovedIsShown(before, after, a, changes, r, i);
  }

  /** A ghost edge joins the removed operation to where another one is shown. */
  lemma OtherEnd(m: ParsedModule, ops: seq<OpIdx>, ends: map<OpIdx, OpIdx>, b: OpIdx, e: GraphEdge)
    returns (other: OpIdx)
    requires InBounds(ops, |m.ops|) && b < |m.ops| && FromRemoved(m, ops, ends, b, e)
    ensures other in ops && other != b
    ensures (e.from, e.to) in {(GhostNode(b), Endpoint(ends, other)), (Endpoint(ends, other), GhostNode(b))}
  {
    if e.to == GhostNode(b) && exists d :: d in ops && FedRemoved(m, ops, d, b, b) && e.from == Endpoint(ends, d) {
      other :| other in ops && FedRemoved(m, ops, other, b, b) && e.from == Endpoint(ends, other);
    } else {
      other :| other in ops && FedRemoved(m, ops, b, other, b) && e.to == Endpoint(ends, other);
    }
  }

  lemma GhostEdgesShown(before: ParsedModule, after: ParsedModule, b: seq<OpIdx>, a: seq<OpIdx>, changes: seq<OpChange>,
      e: GraphEdge)
    requires WellFormed(after) && InBounds(b, |before.ops|) && InBounds(a, |after.ops|)
    requires InBounds(RemovedBefore(changes, |changes|), |before.ops|) && CoversScopes(changes, b, a)
    requires var removed := RemovedBefore(changes, |changes|);
      e in GhostEdges(before, b, BeforeToAfter(changes, |changes|), removed, |removed|)
    ensures var ids := Ids(DiffNodes(before, after, a, changes)); e.from in ids && e.to in ids && e.from != e.to
  {
    var removed, ends := RemovedBefore(changes, |changes|), BeforeToAfter(changes, |changes|);
    GhostEdgesMeaning(before, b, ends, removed, |removed|, e);
    var k :| 0 <= k < |removed| && FromRemoved(before, b, ends, removed[k], e);
    var r := removed[k];
    GhostIsShown(before, after, b, a, changes, r);
    var other := OtherEnd(before, b, ends, r, e);
    EndpointIsShown(before, after, b, a, changes, other);
  }

  /** The diff graph starts out with distinct nodes, no dangling edge and no loop. */
  lemma {:induction false} DiffGraphIsPlain(before: ParsedModule, after: ParsedModule, b: seq<OpIdx>, a: seq<OpIdx>,
      changes: seq<OpChange>)
    requires WellFormed(after) && InBounds(b, |before.ops|) && InBounds(a, |after.ops|) && StrictlyIncreasing(a)
    requires InBounds(RemovedBefore(changes, |changes|), |before.ops|) && CoversScopes(changes, b, a)
    ensures Plain(DiffGraph(before, after, b, a, changes))
  {
    var g := DiffGraph(before, after, b, a, changes);
    DiffNodesDistinct(before, after, b, a, changes);
    FullGraphIsPlain(after, a);
    forall e | e in g.edges
      ensures e.from in Ids(g.nodes) && e.to in Ids(g.nodes) && e.from != e.to
    {
      if e in DefUseEdges(after, a) {
        var full := FullGraph(after, a);
        assert e in full.edges;
        var i :| 0 <= i < |full.nodes| && full.nodes[i].id == e.from;
        var j :| 0 <= j < |full.nodes| && full.nodes[j].id == e.to;
        assert g.nodes[i].id == e.from && g.nodes[j].id == e.to;
      } else {
        GhostEdgesShown(before, after, b, a, changes, e);
      }
    }
  }

  lemma ReportCovers(before: ParsedModule, after: ParsedModule, pairs: seq<Pair>, b: seq<OpIdx>, a: seq<OpIdx>,
      changes: seq<OpChange>)
    requires PairsInBounds(before, after, pairs) && Reports(before, after, pairs, changes)
    requires ListsOnce(BeforeFields(changes), b) && ListsOnce(AfterFields(changes), a)
    ensures CoversScopes(changes, b, a)
  {
    forall op | op in b
      ensures exists i :: 0 <= i < |changes| && changes[i].before == Some(op)
    {
      assert Some(op) in BeforeFields(changes);
      var i :| 0 <= i < |changes| && BeforeFields(changes)[i] == Some(op);
    }
    forall i, j | 0 <= i < j < |changes| && changes[i].before.Some?
      ensures changes[i].before != changes[j].before
    {
      assert BeforeFields(changes)[i] != BeforeFields(changes)[j];
    }
    forall i | 0 <= i < |changes|
      ensures changes[i].after.Some? ==> changes[i].after.value in a
      ensures changes[i].after.None? <==> IsRemoved(changes[i])
    {
      assert changes[i] in changes;
      assert AfterFields(changes)[i] == changes[i].after;
      assert changes[i].after in AfterFields(changes);
    }
  }

  /** For modules the parser produced, every reported change has its two ends in the scopes. */
  lemma DifferenceCovers(before: ParsedModule, after: ParsedModule, func: string)
    requires WellFormed(before) && WellFormed(after) && after.Scope(func).Some?
    ensures CoversScopes(Difference(before, after, func).changes, before.ScopeOps(func), after.ScopeOps(func))
  {
    if before.Scope(func).Some? {
      DiffConserves(before, after, func);
      ReportCovers(before, after, Pairing(before, after, func), before.ScopeOps(func), after.ScopeOps(func),
                   Difference(before, after, func).changes);
    }
  }

  /** The unfolded graph behind a diff request. */
  function UnfoldedDiff(before: ParsedModule, after: ParsedModule, func: string): Graph
    requires ScopesInBounds(before) && ScopesInBounds(after)
  {
    if after.Scope(func).None? then FullGraph(before, before.ScopeOps(func))
    else
      RemovedBeforeInBounds(before, after, func);
      DiffGraph(before, after, before.ScopeOps(func), after.ScopeOps(func), Difference(before, after, func).changes)
  }

  lemma UnfoldedDiffIsPlain(before: ParsedModule, after: ParsedModule, func: string)
    requires WellFormed(before) && WellFormed(after)
    ensures Plain(UnfoldedDiff(before, after, func))
  {
    if after.Scope(func).None? {
      FullGraphIsPlain(before, before.ScopeOps(func));
    } else {
      RemovedBeforeInBounds(before, after, func);
      DifferenceCovers(before, after, func);
      DiffGraphIsPlain(before, after, before.ScopeOps(func), after.ScopeOps(func),
        Difference(before, after, func).changes);
    }
  }

  /**
   * Whatever two modules, function and budget are asked for, the graph has no dangling edge, no
   * self-loop, at most `budget` nodes, and before truncation it is the quotient of the full graph.
   */
  lemma {:induction false} DiffGraphIsSound(before: ParsedModule, after: ParsedModule, func: string, budget: nat)
    requires WellFormed(before) && WellFormed(after)
    ensures var full, r := UnfoldedDiff(before, after, func), ExtractedDiff(before, after, func, budget);
      && Closed(r) && (budget > 0 ==> |r.nodes| <= budget)
      && (after.Scope(func).Some? || before.Scope(func).Some? ==> r == Truncated(Folded(full, budget), budget))
      && IsQuotient(full, FoldedPaths(full, budget), Folded(full, budget))
      && Weight(Folded(full, budget).nodes) == |full.nodes|
  {
    UnfoldedDiffIsPlain(before, after, func);
    PlainIsSound(UnfoldedDiff(before, after, func), budget);
    ExtractedDiffIs(before, after, func, budget);
  }

  lemma PlainIsSound(full: Graph, budget: nat)
    requires Plain(full) && full.clusters == []
    ensures var r := Truncated(Folded(full, budget), budget);
      && Closed(r) && (budget > 0 ==> |r.nodes| <= budget)
      && IsQuotient(full, FoldedPaths(full, budget), Folded(full, budget))
      && Weight(Folded(full, budget).nodes) == |full.nodes|
  {
    FoldedIsQuotient(full, budget);
    FoldedConservesNodes(full, budget);
    BudgetedGraphIsSound(full, budget);
  }

  lemma {:induction false} ExtractedDiffIs(before: ParsedModule, after: ParsedModule, func: string, budget: nat)
    requires WellFormed(before) && WellFormed(after)
    ensures UnfoldedDiff(before, after, func).clusters == []
    ensures ExtractedDiff(before, after, func, budget)
      == if after.Scope(func).Some? || before.Scope(func).Some?
         then Truncated(Folded(UnfoldedDiff(before, after, func), budget), budget)
         else Graph([], [], [], false)
  {
  }

  /** The same for the graph of a single module. */
  lemma GraphIsSound(m: ParsedModule, func: string, budget: nat)
    requires WellFormed(m) && m.Scope(func).Some?
    ensures var full, r := FullGraph(m, m.ScopeOps(func)), Extracted(m, func, budget);
      && Closed(r) && (budget > 0 ==> |r.nodes| <= budget)
      && IsQuotient(full, FoldedPaths(full, budget), Folded(full, budget))
      && Weight(Folded(full, budget).nodes) == |full.nodes|
  {
    var full := FullGraph(m, m.ScopeOps(func));
    FullGraphIsPlain(m, m.ScopeOps(func));
    FoldedIsQuotient(full, budget);
    FoldedConservesNodes(full, budget);
    BudgetedGraphIsSound(full, budget);
  }
}
