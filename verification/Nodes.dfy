// One node per operation of the function in each snapshot of each stage, and
// the index from occurrences to nodes.
module Nodes {
  import opened Model
  import opened Timeline

  datatype OccurrenceKey = OccurrenceKey(stageIndex: nat, side: SnapshotSide, opIdx: OpIdx)

  datatype Node = Node(key: OccurrenceKey, ordinal: nat, passId: int, op: ParsedOp)

  type NodeIds = map<OccurrenceKey, nat>

  // ------------------------------------------------------------------ nodes

  /** `function_ordinals`, falling back on the place in the scope. */
  function OrdinalOf(snapshot: SnapshotOps, op: OpIdx, place: nat): nat {
    if op in snapshot.functionOrdinals then snapshot.functionOrdinals[op] else place
  }

  function SnapshotNodes(func: string, s: nat, passId: int, snapshot: SnapshotOps): (r: seq<Node>)
    requires WellFormed(snapshot.code)
    ensures |r| == |snapshot.code.ScopeOps(func)|
  {
    var ops := snapshot.code.ScopeOps(func);
    seq(|ops|, i requires 0 <= i < |ops| =>
      Node(OccurrenceKey(s, snapshot.side, ops[i]), OrdinalOf(snapshot, ops[i], i), passId, snapshot.code.ops[ops[i]]))
  }

  function SideNodes(func: string, s: nat, stage: Stage, side: SnapshotSide): seq<Node>
    requires SideOf(stage, side).Some? ==> WellFormed(SideOf(stage, side).value.code)
  {
    match SideOf(stage, side)
    case None => []
    case Some(snapshot) => SnapshotNodes(func, s, stage.passId, snapshot)
  }

  ghost function NodesTo(func: string, stages: seq<Stage>, n: nat): seq<Node>
    requires StagesOk(stages, func) && n <= |stages|
  {
    if n == 0 then []
    else NodesTo(func, stages, n - 1) + SideNodes(func, n - 1, stages[n - 1], Before) + SideNodes(func, n - 1,
      stages[n - 1], After)
  }

  /** Later occurrences overwrite earlier ones. */
  function IndexOf(nodes: seq<Node>): NodeIds {
    if nodes == [] then map[] else IndexOf(nodes[..|nodes| - 1])[nodes[|nodes| - 1].key := |nodes| - 1]
  }

  method CollectNodes(func: string, stages: seq<Stage>) returns (nodes: seq<Node>, ids: NodeIds)
    requires StagesOk(stages, func)
    ensures nodes == NodesTo(func, stages, |stages|) && ids == IndexOf(nodes)
  {
    nodes, ids := [], map[];
    for s := 0 to |stages|
      invariant nodes == NodesTo(func, stages, s) && ids == IndexOf(nodes)
    {
      nodes, ids := AddStageNodes(func, s, stages[s], nodes, ids);
    }
  }

  method AddStageNodes(func: string, s: nat, stage: Stage, nodes: seq<Node>, ids: NodeIds)
    returns (grown: seq<Node>, index: NodeIds)
    requires StageOk(stage, func) && ids == IndexOf(nodes)
    ensures grown == nodes + SideNodes(func, s, stage, Before) + SideNodes(func, s, stage, After)
    ensures index == IndexOf(grown)
  {
    grown, index := nodes, ids;
    if stage.before.Some? {
      grown, index := AddSnapshotNodes(func, s, stage.passId, stage.before.value, grown, index);
    }
    if stage.after.Some? {
      grown, index := AddSnapshotNodes(func, s, stage.passId, stage.after.value, grown, index);
    }
  }

  method AddSnapshotNodes(func: string, s: nat, passId: int, snapshot: SnapshotOps, nodes: seq<Node>, ids: NodeIds)
    returns (grown: seq<Node>, index: NodeIds)
    requires WellFormed(snapshot.code) && ids == IndexOf(nodes)
    ensures grown == nodes + SnapshotNodes(func, s, passId, snapshot) && index == IndexOf(grown)
  {
    grown, index := nodes, ids;
    var scope := snapshot.code.Scope(func);
    if scope.None? {
      return;
    }
    var ops := scope.value.ops;
    ghost var all := SnapshotNodes(func, s, passId, snapshot);
    for place := 0 to |ops|
      invariant grown == nodes + all[..place] && index == IndexOf(grown)
    {
      var ordinal := if ops[place] in snapshot.functionOrdinals then snapshot.functionOrdinals[ops[place]] else place;
      grown, index := AddNode(Node(OccurrenceKey(s, snapshot.side, ops[place]), ordinal, passId,
        snapshot.code.ops[ops[place]]), grown, index);
      assert all[..place + 1] == all[..place] + [all[place]];
    }
    assert all[..|ops|] == all;
  }

  method AddNode(node: Node, nodes: seq<Node>, ids: NodeIds) returns (grown: seq<Node>, index: NodeIds)
    requires ids == IndexOf(nodes)
    ensures grown == nodes + [node] && index == IndexOf(grown)
  {
    var id := |nodes|;
    grown := nodes + [node];
    assert grown[..|grown| - 1] == nodes;
    index := ids[node.key := id];
  }

  // ------------------------------------------------------- what nodes mean

  /** Lexicographic on stage, side and ordinal; the operation index goes along with the ordinal. */
  predicate Precedes(a: Node, b: Node) {
    || a.key.stageIndex < b.key.stageIndex
    || (&& a.key.stageIndex == b.key.stageIndex
        && (|| (a.key.side == Before && b.key.side == After)
            || (a.key.side == b.key.side && a.ordinal < b.ordinal && a.key.opIdx < b.key.opIdx)))
  }

  predicate Ascending(nodes: seq<Node>) {
    forall i, j :: 0 <= i < j < |nodes| ==> Precedes(nodes[i], nodes[j])
  }

  /** The node stands for an operation of the function's scope in its snapshot, at the place its ordinal says. */
  ghost predicate NodeOk(stages: seq<Stage>, func: string, node: Node) {
    && node.key.stageIndex < |stages|
    && var snapshot := SideOf(stages[node.key.stageIndex], node.key.side);
    && snapshot.Some?
    && node.key.opIdx in snapshot.value.code.ScopeOps(func)
    && node.ordinal < |snapshot.value.code.ScopeOps(func)|
    && snapshot.value.code.ScopeOps(func)[node.ordinal] == node.key.opIdx
    && node.key.opIdx < |snapshot.value.code.ops| && node.op == snapshot.value.code.ops[node.key.opIdx]
    && node.passId == stages[node.key.stageIndex].passId
  }

  lemma SnapshotNodeIs(func: string, s: nat, passId: int, snapshot: SnapshotOps, i: nat)
    requires WellFormed(snapshot.code) && OrdinalsCount(snapshot, func) && i < |snapshot.code.ScopeOps(func)|
    ensures var node := SnapshotNodes(func, s, passId, snapshot)[i];
      var op := snapshot.code.ScopeOps(func)[i];
      op < |snapshot.code.ops| && node == Node(OccurrenceKey(s, snapshot.side, op), i, passId, snapshot.code.ops[op])
  {
  }

  lemma ScopeAscends(code: ParsedModule, func: string)
    requires WellFormed(code)
    ensures StrictlyIncreasing(code.ScopeOps(func)) && InBounds(code.ScopeOps(func), |code.ops|)
  {
  }

  lemma SnapshotNodesAscend(func: string, s: nat, passId: int, snapshot: SnapshotOps)
    requires WellFormed(snapshot.code) && OrdinalsCount(snapshot, func)
    ensures Ascending(SnapshotNodes(func, s, passId, snapshot))
  {
    var nodes := SnapshotNodes(func, s, passId, snapshot);
    ScopeAscends(snapshot.code, func);
    forall i, j | 0 <= i < j < |nodes|
      ensures Precedes(nodes[i], nodes[j])
    {
      SnapshotNodeIs(func, s, passId, snapshot, i);
      SnapshotNodeIs(func, s, passId, snapshot, j);
    }
  }

  lemma SideNodesFit(func: string, stages: seq<Stage>, s: nat, side: SnapshotSide)
    requires StagesOk(stages, func) && s < |stages|
    ensures Ascending(SideNodes(func, s, stages[s], side))
    ensures forall node :: node in SideNodes(func, s, stages[s], side) ==>
      NodeOk(stages, func, node) && node.key.stageIndex == s && node.key.side == side
  {
    assert StageOk(stages[s], func);
    if SideOf(stages[s], side).Some? {
      var snapshot := SideOf(stages[s], side).value;
      SnapshotNodesAscend(func, s, stages[s].passId, snapshot);
      forall node | node in SideNodes(func, s, stages[s], side)
        ensures NodeOk(stages, func, node) && node.key.stageIndex == s && node.key.side == side
      {
        var i :| 0 <= i < |SideNodes(func, s, stages[s], side)| && SideNodes(func, s, stages[s], side)[i] == node;
        SnapshotNodeIs(func, s, stages[s].passId, snapshot, i);
      }
    }
  }

  lemma AscendingConcat(a: seq<Node>, b: seq<Node>)
    requires Ascending(a) && Ascending(b) && forall x, y :: x in a && y in b ==> Precedes(x, y)
    ensures Ascending(a + b)
  {
    forall i, j | 0 <= i < j < |a + b|
      ensures Precedes((a + b)[i], (a + b)[j])
    {
      if i < |a| <= j {
        assert a[i] in a && b[j - |a|] in b;
      }
    }
  }

  /** Nodes come in strictly ascending (stage, side, ordinal) order and each stands for its operation. */
  lemma {:induction false} NodesAscend(func: string, stages: seq<Stage>, n: nat)
    requires StagesOk(stages, func) && n <= |stages|
    ensures Ascending(NodesTo(func, stages, n))
    ensures forall node :: node in NodesTo(func, stages, n) ==> NodeOk(stages, func, node) && node.key.stageIndex < n
  {
    if n > 0 {
      NodesAscend(func, stages, n - 1);
      SideNodesFit(func, stages, n - 1, Before);
      SideNodesFit(func, stages, n - 1, After);
      var earlier := NodesTo(func, stages, n - 1);
      var before, after := SideNodes(func, n - 1, stages[n - 1], Before), SideNodes(func, n - 1, stages[n - 1], After);
      AscendingConcat(earlier, before);
      AscendingConcat(earlier + before, after);
    }
  }

  ghost predicate Numbers(nodes: seq<Node>, key: OccurrenceKey) {
    exists i :: 0 <= i < |nodes| && nodes[i].key == key
  }

  lemma NumbersConcat(a: seq<Node>, b: seq<Node>, key: OccurrenceKey)
    requires Numbers(a, key) || Numbers(b, key)
    ensures Numbers(a + b, key)
  {
    if Numbers(a, key) {
      var i :| 0 <= i < |a| && a[i].key == key;
      assert (a + b)[i].key == key;
    } else {
      var i :| 0 <= i < |b| && b[i].key == key;
      assert (a + b)[|a| + i].key == key;
    }
  }

  lemma SideNumbers(func: string, stages: seq<Stage>, key: OccurrenceKey)
    requires StagesOk(stages, func) && OccursIn(func, stages, key)
    ensures Numbers(SideNodes(func, key.stageIndex, stages[key.stageIndex], key.side), key)
  {
    assert StageOk(stages[key.stageIndex], func);
    var snapshot := SideOf(stages[key.stageIndex], key.side).value;
    var ops := snapshot.code.ScopeOps(func);
    var i :| 0 <= i < |ops| && ops[i] == key.opIdx;
    SnapshotNodeIs(func, key.stageIndex, stages[key.stageIndex].passId, snapshot, i);
  }

  /** Every operation of the function in every snapshot has a node. */
  lemma {:induction false} NodesCover(func: string, stages: seq<Stage>, n: nat, key: OccurrenceKey)
    requires StagesOk(stages, func) && n <= |stages| && key.stageIndex < n && OccursIn(func, stages, key)
    ensures Numbers(NodesTo(func, stages, n), key)
  {
    var earlier := NodesTo(func, stages, n - 1);
    var before, after := SideNodes(func, n - 1, stages[n - 1], Before), SideNodes(func, n - 1, stages[n - 1], After);
    if key.stageIndex < n - 1 {
      NodesCover(func, stages, n - 1, key);
      NumbersIn(earlier, before, after, key);
    } else {
      SideNumbers(func, stages, key);
      NumbersIn(earlier, before, after, key);
    }
  }

  lemma NumbersIn(earlier: seq<Node>, before: seq<Node>, after: seq<Node>, key: OccurrenceKey)
    requires Numbers(earlier, key) || Numbers(before, key) || Numbers(after, key)
    ensures Numbers(earlier + before + after, key)
  {
    if Numbers(earlier, key) || Numbers(before, key) {
      NumbersConcat(earlier, before, key);
    }
    NumbersConcat(earlier + before, after, key);
  }

  /** The index and the node list are inverse to each other. */
  ghost predicate Indexed(nodes: seq<Node>, ids: NodeIds) {
    && (forall key :: key in ids ==> ids[key] < |nodes| && nodes[ids[key]].key == key)
    && (forall i :: 0 <= i < |nodes| ==> nodes[i].key in ids && ids[nodes[i].key] == i)
  }

  lemma {:induction false} IndexInverts(nodes: seq<Node>)
    requires Ascending(nodes)
    ensures Indexed(nodes, IndexOf(nodes))
  {
    if nodes != [] {
      IndexInverts(nodes[..|nodes| - 1]);
    }
  }

  /** Nodes, their index, and what both say about the stages. */
  ghost predicate Numbered(func: string, stages: seq<Stage>, nodes: seq<Node>, ids: NodeIds) {
    && Ascending(nodes) && Indexed(nodes, ids)
    && (forall i :: 0 <= i < |nodes| ==> NodeOk(stages, func, nodes[i]))
    && (forall key: OccurrenceKey :: OccursIn(func, stages, key) ==> key in ids)
  }

  ghost predicate OccursIn(func: string, stages: seq<Stage>, key: OccurrenceKey) {
    && key.stageIndex < |stages|
    && SideOf(stages[key.stageIndex], key.side).Some?
    && key.opIdx in SideOf(stages[key.stageIndex], key.side).value.code.ScopeOps(func)
  }

  lemma NodesAreNumbered(func: string, stages: seq<Stage>)
    requires StagesOk(stages, func)
    ensures var nodes := NodesTo(func, stages, |stages|); Numbered(func, stages, nodes, IndexOf(nodes))
  {
    var nodes := NodesTo(func, stages, |stages|);
    NodesAscend(func, stages, |stages|);
    IndexInverts(nodes);
    forall key: OccurrenceKey | OccursIn(func, stages, key)
      ensures key in IndexOf(nodes)
    {
      NodesCover(func, stages, |stages|, key);
      var i :| 0 <= i < |nodes| && nodes[i].key == key;
      assert nodes[i].key in IndexOf(nodes);
    }
  }

  // ------------------------------------------------------------ token lookup

  function NodeForToken(snapshot: Option<SnapshotOps>, token: int, s: nat, ids: NodeIds): Option<nat> {
    if snapshot.None? || token !in snapshot.value.tokens then None
    else
      var key := OccurrenceKey(s, snapshot.value.side, snapshot.value.tokens[token]);
      if key in ids then Some(ids[key]) else None
  }

  /** A token finds a node exactly when the snapshot maps it into the function, and then its operation's. */
  lemma TokensFindNodes(func: string, stages: seq<Stage>, nodes: seq<Node>, ids: NodeIds, s: nat, side: SnapshotSide,
      token: int)
    requires StagesOk(stages, func) && Numbered(func, stages, nodes, ids) && s < |stages|
    ensures var snapshot := SideOf(stages[s], side);
      var id := NodeForToken(snapshot, token, s, ids);
      && (id.Some? <==> snapshot.Some? && token in snapshot.value.tokens
                        && snapshot.value.tokens[token] in snapshot.value.code.ScopeOps(func))
      && (id.Some? ==> id.value < |nodes| && nodes[id.value].key == OccurrenceKey(s, side,
           snapshot.value.tokens[token]))
  {
    assert StageOk(stages[s], func);
    var snapshot := SideOf(stages[s], side);
    if snapshot.Some? && token in snapshot.value.tokens {
      var key := OccurrenceKey(s, side, snapshot.value.tokens[token]);
      if snapshot.value.tokens[token] in snapshot.value.code.ScopeOps(func) {
        assert OccursIn(func, stages, key);
      }
      if key in ids {
        assert NodeOk(stages, func, nodes[ids[key]]);
      }
    }
  }
}
