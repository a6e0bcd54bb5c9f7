// What the links across a seam say, and that none is missing.
module SeamLaws {
  import opened Model
  import opened Timeline
  import opened Nodes
  import opened Relations
  import opened Links
  import opened RunLaws
  import opened StageLaws
  import Matcher
  import StepLaws

  /** Both snapshots print one known text. */
  predicate OneText(left: SnapshotOps, right: SnapshotOps) {
    left.blobId.Some? && right.blobId.Some? && left.blobId.value == right.blobId.value
  }

  /** Nothing changes between two passes: sure for a shared snapshot, by the score of the two operations otherwise. */
  predicate SeamSays(a: Place, b: Place, shared: bool, r: Relation) {
    && r.change.Unchanged? && !r.recordStep && r.stageIndex == b.s && r.from.Some? && r.to.Some?
    && match (StepLaws.Stands(a, r.from.value), StepLaws.Stands(b, r.to.value))
       case (Some(left), Some(right)) =>
         if shared then r.evidence == [HistoryEvidence(0, None, SharedSnapshot)] && r.confidence == Exact
         else
           && r.evidence == [HistoryEvidence(0, None, FromFingerprint)] && r.confidence.Inferred?
           && Matcher.ScoreTells(left, right, r.confidence.score)
       case _ => false
  }

  lemma SeamLinksSay(a: Place, b: Place, r: Relation)
    requires SeamOk(a, b) && SameCode(a.stage.after, b.stage.before) && r in SeamRelations(a, b)
    ensures a.stage.after.Some? && b.stage.before.Some?
    ensures SeamSays(a, b, OneText(a.stage.after.value, b.stage.before.value), r)
  {
    SeamLinksFit(a, b);
    assert SeamLinkOk(a, b, r);
    var left, right := a.stage.after.value, b.stage.before.value;
    var pair := SeamMember(a, b, left, right, SeamPairs(a.func, left, right), r);
    StepLaws.NodeStands(a, After, r.from.value);
    StepLaws.NodeStands(b, Before, r.to.value);
    Matcher.ScoreWeighs(b.nodes[r.from.value].op, b.nodes[r.to.value].op);
  }

  ghost predicate Linked(relations: seq<Relation>, x: nat, y: nat) {
    exists r :: r in relations && r.from == Some(x) && r.to == Some(y)
  }

  lemma {:induction false} PairIsLinked(a: Place, b: Place, left: SnapshotOps, right: SnapshotOps,
      pairs: seq<Matcher.Pair>, pair: Matcher.Pair)
    requires a.nodes == b.nodes && pair in pairs && SeamEnds(a, b, left, right, pair).Some?
    ensures var (x, y) := SeamEnds(a, b, left, right, pair).value; Linked(SeamList(a, b, left, right, pairs), x, y)
  {
    var front, last := pairs[..|pairs| - 1], pairs[|pairs| - 1];
    assert pairs == front + [last];
    var (x, y) := SeamEnds(a, b, left, right, pair).value;
    if pair in front {
      PairIsLinked(a, b, left, right, front, pair);
      var r :| r in SeamList(a, b, left, right, front) && r.from == Some(x) && r.to == Some(y);
      assert r in SeamList(a, b, left, right, pairs);
    } else {
      assert SeamOne(a, b, left, right, pair)[0] in SeamList(a, b, left, right, pairs);
    }
  }

  /** Every matched pair is linked. */
  lemma SeamPairIsLinked(a: Place, b: Place, x: nat, y: nat)
    requires SeamOk(a, b) && IsNode(a, After, x) && IsNode(b, Before, y) && SeamBoth(a, b)
    requires (Some(a.nodes[x].key.opIdx), Some(b.nodes[y].key.opIdx))
      in SeamPairs(a.func, a.stage.after.value, b.stage.before.value)
    ensures Linked(SeamRelations(a, b), x, y)
  {
    var left, right := a.stage.after.value, b.stage.before.value;
    var pair: Matcher.Pair := (Some(a.nodes[x].key.opIdx), Some(b.nodes[y].key.opIdx));
    assert a.nodes[x].key == OccurrenceKey(a.s, left.side, a.nodes[x].key.opIdx);
    assert b.nodes[y].key == OccurrenceKey(b.s, right.side, b.nodes[y].key.opIdx);
    assert SeamEnds(a, b, left, right, pair) == Some((x, y));
    PairIsLinked(a, b, left, right, SeamPairs(a.func, left, right), pair);
  }

  ghost predicate SeamBoth(a: Place, b: Place) {
    && a.stage.after.Some? && b.stage.before.Some?
    && WellFormed(a.stage.after.value.code) && WellFormed(b.stage.before.value.code)
  }

  /** Across a shared snapshot every operation goes on as itself. */
  lemma SharedSeamsLead(a: Place, b: Place, x: nat, y: nat)
    requires SeamOk(a, b) && IsNode(a, After, x) && IsNode(b, Before, y) && SeamBoth(a, b)
    requires OneText(a.stage.after.value, b.stage.before.value) && a.nodes[x].key.opIdx == b.nodes[y].key.opIdx
    ensures Linked(SeamRelations(a, b), x, y)
  {
    assert SideOf(a.stage, After) == a.stage.after && SideOf(b.stage, Before) == b.stage.before;
    assert NodeFits(a, a.nodes[x]) && NodeFits(b, b.nodes[y]);
    SeamPairIsLinked(a, b, x, y);
  }

  /** Across any other seam no two namesakes are both left without a link. */
  lemma OtherSeamsLead(a: Place, b: Place, x: nat, y: nat)
    requires SeamOk(a, b) && IsNode(a, After, x) && IsNode(b, Before, y) && SeamBoth(a, b)
    requires !OneText(a.stage.after.value, b.stage.before.value) && SameName(a.nodes, x, y)
    ensures exists u, v :: Linked(SeamRelations(a, b), u, v) && (u == x || v == y)
  {
    var left, right := a.stage.after.value, b.stage.before.value;
    assert SideOf(a.stage, After) == a.stage.after && SideOf(b.stage, Before) == b.stage.before;
    assert NodeFits(a, a.nodes[x]) && NodeFits(b, b.nodes[y]);
    ScopeAscends(left.code, a.func);
    ScopeAscends(right.code, a.func);
    var pair := Matcher.MatchLeavesNoNamesakes(left.code, left.code.ScopeOps(a.func), right.code,
      right.code.ScopeOps(a.func), a.nodes[x].key.opIdx, b.nodes[y].key.opIdx);
    var u, v := PairIsNodes(a, b, pair);
    SeamPairIsLinked(a, b, u, v);
    assert u == x || v == y;
  }

  /** The one node of the operation. */
  ghost predicate StandsAlone(at: Place, side: SnapshotSide, op: OpIdx, u: nat) {
    && IsNode(at, side, u) && at.nodes[u].key.opIdx == op
    && forall x: nat :: IsNode(at, side, x) && at.nodes[x].key.opIdx == op ==> x == u
  }

  lemma NodeAt(at: Place, side: SnapshotSide, op: OpIdx) returns (u: nat)
    requires PlaceOk(at) && SideOf(at.stage, side).Some? && op in SideOf(at.stage, side).value.code.ScopeOps(at.func)
    ensures StandsAlone(at, side, op, u)
  {
    u := at.ids[OccurrenceKey(at.s, side, op)];
    forall x: nat | IsNode(at, side, x) && at.nodes[x].key.opIdx == op
      ensures x == u
    {
      assert at.nodes[x].key == OccurrenceKey(at.s, side, op);
    }
  }

  lemma PairInScopes(a: Place, b: Place, left: SnapshotOps, right: SnapshotOps, pair: Matcher.Pair)
    requires WellFormed(left.code) && WellFormed(right.code) && pair.0.Some? && pair.1.Some?
    requires pair in SeamPairs(a.func, left, right)
    ensures pair.0.value in left.code.ScopeOps(a.func) && pair.1.value in right.code.ScopeOps(a.func)
  {
    ScopeAscends(left.code, a.func);
    ScopeAscends(right.code, a.func);
    if !SharesBlob(left, right) {
      Matcher.MatchKeepsNames(left.code, left.code.ScopeOps(a.func), right.code, right.code.ScopeOps(a.func), pair);
    }
  }

  lemma PairIsNodes(a: Place, b: Place, pair: Matcher.Pair) returns (u: nat, v: nat)
    requires SeamOk(a, b) && SeamBoth(a, b) && pair.0.Some? && pair.1.Some?
    requires pair in SeamPairs(a.func, a.stage.after.value, b.stage.before.value)
    ensures StandsAlone(a, After, pair.0.value, u) && StandsAlone(b, Before, pair.1.value, v)
  {
    PairInScopes(a, b, a.stage.after.value, b.stage.before.value, pair);
    u := NodeAt(a, After, pair.0.value);
    v := NodeAt(b, Before, pair.1.value);
  }
}
