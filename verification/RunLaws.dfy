// Laws of all links of a timeline: stages do not disturb each other, seams pair
// one to one, and only lifecycle events change an operation's name.
module RunLaws {
  import opened Model
  import opened Timeline
  import opened Nodes
  import opened Relations
  import opened Links
  import opened StageLaws
  import opened Inference
  import opened Sorting
  import opened UnionFinds
  import Matcher

  // ------------------------------------------------ stages do not see each other

  ghost predicate Elsewhere(earlier: seq<Relation>, s: nat) {
    forall r :: r in earlier ==> r.stageIndex != s
  }

  function Behind(earlier: seq<Relation>, p: Progress): Progress {
    Progress(earlier + p.relations, p.claims)
  }

  lemma {:induction false} EventsBehind(at: Place, earlier: seq<Relation>, p: Progress, events: seq<Event>)
    requires Elsewhere(earlier, at.s)
    ensures ApplyEvents(at, Behind(earlier, p), events) == Behind(earlier, ApplyEvents(at, p, events))
  {
    if events != [] {
      var front, last := events[..|events| - 1], events[|events| - 1];
      EventsBehind(at, earlier, p, front);
      PushAfter(earlier, ApplyEvents(at, p, front).relations, EventRelation(at, last));
    }
  }

  lemma {:induction false} TokensBehind(at: Place, earlier: seq<Relation>, p: Progress, tokens: seq<int>)
    requires Elsewhere(earlier, at.s)
    ensures FollowTokens(at, Behind(earlier, p), tokens) == Behind(earlier, FollowTokens(at, p, tokens))
  {
    if tokens != [] {
      var front, last := tokens[..|tokens| - 1], tokens[|tokens| - 1];
      TokensBehind(at, earlier, p, front);
      if Carried(at, last).Some? {
        PushAfter(earlier, FollowTokens(at, p, front).relations, TokenRelation(at, last));
      }
    }
  }

  lemma {:induction false} PairsBehind(at: Place, earlier: seq<Relation>, p: Progress, pairs: seq<Matcher.Pair>)
    requires Elsewhere(earlier, at.s)
    ensures FollowPairs(at, Behind(earlier, p), pairs) == Behind(earlier, FollowPairs(at, p, pairs))
  {
    if pairs != [] {
      var front, last := pairs[..|pairs| - 1], pairs[|pairs| - 1];
      PairsBehind(at, earlier, p, front);
      var ends := PairNodes(at, last);
      if ends.Some? {
        PushAfter(earlier, FollowPairs(at, p, front).relations, FallbackRelation(at, ends.value.0, ends.value.1));
      }
    }
  }

  /** A stage appends its own steps and leaves those of other stages alone. */
  lemma StageAppends(at: Place, earlier: seq<Relation>, order: seq<int>)
    requires Elsewhere(earlier, at.s) && (at.stage.before.Some? && at.stage.after.Some? ==> BothSides(at))
    ensures StageProgress(at, earlier, order).relations == earlier + StageSteps(at, order)
  {
    var start := Progress([], UNCLAIMED);
    assert Behind(earlier, start) == Progress(earlier, UNCLAIMED);
    EventsBehind(at, earlier, start, SortBy(at.stage.events, EventKey));
    if at.stage.before.Some? && at.stage.after.Some? {
      TokensBehind(at, earlier, AfterEvents(at), order);
      var q := FollowTokens(at, AfterEvents(at), order);
      PairsBehind(at, earlier, q, FallbackPairs(at, q.claims));
    }
  }

  ghost function StepsAt(run: Run, orders: Orders, s: nat): seq<Relation>
    requires run.Ok() && s < |run.stages| && s < |orders|
  {
    SidesParsed(run, s);
    StageSteps(run.At(s), orders[s])
  }

  /**
   * A step of the run: between a before and an after operation of its stage, names kept unless an event says
   * otherwise.
   */
  ghost predicate RunStepOk(run: Run, r: Relation) {
    && r.stageIndex < |run.stages| && r.recordStep && (r.from.Some? || r.to.Some?)
    && (r.from.Some? ==> IsNode(run.At(r.stageIndex), Before, r.from.value))
    && (r.to.Some? ==> IsNode(run.At(r.stageIndex), After, r.to.value))
    && NamedOk(run.At(r.stageIndex), r)
  }

  lemma StepsAtOk(run: Run, orders: Orders, s: nat)
    requires run.Ok() && s < |run.stages| && s < |orders|
    ensures forall r :: r in StepsAt(run, orders, s) ==> RunStepOk(run, r) && r.stageIndex == s
  {
    PlaceIsOk(run, s);
    StageStepsOk(run.At(s), orders[s]);
    forall r | r in StepsAt(run, orders, s)
      ensures RunStepOk(run, r) && r.stageIndex == s
    {
      assert StepOk(run.At(s), StageProgress(run.At(s), [], orders[s]).claims, r);
    }
  }

  // The steps of a run, stage by stage.

  function Flat(blocks: seq<seq<Relation>>): seq<Relation> {
    if blocks == [] then [] else Flat(blocks[..|blocks| - 1]) + blocks[|blocks| - 1]
  }

  lemma {:induction false} FlatMember(blocks: seq<seq<Relation>>, r: Relation) returns (s: nat)
    requires r in Flat(blocks)
    ensures s < |blocks| && r in blocks[s]
  {
    if r in blocks[|blocks| - 1] {
      s := |blocks| - 1;
    } else {
      s := FlatMember(blocks[..|blocks| - 1], r);
    }
  }

  ghost function Blocks(run: Run, orders: Orders, n: nat): (r: seq<seq<Relation>>)
    requires run.Ok() && n <= |run.stages| && n <= |orders|
    ensures |r| == n && forall s :: 0 <= s < n ==> r[s] == StepsAt(run, orders, s)
  {
    seq(n, s requires 0 <= s < n => StepsAt(run, orders, s))
  }

  lemma BlocksBelow(run: Run, orders: Orders, n: nat)
    requires run.Ok() && n <= |run.stages| && n <= |orders|
    ensures forall r :: r in Flat(Blocks(run, orders, n)) ==> RunStepOk(run, r) && r.stageIndex < n
  {
    forall r | r in Flat(Blocks(run, orders, n))
      ensures RunStepOk(run, r) && r.stageIndex < n
    {
      var s := FlatMember(Blocks(run, orders, n), r);
      StepsAtOk(run, orders, s);
    }
  }

  lemma StagesGrow(run: Run, orders: Orders, n: nat, earlier: seq<Relation>)
    requires run.Ok() && n < |run.stages| && n < |orders| && earlier == StagesTo(run, orders, n)
    requires forall r :: r in earlier ==> r.stageIndex < n
    ensures StagesTo(run, orders, n + 1) == earlier + StepsAt(run, orders, n)
  {
    SidesParsed(run, n);
    StageAppends(run.At(n), earlier, orders[n]);
  }

  /** The steps of a run are those of its stages, one after the other. */
  lemma {:induction false} StagesAreBlocks(run: Run, orders: Orders, n: nat)
    requires run.Ok() && n <= |run.stages| && n <= |orders|
    ensures StagesTo(run, orders, n) == Flat(Blocks(run, orders, n))
  {
    if n > 0 {
      StagesAreBlocks(run, orders, n - 1);
      BlocksBelow(run, orders, n - 1);
      var blocks, steps := Blocks(run, orders, n - 1), StepsAt(run, orders, n - 1);
      StagesGrow(run, orders, n - 1, Flat(blocks));
      BlocksGrow(run, orders, n);
      FlatGrows(blocks, steps);
    }
  }

  lemma BlocksGrow(run: Run, orders: Orders, n: nat)
    requires run.Ok() && 0 < n <= |run.stages| && n <= |orders|
    ensures Blocks(run, orders, n) == Blocks(run, orders, n - 1) + [StepsAt(run, orders, n - 1)]
  {
    OneMoreBlock(Blocks(run, orders, n - 1), Blocks(run, orders, n));
  }

  lemma OneMoreBlock(some: seq<seq<Relation>>, all: seq<seq<Relation>>)
    requires |all| == |some| + 1 && forall s :: 0 <= s < |some| ==> all[s] == some[s]
    ensures all == some + [all[|some|]]
  {
  }

  lemma FlatGrows(blocks: seq<seq<Relation>>, block: seq<Relation>)
    ensures Flat(blocks + [block]) == Flat(blocks) + block
  {
    assert (blocks + [block])[..|blocks|] == blocks;
  }

  lemma StagesToOk(run: Run, orders: Orders, n: nat)
    requires run.Ok() && n <= |run.stages| && n <= |orders|
    ensures forall r :: r in StagesTo(run, orders, n) ==> RunStepOk(run, r) && r.stageIndex < n
  {
    StagesAreBlocks(run, orders, n);
    BlocksBelow(run, orders, n);
  }

  /** Inferred steps stand alone among the steps of their own stage. */
  predicate AlonePerStage(relations: seq<Relation>) {
    forall k, l :: 0 <= k < |relations| && 0 <= l < |relations| && k != l && relations[k].confidence.Inferred? ==>
      relations[k].stageIndex == relations[l].stageIndex ==>
        Separate(relations[k], relations[l]) && Separate(relations[l], relations[k])
  }

  lemma RunInfersAlone(run: Run, orders: Orders, n: nat)
    requires run.Ok() && n <= |run.stages| && n <= |orders|
    ensures AlonePerStage(StagesTo(run, orders, n))
  {
    StagesAreBlocks(run, orders, n);
    var blocks := Blocks(run, orders, n);
    forall s: nat | s < |blocks|
      ensures BlockAlone(blocks[s], s)
    {
      StepsAtAlone(run, orders, s);
    }
    FlatAlone(blocks);
  }

  ghost predicate BlockAlone(block: seq<Relation>, s: nat) {
    InferredAlone(block) && forall r :: r in block ==> r.stageIndex == s
  }

  lemma {:induction false} FlatAlone(blocks: seq<seq<Relation>>)
    requires forall s: nat :: s < |blocks| ==> BlockAlone(blocks[s], s)
    ensures AlonePerStage(Flat(blocks))
  {
    if blocks != [] {
      var n := |blocks| - 1;
      FlatAlone(blocks[..n]);
      forall r | r in Flat(blocks[..n])
        ensures r.stageIndex < n
      {
        var s := FlatMember(blocks[..n], r);
        assert BlockAlone(blocks[s], s);
      }
      assert BlockAlone(blocks[n], n);
      AloneConcat(Flat(blocks[..n]), blocks[n], n);
    }
  }

  lemma StepsAtAlone(run: Run, orders: Orders, s: nat)
    requires run.Ok() && s < |run.stages| && s < |orders|
    ensures InferredAlone(StepsAt(run, orders, s))
    ensures forall r :: r in StepsAt(run, orders, s) ==> r.stageIndex == s
  {
    PlaceIsOk(run, s);
    StageInfersAlone(run.At(s), orders[s]);
    StepsAtOk(run, orders, s);
  }

  lemma AloneConcat(a: seq<Relation>, b: seq<Relation>, s: nat)
    requires AlonePerStage(a) && InferredAlone(b)
    requires (forall r :: r in a ==> r.stageIndex < s) && (forall r :: r in b ==> r.stageIndex == s)
    ensures AlonePerStage(a + b)
  {
    var all, n := a + b, |a|;
    assert forall i :: 0 <= i < n ==> all[i] in a;
    assert forall i :: n <= i < |all| ==> all[i] in b;
    forall k, l | 0 <= k < |all| && 0 <= l < |all| && k != l && all[k].stageIndex == all[l].stageIndex
      && all[k].confidence.Inferred?
      ensures Separate(all[k], all[l]) && Separate(all[l], all[k])
    {
      assert (k < n) == (l < n);
      if k >= n {
        assert b[k - n] == all[k] && b[l - n] == all[l];
      }
    }
  }

  // ------------------------------------------------------------------- the seams

  ghost predicate SeamLinkOk(a: Place, b: Place, r: Relation) {
    && !r.recordStep && r.stageIndex == b.s && r.from.Some? && r.to.Some?
    && IsNode(a, After, r.from.value) && IsNode(b, Before, r.to.value) && SameName(a.nodes, r.from.value, r.to.value)
  }

  lemma SeamEndsFit(a: Place, b: Place, left: SnapshotOps, right: SnapshotOps, pair: Matcher.Pair)
    requires SeamOk(a, b) && a.stage.after == Some(left) && b.stage.before == Some(right)
    requires pair in SeamPairs(a.func, left, right) && SeamEnds(a, b, left, right, pair).Some?
    requires SharesBlob(left, right) ==> left.code == right.code
    ensures forall r :: r in SeamOne(a, b, left, right, pair) ==> SeamLinkOk(a, b, r)
  {
    var (from, to) := SeamEnds(a, b, left, right, pair).value;
    SeamNames(a, b, left, right, pair);
    assert SideOf(a.stage, After) == Some(left) && SideOf(b.stage, Before) == Some(right);
    assert NodeFits(a, a.nodes[from]) && NodeFits(b, b.nodes[to]);
    if SharesBlob(left, right) {
      SharedPairsAgree(a.func, left, right, pair);
    }
  }

  lemma SharedPairsAgree(func: string, left: SnapshotOps, right: SnapshotOps, pair: Matcher.Pair)
    requires WellFormed(left.code) && WellFormed(right.code) && SharesBlob(left, right)
      && pair in SeamPairs(func, left, right)
    ensures pair.0.Some? && pair.0 == pair.1
  {
  }

  lemma {:induction false} SeamMember(a: Place, b: Place, left: SnapshotOps, right: SnapshotOps,
      pairs: seq<Matcher.Pair>, r: Relation)
    returns (pair: Matcher.Pair)
    requires a.nodes == b.nodes && r in SeamList(a, b, left, right, pairs)
    ensures pair in pairs && SeamEnds(a, b, left, right, pair).Some? && r in SeamOne(a, b, left, right, pair)
  {
    if r in SeamOne(a, b, left, right, pairs[|pairs| - 1]) {
      pair := pairs[|pairs| - 1];
    } else {
      pair := SeamMember(a, b, left, right, pairs[..|pairs| - 1], r);
    }
  }

  lemma SeamLinksFit(a: Place, b: Place)
    requires SeamOk(a, b)
    requires SameCode(a.stage.after, b.stage.before)
    ensures forall r :: r in SeamRelations(a, b) ==> SeamLinkOk(a, b, r)
  {
    forall r | r in SeamRelations(a, b)
      ensures SeamLinkOk(a, b, r)
    {
      var left, right := a.stage.after.value, b.stage.before.value;
      var pair := SeamMember(a, b, left, right, SeamPairs(a.func, left, right), r);
      SeamEndsFit(a, b, left, right, pair);
    }
  }

  predicate PairsDiffer(pairs: seq<Matcher.Pair>) {
    forall k, l :: 0 <= k < l < |pairs| ==> PairDiffers(pairs[k], pairs[l])
  }

  predicate PairDiffers(p: Matcher.Pair, q: Matcher.Pair) {
    (p.0.Some? ==> p.0 != q.0) && (p.1.Some? ==> p.1 != q.1)
  }

  lemma {:induction false} SamePairsDiffer(leftOps: seq<OpIdx>, rightOps: seq<OpIdx>)
    requires StrictlyIncreasing(leftOps)
    ensures PairsDiffer(SamePairs(leftOps, rightOps))
  {
    if leftOps != [] {
      var front, last := leftOps[..|leftOps| - 1], leftOps[|leftOps| - 1];
      SamePairsDiffer(front, rightOps);
      assert forall op :: op in front ==> op < last;
    }
  }

  lemma ListedPairsDiffer(pairs: seq<Matcher.Pair>, xs: seq<OpIdx>, ys: seq<OpIdx>)
    requires Matcher.ListsOnce(Matcher.Befores(pairs), xs) && Matcher.ListsOnce(Matcher.Afters(pairs), ys)
    ensures PairsDiffer(pairs)
  {
    forall k, l | 0 <= k < l < |pairs|
      ensures PairDiffers(pairs[k], pairs[l])
    {
      assert Matcher.Befores(pairs)[k].Some? ==> Matcher.Befores(pairs)[k] != Matcher.Befores(pairs)[l];
      assert Matcher.Afters(pairs)[k].Some? ==> Matcher.Afters(pairs)[k] != Matcher.Afters(pairs)[l];
    }
  }

  lemma SeamPairsDiffer(func: string, left: SnapshotOps, right: SnapshotOps)
    requires WellFormed(left.code) && WellFormed(right.code)
    ensures PairsDiffer(SeamPairs(func, left, right))
  {
    ScopeAscends(left.code, func);
    ScopeAscends(right.code, func);
    SamePairsDiffer(left.code.ScopeOps(func), right.code.ScopeOps(func));
    var pairs := Matcher.MatchedPairs(left.code, left.code.ScopeOps(func), right.code, right.code.ScopeOps(func));
    Matcher.MatchConserves(left.code, left.code.ScopeOps(func), right.code, right.code.ScopeOps(func));
    ListedPairsDiffer(pairs, left.code.ScopeOps(func), right.code.ScopeOps(func));
  }

  lemma {:induction false} SeamListSeparate(a: Place, b: Place, left: SnapshotOps, right: SnapshotOps,
      pairs: seq<Matcher.Pair>)
    requires a.nodes == b.nodes && a.ids == b.ids && Indexed(a.nodes, a.ids) && PairsDiffer(pairs)
    ensures PairwiseSeparate(SeamList(a, b, left, right, pairs))
  {
    if pairs != [] {
      var front, last := pairs[..|pairs| - 1], pairs[|pairs| - 1];
      SeamListSeparate(a, b, left, right, front);
      forall r, q | r in SeamList(a, b, left, right, front) && q in SeamOne(a, b, left, right, last)
        ensures Separate(r, q)
      {
        var p := SeamMember(a, b, left, right, front, r);
        var k :| 0 <= k < |front| && front[k] == p;
        assert PairDiffers(pairs[k], pairs[|pairs| - 1]);
      }
    }
  }

  /** Across a seam every operation continues into at most one, and comes from at most one. */
  lemma SeamIsOneToOne(a: Place, b: Place)
    requires SeamOk(a, b)
    ensures PairwiseSeparate(SeamRelations(a, b))
  {
    if a.stage.after.Some? && b.stage.before.Some? {
      SeamPairsDiffer(a.func, a.stage.after.value, b.stage.before.value);
      SeamListSeparate(a, b, a.stage.after.value, b.stage.before.value, SeamPairs(a.func, a.stage.after.value,
        b.stage.before.value));
    }
  }

  // --------------------------------------------------------------- links and names

  /** The edges the union-find is given. */
  function LinksOf(relations: seq<Relation>): (r: seq<Link>) {
    if relations == [] then []
    else
      var last := relations[|relations| - 1];
      LinksOf(relations[..|relations| - 1])
      + if last.from.Some? && last.to.Some? then [(last.from.value, last.to.value)] else []
  }

  lemma {:induction false} LinkMember(relations: seq<Relation>, link: Link)
    ensures link in LinksOf(relations) <==> exists r :: r in relations && r.from == Some(link.0) && r.to == Some(link.1)
  {
    if relations != [] {
      var front, last := relations[..|relations| - 1], relations[|relations| - 1];
      LinkMember(front, link);
      assert relations == front + [last];
      if last.from == Some(link.0) && last.to == Some(link.1) {
        assert last in relations;
      }
    }
  }

  /** Any link between operations of different names is the doing of an event. */
  ghost predicate LinkOk(run: Run, r: Relation) {
    && (r.from.Some? ==> r.from.value < |run.nodes|) && (r.to.Some? ==> r.to.value < |run.nodes|)
    && r.stageIndex < |run.stages| && (r.from.Some? || r.to.Some?)
    && NamedOk(run.At(r.stageIndex), r)
  }

  lemma {:induction false} SeamsToOk(run: Run, n: nat)
    requires run.Ok() && n <= |run.stages| && BlobsAgree(run.stages)
    ensures forall r :: r in SeamsTo(run, n) ==> LinkOk(run, r) && !r.recordStep
  {
    if n > 1 {
      SeamsToOk(run, n - 1);
      SeamAtOk(run, n - 1);
    }
  }

  lemma SeamAtOk(run: Run, right: nat)
    requires run.Ok() && 1 <= right < |run.stages| && BlobsAgree(run.stages)
    ensures forall r :: r in SeamAt(run, right) ==> LinkOk(run, r) && !r.recordStep
  {
    PlaceIsOk(run, right - 1);
    PlaceIsOk(run, right);
    BlobsOfSeam(run.stages, right - 1);
    SeamLinksFit(run.At(right - 1), run.At(right));
    forall r | r in SeamAt(run, right)
      ensures LinkOk(run, r) && !r.recordStep
    {
      SeamLinkIsLink(run, right, r);
    }
  }

  lemma SeamLinkIsLink(run: Run, right: nat, r: Relation)
    requires 1 <= right < |run.stages| && SeamLinkOk(run.At(right - 1), run.At(right), r)
    ensures LinkOk(run, r)
  {
  }

  lemma BlobsOfSeam(stages: seq<Stage>, i: nat)
    requires BlobsAgree(stages) && i + 1 < |stages|
    ensures SameCode(stages[i].after, stages[i + 1].before)
  {
    assert SideOf(stages[i], After) == stages[i].after && SideOf(stages[i + 1], Before) == stages[i + 1].before;
  }

  lemma AllLinksOk(run: Run, orders: Orders)
    requires run.Ok() && |run.stages| <= |orders| && BlobsAgree(run.stages)
    ensures forall r :: r in AllRelations(run, orders) ==> LinkOk(run, r)
  {
    StagesToOk(run, orders, |run.stages|);
    SeamsToOk(run, |run.stages|);
    forall r | r in StagesTo(run, orders, |run.stages|)
      ensures LinkOk(run, r)
    {
      assert RunStepOk(run, r);
    }
  }

  /** No link that an event left belongs to x's history. */
  ghost predicate NoEventOn(relations: seq<Relation>, x: nat) {
    forall r :: r in relations && EventLink(r) ==> !Connected(LinksOf(relations), x, r.from.value)
  }

  lemma {:induction false} ChainKeepsName(run: Run, relations: seq<Relation>, chain: seq<nat>)
    requires forall r :: r in relations ==> LinkOk(run, r)
    requires IsChain(LinksOf(relations), chain) && chain[0] < |run.nodes| && NoEventOn(relations, chain[0])
    ensures SameName(run.nodes, chain[0], chain[|chain| - 1])
    decreases |chain|
  {
    var links, n := LinksOf(relations), |chain|;
    if n > 1 {
      var front := chain[..n - 1];
      assert forall k :: 0 <= k < |front| - 1 ==> Joined(links, chain[k], chain[k + 1]);
      ChainKeepsName(run, relations, front);
      var u, v := chain[n - 2], chain[n - 2 + 1];
      assert Joined(links, u, v);
      assert Connected(links, chain[0], u);
      assert Connected(links, chain[0], v);
      var link := if (u, v) in links then (u, v) else (v, u);
      LinkMember(relations, link);
      var r :| r in relations && r.from == Some(link.0) && r.to == Some(link.1);
      assert LinkOk(run, r);
    }
  }

  /**
   * A history without a link that a replaced or modified event left keeps one operation name throughout the pipeline.
   */
  lemma OnlyEventsRename(run: Run, orders: Orders, x: nat, y: nat)
    requires run.Ok() && |run.stages| <= |orders| && BlobsAgree(run.stages) && x < |run.nodes|
    requires Connected(LinksOf(AllRelations(run, orders)), x, y)
    requires NoEventOn(AllRelations(run, orders), x)
    ensures SameName(run.nodes, x, y)
  {
    AllLinksOk(run, orders);
    var chain :| IsChain(LinksOf(AllRelations(run, orders)), chain) && chain[0] == x && chain[|chain| - 1] == y;
    ChainKeepsName(run, AllRelations(run, orders), chain);
  }
}
