// All links of a timeline: what each stage says, then the seams between the
// after snapshot of one stage and the before snapshot of the next.
module Links {
  import opened Model
  import opened Timeline
  import opened Nodes
  import opened Relations
  import Matcher

  // ------------------------------------------------------------------ seams

  /** Each operation of the left scope that the right scope has too, with itself. */
  function SamePairs(leftOps: seq<OpIdx>, rightOps: seq<OpIdx>): (r: seq<Matcher.Pair>)
    ensures forall p :: p in r ==> p.0.Some? && p.0 == p.1 && p.0.value in leftOps && p.0.value in rightOps
    ensures forall op :: op in leftOps && op in rightOps ==> (Some(op), Some(op)) in r
  {
    if leftOps == [] then []
    else
      var last := leftOps[|leftOps| - 1];
      assert forall op :: op in leftOps <==> op in leftOps[..|leftOps| - 1] || op == last;
      SamePairs(leftOps[..|leftOps| - 1], rightOps) + if last in rightOps then [(Some(last), Some(last))] else []
  }

  ghost predicate SeamOk(a: Place, b: Place) {
    PlaceOk(a) && PlaceOk(b) && a.nodes == b.nodes && a.ids == b.ids && a.func == b.func && b.s == a.s + 1
  }

  function SeamPairs(func: string, left: SnapshotOps, right: SnapshotOps): seq<Matcher.Pair>
    requires WellFormed(left.code) && WellFormed(right.code)
  {
    ScopeAscends(left.code, func);
    ScopeAscends(right.code, func);
    var leftOps, rightOps := left.code.ScopeOps(func), right.code.ScopeOps(func);
    if left.code.Scope(func).None? || right.code.Scope(func).None? then []
    else if SharesBlob(left, right) then SamePairs(leftOps, rightOps)
    else Matcher.MatchedPairs(left.code, leftOps, right.code, rightOps)
  }

  function SeamEnds(a: Place, b: Place, left: SnapshotOps, right: SnapshotOps, pair: Matcher.Pair): Option<(nat, nat)> {
    if pair.0.None? || pair.1.None? then None
    else
      var x := OccurrenceKey(a.s, left.side, pair.0.value);
      var y := OccurrenceKey(b.s, right.side, pair.1.value);
      if x !in a.ids || y !in a.ids || a.ids[x] >= |a.nodes| || a.ids[y] >= |a.nodes| then None
      else Some((a.ids[x], a.ids[y]))
  }

  const BY_SHARED_SNAPSHOT := HistoryEvidence(0, None, SharedSnapshot)

  function SeamRelation(b: Place, shared: bool, from: nat, to: nat): Relation
    requires from < |b.nodes| && to < |b.nodes|
  {
    Relation(b.s, Some(from), Some(to), Unchanged,
             [if shared then BY_SHARED_SNAPSHOT else BY_FINGERPRINT],
             if shared then Exact
             else Inferred(Matcher.ScoreOrZero(Fingerprint(b.nodes[from].op), Fingerprint(b.nodes[to].op))),
             false)
  }

  function SeamOne(a: Place, b: Place, left: SnapshotOps, right: SnapshotOps, pair: Matcher.Pair): (r: seq<Relation>)
    requires a.nodes == b.nodes
  {
    match SeamEnds(a, b, left, right, pair)
    case None => []
    case Some((from, to)) => [SeamRelation(b, SharesBlob(left, right), from, to)]
  }

  function SeamList(a: Place, b: Place, left: SnapshotOps, right: SnapshotOps,
      pairs: seq<Matcher.Pair>): (r: seq<Relation>)
    requires a.nodes == b.nodes
  {
    if pairs == [] then []
    else SeamList(a, b, left, right, pairs[..|pairs| - 1]) + SeamOne(a, b, left, right, pairs[|pairs| - 1])
  }

  ghost predicate SeamParsed(a: Place, b: Place) {
    && a.nodes == b.nodes
    && (a.stage.after.Some? ==> WellFormed(a.stage.after.value.code))
    && (b.stage.before.Some? ==> WellFormed(b.stage.before.value.code))
  }

  ghost function SeamRelations(a: Place, b: Place): seq<Relation>
    requires SeamParsed(a, b)
  {
    if a.stage.after.None? || b.stage.before.None? then []
    else
      var left, right := a.stage.after.value, b.stage.before.value;
      SeamList(a, b, left, right, SeamPairs(a.func, left, right))
  }

  method BridgeStages(a: Place, b: Place, relations: seq<Relation>) returns (grown: seq<Relation>)
    requires SeamOk(a, b)
    ensures grown == relations + SeamRelations(a, b)
  {
    grown := relations;
    if a.stage.after.None? || b.stage.before.None? {
      return;
    }
    var left, right := a.stage.after.value, b.stage.before.value;
    var leftScope, rightScope := left.code.Scope(a.func), right.code.Scope(a.func);
    if leftScope.None? || rightScope.None? {
      return;
    }
    ScopeAscends(left.code, a.func);
    ScopeAscends(right.code, a.func);
    var pairs: seq<Matcher.Pair>;
    if SharesBlob(left, right) {
      pairs := SamePairs(leftScope.value.ops, rightScope.value.ops);
    } else {
      pairs := Matcher.MatchOps(left.code, leftScope.value.ops, right.code, rightScope.value.ops);
    }
    forall p | p in pairs
      ensures SeamPairOk(left, right, p)
    {
      SeamNames(a, b, left, right, p);
    }
    grown := BridgePairs(a, b, left, right, relations, pairs);
  }

  method BridgePairs(a: Place, b: Place, left: SnapshotOps, right: SnapshotOps, relations: seq<Relation>,
      pairs: seq<Matcher.Pair>)
    returns (grown: seq<Relation>)
    requires SeamOk(a, b) && a.stage.after == Some(left) && b.stage.before == Some(right)
    requires forall p :: p in pairs ==> SeamPairOk(left, right, p)
    ensures grown == relations + SeamList(a, b, left, right, pairs)
  {
    grown := relations;
    for n := 0 to |pairs|
      invariant grown == relations + SeamList(a, b, left, right, pairs[..n])
    {
      grown := BridgePair(a, b, left, right, grown, pairs[n]);
      SeamListGrows(a, b, left, right, pairs, n);
    }
    assert pairs[..|pairs|] == pairs;
  }

  lemma SeamListGrows(a: Place, b: Place, left: SnapshotOps, right: SnapshotOps, pairs: seq<Matcher.Pair>, n: nat)
    requires a.nodes == b.nodes && n < |pairs|
    ensures SeamList(a, b, left, right, pairs[..n + 1]) == SeamList(a, b, left, right, pairs[..n])
      + SeamOne(a, b, left, right, pairs[n])
  {
    assert pairs[..n + 1][..n] == pairs[..n];
  }

  method BridgePair(a: Place, b: Place, left: SnapshotOps, right: SnapshotOps, relations: seq<Relation>,
      pair: Matcher.Pair)
    returns (grown: seq<Relation>)
    requires SeamOk(a, b) && a.stage.after == Some(left) && b.stage.before == Some(right)
    requires SeamPairOk(left, right, pair)
    ensures grown == relations + SeamOne(a, b, left, right, pair)
  {
    grown := relations;
    if pair.0.Some? && pair.1.Some? {
      var x := OccurrenceKey(a.s, left.side, pair.0.value);
      var y := OccurrenceKey(b.s, right.side, pair.1.value);
      if x in a.ids && y in a.ids {
        var from, to := a.ids[x], a.ids[y];
        assert NodeFits(a, a.nodes[from]) && NodeFits(b, b.nodes[to]);
        var confidence := Exact;
        if !SharesBlob(left, right) {
          var score := Matcher.FingerprintScore(Fingerprint(left.code.ops[pair.0.value]),
            Fingerprint(right.code.ops[pair.1.value]));
          confidence := Inferred(score.value);
        }
        grown := relations + [Relation(b.s, Some(from), Some(to), Unchanged,
          [if SharesBlob(left, right) then BY_SHARED_SNAPSHOT else BY_FINGERPRINT], confidence, false)];
      }
    }
  }

  /** A matched pair lies in bounds; matched by fingerprint, it keeps the name. */
  predicate SeamPairOk(left: SnapshotOps, right: SnapshotOps, pair: Matcher.Pair) {
    pair.0.Some? && pair.1.Some? ==>
      && pair.0.value < |left.code.ops| && pair.1.value < |right.code.ops|
      && (!SharesBlob(left, right) ==> left.code.ops[pair.0.value].name == right.code.ops[pair.1.value].name)
  }

  lemma SeamNames(a: Place, b: Place, left: SnapshotOps, right: SnapshotOps, pair: Matcher.Pair)
    requires WellFormed(left.code) && WellFormed(right.code) && pair in SeamPairs(a.func, left, right)
    ensures SeamPairOk(left, right, pair)
  {
    ScopeAscends(left.code, a.func);
    ScopeAscends(right.code, a.func);
    if pair.0.Some? && pair.1.Some? {
      if !SharesBlob(left, right) {
        Matcher.MatchKeepsNames(left.code, left.code.ScopeOps(a.func), right.code, right.code.ScopeOps(a.func), pair);
      } else {
        assert pair in SamePairs(left.code.ScopeOps(a.func), right.code.ScopeOps(a.func));
      }
    }
  }

  // ------------------------------------------------------------- all of them

  /** The nodes and stages one resolution is about. */
  datatype Run = Run(func: string, stages: seq<Stage>, nodes: seq<Node>, ids: NodeIds) {
    ghost predicate Ok() {
      StagesOk(stages, func) && Numbered(func, stages, nodes, ids)
    }

    function At(s: nat): Place
      requires s < |stages|
    {
      Place(func, s, stages[s], nodes, ids)
    }
  }

  lemma PlaceIsOk(run: Run, s: nat)
    requires run.Ok() && s < |run.stages|
    ensures PlaceOk(run.At(s))
    ensures run.At(s).stage.before.Some? && run.At(s).stage.after.Some? ==> BothSides(run.At(s))
  {
    PlacesAreOk(run.func, run.stages, run.nodes, run.ids, s);
  }

  /** One enumeration of the before tokens per stage. */
  type Orders = seq<seq<int>>

  ghost predicate OrdersOk(run: Run, orders: Orders, n: nat)
    requires n <= |run.stages|
  {
    |orders| == n && forall s :: 0 <= s < n && BothSnapshots(run, s) ==> Enumerates(orders[s], TokensOf(run.stages[s]))
  }

  predicate BothSnapshots(run: Run, s: nat)
    requires s < |run.stages|
  {
    run.stages[s].before.Some? && run.stages[s].after.Some?
  }

  lemma StagesParsed(run: Run, s: nat)
    requires run.Ok() && s < |run.stages|
    ensures run.stages[s].before.Some? ==> WellFormed(run.stages[s].before.value.code)
    ensures run.stages[s].after.Some? ==> WellFormed(run.stages[s].after.value.code)
  {
  }

  lemma SidesParsed(run: Run, s: nat)
    requires run.Ok() && s < |run.stages|
    ensures run.At(s).stage.before.Some? && run.At(s).stage.after.Some? ==> BothSides(run.At(s))
  {
    StagesParsed(run, s);
  }

  ghost function StagesTo(run: Run, orders: Orders, n: nat): seq<Relation>
    requires run.Ok() && n <= |run.stages| && n <= |orders|
  {
    if n == 0 then []
    else
      SidesParsed(run, n - 1);
      StageProgress(run.At(n - 1), StagesTo(run, orders, n - 1), orders[n - 1]).relations
  }

  ghost function SeamAt(run: Run, right: nat): seq<Relation>
    requires run.Ok() && 1 <= right < |run.stages|
  {
    StagesParsed(run, right - 1);
    StagesParsed(run, right);
    SeamRelations(run.At(right - 1), run.At(right))
  }

  ghost function SeamsTo(run: Run, n: nat): seq<Relation>
    requires run.Ok() && n <= |run.stages|
  {
    if n <= 1 then []
    else SeamsTo(run, n - 1) + SeamAt(run, n - 1)
  }

  ghost function AllRelations(run: Run, orders: Orders): seq<Relation>
    requires run.Ok() && |run.stages| <= |orders|
  {
    StagesTo(run, orders, |run.stages|) + SeamsTo(run, |run.stages|)
  }

  lemma {:induction false} StagesToPrefix(run: Run, orders: Orders, last: seq<int>, n: nat)
    requires run.Ok() && n <= |run.stages| && n <= |orders|
    ensures StagesTo(run, orders + [last], n) == StagesTo(run, orders, n)
  {
    if n > 0 {
      StagesToPrefix(run, orders, last, n - 1);
    }
  }

  /** All relations of the run, for some orders in which its token maps are walked. */
  ghost predicate Collected(run: Run, orders: Orders, relations: seq<Relation>) {
    run.Ok() && OrdersOk(run, orders, |run.stages|) && relations == AllRelations(run, orders)
  }

  method CollectRelations(run: Run) returns (relations: seq<Relation>)
    requires run.Ok()
    ensures exists orders :: Collected(run, orders, relations)
  {
    ghost var orders: Orders;
    relations, orders := CollectStages(run);
    relations := CollectSeams(run, relations);
    assert Collected(run, orders, relations);
  }

  method CollectStages(run: Run) returns (relations: seq<Relation>, ghost orders: Orders)
    requires run.Ok()
    ensures OrdersOk(run, orders, |run.stages|) && relations == StagesTo(run, orders, |run.stages|)
  {
    relations, orders := [], [];
    for s := 0 to |run.stages|
      invariant OrdersOk(run, orders, s) && relations == StagesTo(run, orders, s)
    {
      relations, orders := CollectStage(run, s, relations, orders);
    }
  }

  method CollectStage(run: Run, s: nat, relations: seq<Relation>, ghost orders: Orders)
      returns (grown: seq<Relation>, ghost more: Orders)
    requires run.Ok() && s < |run.stages| && OrdersOk(run, orders, s) && relations == StagesTo(run, orders, s)
    ensures OrdersOk(run, more, s + 1) && grown == StagesTo(run, more, s + 1)
  {
    PlaceIsOk(run, s);
    grown := HandleStage(run.At(s), relations);
    ghost var order :| StageTaken(run.At(s), relations, order, grown);
    StagesToPrefix(run, orders, order, s);
    more := orders + [order];
    OneMoreOrder(run, orders, order, s);
  }

  lemma OneMoreOrder(run: Run, orders: Orders, order: seq<int>, s: nat)
    requires s < |run.stages| && OrdersOk(run, orders, s)
    requires BothSnapshots(run, s) ==> Enumerates(order, TokensOf(run.stages[s]))
    ensures OrdersOk(run, orders + [order], s + 1)
  {
  }

  method CollectSeams(run: Run, steps: seq<Relation>) returns (relations: seq<Relation>)
    requires run.Ok()
    ensures relations == steps + SeamsTo(run, |run.stages|)
  {
    relations := steps;
    if run.stages == [] {
      return;
    }
    for right := 1 to |run.stages|
      invariant relations == steps + SeamsTo(run, right)
    {
      relations := CollectSeam(run, right, steps, relations);
    }
  }

  method CollectSeam(run: Run, right: nat, ghost steps: seq<Relation>, relations: seq<Relation>)
      returns (grown: seq<Relation>)
    requires run.Ok() && 1 <= right < |run.stages|
    requires relations == steps + SeamsTo(run, right)
    ensures grown == steps + SeamsTo(run, right + 1)
  {
    grown := BridgeAt(run, right, relations);
    SeamsGrow(run, right);
    Associate(steps, SeamsTo(run, right), SeamAt(run, right));
  }

  method BridgeAt(run: Run, right: nat, relations: seq<Relation>) returns (grown: seq<Relation>)
    requires run.Ok() && 1 <= right < |run.stages|
    ensures grown == relations + SeamAt(run, right)
  {
    PlaceIsOk(run, right - 1);
    PlaceIsOk(run, right);
    grown := BridgeStages(run.At(right - 1), run.At(right), relations);
  }

  lemma SeamsGrow(run: Run, right: nat)
    requires run.Ok() && 1 <= right < |run.stages|
    ensures SeamsTo(run, right + 1) == SeamsTo(run, right) + SeamAt(run, right)
  {
  }
}
