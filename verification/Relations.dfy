// What one stage, and the seam between two stages, say about which operation
// became which: lifecycle events, then tokens that persist, then fingerprints.
module Relations {
  import opened Model
  import opened Timeline
  import opened Nodes
  import opened Sorting
  import Matcher

  datatype HistoryChange = Inserted | Erased | Replaced | Modified | Unchanged

  datatype HistoryEvidence = HistoryEvidence(order: int, pattern: Option<string>, source: EvidenceSource)

  datatype LinkConfidence = Exact | Inferred(score: nat)

  datatype Relation = Relation(
    stageIndex: nat,
    from: Option<nat>,
    to: Option<nat>,
    change: HistoryChange,
    evidence: seq<HistoryEvidence>,
    confidence: LinkConfidence,
    recordStep: bool)

  /** One stage of the timeline with its number, and all nodes. */
  datatype Place = Place(func: string, s: nat, stage: Stage, nodes: seq<Node>, ids: NodeIds)

  ghost predicate NodeFits(at: Place, node: Node) {
    var snapshot := SideOf(at.stage, node.key.side);
    && snapshot.Some? && node.key.opIdx in snapshot.value.code.ScopeOps(at.func)
    && node.key.opIdx < |snapshot.value.code.ops| && node.op == snapshot.value.code.ops[node.key.opIdx]
  }

  ghost predicate PlaceOk(at: Place) {
    && StageOk(at.stage, at.func) && Ascending(at.nodes) && Indexed(at.nodes, at.ids)
    && (forall i :: 0 <= i < |at.nodes| && at.nodes[i].key.stageIndex == at.s ==> NodeFits(at, at.nodes[i]))
    && (forall side, op :: SideOf(at.stage, side).Some? && op in SideOf(at.stage, side).value.code.ScopeOps(at.func) ==>
         OccurrenceKey(at.s, side, op) in at.ids)
  }

  lemma PlacesAreOk(func: string, stages: seq<Stage>, nodes: seq<Node>, ids: NodeIds, s: nat)
    requires StagesOk(stages, func) && Numbered(func, stages, nodes, ids) && s < |stages|
    ensures PlaceOk(Place(func, s, stages[s], nodes, ids))
  {
    var at := Place(func, s, stages[s], nodes, ids);
    forall side, op | SideOf(at.stage, side).Some? && op in SideOf(at.stage, side).value.code.ScopeOps(func)
      ensures OccurrenceKey(s, side, op) in ids
    {
      assert OccursIn(func, stages, OccurrenceKey(s, side, op));
    }
    forall i | 0 <= i < |nodes| && nodes[i].key.stageIndex == s
      ensures NodeFits(at, nodes[i])
    {
      assert NodeOk(stages, func, nodes[i]);
    }
  }

  /** The node a token means on one side, if any. */
  function Meant(at: Place, side: SnapshotSide, token: int): Option<nat> {
    NodeForToken(SideOf(at.stage, side), token, at.s, at.ids)
  }

  predicate IsNode(at: Place, side: SnapshotSide, id: nat) {
    id < |at.nodes| && at.nodes[id].key.stageIndex == at.s && at.nodes[id].key.side == side
  }

  predicate TokenInScope(at: Place, side: SnapshotSide, token: int) {
    var snapshot := SideOf(at.stage, side);
    snapshot.Some? && token in snapshot.value.tokens
      && snapshot.value.tokens[token] in snapshot.value.code.ScopeOps(at.func)
  }

  lemma MeantIsNode(at: Place, side: SnapshotSide, token: int)
    requires PlaceOk(at)
    ensures var id := Meant(at, side, token);
      && (id.Some? <==> TokenInScope(at, side, token))
      && (id.Some? ==> IsNode(at, side, id.value))
      && (id.Some? ==> at.nodes[id.value].key.opIdx == SideOf(at.stage, side).value.tokens[token])
  {
    var id := Meant(at, side, token);
    if id.Some? {
      assert NodeFits(at, at.nodes[id.value]);
    }
  }

  // ---------------------------------------------------------- push_relation

  predicate SameStep(existing: Relation, relation: Relation) {
    && existing.stageIndex == relation.stageIndex && existing.from == relation.from && existing.to == relation.to
    && existing.change == relation.change && existing.recordStep
  }

  function EvidenceKey(e: HistoryEvidence): Key { (e.order, 0, 0) }

  function Merged(existing: Relation, relation: Relation): Relation {
    existing.(evidence := SortBy(existing.evidence + relation.evidence, EvidenceKey))
  }

  /** A recorded step adds its evidence to the first equal step there is, or goes last. */
  function Push(relations: seq<Relation>, relation: Relation): (r: seq<Relation>)
    ensures relations != [] ==> r != []
  {
    if relations == [] then [relation]
    else if relation.recordStep && SameStep(relations[0], relation) then [Merged(relations[0], relation)]
      + relations[1..]
    else [relations[0]] + Push(relations[1..], relation)
  }

  lemma {:induction false} PushAt(relations: seq<Relation>, relation: Relation, i: nat)
    requires i <= |relations| && forall k :: 0 <= k < i ==> !(relation.recordStep && SameStep(relations[k], relation))
    requires i < |relations| ==> relation.recordStep && SameStep(relations[i], relation)
    ensures Push(relations, relation)
      == if i < |relations| then relations[i := Merged(relations[i], relation)] else relations + [relation]
  {
    if i > 0 {
      PushAt(relations[1..], relation, i - 1);
    } else if relations != [] {
      assert relations[0 := Merged(relations[0], relation)] == [Merged(relations[0], relation)] + relations[1..];
    }
  }

  method PushRelation(relations: seq<Relation>, relation: Relation) returns (r: seq<Relation>)
    ensures r == Push(relations, relation)
  {
    if relation.recordStep {
      var i := 0;
      while i < |relations| && !SameStep(relations[i], relation)
        invariant 0 <= i <= |relations|
        invariant forall k :: 0 <= k < i ==> !SameStep(relations[k], relation)
      {
        i := i + 1;
      }
      PushAt(relations, relation, i);
      if i < |relations| {
        return relations[i := Merged(relations[i], relation)];
      }
    } else {
      PushAt(relations, relation, |relations|);
    }
    r := relations + [relation];
  }

  /** Steps of other stages are passed by. */
  lemma {:induction false} PushAfter(earlier: seq<Relation>, local: seq<Relation>, relation: Relation)
    requires forall r :: r in earlier ==> r.stageIndex != relation.stageIndex
    ensures Push(earlier + local, relation) == earlier + Push(local, relation)
  {
    if earlier == [] {
      assert earlier + local == local;
    } else {
      assert earlier[0] in earlier;
      PushAfter(earlier[1..], local, relation);
      assert (earlier + local)[1..] == earlier[1..] + local;
    }
  }

  /** A step that no earlier one equals goes last. */
  lemma PushFresh(relations: seq<Relation>, relation: Relation)
    requires forall r :: r in relations ==> r.from != relation.from || r.stageIndex != relation.stageIndex
    ensures Push(relations, relation) == relations + [relation]
  {
    PushAt(relations, relation, |relations|);
  }

  // ------------------------------------------------------------------ events

  datatype Claims = Claims(usedBefore: set<nat>, usedAfter: set<nat>, successors: set<nat>, inserted: set<nat>)

  datatype Progress = Progress(relations: seq<Relation>, claims: Claims)

  const UNCLAIMED := Claims({}, {}, {}, {})

  function EventFrom(at: Place, e: Event): Option<nat> {
    if e.kind.Inserted? then None else Meant(at, Before, e.ptrToken)
  }

  function EventTo(at: Place, e: Event): Option<nat> {
    match e.kind
    case Replaced => if e.newToken.None? then None else Meant(at, After, e.newToken.value)
    case Erased => None
    case Modified => Meant(at, After, e.ptrToken)
    case Inserted => Meant(at, After, e.ptrToken)
  }

  /** Whether the event leaves a step. Only the first replacement of an operation does. */
  predicate Applies(at: Place, claims: Claims, e: Event) {
    match e.kind
    case Replaced => EventFrom(at, e).Some? && EventFrom(at, e).value !in claims.successors
    case Modified => EventFrom(at, e).Some? && EventTo(at, e).Some?
    case Erased => EventFrom(at, e).Some?
    case Inserted => EventTo(at, e).Some?
  }

  function EventChange(at: Place, e: Event): HistoryChange {
    match e.kind
    case Replaced => if EventTo(at, e).Some? then HistoryChange.Replaced else HistoryChange.Erased
    case Modified => HistoryChange.Modified
    case Erased => HistoryChange.Erased
    case Inserted => HistoryChange.Inserted
  }

  function EventRelation(at: Place, e: Event): Relation {
    Relation(at.s, EventFrom(at, e), EventTo(at, e), EventChange(at, e),
             [HistoryEvidence(e.order, e.pattern, e.source)], Exact, true)
  }

  function Taken(o: Option<nat>): set<nat> {
    match o case None => {} case Some(id) => {id}
  }

  function EventClaims(at: Place, claims: Claims, e: Event): Claims {
    Claims(claims.usedBefore + Taken(EventFrom(at, e)),
           claims.usedAfter + Taken(EventTo(at, e)),
           if e.kind.Replaced? then claims.successors + Taken(EventFrom(at, e)) else claims.successors,
           if e.kind.Inserted? then claims.inserted + Taken(EventTo(at, e)) else claims.inserted)
  }

  function ApplyEvent(at: Place, p: Progress, e: Event): Progress {
    if !Applies(at, p.claims, e) then p
    else Progress(Push(p.relations, EventRelation(at, e)), EventClaims(at, p.claims, e))
  }

  function ApplyEvents(at: Place, p: Progress, events: seq<Event>): Progress {
    if events == [] then p else ApplyEvent(at, ApplyEvents(at, p, events[..|events| - 1]), events[|events| - 1])
  }

  function EventKey(e: Event): Key { (e.order, 0, 0) }

  method HandleEvent(at: Place, relations: seq<Relation>, claims: Claims, e: Event)
    returns (grown: seq<Relation>, now: Claims)
    ensures Progress(grown, now) == ApplyEvent(at, Progress(relations, claims), e)
  {
    grown, now := relations, claims;
    var evidence := [HistoryEvidence(e.order, e.pattern, e.source)];
    match e.kind {
      case Replaced =>
        var from := NodeForToken(at.stage.before, e.ptrToken, at.s, at.ids);
        if from.Some? && from.value !in claims.successors {
          var to := if e.newToken.None? then None else NodeForToken(at.stage.after, e.newToken.value, at.s, at.ids);
          now := now.(successors := now.successors + {from.value}, usedBefore := now.usedBefore + {from.value});
          if to.Some? {
            now := now.(usedAfter := now.usedAfter + {to.value});
          }
          var change := if to.Some? then HistoryChange.Replaced else HistoryChange.Erased;
          grown := PushRelation(relations, Relation(at.s, from, to, change, evidence, Exact, true));
        }
      case Modified =>
        var from := NodeForToken(at.stage.before, e.ptrToken, at.s, at.ids);
        var to := NodeForToken(at.stage.after, e.ptrToken, at.s, at.ids);
        if from.Some? && to.Some? {
          now := now.(usedBefore := now.usedBefore + {from.value}, usedAfter := now.usedAfter + {to.value});
          grown := PushRelation(relations, Relation(at.s, from, to, HistoryChange.Modified, evidence, Exact, true));
        }
      case Erased =>
        var from := NodeForToken(at.stage.before, e.ptrToken, at.s, at.ids);
        if from.Some? {
          now := now.(usedBefore := now.usedBefore + {from.value});
          grown := PushRelation(relations, Relation(at.s, from, None, HistoryChange.Erased, evidence, Exact, true));
        }
      case Inserted =>
        var to := NodeForToken(at.stage.after, e.ptrToken, at.s, at.ids);
        if to.Some? {
          now := now.(inserted := now.inserted + {to.value}, usedAfter := now.usedAfter + {to.value});
          grown := PushRelation(relations, Relation(at.s, None, to, HistoryChange.Inserted, evidence, Exact, true));
        }
    }
  }

  method HandleEvents(at: Place, relations: seq<Relation>) returns (grown: seq<Relation>, claims: Claims)
    ensures Progress(grown, claims) == ApplyEvents(at, Progress(relations, UNCLAIMED),
      SortBy(at.stage.events, EventKey))
  {
    var events := SortBy(at.stage.events, EventKey);
    grown, claims := relations, UNCLAIMED;
    for n := 0 to |events|
      invariant Progress(grown, claims) == ApplyEvents(at, Progress(relations, UNCLAIMED), events[..n])
    {
      grown, claims := HandleEvent(at, grown, claims, events[n]);
      assert events[..n + 1][..n] == events[..n];
    }
    assert events[..|events|] == events;
  }

  // -------------------------------------------------------- token continuity

  function Changed(before: ParsedOp, after: ParsedOp): HistoryChange {
    if before.name != after.name then HistoryChange.Replaced
    else if before.resultTypes != after.resultTypes || |before.operands| != |after.operands|
      || before.attrSummary != after.attrSummary
    then HistoryChange.Modified
    else Unchanged
  }

  /** The two nodes one token means, when their operations share a name. */
  function Carried(at: Place, token: int): Option<(nat, nat)> {
    var from, to := Meant(at, Before, token), Meant(at, After, token);
    if from.None? || to.None? || from.value >= |at.nodes| || to.value >= |at.nodes| then None
    else if at.nodes[from.value].op.name != at.nodes[to.value].op.name then None
    else Some((from.value, to.value))
  }

  /** The token continues an operation no event spoke for. */
  predicate Continues(at: Place, claims: Claims, token: int) {
    var ends := Carried(at, token);
    ends.Some? && ends.value.0 !in claims.usedBefore && ends.value.1 !in claims.inserted
  }

  function TokenRelation(at: Place, token: int): Relation
    requires Carried(at, token).Some?
  {
    var (from, to) := Carried(at, token).value;
    Relation(at.s, Some(from), Some(to), Changed(at.nodes[from].op, at.nodes[to].op), [], Exact, true)
  }

  function ClaimBoth(claims: Claims, from: nat, to: nat): Claims {
    claims.(usedBefore := claims.usedBefore + {from}, usedAfter := claims.usedAfter + {to})
  }

  function FollowToken(at: Place, p: Progress, token: int): Progress {
    if !Continues(at, p.claims, token) then p
    else
      var (from, to) := Carried(at, token).value;
      Progress(Push(p.relations, TokenRelation(at, token)), ClaimBoth(p.claims, from, to))
  }

  function FollowTokens(at: Place, p: Progress, tokens: seq<int>): Progress {
    if tokens == [] then p else FollowToken(at, FollowTokens(at, p, tokens[..|tokens| - 1]), tokens[|tokens| - 1])
  }

  /** An order in which a hash map may hand out its keys. */
  ghost predicate Enumerates(order: seq<int>, keys: set<int>) {
    && (forall t :: t in keys <==> t in order)
    && (forall i, j :: 0 <= i < j < |order| ==> order[i] != order[j])
  }

  ghost function TokensOf(stage: Stage): set<int> {
    if stage.before.Some? then stage.before.value.tokens.Keys else {}
  }

  method HandleToken(at: Place, before: SnapshotOps, after: SnapshotOps, relations: seq<Relation>, claims: Claims,
      token: int)
    returns (grown: seq<Relation>, now: Claims)
    requires PlaceOk(at) && at.stage.before == Some(before) && at.stage.after == Some(after) && token in before.tokens
    ensures Progress(grown, now) == FollowToken(at, Progress(relations, claims), token)
  {
    grown, now := relations, claims;
    MeantIsNode(at, Before, token);
    MeantIsNode(at, After, token);
    if token in after.tokens {
      var from := at.ids[OccurrenceKey(at.s, before.side, before.tokens[token])];
      var to := at.ids[OccurrenceKey(at.s, after.side, after.tokens[token])];
      if at.nodes[from].op.name == at.nodes[to].op.name && from !in claims.usedBefore && to !in claims.inserted {
        now := now.(usedBefore := now.usedBefore + {from}, usedAfter := now.usedAfter + {to});
        grown := PushRelation(relations, Relation(at.s, Some(from), Some(to),
          Changed(at.nodes[from].op, at.nodes[to].op), [], Exact, true));
      }
    }
  }

  /** Whichever element a hash table hands out next. */
  method AnyOf<T>(left: set<T>) returns (x: T)
    requires left != {}
    ensures x in left
  {
    x :| x in left;
  }

  /** The token map is walked in whatever order it has. */
  method HandleTokens(at: Place, before: SnapshotOps, after: SnapshotOps, relations: seq<Relation>, claims: Claims)
    returns (grown: seq<Relation>, now: Claims, ghost order: seq<int>)
    requires PlaceOk(at) && at.stage.before == Some(before) && at.stage.after == Some(after)
    ensures Enumerates(order, TokensOf(at.stage))
    ensures Progress(grown, now) == FollowTokens(at, Progress(relations, claims), order)
  {
    grown, now, order := relations, claims, [];
    var left := before.tokens.Keys;
    while left != {}
      invariant left <= before.tokens.Keys && Enumerates(order, before.tokens.Keys - left)
      invariant Progress(grown, now) == FollowTokens(at, Progress(relations, claims), order)
      decreases left
    {
      var token := AnyOf(left);
      grown, now := HandleToken(at, before, after, grown, now, token);
      left := left - {token};
      assert (order + [token])[..|order|] == order;
      order := order + [token];
    }
  }

  // ---------------------------------------------------- fingerprint fallback

  /** Operations of the scope that nothing has claimed, in order. */
  function FreeOps(at: Place, side: SnapshotSide, used: set<nat>, ops: seq<OpIdx>): (r: seq<OpIdx>)
    ensures forall op :: op in r <==>
      op in ops && OccurrenceKey(at.s, side, op) in at.ids && at.ids[OccurrenceKey(at.s, side, op)] !in used
  {
    if ops == [] then []
    else
      var rest := FreeOps(at, side, used, ops[..|ops| - 1]);
      var last := ops[|ops| - 1];
      var key := OccurrenceKey(at.s, side, last);
      assert forall op :: op in ops <==> op in ops[..|ops| - 1] || op == last;
      if key in at.ids && at.ids[key] !in used then rest + [last] else rest
  }

  lemma {:induction false} FreeOpsIncrease(at: Place, side: SnapshotSide, used: set<nat>, ops: seq<OpIdx>, bound: nat)
    requires StrictlyIncreasing(ops) && InBounds(ops, bound)
    ensures StrictlyIncreasing(FreeOps(at, side, used, ops)) && InBounds(FreeOps(at, side, used, ops), bound)
  {
    if ops != [] {
      FreeOpsIncrease(at, side, used, ops[..|ops| - 1], bound);
      var rest, last := FreeOps(at, side, used, ops[..|ops| - 1]), ops[|ops| - 1];
      forall i | 0 <= i < |rest|
        ensures rest[i] < last
      {
        assert rest[i] in ops[..|ops| - 1];
      }
    }
  }

  ghost predicate BothSides(at: Place) {
    && at.stage.before.Some? && at.stage.after.Some?
    && WellFormed(at.stage.before.value.code) && WellFormed(at.stage.after.value.code)
  }

  ghost function FreeBefore(at: Place, claims: Claims): (r: seq<OpIdx>)
    requires BothSides(at)
    ensures StrictlyIncreasing(r) && InBounds(r, |at.stage.before.value.code.ops|)
  {
    var code := at.stage.before.value.code;
    ScopeAscends(code, at.func);
    FreeOpsIncrease(at, at.stage.before.value.side, claims.usedBefore, code.ScopeOps(at.func), |code.ops|);
    FreeOps(at, at.stage.before.value.side, claims.usedBefore, code.ScopeOps(at.func))
  }

  ghost function FreeAfter(at: Place, claims: Claims): (r: seq<OpIdx>)
    requires BothSides(at)
    ensures StrictlyIncreasing(r) && InBounds(r, |at.stage.after.value.code.ops|)
  {
    var code := at.stage.after.value.code;
    ScopeAscends(code, at.func);
    FreeOpsIncrease(at, at.stage.after.value.side, claims.usedAfter, code.ScopeOps(at.func), |code.ops|);
    FreeOps(at, at.stage.after.value.side, claims.usedAfter, code.ScopeOps(at.func))
  }

  ghost function FallbackPairs(at: Place, claims: Claims): seq<Matcher.Pair>
    requires BothSides(at)
  {
    Matcher.MatchedPairs(at.stage.before.value.code, FreeBefore(at, claims), at.stage.after.value.code,
      FreeAfter(at, claims))
  }

  /** The nodes a matched pair stands for. */
  function PairNodes(at: Place, pair: Matcher.Pair): Option<(nat, nat)> {
    if pair.0.None? || pair.1.None? || at.stage.before.None? || at.stage.after.None? then None
    else
      var a := OccurrenceKey(at.s, at.stage.before.value.side, pair.0.value);
      var b := OccurrenceKey(at.s, at.stage.after.value.side, pair.1.value);
      if a !in at.ids || b !in at.ids || at.ids[a] >= |at.nodes| || at.ids[b] >= |at.nodes| then None
      else Some((at.ids[a], at.ids[b]))
  }

  const BY_FINGERPRINT := HistoryEvidence(0, None, FromFingerprint)

  function FallbackRelation(at: Place, from: nat, to: nat): Relation
    requires from < |at.nodes| && to < |at.nodes|
  {
    Relation(at.s, Some(from), Some(to), Changed(at.nodes[from].op, at.nodes[to].op), [BY_FINGERPRINT],
             Inferred(Matcher.ScoreOrZero(Fingerprint(at.nodes[from].op), Fingerprint(at.nodes[to].op))), true)
  }

  function FollowPair(at: Place, p: Progress, pair: Matcher.Pair): Progress {
    match PairNodes(at, pair)
    case None => p
    case Some((from, to)) => Progress(Push(p.relations, FallbackRelation(at, from, to)), ClaimBoth(p.claims, from, to))
  }

  function FollowPairs(at: Place, p: Progress, pairs: seq<Matcher.Pair>): Progress {
    if pairs == [] then p else FollowPair(at, FollowPairs(at, p, pairs[..|pairs| - 1]), pairs[|pairs| - 1])
  }

  // -------------------------------------------------------------- one stage

  ghost function StageProgress(at: Place, relations: seq<Relation>, order: seq<int>): Progress
    requires at.stage.before.Some? && at.stage.after.Some? ==> BothSides(at)
  {
    var p := ApplyEvents(at, Progress(relations, UNCLAIMED), SortBy(at.stage.events, EventKey));
    if at.stage.before.None? || at.stage.after.None? then p
    else
      var q := FollowTokens(at, p, order);
      FollowPairs(at, q, FallbackPairs(at, q.claims))
  }

  /** A full pair joins operations of the two scopes that share a name. */
  predicate PairFits(func: string, before: ParsedModule, after: ParsedModule, pair: Matcher.Pair) {
    pair.0.Some? && pair.1.Some? ==>
      && pair.0.value in before.ScopeOps(func) && pair.1.value in after.ScopeOps(func)
      && pair.0.value < |before.ops| && pair.1.value < |after.ops|
      && before.ops[pair.0.value].name == after.ops[pair.1.value].name
  }

  lemma MatchedPairsFit(func: string, before: ParsedModule, beforeOps: seq<OpIdx>, after: ParsedModule,
      afterOps: seq<OpIdx>)
    requires InBounds(beforeOps, |before.ops|) && InBounds(afterOps, |after.ops|)
    requires (forall op :: op in beforeOps ==> op in before.ScopeOps(func))
      && (forall op :: op in afterOps ==> op in after.ScopeOps(func))
    ensures forall p :: p in Matcher.MatchedPairs(before, beforeOps, after, afterOps) ==>
      PairFits(func, before, after, p)
  {
    forall p | p in Matcher.MatchedPairs(before, beforeOps, after, afterOps)
      ensures PairFits(func, before, after, p)
    {
      if p.0.Some? && p.1.Some? {
        Matcher.MatchKeepsNames(before, beforeOps, after, afterOps, p);
      }
    }
  }

  method HandlePair(at: Place, before: SnapshotOps, after: SnapshotOps, relations: seq<Relation>, claims: Claims,
      pair: Matcher.Pair)
    returns (grown: seq<Relation>, now: Claims)
    requires PlaceOk(at) && at.stage.before == Some(before) && at.stage.after == Some(after)
    requires PairFits(at.func, before.code, after.code, pair)
    ensures Progress(grown, now) == FollowPair(at, Progress(relations, claims), pair)
  {
    grown, now := relations, claims;
    if pair.0.Some? && pair.1.Some? {
      assert SideOf(at.stage, before.side) == Some(before) && SideOf(at.stage, after.side) == Some(after);
      var from := at.ids[OccurrenceKey(at.s, before.side, pair.0.value)];
      var to := at.ids[OccurrenceKey(at.s, after.side, pair.1.value)];
      assert NodeFits(at, at.nodes[from]) && NodeFits(at, at.nodes[to]);
      var score := Matcher.FingerprintScore(Fingerprint(before.code.ops[pair.0.value]),
        Fingerprint(after.code.ops[pair.1.value]));
      now := now.(usedBefore := now.usedBefore + {from}, usedAfter := now.usedAfter + {to});
      var change := Changed(at.nodes[from].op, at.nodes[to].op);
      grown := PushRelation(relations, Relation(at.s, Some(from), Some(to), change, [BY_FINGERPRINT],
        Inferred(score.value), true));
    }
  }

  method HandleFallback(at: Place, before: SnapshotOps, after: SnapshotOps, relations: seq<Relation>, claims: Claims)
    returns (grown: seq<Relation>, now: Claims)
    requires PlaceOk(at) && BothSides(at) && at.stage.before == Some(before) && at.stage.after == Some(after)
    ensures Progress(grown, now) == FollowPairs(at, Progress(relations, claims), FallbackPairs(at, claims))
  {
    ScopeAscends(before.code, at.func);
    ScopeAscends(after.code, at.func);
    var beforeOps := FreeOps(at, before.side, claims.usedBefore, before.code.ScopeOps(at.func));
    var afterOps := FreeOps(at, after.side, claims.usedAfter, after.code.ScopeOps(at.func));
    assert beforeOps == FreeBefore(at, claims) && afterOps == FreeAfter(at, claims);
    var pairs := Matcher.MatchOps(before.code, beforeOps, after.code, afterOps);
    MatchedPairsFit(at.func, before.code, beforeOps, after.code, afterOps);
    grown, now := HandlePairs(at, before, after, relations, claims, pairs);
  }

  method HandlePairs(at: Place, before: SnapshotOps, after: SnapshotOps, relations: seq<Relation>, claims: Claims,
      pairs: seq<Matcher.Pair>)
    returns (grown: seq<Relation>, now: Claims)
    requires PlaceOk(at) && at.stage.before == Some(before) && at.stage.after == Some(after)
    requires forall p :: p in pairs ==> PairFits(at.func, before.code, after.code, p)
    ensures Progress(grown, now) == FollowPairs(at, Progress(relations, claims), pairs)
  {
    grown, now := relations, claims;
    for n := 0 to |pairs|
      invariant Progress(grown, now) == FollowPairs(at, Progress(relations, claims), pairs[..n])
    {
      grown, now := HandlePair(at, before, after, grown, now, pairs[n]);
      PrefixGrows(pairs, n);
    }
    assert pairs[..|pairs|] == pairs;
  }

  /** The relations after the stage, for some order in which the token map is walked. */
  ghost predicate StageTaken(at: Place, relations: seq<Relation>, order: seq<int>, grown: seq<Relation>) {
    && (at.stage.before.Some? && at.stage.after.Some? ==> BothSides(at) && Enumerates(order, TokensOf(at.stage)))
    && grown == StageProgress(at, relations, order).relations
  }

  method HandleStage(at: Place, relations: seq<Relation>) returns (grown: seq<Relation>)
    requires PlaceOk(at)
    ensures exists order :: StageTaken(at, relations, order, grown)
  {
    var claims: Claims;
    ghost var order: seq<int> := [];
    grown, claims := HandleEvents(at, relations);
    if at.stage.before.Some? && at.stage.after.Some? {
      var before, after := at.stage.before.value, at.stage.after.value;
      grown, claims, order := HandleTokens(at, before, after, grown, claims);
      grown, claims := HandleFallback(at, before, after, grown, claims);
    }
    assert StageTaken(at, relations, order, grown);
  }
}
