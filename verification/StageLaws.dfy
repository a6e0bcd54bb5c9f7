// What one stage's relations always satisfy: every step leads between nodes of
// the stage, only events join operations of different names, an inferred step
// has its ends to itself, and the first replacement decides.
module StageLaws {
  import opened Model
  import opened Timeline
  import opened Nodes
  import opened Relations
  import opened Sorting
  import Matcher

  // -------------------------------------------------------------- what Push does

  /** Equal up to evidence. */
  predicate Alike(a: Relation, b: Relation) {
    a.(evidence := b.evidence) == b
  }

  lemma {:induction false} PushMember(relations: seq<Relation>, relation: Relation, r: Relation) returns (o: Relation)
    requires r in Push(relations, relation)
    ensures (o in relations || o == relation) && Alike(o, r) && |r.evidence| >= |o.evidence|
  {
    if relations == [] {
      o := relation;
    } else if relation.recordStep && SameStep(relations[0], relation) {
      o := if r == Merged(relations[0], relation) then relations[0] else r;
    } else if r == relations[0] {
      o := r;
    } else {
      o := PushMember(relations[1..], relation, r);
    }
  }

  /** The same step, whatever evidence it gathered. */
  predicate Says(r: Relation, from: Option<nat>, to: Option<nat>, change: HistoryChange) {
    r.from == from && r.to == to && r.change == change
  }

  ghost predicate SomeSays(relations: seq<Relation>, from: Option<nat>, to: Option<nat>, change: HistoryChange) {
    exists r :: r in relations && Says(r, from, to, change)
  }

  lemma {:induction false} PushSays(relations: seq<Relation>, relation: Relation, from: Option<nat>, to: Option<nat>,
      change: HistoryChange)
    requires SomeSays(relations, from, to, change) || Says(relation, from, to, change)
    ensures SomeSays(Push(relations, relation), from, to, change)
  {
    var pushed := Push(relations, relation);
    if relations == [] {
      assert relation in pushed;
    } else if relation.recordStep && SameStep(relations[0], relation) {
      assert Merged(relations[0], relation) in pushed;
      if !Says(Merged(relations[0], relation), from, to, change) {
        var r :| r in relations && Says(r, from, to, change);
        assert r in relations[1..];
        assert r in pushed;
      }
    } else if Says(relations[0], from, to, change) {
      assert relations[0] in pushed;
    } else {
      if SomeSays(relations, from, to, change) {
        var r :| r in relations && Says(r, from, to, change);
        assert r in relations[1..];
      }
      PushSays(relations[1..], relation, from, to, change);
      var r :| r in Push(relations[1..], relation) && Says(r, from, to, change);
      assert r in pushed;
    }
  }

  // ------------------------------------------------------- every step is in order

  predicate SameName(nodes: seq<Node>, x: nat, y: nat) {
    x < |nodes| && y < |nodes| && nodes[x].op.name == nodes[y].op.name
  }

  /** A replaced or modified event leads from one node to the other. */
  ghost predicate EventJoins(at: Place, from: nat, to: nat) {
    exists e :: e in at.stage.events && Joins(at, e, from, to)
  }

  predicate Joins(at: Place, e: Event, from: nat, to: nat) {
    (e.kind.Replaced? || e.kind.Modified?) && EventFrom(at, e) == Some(from) && EventTo(at, e) == Some(to)
  }

  /** A link an event left: a replacement, or a change with evidence. Token continuity gives none. */
  predicate EventLink(r: Relation) {
    && r.recordStep && r.confidence == Exact && r.from.Some? && r.to.Some?
    && (r.change.Replaced? || (r.change.Modified? && r.evidence != []))
  }

  /** Operations of different names are joined only by an event's link, and such a link leads where an event says. */
  ghost predicate NamedOk(at: Place, r: Relation) {
    r.from.Some? && r.to.Some? ==>
      if EventLink(r) then EventJoins(at, r.from.value, r.to.value) else SameName(at.nodes, r.from.value, r.to.value)
  }

  ghost predicate StepOk(at: Place, claims: Claims, r: Relation) {
    && r.recordStep && r.stageIndex == at.s && (r.from.Some? || r.to.Some?)
    && (r.from.Some? ==> IsNode(at, Before, r.from.value) && r.from.value in claims.usedBefore)
    && (r.to.Some? ==> IsNode(at, After, r.to.value) && r.to.value in claims.usedAfter)
    && NamedOk(at, r)
  }

  ghost predicate AllOk(at: Place, p: Progress) {
    forall r :: r in p.relations ==> StepOk(at, p.claims, r)
  }

  lemma StepStaysOk(at: Place, earlier: Claims, later: Claims, o: Relation, r: Relation)
    requires StepOk(at, earlier, o) && Alike(o, r) && (o.evidence == [] <==> r.evidence == [])
    requires earlier.usedBefore <= later.usedBefore && earlier.usedAfter <= later.usedAfter
    ensures StepOk(at, later, r)
  {
  }

  lemma EventStepIsOk(at: Place, claims: Claims, e: Event)
    requires PlaceOk(at) && Applies(at, claims, e) && e in at.stage.events
    ensures StepOk(at, EventClaims(at, claims, e), EventRelation(at, e))
  {
    var from, to := EventFrom(at, e), EventTo(at, e);
    MeantIsNode(at, Before, e.ptrToken);
    MeantIsNode(at, After, e.ptrToken);
    if e.newToken.Some? {
      MeantIsNode(at, After, e.newToken.value);
    }
    if from.Some? && to.Some? {
      assert Joins(at, e, from.value, to.value);
    }
  }

  predicate AllProven(relations: seq<Relation>) {
    forall r :: r in relations ==> r.evidence != []
  }

  lemma EventKeepsOk(at: Place, p: Progress, e: Event)
    requires PlaceOk(at) && AllOk(at, p) && AllProven(p.relations) && e in at.stage.events
    ensures AllOk(at, ApplyEvent(at, p, e)) && AllProven(ApplyEvent(at, p, e).relations)
  {
    if Applies(at, p.claims, e) {
      EventStepIsOk(at, p.claims, e);
      var q := ApplyEvent(at, p, e);
      forall r | r in q.relations
        ensures StepOk(at, q.claims, r) && r.evidence != []
      {
        var o := PushMember(p.relations, EventRelation(at, e), r);
        StepStaysOk(at, if o in p.relations then p.claims else q.claims, q.claims, o, r);
      }
    }
  }

  predicate AllExact(relations: seq<Relation>) {
    forall r :: r in relations ==> r.confidence == Exact
  }

  lemma PushExact(relations: seq<Relation>, relation: Relation)
    requires AllExact(relations) && relation.confidence == Exact
    ensures AllExact(Push(relations, relation))
  {
    forall r | r in Push(relations, relation)
      ensures r.confidence == Exact
    {
      var o := PushMember(relations, relation, r);
    }
  }

  lemma {:induction false} EventsKeepOk(at: Place, events: seq<Event>)
    requires PlaceOk(at) && forall e :: e in events ==> e in at.stage.events
    ensures AllOk(at, ApplyEvents(at, Progress([], UNCLAIMED), events))
    ensures AllExact(ApplyEvents(at, Progress([], UNCLAIMED), events).relations)
    ensures AllProven(ApplyEvents(at, Progress([], UNCLAIMED), events).relations)
  {
    if events != [] {
      var front, last := events[..|events| - 1], events[|events| - 1];
      EventsKeepOk(at, front);
      var p := ApplyEvents(at, Progress([], UNCLAIMED), front);
      EventKeepsOk(at, p, last);
      PushExact(p.relations, EventRelation(at, last));
    }
  }

  // ------------------------------------------------------------ token continuity

  function TokenClaims(at: Place, claims: Claims, tokens: seq<int>): Claims {
    if tokens == [] then claims
    else
      var c := TokenClaims(at, claims, tokens[..|tokens| - 1]);
      if Continues(at, c, tokens[|tokens| - 1])
      then ClaimBoth(c, Carried(at, tokens[|tokens| - 1]).value.0, Carried(at, tokens[|tokens| - 1]).value.1)
      else c
  }

  /** The steps token continuity adds. */
  function TokenBlock(at: Place, claims: Claims, tokens: seq<int>): seq<Relation> {
    if tokens == [] then []
    else
      TokenBlock(at, claims, tokens[..|tokens| - 1])
      + if Continues(at, TokenClaims(at, claims, tokens[..|tokens| - 1]), tokens[|tokens| - 1])
        then [TokenRelation(at, tokens[|tokens| - 1])] else []
  }

  lemma CarriedIsNodes(at: Place, token: int)
    requires PlaceOk(at) && Carried(at, token).Some?
    ensures var (from, to) := Carried(at, token).value;
      IsNode(at, Before, from) && IsNode(at, After, to) && SameName(at.nodes, from, to)
  {
    MeantIsNode(at, Before, token);
    MeantIsNode(at, After, token);
  }

  lemma TokenStepAppends(at: Place, p: Progress, token: int)
    requires PlaceOk(at) && AllOk(at, p) && Continues(at, p.claims, token)
    ensures FollowToken(at, p, token).relations == p.relations + [TokenRelation(at, token)]
    ensures AllOk(at, FollowToken(at, p, token))
  {
    CarriedIsNodes(at, token);
    PushFresh(p.relations, TokenRelation(at, token));
    var q := FollowToken(at, p, token);
    forall r | r in q.relations
      ensures StepOk(at, q.claims, r)
    {
      if r in p.relations {
        StepStaysOk(at, p.claims, q.claims, r, r);
      }
    }
  }

  /** Token continuity only ever appends: what it links, nothing spoke for. */
  lemma {:induction false} TokensAppend(at: Place, p: Progress, tokens: seq<int>)
    requires PlaceOk(at) && AllOk(at, p)
    ensures FollowTokens(at, p, tokens)
      == Progress(p.relations + TokenBlock(at, p.claims, tokens), TokenClaims(at, p.claims, tokens))
    ensures AllOk(at, FollowTokens(at, p, tokens))
  {
    if tokens != [] {
      var front, last := tokens[..|tokens| - 1], tokens[|tokens| - 1];
      TokensAppend(at, p, front);
      var q := FollowTokens(at, p, front);
      if Continues(at, q.claims, last) {
        TokenStepAppends(at, q, last);
      }
    }
  }

  // -------------------------------------------------------- fingerprint fallback

  function PairBlock(at: Place, pairs: seq<Matcher.Pair>): seq<Relation> {
    if pairs == [] then [] else PairBlock(at, pairs[..|pairs| - 1]) + PairStep(at, pairs[|pairs| - 1])
  }

  function PairStep(at: Place, pair: Matcher.Pair): seq<Relation> {
    match PairNodes(at, pair)
    case None => []
    case Some((from, to)) => [FallbackRelation(at, from, to)]
  }

  /** The pair leads between two operations nothing has claimed, of one name. */
  predicate FreshPair(at: Place, claims: Claims, pair: Matcher.Pair) {
    match PairNodes(at, pair)
    case None => true
    case Some((from, to)) =>
      && IsNode(at, Before, from) && IsNode(at, After, to) && SameName(at.nodes, from, to)
      && from !in claims.usedBefore && to !in claims.usedAfter
  }

  predicate Apart(at: Place, a: Matcher.Pair, b: Matcher.Pair) {
    match (PairNodes(at, a), PairNodes(at, b))
    case (Some((x, y)), Some((v, w))) => x != v && y != w
    case _ => true
  }

  predicate FreshPairs(at: Place, claims: Claims, pairs: seq<Matcher.Pair>) {
    && (forall p :: p in pairs ==> FreshPair(at, claims, p))
    && (forall k, l :: 0 <= k < l < |pairs| ==> Apart(at, pairs[k], pairs[l]))
  }

  lemma FreshSubset(at: Place, claims: Claims, front: seq<Matcher.Pair>, last: Matcher.Pair)
    requires FreshPairs(at, claims, front + [last])
    ensures FreshPairs(at, claims, front) && FreshPair(at, claims, last)
    ensures forall p :: p in front ==> Apart(at, p, last)
  {
    var pairs := front + [last];
    forall k, l | 0 <= k < l < |front|
      ensures Apart(at, front[k], front[l])
    {
      assert Apart(at, pairs[k], pairs[l]);
    }
    forall p | p in front
      ensures Apart(at, p, last)
    {
      var k :| 0 <= k < |front| && front[k] == p;
      assert Apart(at, pairs[k], pairs[|front|]);
    }
  }

  /** Who is claimed after the pairs: those of before, and the pairs' ends. */
  lemma {:induction false} PairClaims(at: Place, p: Progress, pairs: seq<Matcher.Pair>, pair: Matcher.Pair)
    requires FreshPair(at, p.claims, pair) && forall q :: q in pairs ==> Apart(at, q, pair)
    ensures FreshPair(at, FollowPairs(at, p, pairs).claims, pair)
  {
    if pairs != [] {
      PairClaims(at, p, pairs[..|pairs| - 1], pair);
      assert Apart(at, pairs[|pairs| - 1], pair);
    }
  }

  lemma PairStepAppends(at: Place, p: Progress, pair: Matcher.Pair)
    requires AllOk(at, p) && FreshPair(at, p.claims, pair)
    ensures FollowPair(at, p, pair).relations == p.relations + PairStep(at, pair)
    ensures AllOk(at, FollowPair(at, p, pair))
  {
    var ends := PairNodes(at, pair);
    if ends.Some? {
      var step := FallbackRelation(at, ends.value.0, ends.value.1);
      PushFresh(p.relations, step);
      var q := FollowPair(at, p, pair);
      forall r | r in q.relations
        ensures StepOk(at, q.claims, r)
      {
        if r in p.relations {
          StepStaysOk(at, p.claims, q.claims, r, r);
        }
      }
    }
  }

  lemma {:induction false} PairsAppend(at: Place, p: Progress, pairs: seq<Matcher.Pair>)
    requires AllOk(at, p) && FreshPairs(at, p.claims, pairs)
    ensures FollowPairs(at, p, pairs).relations == p.relations + PairBlock(at, pairs)
    ensures AllOk(at, FollowPairs(at, p, pairs))
  {
    if pairs != [] {
      var front, last := pairs[..|pairs| - 1], pairs[|pairs| - 1];
      assert pairs == front + [last];
      FreshSubset(at, p.claims, front, last);
      PairsAppend(at, p, front);
      PairClaims(at, p, front, last);
      PairStepAppends(at, FollowPairs(at, p, front), last);
    }
  }

  /** The fallback sees only unclaimed operations, and pairs each at most once. */
  lemma FallbackIsFresh(at: Place, claims: Claims)
    requires PlaceOk(at) && BothSides(at)
    ensures FreshPairs(at, claims, FallbackPairs(at, claims))
  {
    var before, after := at.stage.before.value.code, at.stage.after.value.code;
    var bs, as_ := FreeBefore(at, claims), FreeAfter(at, claims);
    var pairs := FallbackPairs(at, claims);
    forall p | p in pairs
      ensures FreshPair(at, claims, p)
    {
      if p.0.Some? && p.1.Some? {
        Matcher.MatchKeepsNames(before, bs, after, as_, p);
        FreshEnds(at, claims, p);
      }
    }
    Matcher.MatchConserves(before, bs, after, as_);
    forall k, l | 0 <= k < l < |pairs|
      ensures Apart(at, pairs[k], pairs[l])
    {
      PairsApart(at, pairs, bs, as_, k, l);
    }
  }

  lemma FreshEnds(at: Place, claims: Claims, p: Matcher.Pair)
    requires PlaceOk(at) && BothSides(at) && p.0.Some? && p.1.Some?
    requires p.0.value in FreeBefore(at, claims) && p.1.value in FreeAfter(at, claims)
    requires at.stage.before.value.code.ops[p.0.value].name == at.stage.after.value.code.ops[p.1.value].name
    ensures FreshPair(at, claims, p)
  {
    assert SideOf(at.stage, Before) == at.stage.before && SideOf(at.stage, After) == at.stage.after;
    var a := OccurrenceKey(at.s, Before, p.0.value);
    var b := OccurrenceKey(at.s, After, p.1.value);
    assert NodeFits(at, at.nodes[at.ids[a]]) && NodeFits(at, at.nodes[at.ids[b]]);
  }

  lemma PairsApart(at: Place, pairs: seq<Matcher.Pair>, bs: seq<OpIdx>, as_: seq<OpIdx>, k: nat, l: nat)
    requires Indexed(at.nodes, at.ids) && k < l < |pairs|
    requires Matcher.ListsOnce(Matcher.Befores(pairs), bs) && Matcher.ListsOnce(Matcher.Afters(pairs), as_)
    ensures Apart(at, pairs[k], pairs[l])
  {
    assert Matcher.Befores(pairs)[k].Some? ==> Matcher.Befores(pairs)[k] != Matcher.Befores(pairs)[l];
    assert Matcher.Afters(pairs)[k].Some? ==> Matcher.Afters(pairs)[k] != Matcher.Afters(pairs)[l];
  }

  // --------------------------------------------------------------- one stage

  ghost function AfterEvents(at: Place): Progress {
    ApplyEvents(at, Progress([], UNCLAIMED), SortBy(at.stage.events, EventKey))
  }

  lemma AfterEventsOk(at: Place)
    requires PlaceOk(at)
    ensures AllOk(at, AfterEvents(at)) && AllExact(AfterEvents(at).relations)
  {
    SortByIsStable(at.stage.events, EventKey);
    EventsKeepOk(at, SortBy(at.stage.events, EventKey));
  }

  ghost function StageSteps(at: Place, order: seq<int>): seq<Relation>
    requires at.stage.before.Some? && at.stage.after.Some? ==> BothSides(at)
  {
    StageProgress(at, [], order).relations
  }

  ghost function FallbackClaims(at: Place, order: seq<int>): Claims {
    TokenClaims(at, AfterEvents(at).claims, order)
  }

  /** A stage with both snapshots: event steps, then token steps, then inferred steps. */
  lemma StageHasThreeParts(at: Place, order: seq<int>)
    requires PlaceOk(at) && BothSides(at)
    ensures StageSteps(at, order)
      == AfterEvents(at).relations + TokenBlock(at, AfterEvents(at).claims, order)
        + PairBlock(at, FallbackPairs(at, FallbackClaims(at, order)))
    ensures AllOk(at, StageProgress(at, [], order))
    ensures AllOk(at, Progress(AfterEvents(at).relations + TokenBlock(at, AfterEvents(at).claims, order),
      FallbackClaims(at, order)))
  {
    AfterEventsOk(at);
    TokensAppend(at, AfterEvents(at), order);
    var q := FollowTokens(at, AfterEvents(at), order);
    FallbackIsFresh(at, q.claims);
    PairsAppend(at, q, FallbackPairs(at, q.claims));
  }

  lemma StageStepsOk(at: Place, order: seq<int>)
    requires PlaceOk(at) && (at.stage.before.Some? && at.stage.after.Some? ==> BothSides(at))
    ensures AllOk(at, StageProgress(at, [], order))
  {
    if at.stage.before.Some? && at.stage.after.Some? {
      StageHasThreeParts(at, order);
    } else {
      AfterEventsOk(at);
    }
  }
}
