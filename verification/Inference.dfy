// Consequences for one stage: inferred steps stand alone, and the replacement
// event of lowest order decides what an operation became.
module Inference {
  import opened Model
  import opened Timeline
  import opened Nodes
  import opened Relations
  import opened Sorting
  import opened StageLaws
  import Matcher

  // ------------------------------------------------------- inferred steps alone

  /** The two steps leave different operations and reach different operations. */
  predicate Separate(a: Relation, b: Relation) {
    (a.from.Some? ==> a.from != b.from) && (a.to.Some? ==> a.to != b.to)
  }

  /** An inferred step shares neither end with any other step. */
  predicate InferredAlone(relations: seq<Relation>) {
    forall k, l :: 0 <= k < |relations| && 0 <= l < |relations| && k != l && relations[k].confidence.Inferred? ==>
      Separate(relations[k], relations[l]) && Separate(relations[l], relations[k])
  }

  predicate Inferring(at: Place, claims: Claims, r: Relation) {
    && r.confidence.Inferred? && r.from.Some? && r.to.Some? && SameName(at.nodes, r.from.value, r.to.value)
    && r.from.value !in claims.usedBefore && r.to.value !in claims.usedAfter
    && (r.change.Modified? || r.change.Unchanged?)
  }

  lemma {:induction false} PairBlockIsFrom(at: Place, pairs: seq<Matcher.Pair>, r: Relation) returns (p: Matcher.Pair)
    requires r in PairBlock(at, pairs)
    ensures p in pairs && PairNodes(at, p).Some? && r == FallbackRelation(at, PairNodes(at, p).value.0,
      PairNodes(at, p).value.1)
  {
    if r in PairStep(at, pairs[|pairs| - 1]) {
      p := pairs[|pairs| - 1];
    } else {
      p := PairBlockIsFrom(at, pairs[..|pairs| - 1], r);
    }
  }

  lemma PairBlockInfers(at: Place, claims: Claims, pairs: seq<Matcher.Pair>)
    requires FreshPairs(at, claims, pairs)
    ensures forall r :: r in PairBlock(at, pairs) ==> Inferring(at, claims, r)
  {
    forall r | r in PairBlock(at, pairs)
      ensures Inferring(at, claims, r)
    {
      var p := PairBlockIsFrom(at, pairs, r);
      assert FreshPair(at, claims, p);
    }
  }

  predicate PairwiseSeparate(relations: seq<Relation>) {
    forall k, l :: 0 <= k < l < |relations| ==> Separate(relations[k], relations[l])
  }

  lemma {:induction false} PairBlockSeparate(at: Place, claims: Claims, pairs: seq<Matcher.Pair>)
    requires FreshPairs(at, claims, pairs)
    ensures PairwiseSeparate(PairBlock(at, pairs))
  {
    if pairs != [] {
      var front, last := pairs[..|pairs| - 1], pairs[|pairs| - 1];
      assert pairs == front + [last];
      FreshSubset(at, claims, front, last);
      PairBlockSeparate(at, claims, front);
      forall r, q | r in PairBlock(at, front) && q in PairStep(at, last)
        ensures Separate(r, q)
      {
        var p := PairBlockIsFrom(at, front, r);
        assert Apart(at, p, last);
      }
    }
  }

  /** Claimed exact steps followed by unclaimed, pairwise separate inferred ones. */
  lemma AloneAfterClaims(at: Place, exact: Progress, inferred: seq<Relation>)
    requires AllOk(at, exact) && AllExact(exact.relations) && PairwiseSeparate(inferred)
    requires forall r :: r in inferred ==> Inferring(at, exact.claims, r)
    ensures InferredAlone(exact.relations + inferred)
  {
    var all, n := exact.relations + inferred, |exact.relations|;
    assert forall i :: 0 <= i < n ==> all[i] in exact.relations;
    forall k, l | 0 <= k < |all| && 0 <= l < |all| && k != l && all[k].confidence.Inferred?
      ensures Separate(all[k], all[l]) && Separate(all[l], all[k])
    {
      assert k >= n && all[k] in inferred;
      if l < n {
        assert StepOk(at, exact.claims, all[l]);
      } else if k < l {
        assert Separate(inferred[k - n], inferred[l - n]);
      } else {
        assert Separate(inferred[l - n], inferred[k - n]);
      }
    }
  }

  lemma {:induction false} TokenBlockExact(at: Place, claims: Claims, tokens: seq<int>)
    ensures AllExact(TokenBlock(at, claims, tokens))
    ensures forall r :: r in TokenBlock(at, claims, tokens) ==> !r.change.Replaced?
  {
    if tokens != [] {
      TokenBlockExact(at, claims, tokens[..|tokens| - 1]);
    }
  }

  /** In a stage, an inferred step touches no operation an event, a persisting token or another inference speaks for. */
  lemma StageInfersAlone(at: Place, order: seq<int>)
    requires PlaceOk(at) && (at.stage.before.Some? && at.stage.after.Some? ==> BothSides(at))
    ensures InferredAlone(StageSteps(at, order))
  {
    AfterEventsOk(at);
    if at.stage.before.Some? && at.stage.after.Some? {
      StageHasThreeParts(at, order);
      var claims := FallbackClaims(at, order);
      var exact := Progress(AfterEvents(at).relations + TokenBlock(at, AfterEvents(at).claims, order), claims);
      var pairs := FallbackPairs(at, claims);
      TokenBlockExact(at, AfterEvents(at).claims, order);
      FallbackIsFresh(at, claims);
      PairBlockInfers(at, claims, pairs);
      PairBlockSeparate(at, claims, pairs);
      AloneAfterClaims(at, exact, PairBlock(at, pairs));
    }
  }

  // ----------------------------------------------- the first replacement decides

  /** Events that replace the operation of this node. */
  function Replaces(at: Place, from: nat): Event -> bool {
    (e: Event) => e.kind.Replaced? && EventFrom(at, e) == Some(from)
  }

  /** What is known about replacements of `from` once `events` were handled. */
  ghost predicate Decided(at: Place, p: Progress, from: nat, first: Option<Event>) {
    && (from in p.claims.successors <==> first.Some?)
    && (first.Some? ==> SomeSays(p.relations, Some(from), EventTo(at, first.value), EventChange(at, first.value)))
    && (forall r :: r in p.relations && r.change.Replaced? && r.from == Some(from) ==>
         first.Some? && r.to == EventTo(at, first.value))
  }

  lemma DecisionStep(at: Place, p: Progress, from: nat, first: Option<Event>, e: Event)
    requires Decided(at, p, from, first)
    ensures Decided(at, ApplyEvent(at, p, e), from, if first.Some? then first else if Replaces(at, from)(e)
      then Some(e) else None)
  {
    var q := ApplyEvent(at, p, e);
    var decider := if first.Some? then first else if Replaces(at, from)(e) then Some(e) else None;
    if Applies(at, p.claims, e) {
      var step := EventRelation(at, e);
      if decider.Some? {
        PushSays(p.relations, step, Some(from), EventTo(at, decider.value), EventChange(at, decider.value));
      }
      forall r | r in q.relations && r.change.Replaced? && r.from == Some(from)
        ensures decider.Some? && r.to == EventTo(at, decider.value)
      {
        var o := PushMember(p.relations, step, r);
      }
    }
  }

  lemma {:induction false} EventsDecide(at: Place, events: seq<Event>, from: nat)
    ensures Decided(at, ApplyEvents(at, Progress([], UNCLAIMED), events), from, First(events, Replaces(at, from)))
  {
    if events != [] {
      var front, last := events[..|events| - 1], events[|events| - 1];
      EventsDecide(at, front, from);
      DecisionStep(at, ApplyEvents(at, Progress([], UNCLAIMED), front), from, First(front, Replaces(at, from)), last);
      FirstConcat(front, [last], Replaces(at, from));
      assert events == front + [last];
      assert First([last], Replaces(at, from)) == if Replaces(at, from)(last) then Some(last) else None;
    }
  }

  /** The replacement of least order, the earliest recorded on ties. */
  function Decider(at: Place, from: nat): Option<Event> {
    Least(at.stage.events, Replaces(at, from), EventKey)
  }

  /** The lowest-ordered mappable replacement decides: its step is there, and every replacing step agrees with it. */
  lemma FirstReplacementDecides(at: Place, order: seq<int>, from: nat)
    requires PlaceOk(at) && (at.stage.before.Some? && at.stage.after.Some? ==> BothSides(at))
    ensures var steps, decider := StageSteps(at, order), Decider(at, from);
      && (decider.Some? ==> SomeSays(steps, Some(from), EventTo(at, decider.value), EventChange(at, decider.value)))
      && (forall r :: r in steps && r.change.Replaced? && r.from == Some(from) ==>
           decider.Some? && r.to == EventTo(at, decider.value))
  {
    EventsDecide(at, SortBy(at.stage.events, EventKey), from);
    FirstIsLeast(at.stage.events, Replaces(at, from), EventKey);
    if at.stage.before.Some? && at.stage.after.Some? {
      StageHasThreeParts(at, order);
      var claims := FallbackClaims(at, order);
      TokenBlockExact(at, AfterEvents(at).claims, order);
      FallbackIsFresh(at, claims);
      PairBlockInfers(at, claims, FallbackPairs(at, claims));
      DecisionKept(at, AfterEvents(at).relations, TokenBlock(at, AfterEvents(at).claims, order)
        + PairBlock(at, FallbackPairs(at, claims)), from, Decider(at, from));
    }
  }

  lemma DecisionKept(at: Place, events: seq<Relation>, rest: seq<Relation>, from: nat, decider: Option<Event>)
    requires decider.Some? ==> SomeSays(events, Some(from), EventTo(at, decider.value), EventChange(at, decider.value))
    requires forall r :: r in rest ==> !r.change.Replaced?
    ensures decider.Some? ==> SomeSays(events + rest, Some(from), EventTo(at, decider.value),
      EventChange(at, decider.value))
    ensures forall r :: r in events + rest && r.change.Replaced? ==> r in events
  {
    if decider.Some? {
      var r :| r in events && Says(r, Some(from), EventTo(at, decider.value), EventChange(at, decider.value));
      assert r in events + rest;
    }
  }

  // -------------------------------------------------------- nothing is left over

  lemma {:induction false} PairsClaim(at: Place, p: Progress, pairs: seq<Matcher.Pair>, pair: Matcher.Pair)
    requires pair in pairs && PairNodes(at, pair).Some?
    ensures var (from, to) := PairNodes(at, pair).value;
      from in FollowPairs(at, p, pairs).claims.usedBefore && to in FollowPairs(at, p, pairs).claims.usedAfter
  {
    var front, last := pairs[..|pairs| - 1], pairs[|pairs| - 1];
    assert pairs == front + [last];
    if pair in front {
      PairsClaim(at, p, front, pair);
    }
  }

  lemma {:induction false} PairsOnlyAdd(at: Place, p: Progress, pairs: seq<Matcher.Pair>)
    ensures p.claims.usedBefore <= FollowPairs(at, p, pairs).claims.usedBefore
    ensures p.claims.usedAfter <= FollowPairs(at, p, pairs).claims.usedAfter
  {
    if pairs != [] {
      PairsOnlyAdd(at, p, pairs[..|pairs| - 1]);
    }
  }

  lemma UnclaimedIsFree(at: Place, claims: Claims, side: SnapshotSide, x: nat)
    requires PlaceOk(at) && BothSides(at) && IsNode(at, side, x)
    requires x !in if side == Before then claims.usedBefore else claims.usedAfter
    ensures var op := at.nodes[x].key.opIdx; op in if side == Before then FreeBefore(at, claims) else FreeAfter(at,
      claims)
    ensures var snapshot := if side == Before then at.stage.before.value else at.stage.after.value;
      at.nodes[x].key.opIdx < |snapshot.code.ops| && at.nodes[x].op == snapshot.code.ops[at.nodes[x].key.opIdx]
  {
    assert SideOf(at.stage, Before) == at.stage.before && SideOf(at.stage, After) == at.stage.after;
    assert NodeFits(at, at.nodes[x]);
    assert at.nodes[x].key == OccurrenceKey(at.s, side, at.nodes[x].key.opIdx);
  }

  /** When a stage with both snapshots is done, no two operations left unclaimed, one on each side, share a name. */
  lemma NoNamesakesLeft(at: Place, order: seq<int>, x: nat, y: nat)
    requires PlaceOk(at) && BothSides(at) && IsNode(at, Before, x) && IsNode(at, After, y) && SameName(at.nodes, x, y)
    ensures x in StageProgress(at, [], order).claims.usedBefore || y in StageProgress(at, [], order).claims.usedAfter
  {
    var q := FollowTokens(at, AfterEvents(at), order);
    var pairs := FallbackPairs(at, q.claims);
    PairsOnlyAdd(at, q, pairs);
    if x !in q.claims.usedBefore && y !in q.claims.usedAfter {
      UnclaimedIsFree(at, q.claims, Before, x);
      UnclaimedIsFree(at, q.claims, After, y);
      var pair := Matcher.MatchLeavesNoNamesakes(at.stage.before.value.code, FreeBefore(at, q.claims),
        at.stage.after.value.code, FreeAfter(at, q.claims),
        at.nodes[x].key.opIdx, at.nodes[y].key.opIdx);
      PairOfFree(at, q.claims, pair);
      PairsClaim(at, q, pairs, pair);
    }
  }

  lemma PairOfFree(at: Place, claims: Claims, pair: Matcher.Pair)
    requires PlaceOk(at) && BothSides(at) && pair in FallbackPairs(at, claims) && pair.0.Some? && pair.1.Some?
    ensures PairNodes(at, pair).Some?
    ensures var (from, to) := PairNodes(at, pair).value;
      at.nodes[from].key == OccurrenceKey(at.s, Before, pair.0.value)
        && at.nodes[to].key == OccurrenceKey(at.s, After, pair.1.value)
      && at.ids[at.nodes[from].key] == from && at.ids[at.nodes[to].key] == to
  {
    assert SideOf(at.stage, Before) == at.stage.before && SideOf(at.stage, After) == at.stage.after;
    Matcher.MatchKeepsNames(at.stage.before.value.code, FreeBefore(at, claims), at.stage.after.value.code,
      FreeAfter(at, claims), pair);
  }

  // ------------------------------------------------ events and their evidence

  predicate Mappable(at: Place, e: Event) {
    match e.kind
    case Replaced => EventFrom(at, e).Some?
    case Modified => EventFrom(at, e).Some? && EventTo(at, e).Some?
    case Erased => EventFrom(at, e).Some?
    case Inserted => EventTo(at, e).Some?
  }

  lemma {:induction false} EventKept(at: Place, events: seq<Event>, e: Event)
    requires e in events && Mappable(at, e) && !e.kind.Replaced?
    ensures SomeSays(ApplyEvents(at, Progress([], UNCLAIMED), events).relations, EventFrom(at, e), EventTo(at, e),
      EventChange(at, e))
  {
    var front, last := events[..|events| - 1], events[|events| - 1];
    assert events == front + [last];
    var p := ApplyEvents(at, Progress([], UNCLAIMED), front);
    if e in front {
      EventKept(at, front, e);
    }
    if Applies(at, p.claims, last) {
      PushSays(p.relations, EventRelation(at, last), EventFrom(at, e), EventTo(at, e), EventChange(at, e));
    }
  }

  lemma {:induction false} StepHasEvent(at: Place, events: seq<Event>, r: Relation) returns (e: Event)
    requires r in ApplyEvents(at, Progress([], UNCLAIMED), events).relations
    ensures e in events && Mappable(at, e) && Alike(EventRelation(at, e), r)
  {
    var front, last := events[..|events| - 1], events[|events| - 1];
    assert events == front + [last];
    var p := ApplyEvents(at, Progress([], UNCLAIMED), front);
    if Applies(at, p.claims, last) {
      var o := PushMember(p.relations, EventRelation(at, last), r);
      e := last;
      if o in p.relations {
        e := StepHasEvent(at, front, o);
      }
    } else {
      e := StepHasEvent(at, front, r);
    }
  }

  /**
   * Every insertion, erasure and modification whose operations are known leaves its step; every event step comes from
   * such an event.
   */
  lemma EventStepsAreEvents(at: Place, e: Event, r: Relation)
    ensures e in at.stage.events && Mappable(at, e) && !e.kind.Replaced? ==>
      SomeSays(AfterEvents(at).relations, EventFrom(at, e), EventTo(at, e), EventChange(at, e))
    ensures r in AfterEvents(at).relations ==>
      exists x :: x in at.stage.events && Mappable(at, x) && Alike(EventRelation(at, x), r)
  {
    var events := SortBy(at.stage.events, EventKey);
    SortByIsStable(at.stage.events, EventKey);
    if e in at.stage.events && Mappable(at, e) && !e.kind.Replaced? {
      EventKept(at, events, e);
    }
    if r in AfterEvents(at).relations {
      var x := StepHasEvent(at, events, r);
      assert x in at.stage.events;
    }
  }

  /** All evidence of a list of steps. */
  function EvidenceIn(relations: seq<Relation>): multiset<HistoryEvidence> {
    if relations == [] then multiset{} else multiset(relations[0].evidence) + EvidenceIn(relations[1..])
  }

  predicate EvidenceSorted(relations: seq<Relation>) {
    forall r :: r in relations ==> Sorted(r.evidence, EvidenceKey)
  }

  /** A push loses no evidence and keeps every step's evidence in order. */
  lemma {:induction false} PushKeepsEvidence(relations: seq<Relation>, relation: Relation)
    requires EvidenceSorted(relations) && Sorted(relation.evidence, EvidenceKey)
    ensures EvidenceIn(Push(relations, relation)) == EvidenceIn(relations) + multiset(relation.evidence)
    ensures EvidenceSorted(Push(relations, relation))
  {
    if relations != [] {
      var first, rest := relations[0], relations[1..];
      if relation.recordStep && SameStep(first, relation) {
        SortByPermutes(first.evidence + relation.evidence, EvidenceKey);
        SortByIsStable(first.evidence + relation.evidence, EvidenceKey);
        assert ([Merged(first, relation)] + rest)[1..] == rest;
      } else {
        assert first in relations;
        PushKeepsEvidence(rest, relation);
        assert ([first] + Push(rest, relation))[1..] == Push(rest, relation);
      }
    }
  }
}
