// What the steps of one stage say, in terms of its events, its tokens and the
// operations its two snapshots hold.
module StepLaws {
  import opened Model
  import opened Timeline
  import opened Nodes
  import opened Relations
  import opened StageLaws
  import opened Inference
  import opened Sorting
  import Matcher
  import TokenOrder

  // ------------------------------------------------------------ names and changes

  /** The token names the operation of that node in the snapshot of that side. */
  predicate Names(at: Place, side: SnapshotSide, token: int, id: nat) {
    match SideOf(at.stage, side)
    case None => false
    case Some(snapshot) =>
      && token in snapshot.tokens && id < |at.nodes|
      && at.nodes[id].key == OccurrenceKey(at.s, side, snapshot.tokens[token])
  }

  lemma NamesIsMeant(at: Place, side: SnapshotSide, token: int)
    requires PlaceOk(at)
    ensures forall id: nat :: Names(at, side, token, id) <==> Meant(at, side, token) == Some(id)
  {
    MeantIsNode(at, side, token);
    forall id: nat
      ensures Names(at, side, token, id) <==> Meant(at, side, token) == Some(id)
    {
      if Names(at, side, token, id) {
        assert at.nodes[id].key in at.ids && at.ids[at.nodes[id].key] == id;
      }
    }
  }

  /** The parsed operation a node of this stage stands for. */
  function Stands(at: Place, id: nat): Option<ParsedOp> {
    if id >= |at.nodes| then None
    else
      match SideOf(at.stage, at.nodes[id].key.side)
      case None => None
      case Some(snapshot) =>
        if at.nodes[id].key.opIdx < |snapshot.code.ops| then Some(snapshot.code.ops[at.nodes[id].key.opIdx]) else None
  }

  lemma NodeStands(at: Place, side: SnapshotSide, id: nat)
    requires PlaceOk(at) && IsNode(at, side, id)
    ensures Stands(at, id) == Some(at.nodes[id].op)
  {
    assert NodeFits(at, at.nodes[id]);
  }

  /** Unchanged when name, types, operand count and attributes agree; modified when only the name must. */
  predicate ChangeTells(before: ParsedOp, after: ParsedOp, change: HistoryChange) {
    && (change.Unchanged? <==>
         && before.name == after.name && before.resultTypes == after.resultTypes
         && |before.operands| == |after.operands| && before.attrSummary == after.attrSummary)
    && (change.Modified? <==>
         && before.name == after.name
         && !(&& before.resultTypes == after.resultTypes && |before.operands| == |after.operands|
              && before.attrSummary == after.attrSummary))
  }

  lemma ChangedTells(before: ParsedOp, after: ParsedOp)
    ensures ChangeTells(before, after, Changed(before, after))
  {
  }

  // --------------------------------------------------------------------- events

  function Evidence(e: Event): HistoryEvidence { HistoryEvidence(e.order, e.pattern, e.source) }

  /** What the event tells of itself: who became whom, and how. */
  ghost predicate EventSays(at: Place, e: Event, r: Relation) {
    && r.stageIndex == at.s && r.recordStep && r.confidence == Exact
    && match e.kind
       case Inserted => r.change.Inserted? && r.from.None? && r.to.Some? && Names(at, After, e.ptrToken, r.to.value)
       case Erased => r.change.Erased? && r.to.None? && r.from.Some? && Names(at, Before, e.ptrToken, r.from.value)
       case Modified =>
         && r.change.Modified? && r.from.Some? && Names(at, Before, e.ptrToken, r.from.value)
         && r.to.Some? && Names(at, After, e.ptrToken, r.to.value)
       case Replaced =>
         && r.from.Some? && Names(at, Before, e.ptrToken, r.from.value)
         && (if r.to.Some? then r.change.Replaced? && e.newToken.Some? && Names(at, After, e.newToken.value, r.to.value)
             else r.change.Erased? && (e.newToken.Some? ==> forall id: nat :: !Names(at, After, e.newToken.value, id)))
  }

  /** The event speaks of operations the snapshots hold. */
  ghost predicate Known(at: Place, e: Event) {
    match e.kind
    case Inserted => exists y: nat :: Names(at, After, e.ptrToken, y)
    case Erased => exists x: nat :: Names(at, Before, e.ptrToken, x)
    case Modified => (exists x: nat :: Names(at, Before, e.ptrToken, x))
      && exists y: nat :: Names(at, After, e.ptrToken, y)
    case Replaced => exists x: nat :: Names(at, Before, e.ptrToken, x)
  }

  /** No other replacement of the same operation comes as early. */
  ghost predicate ReplacesFirst(at: Place, e: Event) {
    && e.kind.Replaced?
    && forall f, x: nat :: f in at.stage.events && f.kind.Replaced? ==>
         Names(at, Before, f.ptrToken, x) && Names(at, Before, e.ptrToken, x) ==> f == e || e.order < f.order
  }

  ghost predicate LeavesStep(at: Place, steps: seq<Relation>, e: Event) {
    exists r :: r in steps && EventSays(at, e, r) && Evidence(e) in r.evidence
  }

  /** Every piece of evidence of the step is an event's that says just that step. */
  ghost predicate Proven(at: Place, r: Relation) {
    forall v :: v in r.evidence ==> ProvenBy(at, r, v)
  }

  ghost predicate ProvenBy(at: Place, r: Relation, v: HistoryEvidence) {
    exists e :: e in at.stage.events && EventSays(at, e, r) && v == Evidence(e)
  }

  lemma KnownIsMappable(at: Place, e: Event)
    requires PlaceOk(at)
    ensures Known(at, e) <==> Mappable(at, e)
  {
    NamesIsMeant(at, Before, e.ptrToken);
    NamesIsMeant(at, After, e.ptrToken);
  }

  lemma RelationSays(at: Place, e: Event)
    requires PlaceOk(at) && Mappable(at, e)
    ensures EventSays(at, e, EventRelation(at, e))
  {
    NamesIsMeant(at, Before, e.ptrToken);
    NamesIsMeant(at, After, e.ptrToken);
    if e.newToken.Some? {
      NamesIsMeant(at, After, e.newToken.value);
    }
  }

  /** The step is there, with this evidence among its own. */
  ghost predicate Witnessed(relations: seq<Relation>, q: Relation, v: HistoryEvidence) {
    exists r :: r in relations && Alike(q, r) && v in r.evidence
  }

  lemma MergedHas(existing: Relation, relation: Relation, v: HistoryEvidence)
    requires v in existing.evidence || v in relation.evidence
    ensures v in Merged(existing, relation).evidence
  {
    SortByIsStable(existing.evidence + relation.evidence, EvidenceKey);
    assert v in existing.evidence + relation.evidence;
  }

  lemma {:induction false} PushWitnesses(relations: seq<Relation>, relation: Relation, q: Relation, v: HistoryEvidence)
    requires AllExact(relations) && relation.confidence == Exact && relation.recordStep
    requires Witnessed(relations, q, v) || (q == relation && v in relation.evidence)
    ensures Witnessed(Push(relations, relation), q, v)
  {
    var pushed := Push(relations, relation);
    if relations == [] {
      assert relation in pushed;
    } else if SameStep(relations[0], relation) {
      var merged := Merged(relations[0], relation);
      assert merged in pushed;
      FirstWitness(relations, q, v);
      if Alike(q, relations[0]) && v in relations[0].evidence {
        MergedHas(relations[0], relation, v);
      } else if Witnessed(relations, q, v) {
        var r :| r in relations[1..] && Alike(q, r) && v in r.evidence;
        assert r in pushed;
      } else {
        assert relations[0].confidence == Exact;
        MergedHas(relations[0], relation, v);
      }
    } else {
      FirstWitness(relations, q, v);
      if Alike(q, relations[0]) && v in relations[0].evidence {
        assert relations[0] in pushed;
      } else {
        PushWitnesses(relations[1..], relation, q, v);
        var r :| r in Push(relations[1..], relation) && Alike(q, r) && v in r.evidence;
        assert r in pushed;
      }
    }
  }

  lemma FirstWitness(relations: seq<Relation>, q: Relation, v: HistoryEvidence)
    requires relations != []
    ensures Witnessed(relations, q, v) ==>
      (Alike(q, relations[0]) && v in relations[0].evidence) || Witnessed(relations[1..], q, v)
  {
    if Witnessed(relations, q, v) {
      var r :| r in relations && Alike(q, r) && v in r.evidence;
      if r != relations[0] {
        assert r in relations[1..];
      }
    }
  }

  /** An event that is not a later replacement leaves its step when it is handled, and the step stays. */
  lemma {:induction false} EventWitnessed(at: Place, events: seq<Event>, e: Event)
    requires PlaceOk(at) && (forall f :: f in events ==> f in at.stage.events) && e in events && Mappable(at, e)
    requires e.kind.Replaced? ==> First(events, Replaces(at, EventFrom(at, e).value)) == Some(e)
    ensures Witnessed(ApplyEvents(at, Progress([], UNCLAIMED), events).relations, EventRelation(at, e), Evidence(e))
  {
    var front, last := events[..|events| - 1], events[|events| - 1];
    assert events == front + [last];
    var p := ApplyEvents(at, Progress([], UNCLAIMED), front);
    EventsKeepOk(at, front);
    if e.kind.Replaced? {
      EventsDecide(at, front, EventFrom(at, e).value);
      FirstConcat(front, [last], Replaces(at, EventFrom(at, e).value));
    }
    if e in front && (e.kind.Replaced? ==> First(front, Replaces(at, EventFrom(at, e).value)).Some?) {
      EventWitnessed(at, front, e);
    }
    if Applies(at, p.claims, last) {
      PushWitnesses(p.relations, EventRelation(at, last), EventRelation(at, e), Evidence(e));
    }
  }

  lemma SaysAlike(at: Place, e: Event, q: Relation, r: Relation)
    requires EventSays(at, e, q) && Alike(q, r)
    ensures EventSays(at, e, r)
  {
  }

  lemma ProvenAlike(at: Place, q: Relation, r: Relation, v: HistoryEvidence)
    requires ProvenBy(at, q, v) && Alike(q, r)
    ensures ProvenBy(at, r, v)
  {
    var e :| e in at.stage.events && EventSays(at, e, q) && v == Evidence(e);
    SaysAlike(at, e, q, r);
  }

  ghost predicate AllProvenBy(at: Place, relations: seq<Relation>) {
    forall r :: r in relations ==> Proven(at, r)
  }

  lemma MergedProven(at: Place, existing: Relation, relation: Relation)
    requires Proven(at, existing) && Proven(at, relation) && SameStep(existing, relation) && relation.recordStep
    requires existing.confidence == Exact == relation.confidence
    ensures Proven(at, Merged(existing, relation))
  {
    var r := Merged(existing, relation);
    SortByIsStable(existing.evidence + relation.evidence, EvidenceKey);
    forall v | v in r.evidence
      ensures ProvenBy(at, r, v)
    {
      if v in existing.evidence {
        ProvenAlike(at, existing, r, v);
      } else {
        assert v in relation.evidence;
        ProvenAlike(at, relation, r, v);
      }
    }
  }

  lemma {:induction false} PushProven(at: Place, relations: seq<Relation>, relation: Relation)
    requires AllProvenBy(at, relations) && Proven(at, relation) && AllExact(relations)
    requires relation.confidence == Exact && relation.recordStep
    ensures AllProvenBy(at, Push(relations, relation))
  {
    if relations != [] {
      assert relations[0] in relations;
      if SameStep(relations[0], relation) {
        MergedProven(at, relations[0], relation);
      } else {
        PushProven(at, relations[1..], relation);
      }
    }
  }

  lemma OwnEvidenceProven(at: Place, e: Event)
    requires PlaceOk(at) && e in at.stage.events && Mappable(at, e)
    ensures Proven(at, EventRelation(at, e))
  {
    RelationSays(at, e);
    assert ProvenBy(at, EventRelation(at, e), Evidence(e));
  }

  lemma {:induction false} EventsProven(at: Place, events: seq<Event>)
    requires PlaceOk(at) && forall f :: f in events ==> f in at.stage.events
    ensures AllProvenBy(at, ApplyEvents(at, Progress([], UNCLAIMED), events).relations)
  {
    if events != [] {
      var front, last := events[..|events| - 1], events[|events| - 1];
      EventsProven(at, front);
      EventsKeepOk(at, front);
      var p := ApplyEvents(at, Progress([], UNCLAIMED), front);
      if Applies(at, p.claims, last) {
        OwnEvidenceProven(at, last);
        PushProven(at, p.relations, EventRelation(at, last));
      }
    }
  }

  // --------------------------------------------------- claims are what steps say

  ghost predicate Leaving(relations: seq<Relation>, x: nat) {
    exists r :: r in relations && r.from == Some(x)
  }

  ghost predicate Reaching(relations: seq<Relation>, y: nat) {
    exists r :: r in relations && r.to == Some(y)
  }

  ghost predicate InsertsAt(relations: seq<Relation>, y: nat) {
    exists r :: r in relations && r.change.Inserted? && r.to == Some(y)
  }

  /** Operations are claimed by the steps there are. */
  ghost predicate Backed(p: Progress) {
    && (forall x :: x in p.claims.usedBefore ==> Leaving(p.relations, x))
    && (forall y :: y in p.claims.usedAfter ==> Reaching(p.relations, y))
    && (forall y :: y in p.claims.inserted ==> InsertsAt(p.relations, y))
    && (forall r :: r in p.relations && r.change.Inserted? && r.to.Some? ==> r.to.value in p.claims.inserted)
  }

  lemma {:induction false} PushHas(relations: seq<Relation>, relation: Relation, r: Relation) returns (o: Relation)
    requires r in relations || r == relation
    ensures o in Push(relations, relation)
    ensures o.from == r.from && o.to == r.to && o.change == r.change
  {
    if relations == [] {
      o := relation;
    } else if relation.recordStep && SameStep(relations[0], relation) {
      o := if r == relations[0] || r == relation then Merged(relations[0], relation) else r;
    } else if r == relations[0] {
      o := r;
    } else {
      o := PushHas(relations[1..], relation, r);
    }
  }

  lemma LeavingStays(relations: seq<Relation>, relation: Relation, x: nat)
    requires Leaving(relations, x) || relation.from == Some(x)
    ensures Leaving(Push(relations, relation), x)
  {
    var r := relation;
    if Leaving(relations, x) {
      r :| r in relations && r.from == Some(x);
    }
    var o := PushHas(relations, relation, r);
  }

  lemma ReachingStays(relations: seq<Relation>, relation: Relation, y: nat)
    requires Reaching(relations, y) || relation.to == Some(y)
    ensures Reaching(Push(relations, relation), y)
  {
    var r := relation;
    if Reaching(relations, y) {
      r :| r in relations && r.to == Some(y);
    }
    var o := PushHas(relations, relation, r);
  }

  lemma InsertsStays(relations: seq<Relation>, relation: Relation, y: nat)
    requires InsertsAt(relations, y) || (relation.change.Inserted? && relation.to == Some(y))
    ensures InsertsAt(Push(relations, relation), y)
  {
    var r := relation;
    if InsertsAt(relations, y) {
      r :| r in relations && r.change.Inserted? && r.to == Some(y);
    }
    var o := PushHas(relations, relation, r);
  }

  /** A step and the claims it makes keep claims and steps together. */
  lemma PushBacked(p: Progress, relation: Relation, claims: Claims)
    requires Backed(p)
    requires claims.usedBefore == p.claims.usedBefore + Taken(relation.from)
    requires claims.usedAfter == p.claims.usedAfter + Taken(relation.to)
    requires claims.inserted == if relation.change.Inserted? then p.claims.inserted + Taken(relation.to)
      else p.claims.inserted
    ensures Backed(Progress(Push(p.relations, relation), claims))
  {
    var pushed := Push(p.relations, relation);
    forall x | x in claims.usedBefore
      ensures Leaving(pushed, x)
    {
      LeavingStays(p.relations, relation, x);
    }
    forall y | y in claims.usedAfter
      ensures Reaching(pushed, y)
    {
      ReachingStays(p.relations, relation, y);
    }
    forall y | y in claims.inserted
      ensures InsertsAt(pushed, y)
    {
      InsertsStays(p.relations, relation, y);
    }
    forall r | r in pushed && r.change.Inserted? && r.to.Some?
      ensures r.to.value in claims.inserted
    {
      var o := PushMember(p.relations, relation, r);
    }
  }

  lemma {:induction false} EventsBacked(at: Place, events: seq<Event>)
    ensures Backed(ApplyEvents(at, Progress([], UNCLAIMED), events))
  {
    if events != [] {
      var front, last := events[..|events| - 1], events[|events| - 1];
      EventsBacked(at, front);
      var p := ApplyEvents(at, Progress([], UNCLAIMED), front);
      if Applies(at, p.claims, last) {
        PushBacked(p, EventRelation(at, last), EventClaims(at, p.claims, last));
      }
    }
  }

  lemma {:induction false} TokensBacked(at: Place, p: Progress, tokens: seq<int>)
    requires Backed(p)
    ensures Backed(FollowTokens(at, p, tokens))
  {
    if tokens != [] {
      var front, last := tokens[..|tokens| - 1], tokens[|tokens| - 1];
      TokensBacked(at, p, front);
      var q := FollowTokens(at, p, front);
      if Continues(at, q.claims, last) {
        var (from, to) := Carried(at, last).value;
        PushBacked(q, TokenRelation(at, last), ClaimBoth(q.claims, from, to));
      }
    }
  }

  lemma {:induction false} PairsBacked(at: Place, p: Progress, pairs: seq<Matcher.Pair>)
    requires Backed(p)
    ensures Backed(FollowPairs(at, p, pairs))
  {
    if pairs != [] {
      var front, last := pairs[..|pairs| - 1], pairs[|pairs| - 1];
      PairsBacked(at, p, front);
      var q := FollowPairs(at, p, front);
      if PairNodes(at, last).Some? {
        var (from, to) := PairNodes(at, last).value;
        PushBacked(q, FallbackRelation(at, from, to), ClaimBoth(q.claims, from, to));
      }
    }
  }

  // ------------------------------------------------------------- the whole stage

  /** Two operations of one name, and the change between them. */
  predicate Carries(at: Place, r: Relation) {
    && r.stageIndex == at.s && r.recordStep && r.from.Some? && r.to.Some?
    && IsNode(at, Before, r.from.value) && IsNode(at, After, r.to.value)
    && match (Stands(at, r.from.value), Stands(at, r.to.value))
       case (Some(before), Some(after)) => before.name == after.name && ChangeTells(before, after, r.change)
       case _ => false
  }

  /** What an event says, with what events say in evidence. */
  ghost predicate EventStep(at: Place, r: Relation) {
    r.confidence == Exact && r.evidence != [] && Proven(at, r)
  }

  /** What a token that both snapshots know says, without evidence. */
  ghost predicate TokenStep(at: Place, r: Relation) {
    && r.confidence == Exact && r.evidence == [] && Carries(at, r)
    && exists t :: Names(at, Before, t, r.from.value) && Names(at, After, t, r.to.value)
  }

  /** What the fingerprints say, with the score of the two operations. */
  ghost predicate InferredStep(at: Place, r: Relation) {
    && r.confidence.Inferred? && r.evidence == [HistoryEvidence(0, None, FromFingerprint)] && Carries(at, r)
    && Matcher.ScoreTells(Stands(at, r.from.value).value, Stands(at, r.to.value).value, r.confidence.score)
  }

  lemma TokenStepIs(at: Place, t: int)
    requires PlaceOk(at) && Carried(at, t).Some?
    ensures TokenStep(at, TokenRelation(at, t))
  {
    var (from, to) := Carried(at, t).value;
    CarriedIsNodes(at, t);
    NodeStands(at, Before, from);
    NodeStands(at, After, to);
    ChangedTells(at.nodes[from].op, at.nodes[to].op);
    NamesIsMeant(at, Before, t);
    NamesIsMeant(at, After, t);
    assert Names(at, Before, t, from) && Names(at, After, t, to);
  }

  lemma InferredStepIs(at: Place, from: nat, to: nat)
    requires PlaceOk(at) && IsNode(at, Before, from) && IsNode(at, After, to) && SameName(at.nodes, from, to)
    ensures InferredStep(at, FallbackRelation(at, from, to))
  {
    NodeStands(at, Before, from);
    NodeStands(at, After, to);
    ChangedTells(at.nodes[from].op, at.nodes[to].op);
    Matcher.ScoreWeighs(at.nodes[from].op, at.nodes[to].op);
  }

  lemma EventStepsSay(at: Place)
    requires PlaceOk(at)
    ensures forall r :: r in AfterEvents(at).relations ==> EventStep(at, r)
  {
    SortByIsStable(at.stage.events, EventKey);
    EventsProven(at, SortBy(at.stage.events, EventKey));
    EventsKeepOk(at, SortBy(at.stage.events, EventKey));
  }

  /** Every step of a stage is what an event, a token or the fingerprints say, and says so. */
  lemma StageSays(at: Place, order: seq<int>, r: Relation)
    requires PlaceOk(at) && (at.stage.before.Some? && at.stage.after.Some? ==> BothSides(at))
    requires r in StageSteps(at, order)
    ensures EventStep(at, r) || TokenStep(at, r) || InferredStep(at, r)
  {
    EventStepsSay(at);
    if at.stage.before.Some? && at.stage.after.Some? && r !in AfterEvents(at).relations {
      StageHasThreeParts(at, order);
      if r in TokenBlock(at, AfterEvents(at).claims, order) {
        var t := TokenOrder.BlockMember(at, AfterEvents(at).claims, order, r);
        TokenStepIs(at, t);
      } else {
        var claims := FallbackClaims(at, order);
        FallbackIsFresh(at, claims);
        var p := PairBlockIsFrom(at, FallbackPairs(at, claims), r);
        assert FreshPair(at, claims, p);
        InferredStepIs(at, PairNodes(at, p).value.0, PairNodes(at, p).value.1);
      }
    }
  }

  lemma FirstIsFirst(at: Place, e: Event)
    requires PlaceOk(at) && e in at.stage.events && Mappable(at, e) && ReplacesFirst(at, e)
    ensures First(SortBy(at.stage.events, EventKey), Replaces(at, EventFrom(at, e).value)) == Some(e)
  {
    var x := EventFrom(at, e).value;
    FirstIsLeast(at.stage.events, Replaces(at, x), EventKey);
    var first := Least(at.stage.events, Replaces(at, x), EventKey);
    assert Replaces(at, x)(e);
    NamesIsMeant(at, Before, e.ptrToken);
    NamesIsMeant(at, Before, first.value.ptrToken);
    assert !Less(EventKey(e), EventKey(first.value));
    assert Names(at, Before, first.value.ptrToken, x) && Names(at, Before, e.ptrToken, x);
  }

  lemma PrefixLeaves(at: Place, events: seq<Relation>, rest: seq<Relation>, e: Event)
    requires LeavesStep(at, events, e)
    ensures LeavesStep(at, events + rest, e)
  {
    var r :| r in events && EventSays(at, e, r) && Evidence(e) in r.evidence;
    assert r in events + rest;
  }

  /** Every event about known operations, of replacements the first, leaves its step with its evidence. */
  lemma EventsLeaveSteps(at: Place, order: seq<int>, e: Event)
    requires PlaceOk(at) && (at.stage.before.Some? && at.stage.after.Some? ==> BothSides(at))
    requires e in at.stage.events && Known(at, e) && (e.kind.Replaced? ==> ReplacesFirst(at, e))
    ensures LeavesStep(at, StageSteps(at, order), e)
  {
    var events := SortBy(at.stage.events, EventKey);
    SortByIsStable(at.stage.events, EventKey);
    KnownIsMappable(at, e);
    if e.kind.Replaced? {
      FirstIsFirst(at, e);
    }
    EventWitnessed(at, events, e);
    RelationSays(at, e);
    var r :| r in AfterEvents(at).relations && Alike(EventRelation(at, e), r) && Evidence(e) in r.evidence;
    SaysAlike(at, e, EventRelation(at, e), r);
    assert LeavesStep(at, AfterEvents(at).relations, e);
    if at.stage.before.Some? && at.stage.after.Some? {
      StageHasThreeParts(at, order);
      var claims := AfterEvents(at).claims;
      var pairs := PairBlock(at, FallbackPairs(at, FallbackClaims(at, order)));
      PrefixLeaves(at, AfterEvents(at).relations, TokenBlock(at, claims, order), e);
      PrefixLeaves(at, AfterEvents(at).relations + TokenBlock(at, claims, order), pairs, e);
    }
  }

  lemma StageBacked(at: Place, order: seq<int>)
    requires PlaceOk(at) && BothSides(at)
    ensures Backed(AfterEvents(at)) && Backed(FollowTokens(at, AfterEvents(at), order))
    ensures Backed(StageProgress(at, [], order))
  {
    EventsBacked(at, SortBy(at.stage.events, EventKey));
    TokensBacked(at, AfterEvents(at), order);
    var q := FollowTokens(at, AfterEvents(at), order);
    PairsBacked(at, q, FallbackPairs(at, q.claims));
  }

  /** When a stage is done, of two namesakes on its two sides one has been led away or reached. */
  lemma NamesakesMeet(at: Place, order: seq<int>, x: nat, y: nat)
    requires PlaceOk(at) && BothSides(at) && IsNode(at, Before, x) && IsNode(at, After, y) && SameName(at.nodes, x, y)
    ensures Leaving(StageSteps(at, order), x) || Reaching(StageSteps(at, order), y)
  {
    NoNamesakesLeft(at, order, x, y);
    StageBacked(at, order);
  }

  lemma {:induction false} TokenTaken(at: Place, claims: Claims, tokens: seq<int>, t: int)
    requires t in tokens && Carried(at, t).Some?
    ensures Carried(at, t).value.0 in TokenClaims(at, claims, tokens).usedBefore
      || Carried(at, t).value.1 in TokenClaims(at, claims, tokens).inserted
  {
    var front, last := tokens[..|tokens| - 1], tokens[|tokens| - 1];
    assert tokens == front + [last];
    if t in front {
      TokenTaken(at, claims, front, t);
    }
  }

  ghost predicate LeavesExactly(relations: seq<Relation>, x: nat) {
    exists r :: r in relations && r.confidence == Exact && r.from == Some(x)
  }

  /**
   * A token both snapshots know leads its operation on, unless an event or another token already does
   * or the operation it would reach was inserted.
   */
  lemma TokensLead(at: Place, order: seq<int>, t: int, x: nat, y: nat)
    requires PlaceOk(at) && BothSides(at) && Enumerates(order, TokensOf(at.stage))
    requires Names(at, Before, t, x) && Names(at, After, t, y) && SameName(at.nodes, x, y)
    ensures LeavesExactly(StageSteps(at, order), x) || InsertsAt(StageSteps(at, order), y)
  {
    NamesIsMeant(at, Before, t);
    NamesIsMeant(at, After, t);
    assert Carried(at, t) == Some((x, y)) && t in order;
    TokenTaken(at, AfterEvents(at).claims, order, t);
    StageBacked(at, order);
    StageHasThreeParts(at, order);
    AfterEventsOk(at);
    TokensAppend(at, AfterEvents(at), order);
    TokenBlockExact(at, AfterEvents(at).claims, order);
    var exact := AfterEvents(at).relations + TokenBlock(at, AfterEvents(at).claims, order);
    var inferred := PairBlock(at, FallbackPairs(at, FallbackClaims(at, order)));
    ExactOnes(exact, inferred, x, y);
  }

  lemma ExactOnes(exact: seq<Relation>, inferred: seq<Relation>, x: nat, y: nat)
    requires AllExact(exact) && (Leaving(exact, x) || InsertsAt(exact, y))
    ensures LeavesExactly(exact + inferred, x) || InsertsAt(exact + inferred, y)
  {
    if Leaving(exact, x) {
      var r :| r in exact && r.from == Some(x);
      assert r in exact + inferred;
    } else {
      var r :| r in exact && r.change.Inserted? && r.to == Some(y);
      assert r in exact + inferred;
    }
  }

  /** A token leads nobody whom an event or another token leads, and to nobody inserted. */
  lemma TokensKeepOff(at: Place, order: seq<int>, r: Relation, q: Relation)
    requires PlaceOk(at) && BothSides(at) && r in StageSteps(at, order) && q in StageSteps(at, order)
    requires TokenStep(at, r) && q.confidence == Exact && q != r
    ensures q.from != r.from && !(q.change.Inserted? && q.to == r.to)
  {
    var claims := AfterEvents(at).claims;
    StageHasThreeParts(at, order);
    FallbackIsFresh(at, FallbackClaims(at, order));
    PairBlockInfers(at, FallbackClaims(at, order), FallbackPairs(at, FallbackClaims(at, order)));
    EventStepsSay(at);
    assert r !in AfterEvents(at).relations;
    var t := TokenOrder.BlockMember(at, claims, order, r);
    StageBacked(at, order);
    AfterEventsOk(at);
    if q in AfterEvents(at).relations {
      assert StepOk(at, claims, q);
    } else {
      TokenBlockNeverInserts(at, claims, order, q);
      TokenOrder.BlockLeavesOnce(at, claims, order);
      LeavesOnce(TokenBlock(at, claims, order), r, q);
    }
  }

  lemma LeavesOnce(block: seq<Relation>, r: Relation, q: Relation)
    requires TokenOrder.OneFromEach(block) && r in block && q in block && r != q
    ensures r.from != q.from
  {
    var i :| 0 <= i < |block| && block[i] == r;
    var j :| 0 <= j < |block| && block[j] == q;
    assert i < j ==> block[i].from != block[j].from;
    assert j < i ==> block[j].from != block[i].from;
  }

  lemma TokenBlockNeverInserts(at: Place, claims: Claims, tokens: seq<int>, q: Relation)
    requires q in TokenBlock(at, claims, tokens)
    ensures !q.change.Inserted?
  {
    var t := TokenOrder.BlockMember(at, claims, tokens, q);
  }

  // ----------------------------------------------------------- no step is told twice

  /** The two say the same of the same operations. */
  predicate SameSaying(a: Relation, b: Relation) {
    && a.recordStep && b.recordStep && a.stageIndex == b.stageIndex
    && a.from == b.from && a.to == b.to && a.change == b.change
  }

  /** No two steps say the same, and each has its evidence in order. */
  predicate ToldOnce(relations: seq<Relation>) {
    && (forall i, j :: 0 <= i < j < |relations| ==> !SameSaying(relations[i], relations[j]))
    && (forall r :: r in relations ==> EvidenceAscends(r.evidence))
  }

  predicate EvidenceAscends(evidence: seq<HistoryEvidence>) {
    forall i, j :: 0 <= i < j < |evidence| ==> evidence[i].order <= evidence[j].order
  }

  lemma MergedAscends(existing: Relation, relation: Relation)
    ensures EvidenceAscends(Merged(existing, relation).evidence)
  {
    SortByIsStable(existing.evidence + relation.evidence, EvidenceKey);
    var evidence := Merged(existing, relation).evidence;
    forall i, j | 0 <= i < j < |evidence|
      ensures evidence[i].order <= evidence[j].order
    {
      assert !Less(EvidenceKey(evidence[j]), EvidenceKey(evidence[i]));
    }
  }

  lemma {:induction false} PushToldOnce(relations: seq<Relation>, relation: Relation)
    requires ToldOnce(relations) && relation.recordStep && EvidenceAscends(relation.evidence)
    ensures ToldOnce(Push(relations, relation))
  {
    if relations != [] {
      var first, rest := relations[0], relations[1..];
      assert forall r :: r in rest ==> r in relations;
      assert forall r :: r in rest ==> !SameSaying(first, r);
      if SameStep(first, relation) {
        MergedAscends(first, relation);
        assert forall r :: r in rest ==> !SameSaying(Merged(first, relation), r);
        FrontToldOnce(Merged(first, relation), rest);
      } else {
        PushToldOnce(rest, relation);
        forall r | r in Push(rest, relation)
          ensures !SameSaying(first, r)
        {
          var o := PushMember(rest, relation, r);
        }
        FrontToldOnce(first, Push(rest, relation));
      }
    }
  }

  lemma FrontToldOnce(first: Relation, rest: seq<Relation>)
    requires ToldOnce(rest) && EvidenceAscends(first.evidence) && forall r :: r in rest ==> !SameSaying(first, r)
    ensures ToldOnce([first] + rest)
  {
    var all := [first] + rest;
    forall i, j | 0 <= i < j < |all|
      ensures !SameSaying(all[i], all[j])
    {
      assert all[j] == rest[j - 1];
      assert i > 0 ==> all[i] == rest[i - 1];
    }
  }

  lemma {:induction false} EventsToldOnce(at: Place, p: Progress, events: seq<Event>)
    requires ToldOnce(p.relations)
    ensures ToldOnce(ApplyEvents(at, p, events).relations)
  {
    if events != [] {
      EventsToldOnce(at, p, events[..|events| - 1]);
      PushToldOnce(ApplyEvents(at, p, events[..|events| - 1]).relations, EventRelation(at, events[|events| - 1]));
    }
  }

  lemma {:induction false} TokensToldOnce(at: Place, p: Progress, tokens: seq<int>)
    requires ToldOnce(p.relations)
    ensures ToldOnce(FollowTokens(at, p, tokens).relations)
  {
    if tokens != [] {
      var front, last := tokens[..|tokens| - 1], tokens[|tokens| - 1];
      TokensToldOnce(at, p, front);
      if Carried(at, last).Some? {
        PushToldOnce(FollowTokens(at, p, front).relations, TokenRelation(at, last));
      }
    }
  }

  lemma {:induction false} PairsToldOnce(at: Place, p: Progress, pairs: seq<Matcher.Pair>)
    requires ToldOnce(p.relations)
    ensures ToldOnce(FollowPairs(at, p, pairs).relations)
  {
    if pairs != [] {
      var front, last := pairs[..|pairs| - 1], pairs[|pairs| - 1];
      PairsToldOnce(at, p, front);
      if PairNodes(at, last).Some? {
        var (from, to) := PairNodes(at, last).value;
        PushToldOnce(FollowPairs(at, p, front).relations, FallbackRelation(at, from, to));
      }
    }
  }

  /** A stage tells no step twice, and the evidence of each step comes in the order of its events. */
  lemma StageTellsOnce(at: Place, order: seq<int>)
    requires at.stage.before.Some? && at.stage.after.Some? ==> BothSides(at)
    ensures ToldOnce(StageSteps(at, order))
  {
    EventsToldOnce(at, Progress([], UNCLAIMED), SortBy(at.stage.events, EventKey));
    if at.stage.before.Some? && at.stage.after.Some? {
      TokensToldOnce(at, AfterEvents(at), order);
      var q := FollowTokens(at, AfterEvents(at), order);
      PairsToldOnce(at, q, FallbackPairs(at, q.claims));
    }
  }
}
