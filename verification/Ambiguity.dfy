// The result of a resolution is the same for every order of its token maps
// exactly when no stage is ambiguous, and the server can build one that is.
module Ambiguity {
  import opened Model
  import opened Timeline
  import opened Nodes
  import opened Relations
  import opened Links
  import opened StageLaws
  import opened RunLaws
  import opened Histories
  import opened Resolve
  import opened Sorting
  import opened UnionFinds
  import opened TokenOrder

  /** The result for given orders of the token maps. */
  ghost function ResultOf(run: Run, orders: Orders): (r: ResolvedFunction)
    requires run.Ok() && OrdersOk(run, orders, |run.stages|)
    ensures AllInRun(run, AllRelations(run, orders)) && Resolves(run, AllRelations(run, orders), r)
  {
    RelationsInRun(run, orders);
    var book := BookOf(run, AllRelations(run, orders));
    ResultRecords(run.func, book);
    ResultFor(run.func, book)
  }

  ghost predicate OneResult(run: Run)
    requires run.Ok()
  {
    forall o1, o2 :: OrdersOk(run, o1, |run.stages|) && OrdersOk(run, o2, |run.stages|) ==>
      ResultOf(run, o1) == ResultOf(run, o2)
  }

  // ------------------------------------------------------ a step shows in its history

  lemma NodesByOccurrence(run: Run, s: nat, side: SnapshotSide, x: nat, y: nat)
    requires run.Ok() && s < |run.stages| && IsNode(run.At(s), side, x) && IsNode(run.At(s), side, y)
    requires run.nodes[x].op.idx == run.nodes[y].op.idx
    ensures x == y
  {
    PlaceIsOk(run, s);
    assert NodeFits(run.At(s), run.nodes[x]) && NodeFits(run.At(s), run.nodes[y]);
    StagesParsed(run, s);
    assert run.nodes[x].key == run.nodes[y].key;
  }

  /** What a step tells identifies it. */
  lemma ToldStepIsUnique(run: Run, q: Relation, r: Relation)
    requires run.Ok() && DistinctPasses(run.stages) && RunStepOk(run, q) && RunStepOk(run, r)
    requires InRun(run, q) && InRun(run, r) && StepFor(run, q) == StepFor(run, r)
    ensures q == r
  {
    var a, b := StepFor(run, q), StepFor(run, r);
    assert a.passId == b.passId;
    var s := q.stageIndex;
    assert r.stageIndex == s;
    assert q.from.Some? <==> r.from.Some?;
    assert q.to.Some? <==> r.to.Some?;
    if q.from.Some? {
      assert a.before.value.opIdx == b.before.value.opIdx;
      NodesByOccurrence(run, s, Before, q.from.value, r.from.value);
    }
    if q.to.Some? {
      assert a.after.value.opIdx == b.after.value.opIdx;
      NodesByOccurrence(run, s, After, q.to.value, r.to.value);
    }
  }

  lemma {:induction false} SeamsAreUnrecorded(run: Run, n: nat)
    requires run.Ok() && n <= |run.stages|
    ensures forall r :: r in SeamsTo(run, n) ==> !r.recordStep
  {
    if n > 1 {
      SeamsAreUnrecorded(run, n - 1);
      SeamIsUnrecorded(run, n - 1);
    }
  }

  lemma SeamIsUnrecorded(run: Run, right: nat)
    requires run.Ok() && 1 <= right < |run.stages|
    ensures forall r :: r in SeamAt(run, right) ==> !r.recordStep
  {
    var a, b := run.At(right - 1), run.At(right);
    forall r | r in SeamAt(run, right)
      ensures !r.recordStep
    {
      var left, next := a.stage.after.value, b.stage.before.value;
      var pair := SeamMember(a, b, left, next, SeamPairs(a.func, left, next), r);
    }
  }

  lemma {:induction false} MemberOfFlat(blocks: seq<seq<Relation>>, s: nat, r: Relation)
    requires s < |blocks| && r in blocks[s]
    ensures r in Flat(blocks)
  {
    if s < |blocks| - 1 {
      MemberOfFlat(blocks[..|blocks| - 1], s, r);
    }
  }

  /** The recorded relations of a run are the steps of its stages. */
  lemma RecordedStepsOf(run: Run, orders: Orders, r: Relation)
    requires run.Ok() && OrdersOk(run, orders, |run.stages|)
    ensures r in AllRelations(run, orders) && r.recordStep ==>
      RunStepOk(run, r) && r in StepsAt(run, orders, r.stageIndex)
    ensures r.stageIndex < |run.stages| && r in StepsAt(run, orders, r.stageIndex) ==>
      r in AllRelations(run, orders) && r.recordStep && RunStepOk(run, r)
  {
    var n := |run.stages|;
    StagesAreBlocks(run, orders, n);
    if r in AllRelations(run, orders) && r.recordStep {
      SeamsAreUnrecorded(run, n);
      var s := FlatMember(Blocks(run, orders, n), r);
      StepsAtOk(run, orders, s);
    }
    if r.stageIndex < n && r in StepsAt(run, orders, r.stageIndex) {
      StepsAtOk(run, orders, r.stageIndex);
      MemberOfFlat(Blocks(run, orders, n), r.stageIndex, r);
    }
  }

  lemma StepShows(run: Run, orders: Orders, x: nat, r: Relation)
    requires run.Ok() && OrdersOk(run, orders, |run.stages|) && x < |run.nodes|
    requires r in AllRelations(run, orders) && r.recordStep && r.from == Some(x)
    ensures AllInRun(run, AllRelations(run, orders)) && InRun(run, r)
    ensures StepFor(run, r) in HistoryAt(run, AllRelations(run, orders), x).steps
  {
    var relations := AllRelations(run, orders);
    RelationsInRun(run, orders);
    HistoryTellsItsSteps(run, relations, x, r);
    ConnectedReflexive(LinksOf(relations), x);
    var steps := OrderedSteps(run, relations, set i | i in Chain(run, LinksOf(relations), x));
    var k :| 0 <= k < |steps| && steps[k] == r;
    assert StepsFor(run, steps)[k] == StepFor(run, r);
  }

  lemma ShownStepIsThere(run: Run, orders: Orders, x: nat, h: HistoryStep) returns (r: Relation)
    requires run.Ok() && OrdersOk(run, orders, |run.stages|) && x < |run.nodes|
    requires AllInRun(run, AllRelations(run, orders)) && h in HistoryAt(run, AllRelations(run, orders), x).steps
    ensures r in AllRelations(run, orders) && r.recordStep && InRun(run, r) && StepFor(run, r) == h
  {
    var relations := AllRelations(run, orders);
    ChainIsMembers(run, LinksOf(relations), x);
    var steps := OrderedSteps(run, relations, set i | i in Chain(run, LinksOf(relations), x));
    assert HistoryAt(run, relations, x).steps == StepsFor(run, steps);
    r := ToldBy(run, steps, h);
    HistoryTellsItsSteps(run, relations, x, r);
    assert InRun(run, r);
  }

  lemma ToldBy(run: Run, steps: seq<Relation>, h: HistoryStep) returns (r: Relation)
    requires AllInRun(run, steps) && h in StepsFor(run, steps)
    ensures r in steps && StepFor(run, r) == h
  {
    var k :| 0 <= k < |steps| && StepsFor(run, steps)[k] == h;
    r := steps[k];
  }

  // --------------------------------------------------------------- ambiguity shows

  lemma {:induction false} SomeOrders(run: Run, n: nat) returns (orders: Orders)
    requires n <= |run.stages|
    ensures OrdersOk(run, orders, n)
  {
    orders := [];
    if n > 0 {
      var rest := SomeOrders(run, n - 1);
      var order := SomeOrder(TokensOf(run.stages[n - 1]));
      orders := rest + [order];
    }
  }

  /** The history of one operation, read off the result. */
  lemma SameResultSameHistory(run: Run, o1: Orders, o2: Orders, x: nat)
    requires run.Ok() && DistinctPasses(run.stages) && x < |run.nodes|
    requires OrdersOk(run, o1, |run.stages|) && OrdersOk(run, o2, |run.stages|)
      && ResultOf(run, o1) == ResultOf(run, o2)
    ensures HistoryAt(run, AllRelations(run, o1), x) == HistoryAt(run, AllRelations(run, o2), x)
  {
    var a, b := ResultOf(run, o1), ResultOf(run, o2);
    EveryHistoryKept(run, AllRelations(run, o1), a, x);
    EveryHistoryKept(run, AllRelations(run, o2), b, x);
    assert EntryRight(BookOf(run, AllRelations(run, o1)), a, x);
    assert EntryRight(BookOf(run, AllRelations(run, o2)), b, x);
  }

  /** A step one order takes and another does not makes the results differ. */
  lemma MissingStepShows(run: Run, o1: Orders, o2: Orders, r: Relation)
    requires run.Ok() && DistinctPasses(run.stages)
    requires OrdersOk(run, o1, |run.stages|) && OrdersOk(run, o2, |run.stages|)
    requires r.stageIndex < |run.stages| && r.from.Some? && r in StepsAt(run, o1, r.stageIndex)
    requires r !in StepsAt(run, o2, r.stageIndex)
    ensures ResultOf(run, o1) != ResultOf(run, o2)
  {
    RecordedStepsOf(run, o1, r);
    RelationsInRun(run, o1);
    RelationsInRun(run, o2);
    assert InRun(run, r);
    var x := r.from.value;
    StepShows(run, o1, x, r);
    if ResultOf(run, o1) == ResultOf(run, o2) {
      SameResultSameHistory(run, o1, o2, x);
      var q := ShownStepIsThere(run, o2, x, StepFor(run, r));
      RecordedStepsOf(run, o2, q);
      ToldStepIsUnique(run, q, r);
    }
  }

  lemma ReorderStage(run: Run, base: Orders, s: nat, order: seq<int>)
    requires OrdersOk(run, base, |run.stages|) && s < |run.stages| && Enumerates(order, TokensOf(run.stages[s]))
    ensures OrdersOk(run, base[s := order], |run.stages|)
  {
  }

  /** Two orders of an ambiguous token map: one takes the first token's step, the other does not. */
  lemma TwoOrders(at: Place, t: int, u: int, from: nat, to: nat, too: nat)
    returns (first: seq<int>, second: seq<int>)
    requires PlaceOk(at) && BothSides(at) && to != too && t in TokensOf(at.stage) && u in TokensOf(at.stage)
    requires Candidate(at, AfterEvents(at).claims, t, from, to) && Candidate(at, AfterEvents(at).claims, u, from, too)
    ensures Enumerates(first, TokensOf(at.stage)) && Enumerates(second, TokensOf(at.stage))
    ensures TokenRelation(at, t) in StageSteps(at, first) && TokenRelation(at, t) !in StageSteps(at, second)
  {
    first := StepTaken(at, t);
    second := StepTaken(at, u);
    LosingStepIsAbsent(at, t, u, from, to, too, second);
  }

  lemma OrdersShow(run: Run, s: nat, first: seq<int>, second: seq<int>, r: Relation)
    requires run.Ok() && DistinctPasses(run.stages) && s < |run.stages| && r.stageIndex == s && r.from.Some?
    requires Enumerates(first, TokensOf(run.stages[s])) && Enumerates(second, TokensOf(run.stages[s]))
    requires run.At(s).stage.before.Some? && run.At(s).stage.after.Some? ==> BothSides(run.At(s))
    requires r in StageSteps(run.At(s), first) && r !in StageSteps(run.At(s), second)
    ensures !OneResult(run)
  {
    var base := SomeOrders(run, |run.stages|);
    ReorderStage(run, base, s, first);
    ReorderStage(run, base, s, second);
    var o1, o2 := base[s := first], base[s := second];
    StepsOfOrder(run, o1, s, first);
    StepsOfOrder(run, o2, s, second);
    MissingStepShows(run, o1, o2, r);
    ResultsDiffer(run, o1, o2);
  }

  lemma StepsOfOrder(run: Run, orders: Orders, s: nat, order: seq<int>)
    requires run.Ok() && s < |run.stages| && s < |orders| && orders[s] == order
    requires run.At(s).stage.before.Some? && run.At(s).stage.after.Some? ==> BothSides(run.At(s))
    ensures StepsAt(run, orders, s) == StageSteps(run.At(s), order)
  {
  }

  lemma ResultsDiffer(run: Run, o1: Orders, o2: Orders)
    requires run.Ok() && OrdersOk(run, o1, |run.stages|) && OrdersOk(run, o2, |run.stages|)
    requires ResultOf(run, o1) != ResultOf(run, o2)
    ensures !OneResult(run)
  {
  }

  lemma AmbiguousStageShows(run: Run, s: nat, t: int, u: int, from: nat, to: nat, too: nat)
    requires run.Ok() && DistinctPasses(run.stages) && s < |run.stages| && BothSnapshots(run, s) && to != too
    requires t in TokensOf(run.stages[s]) && u in TokensOf(run.stages[s])
    requires Candidate(run.At(s), AfterEvents(run.At(s)).claims, t, from, to)
    requires Candidate(run.At(s), AfterEvents(run.At(s)).claims, u, from, too)
    ensures !OneResult(run)
  {
    PlaceIsOk(run, s);
    var first, second := TwoOrders(run.At(s), t, u, from, to, too);
    OrdersShow(run, s, first, second, TokenRelation(run.At(s), t));
  }

  /** The result does not depend on the order of any hash map exactly when no stage is ambiguous. */
  lemma OneResultIffUnambiguous(run: Run)
    requires run.Ok() && DistinctPasses(run.stages)
    ensures OneResult(run) <==> RunUnambiguous(run)
  {
    if RunUnambiguous(run) {
      forall o1, o2 | OrdersOk(run, o1, |run.stages|) && OrdersOk(run, o2, |run.stages|)
        ensures ResultOf(run, o1) == ResultOf(run, o2)
      {
        AnyOrderResolvesAlike(run, o1, o2, ResultOf(run, o1), ResultOf(run, o2));
      }
    } else {
      var s :| 0 <= s < |run.stages| && BothSnapshots(run, s) && !StageUnambiguous(run.At(s));
      var at := run.At(s);
      var claims := AfterEvents(at).claims;
      var t, u, from: nat, to: nat, too: nat :| t in TokensOf(at.stage) && u in TokensOf(at.stage)
        && Candidate(at, claims, t, from, to) && Candidate(at, claims, u, from, too) && to != too;
      AmbiguousStageShows(run, s, t, u, from, to, too);
    }
  }

  lemma TwoResults(run: Run) returns (o1: Orders, o2: Orders)
    requires run.Ok() && !OneResult(run)
    ensures OrdersOk(run, o1, |run.stages|) && OrdersOk(run, o2, |run.stages|)
    ensures ResultOf(run, o1) != ResultOf(run, o2)
  {
    o1, o2 :| OrdersOk(run, o1, |run.stages|) && OrdersOk(run, o2, |run.stages|)
      && ResultOf(run, o1) != ResultOf(run, o2);
  }
}
