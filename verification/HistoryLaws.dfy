// What a resolved function says, field by field, in terms of the operations the
// snapshots hold and the relations between them.
module HistoryLaws {
  import opened Model
  import opened Timeline
  import opened Nodes
  import opened Relations
  import opened Links
  import opened StageLaws
  import opened RunLaws
  import opened Histories
  import opened Resolve
  import opened Sorting
  import opened UnionFinds
  import Uid
  import Ambiguity

  // ------------------------------------------------------------ what a reader sees

  /** The parsed operation an occurrence names. */
  function OpAt(stages: seq<Stage>, key: OccurrenceKey): Option<ParsedOp> {
    if key.stageIndex >= |stages| then None
    else
      match SideOf(stages[key.stageIndex], key.side)
      case None => None
      case Some(snapshot) =>
        if key.opIdx < |snapshot.code.ops| then Some(snapshot.code.ops[key.opIdx]) else None
  }

  predicate SelectableTells(stages: seq<Stage>, key: OccurrenceKey, sel: SelectableOp) {
    match OpAt(stages, key)
    case None => false
    case Some(op) =>
      sel.opIdx == key.opIdx && sel.name == op.name && sel.lineStart == op.lineStart && sel.lineEnd == op.lineEnd
  }

  predicate OccurrenceTells(stages: seq<Stage>, key: OccurrenceKey, o: OpOccurrence) {
    match OpAt(stages, key)
    case None => false
    case Some(op) =>
      && o.side == key.side && o.opIdx == key.opIdx && o.name == op.name
      && o.lineStart == op.lineStart && o.lineEnd == op.lineEnd
      && o.attrSummary == op.attrSummary && o.location == op.location
  }

  /** One end of a step: the operation at that end of the relation, on that side of its stage. */
  predicate EndTells(run: Run, id: Option<nat>, s: nat, side: SnapshotSide, o: Option<OpOccurrence>) {
    match id
    case None => o.None?
    case Some(x) =>
      && x < |run.nodes| && o.Some?
      && run.nodes[x].key.stageIndex == s && run.nodes[x].key.side == side
      && OccurrenceTells(run.stages, run.nodes[x].key, o.value)
  }

  predicate StepTells(run: Run, q: Relation, h: HistoryStep) {
    && q.stageIndex < |run.stages|
    && h.passId == run.stages[q.stageIndex].passId && h.passName == run.stages[q.stageIndex].passName
    && h.change == q.change && h.evidence == q.evidence && h.confidence == q.confidence
    && EndTells(run, q.from, q.stageIndex, Before, h.before)
    && EndTells(run, q.to, q.stageIndex, After, h.after)
  }

  /**
   * The recorded steps of an operation's history: those that leave, or for want of an origin reach, a connected one.
   */
  ghost predicate OfHistory(relations: seq<Relation>, x: nat, q: Relation) {
    && q.recordStep
    && match q.from
       case Some(from) => Connected(LinksOf(relations), x, from)
       case None => q.to.Some? && Connected(LinksOf(relations), x, q.to.value)
  }

  /** By stage, and within a stage by place in the function. */
  predicate NotLater(run: Run, q: Relation, r: Relation) {
    || q.stageIndex < r.stageIndex
    || (&& q.stageIndex == r.stageIndex
        && Subject(q).Some? && Subject(q).value < |run.nodes| && Subject(r).Some? && Subject(r).value < |run.nodes|
        && run.nodes[Subject(q).value].ordinal <= run.nodes[Subject(r).value].ordinal)
  }

  /** The steps tell the history's relations, each as often as it was recorded, in order. */
  ghost predicate StepsTell(run: Run, relations: seq<Relation>, x: nat, told: seq<Relation>, steps: seq<HistoryStep>) {
    && |told| == |steps| && (forall k :: 0 <= k < |told| ==> StepTells(run, told[k], steps[k]))
    && (forall q :: multiset(told)[q] == if OfHistory(relations, x, q) then multiset(relations)[q] else 0)
    && (forall i, j :: 0 <= i < j < |told| ==> NotLater(run, told[i], told[j]))
  }

  /** Connected to `x`, and no connected one comes before it. */
  ghost predicate FirstOf(run: Run, links: seq<Link>, x: nat, first: nat) {
    && first < |run.nodes| && Connected(links, x, first)
    && forall y: nat :: y < |run.nodes| && Connected(links, x, y) && y != first ==>
         Precedes(run.nodes[first], run.nodes[y])
  }

  ghost predicate LastOf(run: Run, links: seq<Link>, x: nat, last: nat) {
    && last < |run.nodes| && Connected(links, x, last)
    && forall y: nat :: y < |run.nodes| && Connected(links, x, y) && y != last ==>
         Precedes(run.nodes[y], run.nodes[last])
  }

  predicate NameAt(stages: seq<Stage>, key: OccurrenceKey, name: string) {
    OpAt(stages, key).Some? && OpAt(stages, key).value.name == name
  }

  /** A UID is the anchor of its first operation: the function, the pass, the side and the place in the function. */
  predicate UidTells(run: Run, first: Node, uid: string) {
    && first.key.stageIndex < |run.stages|
    && uid == Uid.FromAnchor(
         Uid.Anchor(Octets(run.func), run.stages[first.key.stageIndex].passId, first.key.side, first.ordinal))
  }

  /** The history of `x`: named by its first operation, from its first name to its last, by its steps. */
  ghost predicate HistoryTells(run: Run, relations: seq<Relation>, x: nat, first: nat, last: nat, told: seq<Relation>,
      h: OpHistory)
  {
    && FirstOf(run, LinksOf(relations), x, first) && LastOf(run, LinksOf(relations), x, last)
    && UidTells(run, run.nodes[first], h.uid)
    && NameAt(run.stages, run.nodes[first].key, h.firstName) && NameAt(run.stages, run.nodes[last].key, h.lastName)
    && StepsTell(run, relations, x, told, h.steps)
  }

  ghost predicate HasHistory(run: Run, relations: seq<Relation>, x: nat, h: OpHistory) {
    exists first, last, told :: HistoryTells(run, relations, x, first, last, told, h)
  }

  // ------------------------------------------------------------------ it says that

  lemma NodeIsAt(run: Run, x: nat)
    requires run.Ok() && x < |run.nodes|
    ensures OpAt(run.stages, run.nodes[x].key) == Some(run.nodes[x].op)
    ensures run.nodes[x].op.idx == run.nodes[x].key.opIdx
    ensures run.nodes[x].passId == run.stages[run.nodes[x].key.stageIndex].passId
  {
    var node := run.nodes[x];
    assert NodeOk(run.stages, run.func, node);
    assert StageOk(run.stages[node.key.stageIndex], run.func);
  }

  lemma EndIs(run: Run, s: nat, side: SnapshotSide, x: nat)
    requires run.Ok() && s < |run.stages| && IsNode(run.At(s), side, x)
    ensures EndTells(run, Some(x), s, side, Some(OccurrenceOf(run.nodes[x].op, side)))
  {
    NodeIsAt(run, x);
  }

  lemma StepIs(run: Run, q: Relation)
    requires run.Ok() && RunStepOk(run, q) && InRun(run, q)
    ensures StepTells(run, q, StepFor(run, q))
  {
    if q.from.Some? {
      EndIs(run, q.stageIndex, Before, q.from.value);
    }
    if q.to.Some? {
      EndIs(run, q.stageIndex, After, q.to.value);
    }
  }

  lemma {:induction false} OwnCounts(relations: seq<Relation>, ids: set<nat>, q: Relation)
    ensures multiset(OwnSteps(relations, ids))[q]
      == if q.recordStep && Subject(q).Some? && Subject(q).value in ids then multiset(relations)[q] else 0
  {
    if relations != [] {
      var front, last := relations[..|relations| - 1], relations[|relations| - 1];
      OwnCounts(front, ids, q);
      assert relations == front + [last];
    }
  }

  lemma OwnIsOfHistory(run: Run, relations: seq<Relation>, x: nat, q: Relation)
    requires run.Ok() && AllInRun(run, relations) && x < |run.nodes| && q in relations
    ensures OfHistory(relations, x, q) <==>
      q.recordStep && Subject(q).Some? && Subject(q).value in (set i | i in Chain(run, LinksOf(relations), x))
  {
    assert InRun(run, q);
    ChainIsMembers(run, LinksOf(relations), x);
  }

  lemma ToldCounts(run: Run, relations: seq<Relation>, x: nat, ids: set<nat>, q: Relation)
    requires run.Ok() && AllInRun(run, relations) && x < |run.nodes|
    requires ids == set i | i in Chain(run, LinksOf(relations), x)
    ensures multiset(OrderedSteps(run, relations, ids))[q]
      == if OfHistory(relations, x, q) then multiset(relations)[q] else 0
  {
    SortByPermutes(OwnSteps(relations, ids), StepKeyer(run.nodes));
    OwnCounts(relations, ids, q);
    if q in relations {
      OwnIsOfHistory(run, relations, x, q);
    } else {
      assert multiset(relations)[q] == 0;
    }
  }

  lemma StepsAre(run: Run, orders: Orders, x: nat)
    requires run.Ok() && OrdersOk(run, orders, |run.stages|) && x < |run.nodes|
    ensures var relations := AllRelations(run, orders);
      && AllInRun(run, relations)
      && StepsTell(run, relations, x, OrderedSteps(run, relations, set i | i in Chain(run, LinksOf(relations), x)),
           HistoryAt(run, relations, x).steps)
  {
    var relations := AllRelations(run, orders);
    RelationsInRun(run, orders);
    var ids := set i | i in Chain(run, LinksOf(relations), x);
    var told := OrderedSteps(run, relations, ids);
    ToldAreRecorded(run, orders, x, told);
    ToldTell(run, relations, x, ids, told, HistoryAt(run, relations, x).steps);
  }

  lemma ToldTell(run: Run, relations: seq<Relation>, x: nat, ids: set<nat>, told: seq<Relation>,
      steps: seq<HistoryStep>)
    requires run.Ok() && AllInRun(run, relations) && x < |run.nodes|
    requires ids == (set i | i in Chain(run, LinksOf(relations), x)) && told == OrderedSteps(run, relations, ids)
    requires |told| == |steps| && forall k :: 0 <= k < |told| ==> StepTells(run, told[k], steps[k])
    ensures StepsTell(run, relations, x, told, steps)
  {
    forall q
      ensures multiset(told)[q] == if OfHistory(relations, x, q) then multiset(relations)[q] else 0
    {
      ToldCounts(run, relations, x, ids, q);
    }
    forall i, j | 0 <= i < j < |told|
      ensures NotLater(run, told[i], told[j])
    {
      ToldInOrder(run, relations, ids, told, i, j);
    }
  }

  lemma ToldAreRecorded(run: Run, orders: Orders, x: nat, told: seq<Relation>)
    requires run.Ok() && OrdersOk(run, orders, |run.stages|) && x < |run.nodes|
    requires AllInRun(run, AllRelations(run, orders)) && var relations := AllRelations(run, orders);
      told == OrderedSteps(run, relations, set i | i in Chain(run, LinksOf(relations), x))
    ensures var steps := HistoryAt(run, AllRelations(run, orders), x).steps;
      |told| == |steps| && forall k :: 0 <= k < |told| ==> StepTells(run, told[k], steps[k])
  {
    var relations := AllRelations(run, orders);
    var steps := HistoryAt(run, relations, x).steps;
    ChainIsMembers(run, LinksOf(relations), x);
    assert steps == StepsFor(run, told);
    forall k | 0 <= k < |told|
      ensures StepTells(run, told[k], steps[k])
    {
      assert told[k] in told;
      HistoryTellsItsSteps(run, relations, x, told[k]);
      Ambiguity.RecordedStepsOf(run, orders, told[k]);
      StepIs(run, told[k]);
    }
  }

  lemma ToldInOrder(run: Run, relations: seq<Relation>, ids: set<nat>, told: seq<Relation>, i: nat, j: nat)
    requires AllInRun(run, relations) && told == OrderedSteps(run, relations, ids) && i < j < |told|
    ensures NotLater(run, told[i], told[j])
  {
    SortByIsStable(OwnSteps(relations, ids), StepKeyer(run.nodes));
    assert told[i] in told && told[j] in told;
    OwnStepMember(relations, ids, told[i]);
    OwnStepMember(relations, ids, told[j]);
    assert InRun(run, told[i]) && InRun(run, told[j]);
    assert !Less(StepKeyer(run.nodes)(told[j]), StepKeyer(run.nodes)(told[i]));
  }

  lemma EndsOfChain(run: Run, links: seq<Link>, x: nat)
    requires run.Ok() && x < |run.nodes|
    ensures var chain := Chain(run, links, x);
      chain != [] && FirstOf(run, links, x, chain[0]) && LastOf(run, links, x, chain[|chain| - 1])
  {
    ChainIsMembers(run, links, x);
    var chain := Chain(run, links, x);
    var first, last := chain[0], chain[|chain| - 1];
    assert first in chain && last in chain;
    forall y: nat | y < |run.nodes| && Connected(links, x, y)
      ensures (y != first ==> Precedes(run.nodes[first], run.nodes[y]))
      ensures (y != last ==> Precedes(run.nodes[y], run.nodes[last]))
    {
      assert y in chain;
      var k :| 0 <= k < |chain| && chain[k] == y;
      assert k > 0 ==> chain[0] < chain[k];
      assert k < |chain| - 1 ==> chain[k] < chain[|chain| - 1];
    }
  }

  /** Its first and last operation give a history its UID and names. */
  lemma NamesAre(run: Run, relations: seq<Relation>, x: nat) returns (first: nat, last: nat)
    requires run.Ok() && AllInRun(run, relations) && x < |run.nodes|
    ensures FirstOf(run, LinksOf(relations), x, first) && LastOf(run, LinksOf(relations), x, last)
    ensures var h := HistoryAt(run, relations, x);
      && UidTells(run, run.nodes[first], h.uid) && h.uid == UidAt(run, LinksOf(relations), x)
      && NameAt(run.stages, run.nodes[first].key, h.firstName) && NameAt(run.stages, run.nodes[last].key, h.lastName)
  {
    EndsOfChain(run, LinksOf(relations), x);
    var chain := Chain(run, LinksOf(relations), x);
    first, last := chain[0], chain[|chain| - 1];
    NodeIsAt(run, first);
    NodeIsAt(run, last);
  }

  lemma HistoryIs(run: Run, orders: Orders, x: nat)
    requires run.Ok() && OrdersOk(run, orders, |run.stages|) && x < |run.nodes|
    ensures AllInRun(run, AllRelations(run, orders))
    ensures HasHistory(run, AllRelations(run, orders), x, HistoryAt(run, AllRelations(run, orders), x))
    ensures HistoryAt(run, AllRelations(run, orders), x).uid == UidAt(run, LinksOf(AllRelations(run, orders)), x)
  {
    var relations := AllRelations(run, orders);
    StepsAre(run, orders, x);
    var first, last := NamesAre(run, relations, x);
    var told := OrderedSteps(run, relations, set i | i in Chain(run, LinksOf(relations), x));
    HistoryHas(run, relations, x, first, last, told, HistoryAt(run, relations, x));
  }

  lemma HistoryHas(run: Run, relations: seq<Relation>, x: nat, first: nat, last: nat, told: seq<Relation>,
      h: OpHistory)
    requires first < |run.nodes| && last < |run.nodes|
    requires HistoryTells(run, relations, x, first, last, told, h)
    ensures HasHistory(run, relations, x, h)
  {
  }

  // --------------------------------------------------------------- the whole result

  /** An operation's entry: its own index, name and lines, and under its UID a history. */
  ghost predicate EntryTells(run: Run, relations: seq<Relation>, r: ResolvedFunction, x: nat)
    requires x < |run.nodes|
  {
    var key := run.nodes[x].key;
    && key in r.selectable && SelectableTells(run.stages, key, r.selectable[key])
    && r.selectable[key].uid in r.histories
    && (DistinctPasses(run.stages) ==> HasHistory(run, relations, x, r.histories[r.selectable[key].uid]))
  }

  /** Some operation with the UID has the history. */
  ghost predicate SomeoneHas(run: Run, relations: seq<Relation>, r: ResolvedFunction, uid: string, h: OpHistory) {
    exists x :: 0 <= x < |run.nodes| && run.nodes[x].key in r.selectable && r.selectable[run.nodes[x].key].uid == uid
      && HasHistory(run, relations, x, h)
  }

  ghost predicate Tells(run: Run, relations: seq<Relation>, r: ResolvedFunction) {
    && r.func == run.func
    && (forall x :: 0 <= x < |run.nodes| ==> EntryTells(run, relations, r, x))
    && (forall key :: key in r.selectable <==> OccursIn(run.func, run.stages, key))
    && (forall uid :: uid in r.histories ==>
         r.histories[uid].uid == uid && SomeoneHas(run, relations, r, uid, r.histories[uid]))
  }

  lemma EntryIs(run: Run, orders: Orders, r: ResolvedFunction, x: nat)
    requires run.Ok() && OrdersOk(run, orders, |run.stages|) && x < |run.nodes|
    requires AllInRun(run, AllRelations(run, orders)) && Resolves(run, AllRelations(run, orders), r)
    ensures EntryTells(run, AllRelations(run, orders), r, x)
  {
    var relations := AllRelations(run, orders);
    var book := BookOf(run, relations);
    assert EntryRight(book, r, x);
    NodeIsAt(run, x);
    if DistinctPasses(run.stages) {
      EveryHistoryKept(run, relations, r, x);
      HistoryIs(run, orders, x);
    }
  }

  lemma HistoryIsSomeones(run: Run, orders: Orders, r: ResolvedFunction, uid: string)
    requires run.Ok() && OrdersOk(run, orders, |run.stages|) && uid in r.histories
    requires AllInRun(run, AllRelations(run, orders)) && Resolves(run, AllRelations(run, orders), r)
    ensures r.histories[uid].uid == uid && SomeoneHas(run, AllRelations(run, orders), r, uid, r.histories[uid])
  {
    var relations := AllRelations(run, orders);
    var book := BookOf(run, relations);
    assert Recorded(book, {}, uid, r.histories[uid]);
    var x: nat :| x < |book.nodes| && x !in {} && book.uids[x] == uid && book.records[x] == r.histories[uid];
    HistoryIs(run, orders, x);
    HasUid(run, relations, r, x, uid);
  }

  lemma HasUid(run: Run, relations: seq<Relation>, r: ResolvedFunction, x: nat, uid: string)
    requires run.Ok() && AllInRun(run, relations) && Resolves(run, relations, r) && x < |run.nodes|
    requires uid == UidAt(run, LinksOf(relations), x)
    ensures run.nodes[x].key in r.selectable && r.selectable[run.nodes[x].key].uid == uid
  {
    assert EntryRight(BookOf(run, relations), r, x);
  }

  lemma KeysAreOccurrences(run: Run, relations: seq<Relation>, r: ResolvedFunction, key: OccurrenceKey)
    requires run.Ok() && AllInRun(run, relations) && Resolves(run, relations, r)
    ensures key in r.selectable <==> OccursIn(run.func, run.stages, key)
  {
    var book := BookOf(run, relations);
    if key in r.selectable {
      assert NodeOk(run.stages, run.func, run.nodes[run.ids[key]]);
    }
    if OccursIn(run.func, run.stages, key) {
      assert key in run.ids;
      assert EntryRight(book, r, run.ids[key]);
    }
  }

  /**
   * Whatever the resolver answers: every operation of the function in every snapshot is selectable by
   * what it is, and every history goes from its first name to its last through its recorded steps, in
   * order, each with its pass, the operations at both ends, and what linked them.
   */
  lemma ResolutionTells(func: string, stages: seq<Stage>, r: ResolvedFunction)
    requires Resolution(func, stages, r)
    ensures exists orders ::
      OrdersOk(RunOf(func, stages), orders, |stages|)
        && Tells(RunOf(func, stages), AllRelations(RunOf(func, stages), orders), r)
  {
    var run := RunOf(func, stages);
    var orders :| ResolvedBy(func, stages, orders, r);
    var relations := AllRelations(run, orders);
    forall x | 0 <= x < |run.nodes|
      ensures EntryTells(run, relations, r, x)
    {
      EntryIs(run, orders, r, x);
    }
    forall uid | uid in r.histories
      ensures r.histories[uid].uid == uid && SomeoneHas(run, relations, r, uid, r.histories[uid])
    {
      HistoryIsSomeones(run, orders, r, uid);
    }
    forall key
      ensures key in r.selectable <==> OccursIn(func, stages, key)
    {
      KeysAreOccurrences(run, relations, r, key);
    }
    assert Tells(run, relations, r);
  }
}
