// From links to histories: connected operations share one UID, which is the
// anchor of the earliest of them, and one history.
module Histories {
  import opened Model
  import opened Timeline
  import opened Nodes
  import opened Relations
  import opened Links
  import opened RunLaws
  import opened Sorting
  import opened UnionFinds
  import Uid

  datatype OpOccurrence = OpOccurrence(
    side: SnapshotSide, opIdx: OpIdx, name: string, lineStart: nat, lineEnd: nat, attrSummary: string,
      location: Option<string>)

  datatype HistoryStep = HistoryStep(
    passId: int, passName: string, change: HistoryChange,
    before: Option<OpOccurrence>, after: Option<OpOccurrence>,
    evidence: seq<HistoryEvidence>, confidence: LinkConfidence)

  datatype OpHistory = OpHistory(uid: string, firstName: string, lastName: string, steps: seq<HistoryStep>)

  datatype SelectableOp = SelectableOp(uid: string, opIdx: OpIdx, name: string, lineStart: nat, lineEnd: nat)

  datatype ResolvedFunction = ResolvedFunction(
    func: string, selectable: map<OccurrenceKey, SelectableOp>, histories: map<string, OpHistory>)

  // ----------------------------------------------------------------- components

  /** Names are strings of octets. */
  function Octets(name: string): (r: seq<Uid.Byte>)
    ensures |r| == |name|
    ensures forall i :: 0 <= i < |name| && name[i] as int < 256 ==> r[i] as int == name[i] as int
  {
    seq(|name|, i requires 0 <= i < |name| => (name[i] as int) % 256)
  }

  function UidOf(func: string, node: Node): string {
    Uid.FromAnchor(Uid.Anchor(Octets(func), node.passId, node.key.side, node.ordinal))
  }

  function NodeKey(node: Node): Key {
    (node.key.stageIndex, if node.key.side == Before then 0 else 1, node.ordinal)
  }

  function NodeKeyer(nodes: seq<Node>): nat -> Key {
    (id: nat) => if id < |nodes| then NodeKey(nodes[id]) else (0, 0, 0)
  }

  /** The operations connected to `x`, ascending. */
  ghost function Members(links: seq<Link>, n: nat, x: nat): (r: seq<nat>)
    ensures forall i: nat :: i in r <==> i < n && Connected(links, x, i)
    ensures forall i, j :: 0 <= i < j < |r| ==> r[i] < r[j]
  {
    if n == 0 then []
    else
      var rest := Members(links, n - 1, x);
      assert forall i :: 0 <= i < |rest| ==> rest[i] in rest;
      if Connected(links, x, n - 1) then rest + [n - 1] else rest
  }

  /** A component as the resolver walks it: sorted by stage, side and ordinal. */
  ghost function Chain(run: Run, links: seq<Link>, x: nat): (r: seq<nat>)
    ensures |r| == |Members(links, |run.nodes|, x)|
  {
    SortBy(Members(links, |run.nodes|, x), NodeKeyer(run.nodes))
  }

  lemma AscendingIsSorted(nodes: seq<Node>, ids: seq<nat>)
    requires Ascending(nodes) && InBounds(ids, |nodes|) && forall i, j :: 0 <= i < j < |ids| ==> ids[i] < ids[j]
    ensures Sorted(ids, NodeKeyer(nodes))
  {
    forall i, j | 0 <= i < j < |ids|
      ensures !Less(NodeKeyer(nodes)(ids[j]), NodeKeyer(nodes)(ids[i]))
    {
      assert Precedes(nodes[ids[i]], nodes[ids[j]]);
    }
  }

  lemma ChainIsMembers(run: Run, links: seq<Link>, x: nat)
    requires run.Ok() && x < |run.nodes|
    ensures Chain(run, links, x) == Members(links, |run.nodes|, x) != []
  {
    var ids := Members(links, |run.nodes|, x);
    ConnectedReflexive(links, x);
    assert x in ids;
    assert forall k :: 0 <= k < |ids| ==> ids[k] in ids;
    AscendingIsSorted(run.nodes, ids);
    SortKeepsSorted(ids, NodeKeyer(run.nodes));
  }

  /** The UID of an operation: the anchor of the first member of its component. */
  ghost function UidAt(run: Run, links: seq<Link>, x: nat): string
    requires run.Ok() && x < |run.nodes|
  {
    ChainIsMembers(run, links, x);
    var first := Chain(run, links, x)[0];
    assert first in Members(links, |run.nodes|, x);
    UidOf(run.func, run.nodes[first])
  }

  /** The anchoring operation is connected to `x`, and no other one connected precedes it. */
  lemma AnchorIsLeast(run: Run, links: seq<Link>, x: nat) returns (least: nat)
    requires run.Ok() && x < |run.nodes|
    ensures least < |run.nodes| && Connected(links, x, least) && UidAt(run, links, x)
      == UidOf(run.func, run.nodes[least])
    ensures forall y: nat :: y < |run.nodes| && Connected(links, x, y) ==>
      least <= y && (y == least || Precedes(run.nodes[least], run.nodes[y]))
  {
    ChainIsMembers(run, links, x);
    var ids := Members(links, |run.nodes|, x);
    least := ids[0];
    assert least in ids;
    forall y: nat | y < |run.nodes| && Connected(links, x, y)
      ensures least <= y
    {
      assert y in ids;
    }
  }

  lemma {:induction false} MembersOfConnected(links: seq<Link>, n: nat, x: nat, y: nat)
    requires Connected(links, x, y)
    ensures Members(links, n, x) == Members(links, n, y)
  {
    if n > 0 {
      MembersOfConnected(links, n - 1, x, y);
      ConnectedSymmetric(links, x, y);
      if Connected(links, x, n - 1) {
        ConnectedTransitive(links, y, x, n - 1);
      }
      if Connected(links, y, n - 1) {
        ConnectedTransitive(links, x, y, n - 1);
      }
    }
  }

  lemma SameAnchorSameNode(run: Run, i: nat, j: nat)
    requires run.Ok() && DistinctPasses(run.stages) && i < |run.nodes| && j < |run.nodes|
    requires UidOf(run.func, run.nodes[i]) == UidOf(run.func, run.nodes[j])
    ensures i == j
  {
    var a, b := run.nodes[i], run.nodes[j];
    Uid.UidsAreInjective(
      Uid.Anchor(Octets(run.func), a.passId, a.key.side, a.ordinal),
      Uid.Anchor(Octets(run.func), b.passId, b.key.side, b.ordinal));
    assert NodeOk(run.stages, run.func, a) && NodeOk(run.stages, run.func, b);
    assert a.key.stageIndex == b.key.stageIndex;
    assert !Precedes(a, b) && !Precedes(b, a);
  }

  /** Two occurrences carry the same UID exactly when a chain of relations joins them. */
  lemma SameUidIffConnected(run: Run, links: seq<Link>, x: nat, y: nat)
    requires run.Ok() && DistinctPasses(run.stages) && x < |run.nodes| && y < |run.nodes|
    ensures UidAt(run, links, x) == UidAt(run, links, y) <==> Connected(links, x, y)
  {
    if Connected(links, x, y) {
      MembersOfConnected(links, |run.nodes|, x, y);
      ChainIsMembers(run, links, x);
      ChainIsMembers(run, links, y);
    }
    if UidAt(run, links, x) == UidAt(run, links, y) {
      var i := AnchorIsLeast(run, links, x);
      var j := AnchorIsLeast(run, links, y);
      SameAnchorSameNode(run, i, j);
      ConnectedSymmetric(links, y, j);
      ConnectedTransitive(links, x, i, y);
    }
  }

  // -------------------------------------------------------------------- histories

  function Subject(r: Relation): Option<nat> {
    if r.from.Some? then r.from else r.to
  }

  function StepKey(nodes: seq<Node>, r: Relation): Key {
    var id := Subject(r);
    (r.stageIndex, if id.Some? && id.value < |nodes| then nodes[id.value].ordinal else 0, 0)
  }

  function StepKeyer(nodes: seq<Node>): Relation -> Key {
    (r: Relation) => StepKey(nodes, r)
  }

  /** The recorded steps that leave, or for insertions reach, one of the operations. */
  function OwnSteps(relations: seq<Relation>, ids: set<nat>): (r: seq<Relation>)
    ensures forall x :: x in r ==> x in relations
  {
    if relations == [] then []
    else
      var last := relations[|relations| - 1];
      OwnSteps(relations[..|relations| - 1], ids)
      + if last.recordStep && Subject(last).Some? && Subject(last).value in ids then [last] else []
  }

  predicate InRun(run: Run, r: Relation) {
    && r.stageIndex < |run.stages|
    && (r.from.Some? ==> r.from.value < |run.nodes|) && (r.to.Some? ==> r.to.value < |run.nodes|)
  }

  predicate AllInRun(run: Run, relations: seq<Relation>) {
    forall r :: r in relations ==> InRun(run, r)
  }

  function OccurrenceOf(op: ParsedOp, side: SnapshotSide): OpOccurrence {
    OpOccurrence(side, op.idx, op.name, op.lineStart, op.lineEnd, op.attrSummary, op.location)
  }

  function StepFor(run: Run, r: Relation): HistoryStep
    requires InRun(run, r)
  {
    HistoryStep(run.stages[r.stageIndex].passId, run.stages[r.stageIndex].passName, r.change,
                if r.from.Some? then Some(OccurrenceOf(run.nodes[r.from.value].op, Before)) else None,
                if r.to.Some? then Some(OccurrenceOf(run.nodes[r.to.value].op, After)) else None,
                r.evidence, r.confidence)
  }

  function StepsFor(run: Run, relations: seq<Relation>): (r: seq<HistoryStep>)
    requires AllInRun(run, relations)
  {
    seq(|relations|, i requires 0 <= i < |relations| => StepFor(run, relations[i]))
  }

  function OrderedSteps(run: Run, relations: seq<Relation>, ids: set<nat>): (r: seq<Relation>)
    ensures AllInRun(run, relations) ==> AllInRun(run, r)
  {
    SortByIsStable(OwnSteps(relations, ids), StepKeyer(run.nodes));
    SortBy(OwnSteps(relations, ids), StepKeyer(run.nodes))
  }

  function HistoryFor(run: Run, relations: seq<Relation>, chain: seq<nat>): OpHistory
    requires chain != [] && InBounds(chain, |run.nodes|) && AllInRun(run, relations)
  {
    var first, last := run.nodes[chain[0]], run.nodes[chain[|chain| - 1]];
    OpHistory(UidOf(run.func, first), first.op.name, last.op.name,
              StepsFor(run, OrderedSteps(run, relations, set i | i in chain)))
  }

  function SelectableFor(uid: string, node: Node): SelectableOp {
    SelectableOp(uid, node.op.idx, node.op.name, node.op.lineStart, node.op.lineEnd)
  }

  ghost function HistoryAt(run: Run, relations: seq<Relation>, x: nat): OpHistory
    requires run.Ok() && x < |run.nodes| && AllInRun(run, relations)
  {
    var chain := Chain(run, LinksOf(relations), x);
    ChainIsMembers(run, LinksOf(relations), x);
    assert forall i :: 0 <= i < |chain| ==> chain[i] in Members(LinksOf(relations), |run.nodes|, x);
    HistoryFor(run, relations, chain)
  }

  lemma {:induction false} OwnStepMember(relations: seq<Relation>, ids: set<nat>, r: Relation)
    ensures r in OwnSteps(relations, ids) <==>
      r in relations && r.recordStep && Subject(r).Some? && Subject(r).value in ids
  {
    if relations != [] {
      OwnStepMember(relations[..|relations| - 1], ids, r);
      assert relations == relations[..|relations| - 1] + [relations[|relations| - 1]];
    }
  }

  /** A history tells exactly the recorded steps of its operations, by stage and then by place in the function. */
  lemma HistoryTellsItsSteps(run: Run, relations: seq<Relation>, x: nat, r: Relation)
    requires run.Ok() && AllInRun(run, relations) && x < |run.nodes|
    ensures var links := LinksOf(relations);
      var steps := OrderedSteps(run, relations, set i | i in Chain(run, links, x));
      && (r in steps <==> r in relations && r.recordStep && Subject(r).Some? && Connected(links, x, Subject(r).value))
      && Sorted(steps, StepKeyer(run.nodes))
      && HistoryAt(run, relations, x).steps == StepsFor(run, steps)
  {
    var links := LinksOf(relations);
    var ids := set i | i in Chain(run, links, x);
    ChainIsMembers(run, links, x);
    OwnStepMember(relations, ids, r);
    SortByIsStable(OwnSteps(relations, ids), StepKeyer(run.nodes));
    if r in relations {
      assert InRun(run, r);
    }
  }

  /** What the result has to record: for each node its UID, and the history of its component. */
  datatype Book = Book(nodes: seq<Node>, ids: NodeIds, uids: seq<string>, records: seq<OpHistory>)

  ghost predicate BookOk(book: Book) {
    Indexed(book.nodes, book.ids) && |book.uids| == |book.records| == |book.nodes|
  }

  ghost function BookOf(run: Run, relations: seq<Relation>): (book: Book)
    requires run.Ok() && AllInRun(run, relations)
    ensures BookOk(book) && book.nodes == run.nodes && book.ids == run.ids
    ensures forall i :: 0 <= i < |run.nodes| ==> book.uids[i] == UidAt(run, LinksOf(relations), i)
    ensures forall i :: 0 <= i < |run.nodes| ==> book.records[i] == HistoryAt(run, relations, i)
  {
    Book(run.nodes, run.ids,
         seq(|run.nodes|, i requires 0 <= i < |run.nodes| => UidAt(run, LinksOf(relations), i)),
         seq(|run.nodes|, i requires 0 <= i < |run.nodes| => HistoryAt(run, relations, i)))
  }

  /** The record is that of some settled operation with the UID. */
  ghost predicate Recorded(book: Book, left: set<nat>, uid: string, record: OpHistory)
    requires BookOk(book)
  {
    exists j :: 0 <= j < |book.nodes| && j !in left && book.uids[j] == uid && book.records[j] == record
  }

  /** The occurrence is selectable under its UID, and the UID leads to a history. */
  ghost predicate EntryRight(book: Book, r: ResolvedFunction, i: nat)
    requires BookOk(book) && i < |book.nodes|
  {
    && book.nodes[i].key in r.selectable
    && r.selectable[book.nodes[i].key] == SelectableFor(book.uids[i], book.nodes[i])
    && book.uids[i] in r.histories
  }

  /** All entries are right but for the operations in `left`, which have none. */
  ghost predicate RecordsBut(book: Book, r: ResolvedFunction, left: set<nat>)
    requires BookOk(book)
  {
    && (forall i :: 0 <= i < |book.nodes| && i !in left ==> EntryRight(book, r, i))
    && (forall key :: key in r.selectable ==> key in book.ids && book.ids[key] !in left)
    && (forall uid :: uid in r.histories ==> Recorded(book, left, uid, r.histories[uid]))
  }

  /** Every operation has its entry, and there is no other. */
  ghost predicate Resolves(run: Run, relations: seq<Relation>, r: ResolvedFunction)
    requires run.Ok() && AllInRun(run, relations)
  {
    r.func == run.func && RecordsBut(BookOf(run, relations), r, {})
  }

  lemma SelectablesAgree(book: Book, a: ResolvedFunction, b: ResolvedFunction)
    requires BookOk(book) && RecordsBut(book, a, {}) && RecordsBut(book, b, {})
    ensures forall key :: key in a.selectable ==> key in b.selectable && a.selectable[key] == b.selectable[key]
  {
    forall key | key in a.selectable
      ensures key in b.selectable && a.selectable[key] == b.selectable[key]
    {
      var i := book.ids[key];
      assert EntryRight(book, a, i) && EntryRight(book, b, i);
    }
  }

  /** No two components share a UID. */
  ghost predicate OneRecordEach(book: Book)
    requires BookOk(book)
  {
    forall i, j :: 0 <= i < |book.nodes| && 0 <= j < |book.nodes| && book.uids[i] == book.uids[j] ==>
      book.records[i] == book.records[j]
  }

  lemma HistoriesAgree(book: Book, a: ResolvedFunction, b: ResolvedFunction)
    requires BookOk(book) && OneRecordEach(book) && RecordsBut(book, a, {}) && RecordsBut(book, b, {})
    ensures forall uid :: uid in a.histories ==> uid in b.histories && a.histories[uid] == b.histories[uid]
  {
    forall uid | uid in a.histories
      ensures uid in b.histories && a.histories[uid] == b.histories[uid]
    {
      var i :| 0 <= i < |book.nodes| && i !in {} && book.uids[i] == uid && book.records[i] == a.histories[uid];
      assert EntryRight(book, b, i);
      assert Recorded(book, {}, uid, b.histories[uid]);
      var j :| 0 <= j < |book.nodes| && j !in {} && book.uids[j] == uid && book.records[j] == b.histories[uid];
    }
  }

  /** With one record to a UID, what the book says fixes the result. */
  lemma BookFixesResult(book: Book, a: ResolvedFunction, b: ResolvedFunction)
    requires BookOk(book) && OneRecordEach(book) && RecordsBut(book, a, {}) && RecordsBut(book, b, {})
      && a.func == b.func
    ensures a == b
  {
    SelectablesAgree(book, a, b);
    SelectablesAgree(book, b, a);
    HistoriesAgree(book, a, b);
    HistoriesAgree(book, b, a);
    assert a.selectable == b.selectable;
    assert a.histories == b.histories;
  }

  /** With one record to a UID, every operation finds the history of its own component. */
  lemma HistoryFound(book: Book, r: ResolvedFunction, i: nat)
    requires BookOk(book) && OneRecordEach(book) && RecordsBut(book, r, {}) && i < |book.nodes|
    ensures book.uids[i] in r.histories && r.histories[book.uids[i]] == book.records[i]
  {
    assert EntryRight(book, r, i);
    var j :| 0 <= j < |book.nodes| && j !in {} && book.uids[j] == book.uids[i]
      && book.records[j] == r.histories[book.uids[i]];
  }

  // A result for every book.

  function FirstWith(uids: seq<string>, uid: string): (k: nat)
    requires uid in uids
    ensures k < |uids| && uids[k] == uid
  {
    if uids[0] == uid then 0 else FirstWith(uids[1..], uid) + 1
  }

  ghost function ResultFor(func: string, book: Book): ResolvedFunction
    requires BookOk(book)
  {
    ResolvedFunction(
      func,
      map key | key in book.ids :: SelectableFor(book.uids[book.ids[key]], book.nodes[book.ids[key]]),
      map uid | uid in book.uids :: book.records[FirstWith(book.uids, uid)])
  }

  lemma ResultRecords(func: string, book: Book)
    requires BookOk(book)
    ensures RecordsBut(book, ResultFor(func, book), {})
  {
    var r := ResultFor(func, book);
    forall uid | uid in r.histories
      ensures Recorded(book, {}, uid, r.histories[uid])
    {
      var k := FirstWith(book.uids, uid);
      assert k !in {} && book.uids[k] == uid && book.records[k] == r.histories[uid];
    }
  }

  /** Operations with one UID and one record. */
  ghost predicate IsComponent(book: Book, ids: seq<nat>, uid: string, record: OpHistory)
    requires BookOk(book)
  {
    && ids != [] && InBounds(ids, |book.nodes|)
    && forall i :: 0 <= i < |book.nodes| && i in ids ==> book.uids[i] == uid && book.records[i] == record
  }

  /** `grown` is `selectable` with the component's occurrences added. */
  ghost predicate Selects(book: Book, ids: seq<nat>, uid: string, selectable: map<OccurrenceKey, SelectableOp>,
      grown: map<OccurrenceKey, SelectableOp>)
    requires BookOk(book)
  {
    && (forall key :: key in grown <==> key in selectable || (key in book.ids && book.ids[key] in ids))
    && (forall key :: key in grown ==>
         grown[key] == if key in book.ids && book.ids[key] in ids then SelectableFor(uid, book.nodes[book.ids[key]])
           else selectable[key])
  }

  /** Recording a component settles its operations and disturbs no other entry. */
  lemma ComponentSettles(book: Book, r: ResolvedFunction, left: set<nat>, ids: seq<nat>, uid: string, record: OpHistory,
      selectable: map<OccurrenceKey, SelectableOp>)
    requires BookOk(book) && RecordsBut(book, r, left) && IsComponent(book, ids, uid, record)
    requires forall i :: i in ids ==> i in left
    requires Selects(book, ids, uid, r.selectable, selectable)
    ensures RecordsBut(book, r.(selectable := selectable, histories := r.histories[uid := record]),
      left - (set i | i in ids))
  {
    var next := r.(selectable := selectable, histories := r.histories[uid := record]);
    var rest := left - (set i | i in ids);
    forall i | 0 <= i < |book.nodes| && i !in rest
      ensures EntryRight(book, next, i)
    {
      if i !in ids {
        assert EntryRight(book, r, i);
      }
    }
    forall u | u in next.histories
      ensures Recorded(book, rest, u, next.histories[u])
    {
      if u == uid {
        assert ids[0] in ids && ids[0] !in rest;
      } else {
        assert Recorded(book, left, u, r.histories[u]);
        var j :| 0 <= j < |book.nodes| && j !in left && book.uids[j] == u && book.records[j] == r.histories[u];
        assert j !in rest;
      }
    }
  }

  // ----------------------------------------------------------------- the resolver

  /** The ids below `n` whose root is `c`. */
  function Grouped(roots: seq<nat>, n: nat, c: nat): seq<nat>
    requires n <= |roots|
  {
    if n == 0 then [] else Grouped(roots, n - 1, c) + if roots[n - 1] == c then [n - 1] else []
  }

  lemma {:induction false} GroupsAreMembers(roots: seq<nat>, links: seq<Link>, n: nat, x: nat)
    requires Represents(roots, links) && n <= |roots| && x < |roots|
    ensures Grouped(roots, n, roots[x]) == Members(links, n, x)
  {
    if n > 0 {
      GroupsAreMembers(roots, links, n - 1, x);
    }
  }

  type Components = map<nat, seq<nat>>

  ghost predicate GroupsOf(components: Components, roots: seq<nat>, n: nat)
    requires n <= |roots|
  {
    && (forall c :: c in components <==> Grouped(roots, n, c) != [])
    && (forall c :: c in components ==> components[c] == Grouped(roots, n, c))
  }

  method AddToComponent(components: Components, root: nat, id: nat, ghost roots: seq<nat>) returns (grown: Components)
    requires id < |roots| && roots[id] == root && GroupsOf(components, roots, id)
    ensures GroupsOf(grown, roots, id + 1)
  {
    grown := components[root := (if root in components then components[root] else []) + [id]];
  }

  ghost predicate HasRoots(unions: UnionFind, roots: seq<nat>)
    reads unions, unions.parent
  {
    unions.Valid() && unions.parent.Length == |roots| && forall i :: 0 <= i < |roots| ==> unions.RootOf(i) == roots[i]
  }

  method AddNext(unions: UnionFind, components: Components, id: nat, ghost roots: seq<nat>) returns (grown: Components)
    requires HasRoots(unions, roots) && id < |roots| && GroupsOf(components, roots, id)
    modifies unions.parent
    ensures HasRoots(unions, roots) && GroupsOf(grown, roots, id + 1)
  {
    var root := unions.Find(id);
    grown := AddToComponent(components, root, id, roots);
  }

  /** The components are the classes of connected ids, named by some roots. */
  ghost predicate ClassesOf(components: Components, roots: seq<nat>, size: nat, links: seq<Link>) {
    |roots| == size && Represents(roots, links) && GroupsOf(components, roots, size)
  }

  method FindComponents(size: nat, links: seq<Link>) returns (components: Components)
    requires forall k :: 0 <= k < |links| ==> links[k].0 < size && links[k].1 < size
    ensures exists roots :: ClassesOf(components, roots, size, links)
  {
    var unions := MergeLinks(size, links);
    ghost var roots := RootList(unions);
    assert Represents(roots, links);
    components := GroupByRoot(unions, size, roots);
    assert ClassesOf(components, roots, size, links);
  }

  lemma NoGroups(roots: seq<nat>)
    ensures GroupsOf(map[], roots, 0)
  {
  }

  method GroupByRoot(unions: UnionFind, size: nat, ghost roots: seq<nat>) returns (components: Components)
    requires HasRoots(unions, roots) && size == |roots|
    modifies unions.parent
    ensures GroupsOf(components, roots, size)
  {
    components := map[];
    NoGroups(roots);
    for id := 0 to size
      invariant HasRoots(unions, roots) && GroupsOf(components, roots, id)
    {
      components := AddNext(unions, components, id, roots);
    }
  }

  ghost function RootList(unions: UnionFind): (roots: seq<nat>)
    requires unions.Valid()
    reads unions, unions.parent
    ensures |roots| == unions.parent.Length && forall i :: 0 <= i < |roots| ==> roots[i] == unions.RootOf(i)
  {
    var parent, rank := unions.parent[..], unions.rank;
    seq(|parent|, i requires 0 <= i < |parent| && Forest(parent, rank) => Root(parent, rank, i))
  }

  method LinkEnds(relations: seq<Relation>) returns (links: seq<Link>)
    ensures links == LinksOf(relations)
  {
    links := [];
    for n := 0 to |relations|
      invariant links == LinksOf(relations[..n])
    {
      assert relations[..n + 1][..n] == relations[..n];
      if relations[n].from.Some? && relations[n].to.Some? {
        links := links + [(relations[n].from.value, relations[n].to.value)];
      }
    }
    assert relations[..|relations|] == relations;
  }

  method AddSelectables(ghost book: Book, nodes: seq<Node>, chain: seq<nat>, uid: string,
      selectable: map<OccurrenceKey, SelectableOp>)
    returns (grown: map<OccurrenceKey, SelectableOp>)
    requires BookOk(book) && book.nodes == nodes && InBounds(chain, |nodes|)
    ensures Selects(book, chain, uid, selectable, grown)
  {
    grown := selectable;
    for n := 0 to |chain|
      invariant Selects(book, chain[..n], uid, selectable, grown)
    {
      var node := nodes[chain[n]];
      assert chain[..n + 1] == chain[..n] + [chain[n]];
      grown := grown[node.key := SelectableFor(uid, node)];
    }
    assert chain[..|chain|] == chain;
  }
}
