// The resolver: from a timeline to the histories of a function.
module Resolve {
  import opened Model
  import opened Timeline
  import opened Nodes
  import opened Relations
  import opened Links
  import opened RunLaws
  import opened Sorting
  import opened UnionFinds
  import opened Histories

  ghost function RunOf(func: string, stages: seq<Stage>): (run: Run)
    requires StagesOk(stages, func)
    ensures run.Ok()
  {
    NodesAreNumbered(func, stages);
    Run(func, stages, NodesTo(func, stages, |stages|), IndexOf(NodesTo(func, stages, |stages|)))
  }

  // ------------------------------------------------------- every link is in range

  lemma {:induction false} SeamsInRun(run: Run, n: nat)
    requires run.Ok() && n <= |run.stages|
    ensures AllInRun(run, SeamsTo(run, n))
  {
    if n > 1 {
      SeamsInRun(run, n - 1);
      SeamInRun(run, n - 1);
    }
  }

  lemma SeamInRun(run: Run, right: nat)
    requires run.Ok() && 1 <= right < |run.stages|
    ensures AllInRun(run, SeamAt(run, right))
  {
    var a, b := run.At(right - 1), run.At(right);
    forall r | r in SeamAt(run, right)
      ensures InRun(run, r)
    {
      var left, next := a.stage.after.value, b.stage.before.value;
      var pair := SeamMember(a, b, left, next, SeamPairs(a.func, left, next), r);
    }
  }

  lemma RelationsInRun(run: Run, orders: Orders)
    requires run.Ok() && |run.stages| <= |orders|
    ensures AllInRun(run, AllRelations(run, orders))
  {
    StagesToOk(run, orders, |run.stages|);
    SeamsInRun(run, |run.stages|);
    forall r | r in StagesTo(run, orders, |run.stages|)
      ensures InRun(run, r)
    {
      assert RunStepOk(run, r);
    }
  }

  lemma LinksInRun(run: Run, relations: seq<Relation>)
    requires AllInRun(run, relations)
    ensures forall k :: 0 <= k < |LinksOf(relations)| ==>
      LinksOf(relations)[k].0 < |run.nodes| && LinksOf(relations)[k].1 < |run.nodes|
  {
    forall k | 0 <= k < |LinksOf(relations)|
      ensures LinksOf(relations)[k].0 < |run.nodes| && LinksOf(relations)[k].1 < |run.nodes|
    {
      var link := LinksOf(relations)[k];
      LinkMember(relations, link);
      var r :| r in relations && r.from == Some(link.0) && r.to == Some(link.1);
      assert InRun(run, r);
    }
  }

  // ------------------------------------------------------------------ components

  lemma ConnectedShareHistory(run: Run, relations: seq<Relation>, x: nat, i: nat)
    requires run.Ok() && AllInRun(run, relations) && x < |run.nodes| && i < |run.nodes|
      && Connected(LinksOf(relations), x, i)
    ensures HistoryAt(run, relations, i) == HistoryAt(run, relations, x)
  {
    MembersOfConnected(LinksOf(relations), |run.nodes|, x, i);
    ChainIsMembers(run, LinksOf(relations), x);
    ChainIsMembers(run, LinksOf(relations), i);
  }

  /** A component shares one UID and one history, whatever the pass ids. */
  lemma ComponentShares(run: Run, relations: seq<Relation>, x: nat)
    requires run.Ok() && AllInRun(run, relations) && x < |run.nodes|
    ensures var links := LinksOf(relations);
      IsComponent(BookOf(run, relations), Members(links, |run.nodes|, x), UidAt(run, links, x),
        HistoryAt(run, relations, x))
  {
    var book, links := BookOf(run, relations), LinksOf(relations);
    var ids := Members(links, |run.nodes|, x);
    MembersAreIds(links, |run.nodes|, x);
    forall i: nat | i < |run.nodes| && i in ids
      ensures book.uids[i] == UidAt(run, links, x) && book.records[i] == HistoryAt(run, relations, x)
    {
      ConnectedShareUid(run, links, x, i);
      ConnectedShareHistory(run, relations, x, i);
    }
  }

  lemma ConnectedShareUid(run: Run, links: seq<Link>, x: nat, i: nat)
    requires run.Ok() && x < |run.nodes| && i < |run.nodes| && Connected(links, x, i)
    ensures UidAt(run, links, i) == UidAt(run, links, x)
  {
    MembersOfConnected(links, |run.nodes|, x, i);
    ChainIsMembers(run, links, x);
    ChainIsMembers(run, links, i);
  }

  /** With distinct pass ids a UID belongs to one component and so to one history. */
  lemma DistinctPassesKeepHistories(run: Run, relations: seq<Relation>)
    requires run.Ok() && DistinctPasses(run.stages) && AllInRun(run, relations)
    ensures OneRecordEach(BookOf(run, relations))
  {
    var book := BookOf(run, relations);
    forall i: nat, j: nat | i < |run.nodes| && j < |run.nodes| && book.uids[i] == book.uids[j]
      ensures book.records[i] == book.records[j]
    {
      SameUidIffConnected(run, LinksOf(relations), i, j);
      ConnectedShareHistory(run, relations, i, j);
    }
  }

  /** With distinct pass ids every operation finds its own component's history, overwritten by no other. */
  lemma EveryHistoryKept(run: Run, relations: seq<Relation>, r: ResolvedFunction, i: nat)
    requires run.Ok() && DistinctPasses(run.stages) && AllInRun(run, relations) && Resolves(run, relations, r)
    requires i < |run.nodes|
    ensures var uid := UidAt(run, LinksOf(relations), i);
      uid in r.histories && r.histories[uid] == HistoryAt(run, relations, i)
  {
    DistinctPassesKeepHistories(run, relations);
    HistoryFound(BookOf(run, relations), r, i);
  }

  lemma MembersAreIds(links: seq<Link>, n: nat, x: nat)
    requires x < n
    ensures Members(links, n, x) != [] && InBounds(Members(links, n, x), n)
  {
    var ids := Members(links, n, x);
    ConnectedReflexive(links, x);
    assert x in ids;
    assert forall k :: 0 <= k < |ids| ==> ids[k] in ids;
  }

  method ResolveComponent(run: Run, relations: seq<Relation>, ids: seq<nat>, ghost x: nat, r: ResolvedFunction,
      ghost left: set<nat>)
    returns (next: ResolvedFunction)
    requires run.Ok() && AllInRun(run, relations) && x < |run.nodes|
    requires ids == Members(LinksOf(relations), |run.nodes|, x)
    requires RecordsBut(BookOf(run, relations), r, left) && forall i :: i in ids ==> i in left
    ensures next.func == r.func && RecordsBut(BookOf(run, relations), next, left - (set i | i in ids))
  {
    ComponentShares(run, relations, x);
    ChainIsMembers(run, LinksOf(relations), x);
    var chain := SortBy(ids, NodeKeyer(run.nodes));
    var history := HistoryFor(run, relations, chain);
    var selectable := AddSelectables(BookOf(run, relations), run.nodes, chain, history.uid, r.selectable);
    next := r.(selectable := selectable, histories := r.histories[history.uid := history]);
    ComponentSettles(BookOf(run, relations), r, left, ids, history.uid, history, selectable);
  }

  /** Ids of the components still to be resolved. */
  ghost function Pending(roots: seq<nat>, left: set<nat>): set<nat> {
    set i: nat | i < |roots| && roots[i] in left
  }

  lemma {:induction false} GroupMember(roots: seq<nat>, n: nat, c: nat)
    requires n <= |roots|
    ensures forall i :: i in Grouped(roots, n, c) <==> 0 <= i < n && roots[i] == c
  {
    if n > 0 {
      GroupMember(roots, n - 1, c);
    }
  }

  lemma PendingShrinks(roots: seq<nat>, left: set<nat>, c: nat)
    requires c in left
    ensures Pending(roots, left - {c}) == Pending(roots, left) - (set i | i in Grouped(roots, |roots|, c))
    ensures forall i :: i in Grouped(roots, |roots|, c) ==> i in Pending(roots, left)
  {
    GroupMember(roots, |roots|, c);
  }

  /** Components are met in whatever order the hash map has. */
  method ResolveComponents(run: Run, relations: seq<Relation>, components: Components, ghost roots: seq<nat>)
    returns (r: ResolvedFunction)
    requires run.Ok() && AllInRun(run, relations)
    requires |roots| == |run.nodes| && Represents(roots, LinksOf(relations)) && GroupsOf(components, roots, |roots|)
    ensures Resolves(run, relations, r)
  {
    r := ResolvedFunction(run.func, map[], map[]);
    var left := components.Keys;
    AllPending(components, roots);
    NothingRecorded(BookOf(run, relations), r, Pending(roots, left));
    while left != {}
      invariant left <= components.Keys && r.func == run.func
      invariant RecordsBut(BookOf(run, relations), r, Pending(roots, left))
      decreases left
    {
      var c := AnyOf(left);
      PendingShrinks(roots, left, c);
      r := ResolveGroup(run, relations, components[c], c, roots, r, Pending(roots, left));
      left := left - {c};
    }
    assert Pending(roots, {}) == {};
  }

  lemma AllPending(components: Components, roots: seq<nat>)
    requires GroupsOf(components, roots, |roots|)
    ensures forall i :: 0 <= i < |roots| ==> i in Pending(roots, components.Keys)
  {
    forall i: nat | i < |roots|
      ensures roots[i] in components
    {
      GroupMember(roots, |roots|, roots[i]);
      assert i in Grouped(roots, |roots|, roots[i]);
    }
  }

  lemma NothingRecorded(book: Book, r: ResolvedFunction, left: set<nat>)
    requires BookOk(book) && r.selectable == map[] && r.histories == map[]
    requires forall i :: 0 <= i < |book.nodes| ==> i in left
    ensures RecordsBut(book, r, left)
  {
  }

  method ResolveGroup(run: Run, relations: seq<Relation>, ids: seq<nat>, ghost c: nat, ghost roots: seq<nat>,
      r: ResolvedFunction, ghost left: set<nat>)
    returns (next: ResolvedFunction)
    requires run.Ok() && AllInRun(run, relations)
    requires |roots| == |run.nodes| && Represents(roots, LinksOf(relations)) && ids == Grouped(roots, |roots|, c) != []
    requires RecordsBut(BookOf(run, relations), r, left) && forall i :: i in ids ==> i in left
    ensures next.func == r.func && RecordsBut(BookOf(run, relations), next, left - (set i | i in ids))
  {
    GroupMember(roots, |roots|, c);
    ghost var x := ids[0];
    assert x in ids;
    GroupsAreMembers(roots, LinksOf(relations), |roots|, x);
    next := ResolveComponent(run, relations, ids, x, r, left);
  }

  ghost predicate ResolvedBy(func: string, stages: seq<Stage>, orders: Orders, r: ResolvedFunction)
    requires StagesOk(stages, func)
  {
    var run := RunOf(func, stages);
    && OrdersOk(run, orders, |stages|) && AllInRun(run, AllRelations(run, orders))
    && Resolves(run, AllRelations(run, orders), r)
  }

  /** What the resolver may answer for these stages: its result for some orders of the token maps. */
  ghost predicate Resolution(func: string, stages: seq<Stage>, r: ResolvedFunction) {
    StagesOk(stages, func) && exists orders :: ResolvedBy(func, stages, orders, r)
  }

  method ResolveFunction(func: string, stages: seq<Stage>) returns (r: ResolvedFunction)
    requires StagesOk(stages, func)
    ensures Resolution(func, stages, r)
  {
    var nodes, ids := CollectNodes(func, stages);
    var run := Run(func, stages, nodes, ids);
    assert run == RunOf(func, stages);
    var relations := CollectRelations(run);
    ghost var orders :| Collected(run, orders, relations);
    RelationsInRun(run, orders);
    LinksInRun(run, relations);
    var links := LinkEnds(relations);
    var components := FindComponents(|nodes|, links);
    ghost var roots :| ClassesOf(components, roots, |nodes|, links);
    r := ResolveComponents(run, relations, components, roots);
    assert ResolvedBy(func, stages, orders, r);
  }
}
