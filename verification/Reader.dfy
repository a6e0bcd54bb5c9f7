// The pass table and the reader that rebuilds the pass forest from it.
module Reader {
  import opened Model

  datatype PassInfo = PassInfo(
    name: string,
    irBefore: Option<int>,
    irAfter: Option<int>,
    startNs: int,
    endNs: int,
    irChanged: bool)

  /** One row of `pass_execution`. */
  datatype Row = Row(id: int, parent: Option<int>, order: int, info: PassInfo)

  datatype PassNode = PassNode(id: int, info: PassInfo, children: seq<PassNode>)

  datatype Outcome<T> = Ok(value: T) | UnknownParent(id: int, parent: int)

  // ------------------------------------------------------------- the query

  /** `ORDER BY parent_id NULLS FIRST, seq`. */
  predicate KeyLess(a: Row, b: Row) {
    match (a.parent, b.parent)
    case (None, None) => a.order < b.order
    case (None, Some(_)) => true
    case (Some(_), None) => false
    case (Some(p), Some(q)) => p < q || (p == q && a.order < b.order)
  }

  predicate DistinctIds(rows: seq<Row>) {
    forall i, j :: 0 <= i < j < |rows| ==> rows[i].id != rows[j].id
  }

  /** What the query may answer: the table's rows, none out of order. */
  predicate QueryResult(table: seq<Row>, rows: seq<Row>) {
    && multiset(rows) == multiset(table)
    && forall i, j :: 0 <= i < j < |rows| ==> !KeyLess(rows[j], rows[i])
  }

  // -------------------------------------------------------- the pass forest

  /** The node of row `k`, with the later rows that name it as their parent below it. */
  function Build(rows: seq<Row>, k: nat): (r: PassNode)
    requires k < |rows|
    decreases |rows| - k, 0
  {
    PassNode(rows[k].id, rows[k].info, Group(rows, Some(rows[k].id), k + 1))
  }

  /** The nodes of the rows from `from` on that have the given parent, in row order. */
  function Group(rows: seq<Row>, parent: Option<int>, from: nat): (r: seq<PassNode>)
    requires from <= |rows|
    decreases |rows| - from, 1
  {
    if from == |rows| then []
    else (if rows[from].parent == parent then [Build(rows, from)] else []) + Group(rows, parent, from + 1)
  }

  /** Each named parent stands earlier in the row order. */
  predicate ParentsFirst(rows: seq<Row>) {
    forall k :: 0 <= k < |rows| ==> ParentBefore(rows, k)
  }

  predicate ParentBefore(rows: seq<Row>, k: nat)
    requires k < |rows|
  {
    rows[k].parent.Some? ==> exists j :: 0 <= j < k && rows[j].id == rows[k].parent.value
  }

  /** Rows before `i` are still unattached and hold the children found from `i` on. */
  ghost predicate Pending(rows: seq<Row>, i: nat, nodes: map<int, PassNode>)
    requires i <= |rows|
  {
    && (forall id :: id in nodes ==> exists j :: 0 <= j < i && rows[j].id == id)
    && (forall j :: 0 <= j < i ==> rows[j].id in nodes && nodes[rows[j].id] == Waiting(rows, j, i))
  }

  function Waiting(rows: seq<Row>, j: nat, i: nat): PassNode
    requires j < i <= |rows|
  {
    PassNode(rows[j].id, rows[j].info, Group(rows, Some(rows[j].id), i))
  }

  /** Detaches rows last to first, handing each finished node to its parent. */
  method Passes(rows: seq<Row>) returns (r: Outcome<seq<PassNode>>)
    requires DistinctIds(rows)
    ensures r.Ok? <==> ParentsFirst(rows)
    ensures r.Ok? ==> r.value == Group(rows, None, 0)
    ensures r.UnknownParent? ==> LastOrphan(rows, r.id, r.parent)
  {
    var nodes := LoadNodes(rows);
    var roots: seq<PassNode> := [];
    var i := |rows|;
    while i > 0
      invariant 0 <= i <= |rows|
      invariant Pending(rows, i, nodes)
      invariant roots == Group(rows, None, i)
      invariant forall l :: i <= l < |rows| ==> ParentBefore(rows, l)
    {
      i := i - 1;
      var row := rows[i];
      Detach(rows, i, nodes);
      var node := nodes[row.id];
      nodes := nodes - {row.id};
      match row.parent
      case None =>
        roots := [node] + roots;
      case Some(p) =>
        if p !in nodes {
          assert !ParentBefore(rows, i);
          return UnknownParent(row.id, p);
        }
        nodes := nodes[p := nodes[p].(children := [node] + nodes[p].children)];
    }
    r := Ok(roots);
  }

  /** The row reported is the last one whose parent is not ahead of it. */
  ghost predicate LastOrphan(rows: seq<Row>, id: int, parent: int) {
    exists k :: 0 <= k < |rows| && rows[k].id == id && rows[k].parent == Some(parent) && !ParentBefore(rows, k)
      && forall l :: k < l < |rows| ==> ParentBefore(rows, l)
  }

  method LoadNodes(rows: seq<Row>) returns (nodes: map<int, PassNode>)
    requires DistinctIds(rows)
    ensures Pending(rows, |rows|, nodes)
  {
    nodes := map[];
    for k := 0 to |rows|
      invariant forall id :: id in nodes ==> exists j :: 0 <= j < k && rows[j].id == id
      invariant forall j :: 0 <= j < k ==> rows[j].id in nodes && nodes[rows[j].id] == PassNode(rows[j].id,
        rows[j].info, [])
    {
      nodes := nodes[rows[k].id := PassNode(rows[k].id, rows[k].info, [])];
    }
  }

  /** One turn of the loop: the detached node is complete, and everyone else stays up to date. */
  lemma {:induction false} Detach(rows: seq<Row>, i: nat, nodes: map<int, PassNode>)
    requires i < |rows| && DistinctIds(rows) && Pending(rows, i + 1, nodes)
    ensures rows[i].id in nodes && nodes[rows[i].id] == Build(rows, i)
    ensures var rest := nodes - {rows[i].id};
      match rows[i].parent
      case None => Pending(rows, i, rest)
      case Some(p) =>
        && (p in rest <==> ParentBefore(rows, i))
        && (p in rest ==> Pending(rows, i, rest[p := rest[p].(children := [Build(rows, i)] + rest[p].children)]))
  {
    assert nodes[rows[i].id] == Waiting(rows, i, i + 1);
    var rest := nodes - {rows[i].id};
    forall j | 0 <= j < i
      ensures rows[j].id in rest
      ensures Waiting(rows, j, i) == if rows[i].parent == Some(rows[j].id)
        then rest[rows[j].id].(children := [Build(rows, i)] + rest[rows[j].id].children) else rest[rows[j].id]
    {
      assert nodes[rows[j].id] == Waiting(rows, j, i + 1);
    }
  }

  /** A parent with a smaller id always sorts ahead of its children. */
  lemma SmallerParentsSortFirst(table: seq<Row>, rows: seq<Row>)
    requires QueryResult(table, rows)
    requires forall r :: r in table && r.parent.Some? ==> r.parent.value < r.id && exists q ::
      q in table && q.id == r.parent.value
    ensures ParentsFirst(rows)
  {
    forall k | 0 <= k < |rows|
      ensures ParentBefore(rows, k)
    {
      if rows[k].parent.Some? {
        assert rows[k] in multiset(rows);
        assert rows[k] in table;
        var q :| q in table && q.id == rows[k].parent.value;
        assert q in multiset(rows);
        var j :| 0 <= j < |rows| && rows[j] == q;
        assert KeyLess(q, rows[k]);
      }
    }
  }

  // ------------------------------------------------------ nothing is lost

  /** How many nodes of a forest carry the id. */
  function Occurrences(nodes: seq<PassNode>, id: int): nat {
    if nodes == [] then 0
    else (if nodes[0].id == id then 1 else 0) + Occurrences(nodes[0].children, id) + Occurrences(nodes[1..], id)
  }

  /** How many of the rows from `from` on carry the id. */
  function RowsWith(rows: seq<Row>, from: nat, id: int): nat
    requires from <= |rows|
    decreases |rows| - from
  {
    if from == |rows| then 0 else (if rows[from].id == id then 1 else 0) + RowsWith(rows, from + 1, id)
  }

  /** Occurrences among the children a parent has collected from row `i` on. */
  function Below(rows: seq<Row>, parent: Option<int>, i: nat, id: int): nat
    requires i <= |rows|
  {
    Occurrences(Group(rows, parent, i), id)
  }

  function InSubtree(rows: seq<Row>, i: nat, id: int): nat
    requires i < |rows|
  {
    (if rows[i].id == id then 1 else 0) + Below(rows, Some(rows[i].id), i + 1, id)
  }

  function Sum(s: seq<nat>): nat {
    if s == [] then 0 else Sum(s[..|s| - 1]) + s[|s| - 1]
  }

  lemma SumsAgree(a: seq<nat>, b: seq<nat>)
    requires |a| == |b| && forall k :: 0 <= k < |a| ==> a[k] == b[k]
    ensures Sum(a) == Sum(b)
  {
    assert a == b;
  }

  lemma {:induction false} SumsDifferAt(a: seq<nat>, b: seq<nat>, j: nat, d: nat)
    requires |a| == |b| && j < |a| && a[j] == b[j] + d && forall k :: 0 <= k < |a| && k != j ==> a[k] == b[k]
    ensures Sum(a) == Sum(b) + d
  {
    if j < |a| - 1 {
      SumsDifferAt(a[..|a| - 1], b[..|b| - 1], j, d);
    } else {
      SumsAgree(a[..|a| - 1], b[..|b| - 1]);
    }
  }

  /** Occurrences below each of the first `n` rows once rows from `i` on are attached. */
  function Belows(rows: seq<Row>, n: nat, i: nat, id: int): (r: seq<nat>)
    requires n <= i <= |rows|
    ensures |r| == n
  {
    seq(n, k requires 0 <= k < n => Below(rows, Some(rows[k].id), i, id))
  }

  function Hanging(rows: seq<Row>, n: nat, i: nat, id: int): nat
    requires n <= i <= |rows|
  {
    Sum(Belows(rows, n, i, id))
  }

  predicate ParentAmong(rows: seq<Row>, n: nat, i: nat)
    requires n <= i < |rows|
  {
    exists j :: 0 <= j < n && rows[i].parent == Some(rows[j].id)
  }

  lemma BelowStep(rows: seq<Row>, parent: Option<int>, i: nat, id: int)
    requires i < |rows|
    ensures Below(rows, parent, i, id)
      == (if rows[i].parent == parent then InSubtree(rows, i, id) else 0) + Below(rows, parent, i + 1, id)
  {
    var group, rest := Group(rows, parent, i), Group(rows, parent, i + 1);
    if rows[i].parent == parent {
      assert group[0] == Build(rows, i) && group[1..] == rest;
    } else {
      assert group == rest;
    }
  }

  /** Attaching row `i` adds its subtree below its parent, and nothing elsewhere. */
  lemma BelowsStep(rows: seq<Row>, n: nat, i: nat, id: int, k: nat)
    requires k < n <= i < |rows|
    ensures Belows(rows, n, i, id)[k]
      == Belows(rows, n, i + 1, id)[k] + if rows[i].parent == Some(rows[k].id) then InSubtree(rows, i, id) else 0
  {
    BelowStep(rows, Some(rows[k].id), i, id);
  }

  /** Attaching one row adds what it brings to the one sum of its parent. */
  lemma SumsMove(rows: seq<Row>, n: nat, i: nat, now: seq<nat>, later: seq<nat>, brought: nat)
    requires n <= i < |rows| && DistinctIds(rows) && |now| == |later| == n
    requires forall k :: 0 <= k < n ==> now[k] == later[k] + if rows[i].parent == Some(rows[k].id) then brought else 0
    ensures Sum(now) == Sum(later) + if ParentAmong(rows, n, i) then brought else 0
  {
    if ParentAmong(rows, n, i) {
      var j :| 0 <= j < n && rows[i].parent == Some(rows[j].id);
      SumsDifferAt(now, later, j, brought);
    } else {
      SumsAgree(now, later);
    }
  }

  lemma HangingStep(rows: seq<Row>, n: nat, i: nat, id: int)
    requires n <= i < |rows| && DistinctIds(rows)
    ensures Hanging(rows, n, i, id) == Hanging(rows, n, i + 1, id) + Brought(rows, n, i, id)
  {
    forall k: nat | k < n
      ensures Belows(rows, n, i, id)[k]
        == Belows(rows, n, i + 1, id)[k] + if rows[i].parent == Some(rows[k].id) then InSubtree(rows, i, id) else 0
    {
      BelowsStep(rows, n, i, id, k);
    }
    SumsMove(rows, n, i, Belows(rows, n, i, id), Belows(rows, n, i + 1, id), InSubtree(rows, i, id));
  }

  ghost function Brought(rows: seq<Row>, n: nat, i: nat, id: int): nat
    requires n <= i < |rows|
  {
    if ParentAmong(rows, n, i) then InSubtree(rows, i, id) else 0
  }

  lemma NothingHangs(rows: seq<Row>, n: nat, id: int)
    requires n <= |rows|
    ensures Hanging(rows, n, |rows|, id) == 0
  {
    AllZero(Belows(rows, n, |rows|, id));
  }

  lemma {:induction false} AllZero(s: seq<nat>)
    requires forall k :: 0 <= k < |s| ==> s[k] == 0
    ensures Sum(s) == 0
  {
    if s != [] {
      AllZero(s[..|s| - 1]);
    }
  }

  lemma RootOrBrought(rows: seq<Row>, i: nat, id: int)
    requires i < |rows| && ParentsFirst(rows)
    ensures Brought(rows, i, i, id) == if rows[i].parent.Some? then InSubtree(rows, i, id) else 0
  {
    assert ParentBefore(rows, i);
  }

  lemma {:induction false} NothingLost(rows: seq<Row>, i: nat, id: int)
    requires i <= |rows| && DistinctIds(rows) && ParentsFirst(rows)
    ensures Below(rows, None, i, id) + Hanging(rows, i, i, id) == RowsWith(rows, i, id)
    decreases |rows| - i
  {
    if i == |rows| {
      NothingHangs(rows, i, id);
    } else {
      NothingLost(rows, i + 1, id);
      LossStep(rows, i, id);
    }
  }

  lemma LossStep(rows: seq<Row>, i: nat, id: int)
    requires i < |rows| && DistinctIds(rows) && ParentsFirst(rows)
    ensures Below(rows, None, i, id) + Hanging(rows, i, i, id)
      == Below(rows, None, i + 1, id) + Hanging(rows, i + 1, i + 1, id) + if rows[i].id == id then 1 else 0
  {
    HangingStep(rows, i, i, id);
    BelowStep(rows, None, i, id);
    RootOrBrought(rows, i, id);
    var now, next := Belows(rows, i, i + 1, id), Belows(rows, i + 1, i + 1, id);
    assert next[..i] == now;
  }

  lemma {:induction false} RowsWithDistinct(rows: seq<Row>, from: nat, id: int)
    requires from <= |rows| && DistinctIds(rows)
    ensures RowsWith(rows, from, id) == if exists k :: from <= k < |rows| && rows[k].id == id then 1 else 0
    decreases |rows| - from
  {
    if from < |rows| {
      RowsWithDistinct(rows, from + 1, id);
    }
  }

  /** Every row ends up in exactly one node of the forest, and no node is invented. */
  lemma ForestHoldsEachRowOnce(rows: seq<Row>, id: int)
    requires DistinctIds(rows) && ParentsFirst(rows)
    ensures Occurrences(Group(rows, None, 0), id) == if exists k :: 0 <= k < |rows| && rows[k].id == id then 1 else 0
  {
    NothingLost(rows, 0, id);
    RowsWithDistinct(rows, 0, id);
  }

  // ------------------------------------------------------- order of children

  /** The positions of one parent's rows. */
  function Positions(rows: seq<Row>, parent: Option<int>, from: nat): (r: seq<nat>)
    requires from <= |rows|
    ensures forall i :: 0 <= i < |r| ==> from <= r[i] < |rows| && rows[r[i]].parent == parent
    ensures forall i, j :: 0 <= i < j < |r| ==> r[i] < r[j]
    ensures forall k :: from <= k < |rows| && rows[k].parent == parent ==> k in r
    decreases |rows| - from
  {
    if from == |rows| then []
    else (if rows[from].parent == parent then [from] else []) + Positions(rows, parent, from + 1)
  }

  lemma {:induction false} GroupIsPositions(rows: seq<Row>, parent: Option<int>, from: nat)
    requires from <= |rows|
    ensures |Group(rows, parent, from)| == |Positions(rows, parent, from)|
    decreases |rows| - from
  {
    if from < |rows| {
      GroupIsPositions(rows, parent, from + 1);
    }
  }

  lemma GroupUnfolds(rows: seq<Row>, parent: Option<int>, from: nat)
    requires from < |rows|
    ensures Group(rows, parent, from)
      == (if rows[from].parent == parent then [Build(rows, from)] else []) + Group(rows, parent, from + 1)
    ensures Positions(rows, parent, from)
      == (if rows[from].parent == parent then [from] else []) + Positions(rows, parent, from + 1)
  {
  }

  lemma {:induction false} GroupAt(rows: seq<Row>, parent: Option<int>, from: nat, i: nat)
    requires from <= |rows| && i < |Positions(rows, parent, from)|
    ensures i < |Group(rows, parent, from)| && Group(rows, parent, from)[i]
      == Build(rows, Positions(rows, parent, from)[i])
    decreases |rows| - from
  {
    GroupUnfolds(rows, parent, from);
    if rows[from].parent != parent {
      GroupAt(rows, parent, from + 1, i);
    } else if i > 0 {
      GroupAt(rows, parent, from + 1, i - 1);
    }
  }

  /** Siblings, roots included, come out in sequence order under their own parent. */
  lemma SiblingsInOrder(table: seq<Row>, rows: seq<Row>, parent: Option<int>, from: nat, i: nat, j: nat)
    returns (k: nat, l: nat)
    requires QueryResult(table, rows) && from <= |rows| && i < j < |Group(rows, parent, from)|
    ensures k < l < |rows| && rows[k].parent == parent && rows[l].parent == parent && rows[k].order <= rows[l].order
    ensures Group(rows, parent, from)[i] == Build(rows, k) && Group(rows, parent, from)[j] == Build(rows, l)
  {
    var p := Positions(rows, parent, from);
    GroupIsPositions(rows, parent, from);
    GroupAt(rows, parent, from, i);
    GroupAt(rows, parent, from, j);
    k, l := p[i], p[j];
    assert !KeyLess(rows[l], rows[k]);
  }
}
