// The structural diff of one function: matched operations in after order, with
// removed operations spliced in where they used to be.
module Diff {
  import opened Model
  import opened Matcher

  datatype ChangeClass = Added | Removed | Modified | Unchanged

  /** One reported difference; the wording of the report is left to the caller. */
  datatype Detail =
    | ResultTypes(before: seq<string>, after: seq<string>)
    | OperandCount(beforeCount: nat, afterCount: nat)
    | Attributes(beforeText: string, afterText: string)

  datatype OpChange = OpChange(
    kind: ChangeClass,
    before: Option<OpIdx>,
    after: Option<OpIdx>,
    beforeLines: Option<(nat, nat)>,
    afterLines: Option<(nat, nat)>,
    detail: seq<Detail>)

  datatype FunctionDiff = FunctionDiff(func: string, changes: seq<OpChange>)

  function Details(before: ParsedOp, after: ParsedOp): (r: seq<Detail>)
    ensures r == [] <==> (before.resultTypes == after.resultTypes
                          && |before.operands| == |after.operands|
                          && before.attrSummary == after.attrSummary)
  {
    (if before.resultTypes != after.resultTypes then [ResultTypes(before.resultTypes, after.resultTypes)] else [])
    + (if |before.operands| != |after.operands| then [OperandCount(|before.operands|, |after.operands|)] else [])
    + (if before.attrSummary != after.attrSummary then [Attributes(before.attrSummary, after.attrSummary)] else [])
  }

  function MatchedChange(before: ParsedModule, after: ParsedModule, b: OpIdx, a: OpIdx): OpChange
    requires b < |before.ops| && a < |after.ops|
  {
    var beforeOp, afterOp := before.ops[b], after.ops[a];
    var details := Details(beforeOp, afterOp);
    OpChange(if details == [] then Unchanged else Modified, Some(b), Some(a),
             Some((beforeOp.lineStart, beforeOp.lineEnd)), Some((afterOp.lineStart, afterOp.lineEnd)), details)
  }

  function AddedChange(after: ParsedModule, a: OpIdx): OpChange
    requires a < |after.ops|
  {
    OpChange(Added, None, Some(a), None, Some((after.ops[a].lineStart, after.ops[a].lineEnd)), [])
  }

  function RemovedChange(before: ParsedModule, b: OpIdx): OpChange
    requires b < |before.ops|
  {
    OpChange(Removed, Some(b), None, Some((before.ops[b].lineStart, before.ops[b].lineEnd)), None, [])
  }

  predicate PairsInBounds(before: ParsedModule, after: ParsedModule, pairs: seq<Pair>) {
    forall k :: 0 <= k < |pairs| ==>
      (pairs[k].0.Some? ==> pairs[k].0.value < |before.ops|) && (pairs[k].1.Some? ==> pairs[k].1.value < |after.ops|)
  }

  // ------------------------------------------------------------ bookkeeping

  /** Changes keyed by after operation, as the first `n` pairs leave them. */
  function ByAfter(before: ParsedModule, after: ParsedModule, pairs: seq<Pair>, n: nat): (r: map<OpIdx, OpChange>)
    requires n <= |pairs| && PairsInBounds(before, after, pairs)
    ensures forall a :: a in r ==> r[a].after == Some(a) && r[a].kind != Removed
  {
    if n == 0 then map[]
    else
      var sofar := ByAfter(before, after, pairs, n - 1);
      match pairs[n - 1]
      case (Some(b), Some(a)) => sofar[a := MatchedChange(before, after, b, a)]
      case (None, Some(a)) => sofar[a := AddedChange(after, a)]
      case _ => sofar
  }

  function RemovedIn(before: ParsedModule, after: ParsedModule, pairs: seq<Pair>, n: nat): (r: seq<OpChange>)
    requires n <= |pairs| && PairsInBounds(before, after, pairs)
    ensures forall k :: 0 <= k < |r| ==> r[k].kind == Removed && r[k].before.Some? && r[k].after.None?
  {
    if n == 0 then []
    else
      RemovedIn(before, after, pairs, n - 1) +
      if pairs[n - 1].0.Some? && pairs[n - 1].1.None? then [RemovedChange(before, pairs[n - 1].0.value)] else []
  }

  predicate IsRemoved(c: OpChange) {
    c.kind == Removed && c.before.Some? && c.after.None?
  }

  predicate AllRemoved(s: seq<OpChange>) {
    forall k :: 0 <= k < |s| ==> IsRemoved(s[k])
  }

  /** Stable insertion into a list ordered by before index. */
  function InsertRemoved(s: seq<OpChange>, c: OpChange): (r: seq<OpChange>)
    requires AllRemoved(s) && IsRemoved(c)
    ensures AllRemoved(r)
  {
    if s == [] then [c]
    else if s[|s| - 1].before.value <= c.before.value then s + [c]
    else InsertRemoved(s[..|s| - 1], c) + [s[|s| - 1]]
  }

  /** `sort_by_key` on the before index. */
  function SortRemoved(s: seq<OpChange>): (r: seq<OpChange>)
    requires AllRemoved(s)
    ensures AllRemoved(r)
  {
    if s == [] then [] else InsertRemoved(SortRemoved(s[..|s| - 1]), s[|s| - 1])
  }

  function InsertIndex(s: seq<OpIdx>, x: OpIdx): seq<OpIdx> {
    if s == [] then [x]
    else if s[|s| - 1] <= x then s + [x]
    else InsertIndex(s[..|s| - 1], x) + [s[|s| - 1]]
  }

  /** `sort_unstable` on indices. */
  function SortIndices(s: seq<OpIdx>): seq<OpIdx> {
    if s == [] then [] else InsertIndex(SortIndices(s[..|s| - 1]), s[|s| - 1])
  }

  /** The changes found when the after operations are taken out of the map in order. */
  function Drain(order: seq<OpIdx>, byAfter: map<OpIdx, OpChange>): (r: seq<OpChange>)
    requires forall a :: a in byAfter ==> byAfter[a].after == Some(a) && byAfter[a].kind != Removed
    ensures forall k :: 0 <= k < |r| ==> r[k].kind != Removed && r[k].after.Some?
  {
    if order == [] then []
    else if order[0] in byAfter then [byAfter[order[0]]] + Drain(order[1..], byAfter - {order[0]})
    else Drain(order[1..], byAfter)
  }

  predicate Precedes(removed: seq<OpChange>, next: OpChange)
    requires AllRemoved(removed)
  {
    removed != [] && next.before.Some? && removed[0].before.value < next.before.value
  }

  /** Every waiting removed operation goes ahead of the first change that passes it. */
  function Splice(kept: seq<OpChange>, removed: seq<OpChange>): (r: seq<OpChange>)
    requires AllRemoved(removed)
    decreases |kept| + |removed|
  {
    if kept == [] then removed
    else if Precedes(removed, kept[0]) then [removed[0]] + Splice(kept, removed[1..])
    else [kept[0]] + Splice(kept[1..], removed)
  }

  function ChangesFrom(before: ParsedModule, after: ParsedModule, pairs: seq<Pair>,
      afterOps: seq<OpIdx>): (r: seq<OpChange>)
    requires PairsInBounds(before, after, pairs)
  {
    Splice(Drain(SortIndices(afterOps), ByAfter(before, after, pairs, |pairs|)),
           SortRemoved(RemovedIn(before, after, pairs, |pairs|)))
  }

  function Pairing(before: ParsedModule, after: ParsedModule, func: string): (r: seq<Pair>)
    requires ScopesInBounds(before) && ScopesInBounds(after)
    ensures PairsInBounds(before, after, r)
  {
    var b, a := before.ScopeOps(func), after.ScopeOps(func);
    PairsStayInBounds(before, b, after, a);
    MatchedPairs(before, b, after, a)
  }

  predicate ScopesInBounds(m: ParsedModule) {
    forall f :: f in m.functions ==> InBounds(f.ops, |m.ops|)
  }

  lemma PairsStayInBounds(before: ParsedModule, b: seq<OpIdx>, after: ParsedModule, a: seq<OpIdx>)
    requires InBounds(b, |before.ops|) && InBounds(a, |after.ops|)
    ensures PairsInBounds(before, after, MatchedPairs(before, b, after, a))
  {
    var pairs := MatchedPairs(before, b, after, a);
    var m := Greedy(Fingerprints(before, b), Fingerprints(after, a));
    LeftoverBounded(a, m, |a|);
    forall k | 0 <= k < |pairs|
      ensures pairs[k].0.Some? ==> pairs[k].0.value < |before.ops|
      ensures pairs[k].1.Some? ==> pairs[k].1.value < |after.ops|
    {
      assert k >= |b| ==> pairs[k] in Leftover(a, m, |a|);
    }
  }

  lemma {:induction false} LeftoverBounded(afterOps: seq<OpIdx>, m: Matching, n: nat)
    requires n <= |afterOps|
    ensures forall p :: p in Leftover(afterOps, m, n) ==> p.0.None? && p.1.Some? && p.1.value in afterOps
  {
    if n > 0 {
      LeftoverBounded(afterOps, m, n - 1);
    }
  }

  function Difference(before: ParsedModule, after: ParsedModule, func: string): FunctionDiff
    requires ScopesInBounds(before) && ScopesInBounds(after)
  {
    if before.Scope(func).None? || after.Scope(func).None? then FunctionDiff(func, [])
    else FunctionDiff(func, ChangesFrom(before, after, Pairing(before, after, func), after.ScopeOps(func)))
  }

  /** The engine's diff: drains a map in after order, peeking at the removed queue. */
  method DiffFunction(before: ParsedModule, after: ParsedModule, func: string) returns (r: FunctionDiff)
    requires ScopesInBounds(before) && ScopesInBounds(after)
    ensures r == Difference(before, after, func)
  {
    if before.Scope(func).None? || after.Scope(func).None? {
      return FunctionDiff(func, []);
    }
    var afterOps := after.Scope(func).value.ops;
    var pairs := MatchOps(before, before.Scope(func).value.ops, after, afterOps);
    PairsStayInBounds(before, before.ScopeOps(func), after, afterOps);
    var byAfter, removed := SortPairs(before, after, pairs);
    var changes := SpliceRemoved(SortIndices(afterOps), byAfter, SortRemoved(removed));
    r := FunctionDiff(func, changes);
  }

  method SortPairs(before: ParsedModule, after: ParsedModule, pairs: seq<Pair>)
    returns (byAfter: map<OpIdx, OpChange>, removed: seq<OpChange>)
    requires PairsInBounds(before, after, pairs)
    ensures byAfter == ByAfter(before, after, pairs, |pairs|)
    ensures removed == RemovedIn(before, after, pairs, |pairs|)
  {
    byAfter, removed := map[], [];
    for n := 0 to |pairs|
      invariant byAfter == ByAfter(before, after, pairs, n)
      invariant removed == RemovedIn(before, after, pairs, n)
    {
      match pairs[n]
      case (Some(b), Some(a)) => byAfter := byAfter[a := MatchedChange(before, after, b, a)];
      case (None, Some(a)) => byAfter := byAfter[a := AddedChange(after, a)];
      case (Some(b), None) => removed := removed + [RemovedChange(before, b)];
      case (None, None) =>
    }
  }

  method SpliceRemoved(order: seq<OpIdx>, byAfter: map<OpIdx, OpChange>, removed: seq<OpChange>)
    returns (changes: seq<OpChange>)
    requires AllRemoved(removed)
    requires forall a :: a in byAfter ==> byAfter[a].after == Some(a) && byAfter[a].kind != Removed
    ensures changes == Splice(Drain(order, byAfter), removed)
  {
    changes := [];
    var left := byAfter;
    var next: nat := 0;
    ghost var goal := Splice(Drain(order, byAfter), removed);
    for i := 0 to |order|
      invariant left.Keys <= byAfter.Keys && forall a :: a in left ==> left[a] == byAfter[a]
      invariant next <= |removed|
      invariant changes + Splice(Drain(order[i..], left), removed[next..]) == goal
    {
      assert order[i..][1..] == order[i + 1..];
      if order[i] in left {
        ghost var rest := Drain(order[i..], left);
        var change := left[order[i]];
        left := left - {order[i]};
        assert rest == [change] + Drain(order[i + 1..], left);
        changes, next := PassRemoved(rest, change, removed, next, changes);
        assert rest[1..] == Drain(order[i + 1..], left);
        changes := changes + [change];
      }
    }
    changes := changes + removed[next..];
  }

  /** Emits the waiting removals whose before index the next kept change exceeds. */
  method PassRemoved(ghost kept: seq<OpChange>, change: OpChange, removed: seq<OpChange>, from: nat,
      sofar: seq<OpChange>)
    returns (changes: seq<OpChange>, next: nat)
    requires AllRemoved(removed) && from <= |removed| && kept != [] && kept[0] == change
    ensures next <= |removed| && !Precedes(removed[next..], change)
    ensures changes + Splice(kept, removed[next..]) == sofar + Splice(kept, removed[from..])
  {
    changes, next := sofar, from;
    if change.before.Some? {
      while next < |removed| && removed[next].before.value < change.before.value
        invariant next <= |removed|
        invariant changes + Splice(kept, removed[next..]) == sofar + Splice(kept, removed[from..])
      {
        assert removed[next..][1..] == removed[next + 1..];
        changes := changes + [removed[next]];
        next := next + 1;
      }
    }
  }

  // ---------------------------------------------------------------- sorting

  lemma InsertAbove(s: seq<OpIdx>, x: OpIdx)
    requires forall k :: 0 <= k < |s| ==> s[k] <= x
    ensures InsertIndex(s, x) == s + [x]
  {
  }

  /** Scope lists are already in order, so the sort leaves them alone. */
  lemma {:induction false} SortKeepsIncreasing(s: seq<OpIdx>)
    requires StrictlyIncreasing(s)
    ensures SortIndices(s) == s
  {
    if s != [] {
      SortKeepsIncreasing(s[..|s| - 1]);
      InsertAbove(s[..|s| - 1], s[|s| - 1]);
    }
  }

  predicate RemovedInOrder(s: seq<OpChange>) {
    AllRemoved(s) && forall i, j :: 0 <= i < j < |s| ==> s[i].before.value < s[j].before.value
  }

  lemma {:induction false} SortKeepsRemovedOrder(s: seq<OpChange>)
    requires RemovedInOrder(s)
    ensures SortRemoved(s) == s
  {
    if s != [] {
      SortKeepsRemovedOrder(s[..|s| - 1]);
    }
  }

  // ----------------------------------------------------------------- splice

  function Kept(changes: seq<OpChange>): (r: seq<OpChange>) {
    if changes == [] then []
    else (if changes[0].kind != Removed then [changes[0]] else []) + Kept(changes[1..])
  }

  function Dropped(changes: seq<OpChange>): (r: seq<OpChange>) {
    if changes == [] then []
    else (if changes[0].kind == Removed then [changes[0]] else []) + Dropped(changes[1..])
  }

  predicate NoneRemoved(s: seq<OpChange>) {
    forall k :: 0 <= k < |s| ==> s[k].kind != Removed
  }

  lemma {:induction false} KeptOfRemoved(removed: seq<OpChange>)
    requires AllRemoved(removed)
    ensures Kept(removed) == [] && Dropped(removed) == removed
  {
    if removed != [] {
      KeptOfRemoved(removed[1..]);
    }
  }

  /** Splicing interleaves: each side comes out whole and in its own order. */
  lemma {:induction false} SpliceInterleaves(kept: seq<OpChange>, removed: seq<OpChange>)
    requires NoneRemoved(kept) && AllRemoved(removed)
    ensures Kept(Splice(kept, removed)) == kept && Dropped(Splice(kept, removed)) == removed
    decreases |kept| + |removed|
  {
    var r := Splice(kept, removed);
    if kept == [] {
      KeptOfRemoved(removed);
    } else if Precedes(removed, kept[0]) {
      SpliceInterleaves(kept, removed[1..]);
      assert r[1..] == Splice(kept, removed[1..]);
    } else {
      SpliceInterleaves(kept[1..], removed);
      assert r[1..] == Splice(kept[1..], removed);
    }
  }

  lemma {:induction false} SpliceMembers(kept: seq<OpChange>, removed: seq<OpChange>)
    requires AllRemoved(removed)
    ensures forall c :: c in Splice(kept, removed) <==> c in kept || c in removed
    ensures forall p :: 0 <= p < |Splice(kept, removed)| ==>
      Splice(kept, removed)[p] in kept || Splice(kept, removed)[p] in removed
    ensures |Splice(kept, removed)| == |kept| + |removed|
    decreases |kept| + |removed|
  {
    if kept == [] {
    } else if Precedes(removed, kept[0]) {
      SpliceMembers(kept, removed[1..]);
    } else {
      SpliceMembers(kept[1..], removed);
    }
  }

  /** Nothing listed earlier comes from a later before operation. */
  predicate PassedBy(changes: seq<OpChange>, p: nat)
    requires p < |changes|
  {
    forall q :: 0 <= q < p && changes[q].before.Some? && changes[p].before.Some? ==>
      changes[q].before.value < changes[p].before.value
  }

  /** `q` is the first change after `p` that is not a removal. */
  predicate NextKept(changes: seq<OpChange>, p: nat, q: nat) {
    p < q < |changes| && changes[q].kind != Removed && forall k :: p < k < q ==> changes[k].kind == Removed
  }

  predicate FirstKept(changes: seq<OpChange>, q: nat) {
    q < |changes| && changes[q].kind != Removed && forall k :: 0 <= k < q ==> changes[k].kind == Removed
  }

  /** Nothing ahead of a removal comes from behind it. */
  predicate RemovalsInPlace(changes: seq<OpChange>) {
    forall p :: 0 <= p < |changes| && IsRemoved(changes[p]) ==> PassedBy(changes, p)
  }

  /** The first kept change after a removal has a larger before index. */
  ghost predicate RemovalsJustAhead(changes: seq<OpChange>) {
    forall p: nat, q: nat :: NextKept(changes, p, q) && IsRemoved(changes[p]) ==> Exceeds(changes[q], changes[p])
  }

  predicate Exceeds(c: OpChange, removal: OpChange)
    requires IsRemoved(removal)
  {
    c.before.Some? && removal.before.value < c.before.value
  }

  predicate BeforesDistinct(kept: seq<OpChange>, removed: seq<OpChange>)
    requires AllRemoved(removed)
  {
    forall i, j :: 0 <= i < |kept| && 0 <= j < |removed| ==> kept[i].before != removed[j].before
  }

  predicate HeadBelow(head: OpChange, removed: seq<OpChange>)
    requires AllRemoved(removed)
  {
    head.before.Some? ==> forall j :: 0 <= j < |removed| ==> head.before.value < removed[j].before.value
  }

  lemma HeadInPlace(head: OpChange, kept: seq<OpChange>, removed: seq<OpChange>)
    requires NoneRemoved(kept) && AllRemoved(removed) && HeadBelow(head, removed)
    requires RemovalsInPlace(Splice(kept, removed))
    ensures RemovalsInPlace([head] + Splice(kept, removed))
  {
    var rest := Splice(kept, removed);
    var r := [head] + rest;
    SpliceMembers(kept, removed);
    forall p | 0 <= p < |r| && IsRemoved(r[p])
      ensures PassedBy(r, p)
    {
      if p > 0 {
        assert PassedBy(rest, p - 1) && rest[p - 1] in removed;
        forall q | 0 <= q < p && r[q].before.Some? && r[p].before.Some?
          ensures r[q].before.value < r[p].before.value
        {
          if q > 0 { assert rest[q - 1] == r[q]; }
        }
      }
    }
  }

  lemma {:induction false} SpliceInPlace(kept: seq<OpChange>, removed: seq<OpChange>)
    requires NoneRemoved(kept) && RemovedInOrder(removed) && BeforesDistinct(kept, removed)
    ensures RemovalsInPlace(Splice(kept, removed))
    decreases |kept| + |removed|
  {
    if kept == [] {
    } else if Precedes(removed, kept[0]) {
      SpliceInPlace(kept, removed[1..]);
      HeadInPlace(removed[0], kept, removed[1..]);
    } else {
      SpliceInPlace(kept[1..], removed);
      HeadInPlace(kept[0], kept[1..], removed);
    }
  }

  lemma {:induction false} FirstKeptOfSplice(kept: seq<OpChange>, removed: seq<OpChange>, q: nat)
    requires AllRemoved(removed) && FirstKept(Splice(kept, removed), q)
    ensures kept != [] && (NoneRemoved(kept) ==> Splice(kept, removed)[q] == kept[0])
    decreases |removed|
  {
    if kept == [] {
    } else if Precedes(removed, kept[0]) {
      assert forall k :: 0 <= k < q - 1 ==> Splice(kept, removed[1..])[k] == Splice(kept, removed)[k + 1];
      FirstKeptOfSplice(kept, removed[1..], q - 1);
      assert Splice(kept, removed)[q] == Splice(kept, removed[1..])[q - 1];
    } else {
      assert Splice(kept, removed)[0] == kept[0];
    }
  }

  lemma NextShifts(head: OpChange, rest: seq<OpChange>, p: nat, q: nat)
    requires NextKept([head] + rest, p, q)
    ensures if p == 0 then FirstKept(rest, q - 1) else NextKept(rest, p - 1, q - 1)
  {
    var r := [head] + rest;
    assert rest[q - 1] == r[q];
    forall k | p <= k < q - 1
      ensures rest[k].kind == Removed
    {
      assert rest[k] == r[k + 1];
    }
  }

  lemma HeadJustAhead(head: OpChange, rest: seq<OpChange>)
    requires RemovalsJustAhead(rest)
    requires IsRemoved(head) ==> forall q: nat :: FirstKept(rest, q) ==> Exceeds(rest[q], head)
    ensures RemovalsJustAhead([head] + rest)
  {
    var r := [head] + rest;
    forall p: nat, q: nat | NextKept(r, p, q) && IsRemoved(r[p])
      ensures Exceeds(r[q], r[p])
    {
      NextShifts(head, rest, p, q);
    }
  }

  lemma {:induction false} SpliceJustAhead(kept: seq<OpChange>, removed: seq<OpChange>)
    requires NoneRemoved(kept) && AllRemoved(removed)
    ensures RemovalsJustAhead(Splice(kept, removed))
    decreases |kept| + |removed|
  {
    if kept == [] {
    } else if Precedes(removed, kept[0]) {
      var rest := Splice(kept, removed[1..]);
      SpliceJustAhead(kept, removed[1..]);
      forall q: nat | FirstKept(rest, q)
        ensures Exceeds(rest[q], removed[0])
      {
        FirstKeptOfSplice(kept, removed[1..], q);
      }
      HeadJustAhead(removed[0], rest);
    } else {
      SpliceJustAhead(kept[1..], removed);
      HeadJustAhead(kept[0], Splice(kept[1..], removed));
    }
  }

  // --------------------------------------------------------------- the laws

  /** The change a pair turns into. */
  function ChangeOf(before: ParsedModule, after: ParsedModule, p: Pair): OpChange
    requires p.0.Some? ==> p.0.value < |before.ops|
    requires p.1.Some? ==> p.1.value < |after.ops|
    requires p.0.Some? || p.1.Some?
  {
    match p
    case (Some(b), Some(a)) => MatchedChange(before, after, b, a)
    case (None, Some(a)) => AddedChange(after, a)
    case (Some(b), None) => RemovedChange(before, b)
  }

  /** With every after operation in one pair, the map keeps each pair's change. */
  lemma {:induction false} ByAfterLookup(before: ParsedModule, after: ParsedModule, pairs: seq<Pair>, n: nat)
    requires n <= |pairs| && PairsInBounds(before, after, pairs)
    requires forall k, l :: 0 <= k < l < |pairs| && pairs[k].1.Some? ==> pairs[k].1 != pairs[l].1
    ensures forall k :: 0 <= k < n && pairs[k].1.Some? ==>
      pairs[k].1.value in ByAfter(before, after, pairs, n)
      && ByAfter(before, after, pairs, n)[pairs[k].1.value] == ChangeOf(before, after, pairs[k])
  {
    if n > 0 {
      ByAfterLookup(before, after, pairs, n - 1);
    }
  }

  lemma {:induction false} RemovedInLists(before: ParsedModule, after: ParsedModule, pairs: seq<Pair>, n: nat)
    requires n <= |pairs| && PairsInBounds(before, after, pairs)
    ensures forall k :: 0 <= k < n && pairs[k].0.Some? && pairs[k].1.None? ==>
      RemovedChange(before, pairs[k].0.value) in RemovedIn(before, after, pairs, n)
    ensures forall c :: c in RemovedIn(before, after, pairs, n) ==>
      exists k :: 0 <= k < n && pairs[k].0.Some? && pairs[k].1.None? && c == RemovedChange(before, pairs[k].0.value)
  {
    if n > 0 {
      RemovedInLists(before, after, pairs, n - 1);
    }
  }

  /** The matcher lists before operations in ascending order, so removals come out ascending. */
  lemma {:induction false} RemovedInAscends(before: ParsedModule, after: ParsedModule, pairs: seq<Pair>, n: nat)
    requires n <= |pairs| && PairsInBounds(before, after, pairs)
    requires forall k, l :: 0 <= k < l < |pairs| && pairs[k].0.Some? && pairs[l].0.Some? ==>
      pairs[k].0.value < pairs[l].0.value
    ensures RemovedInOrder(RemovedIn(before, after, pairs, n))
  {
    if n > 0 {
      RemovedInAscends(before, after, pairs, n - 1);
      RemovedInLists(before, after, pairs, n - 1);
      var sofar := RemovedIn(before, after, pairs, n - 1);
      forall i | 0 <= i < |sofar| && pairs[n - 1].0.Some?
        ensures sofar[i].before.value < pairs[n - 1].0.value
      {
        assert sofar[i] in sofar;
      }
    }
  }

  /** Draining in order reads the map off, one change per operation. */
  lemma {:induction false} DrainReadsOff(order: seq<OpIdx>, byAfter: map<OpIdx, OpChange>)
    requires forall a :: a in byAfter ==> byAfter[a].after == Some(a) && byAfter[a].kind != Removed
    requires StrictlyIncreasing(order) && forall i :: 0 <= i < |order| ==> order[i] in byAfter
    ensures |Drain(order, byAfter)| == |order|
    ensures forall i :: 0 <= i < |order| ==> Drain(order, byAfter)[i] == byAfter[order[i]]
  {
    if order != [] {
      DrainReadsOff(order[1..], byAfter - {order[0]});
    }
  }

  function BeforeFields(changes: seq<OpChange>): (r: seq<Option<OpIdx>>)
    ensures |r| == |changes|
  {
    seq(|changes|, k requires 0 <= k < |changes| => changes[k].before)
  }

  function AfterFields(changes: seq<OpChange>): (r: seq<Option<OpIdx>>)
    ensures |r| == |changes|
  {
    seq(|changes|, k requires 0 <= k < |changes| => changes[k].after)
  }

  /** What a diff of two scopes reports: the pairs' own changes, each of them. */
  ghost predicate Reports(before: ParsedModule, after: ParsedModule, pairs: seq<Pair>, changes: seq<OpChange>)
    requires PairsInBounds(before, after, pairs)
  {
    && (forall p :: p in pairs && (p.0.Some? || p.1.Some?) ==> ChangeOf(before, after, p) in changes)
    && (forall c :: c in changes ==> exists p :: p in pairs && (p.0.Some? || p.1.Some?) && c == ChangeOf(before,
         after, p))
  }

  predicate KeptInOrder(kept: seq<OpChange>, afterOps: seq<OpIdx>) {
    |kept| == |afterOps| && forall i :: 0 <= i < |kept| ==> kept[i].after == Some(afterOps[i])
  }

  /** What the matcher guarantees about its pairs, whatever it chose. */
  ghost predicate Conserving(pairs: seq<Pair>, b: seq<OpIdx>, a: seq<OpIdx>) {
    && StrictlyIncreasing(a)
    && ListsOnce(Befores(pairs), b) && ListsOnce(Afters(pairs), a)
    && (forall p :: p in pairs ==> p.0.Some? || p.1.Some?)
    && (forall k, l :: 0 <= k < l < |pairs| && pairs[k].0.Some? && pairs[l].0.Some? ==>
         pairs[k].0.value < pairs[l].0.value)
  }

  lemma PairingConserves(before: ParsedModule, after: ParsedModule, func: string)
    requires WellFormed(before) && WellFormed(after)
    ensures Conserving(Pairing(before, after, func), before.ScopeOps(func), after.ScopeOps(func))
  {
    MatchConserves(before, before.ScopeOps(func), after, after.ScopeOps(func));
    PairsAscend(before, before.ScopeOps(func), after, after.ScopeOps(func));
  }

  /** The kept stream is the after scope, read off the map. */
  lemma KeptStream(before: ParsedModule, after: ParsedModule, pairs: seq<Pair>, a: seq<OpIdx>)
    requires PairsInBounds(before, after, pairs) && StrictlyIncreasing(a) && ListsOnce(Afters(pairs), a)
    ensures var byAfter := ByAfter(before, after, pairs, |pairs|);
      var kept := Drain(SortIndices(a), byAfter);
      && |kept| == |a| && forall i :: 0 <= i < |a| ==> a[i] in byAfter && kept[i] == byAfter[a[i]]
  {
    var byAfter := ByAfter(before, after, pairs, |pairs|);
    SortKeepsIncreasing(a);
    AftersDistinct(pairs, a);
    ByAfterLookup(before, after, pairs, |pairs|);
    forall i | 0 <= i < |a|
      ensures a[i] in byAfter
    {
      var k := PairOfAfter(pairs, a, a[i]);
    }
    DrainReadsOff(a, byAfter);
  }

  /** The two ordered streams the splice works on, for scopes the parser produced. */
  lemma Streams(before: ParsedModule, after: ParsedModule, pairs: seq<Pair>, b: seq<OpIdx>, a: seq<OpIdx>)
    returns (kept: seq<OpChange>, removed: seq<OpChange>)
    requires PairsInBounds(before, after, pairs) && Conserving(pairs, b, a)
    ensures RemovedInOrder(removed) && KeptInOrder(kept, a) && NoneRemoved(kept) && BeforesDistinct(kept, removed)
    ensures ChangesFrom(before, after, pairs, a) == Splice(kept, removed)
    ensures Reports(before, after, pairs, kept + removed)
  {
    RemovedInAscends(before, after, pairs, |pairs|);
    SortKeepsRemovedOrder(RemovedIn(before, after, pairs, |pairs|));
    KeptStream(before, after, pairs, a);
    AftersDistinct(pairs, a);
    kept := Drain(SortIndices(a), ByAfter(before, after, pairs, |pairs|));
    removed := RemovedIn(before, after, pairs, |pairs|);
    StreamsReport(before, after, pairs, a, kept, removed);
    StreamsDistinct(before, after, pairs, b, kept, removed);
  }

  lemma PairsAscend(before: ParsedModule, b: seq<OpIdx>, after: ParsedModule, a: seq<OpIdx>)
    requires InBounds(b, |before.ops|) && InBounds(a, |after.ops|) && StrictlyIncreasing(b)
    ensures var pairs := MatchedPairs(before, b, after, a);
      forall k, l :: 0 <= k < l < |pairs| && pairs[k].0.Some? && pairs[l].0.Some? ==>
        pairs[k].0.value < pairs[l].0.value
  {
    var pairs := MatchedPairs(before, b, after, a);
    var m := Greedy(Fingerprints(before, b), Fingerprints(after, a));
    LeftoverHasNoBefore(a, m, |a|);
    assert forall k :: |b| <= k < |pairs| ==> pairs[k] in Leftover(a, m, |a|);
  }

  lemma AftersDistinct(pairs: seq<Pair>, a: seq<OpIdx>)
    requires ListsOnce(Afters(pairs), a)
    ensures forall k, l :: 0 <= k < l < |pairs| && pairs[k].1.Some? ==> pairs[k].1 != pairs[l].1
  {
    assert forall k :: 0 <= k < |pairs| ==> Afters(pairs)[k] == pairs[k].1;
  }

  lemma PairOfAfter(pairs: seq<Pair>, a: seq<OpIdx>, x: OpIdx) returns (k: nat)
    requires ListsOnce(Afters(pairs), a) && x in a
    ensures k < |pairs| && pairs[k].1 == Some(x)
  {
    assert Some(x) in Afters(pairs);
    k :| 0 <= k < |pairs| && Afters(pairs)[k] == Some(x);
  }

  lemma StreamsReport(before: ParsedModule, after: ParsedModule, pairs: seq<Pair>, a: seq<OpIdx>, kept: seq<OpChange>,
      removed: seq<OpChange>)
    requires PairsInBounds(before, after, pairs) && ListsOnce(Afters(pairs), a) && |kept| == |a|
    requires forall k, l :: 0 <= k < l < |pairs| && pairs[k].1.Some? ==> pairs[k].1 != pairs[l].1
    requires forall i :: 0 <= i < |a| ==>
      a[i] in ByAfter(before, after, pairs, |pairs|) && kept[i] == ByAfter(before, after, pairs, |pairs|)[a[i]]
    requires removed == RemovedIn(before, after, pairs, |pairs|)
    ensures Reports(before, after, pairs, kept + removed)
  {
    ByAfterLookup(before, after, pairs, |pairs|);
    RemovedInLists(before, after, pairs, |pairs|);
    forall p | p in pairs && (p.0.Some? || p.1.Some?)
      ensures ChangeOf(before, after, p) in kept + removed
    {
      var k :| 0 <= k < |pairs| && pairs[k] == p;
      if p.1.Some? {
        assert Afters(pairs)[k] == Some(p.1.value);
        var i :| 0 <= i < |a| && a[i] == p.1.value;
        assert kept[i] == ChangeOf(before, after, p);
      }
    }
    forall c | c in kept + removed
      ensures exists p :: p in pairs && (p.0.Some? || p.1.Some?) && c == ChangeOf(before, after, p)
    {
      if c in kept {
        var i :| 0 <= i < |kept| && kept[i] == c;
        var k := PairOfAfter(pairs, a, a[i]);
        assert pairs[k] in pairs && c == ChangeOf(before, after, pairs[k]);
      } else {
        var k :| 0 <= k < |pairs| && pairs[k].0.Some? && pairs[k].1.None?
          && c == RemovedChange(before, pairs[k].0.value);
        assert pairs[k] in pairs && c == ChangeOf(before, after, pairs[k]);
      }
    }
  }

  /** Every reported change names the two sides of one pair. */
  lemma Origin(before: ParsedModule, after: ParsedModule, pairs: seq<Pair>, changes: seq<OpChange>, c: OpChange)
    returns (k: nat)
    requires PairsInBounds(before, after, pairs) && Reports(before, after, pairs, changes) && c in changes
    ensures k < |pairs| && pairs[k] == (c.before, c.after) && Befores(pairs)[k] == c.before
      && Afters(pairs)[k] == c.after
  {
    var p :| p in pairs && (p.0.Some? || p.1.Some?) && c == ChangeOf(before, after, p);
    k :| 0 <= k < |pairs| && pairs[k] == p;
  }

  lemma StreamsDistinct(before: ParsedModule, after: ParsedModule, pairs: seq<Pair>, b: seq<OpIdx>, kept: seq<OpChange>,
      removed: seq<OpChange>)
    requires PairsInBounds(before, after, pairs) && ListsOnce(Befores(pairs), b)
    requires AllRemoved(removed) && forall i :: 0 <= i < |kept| ==> kept[i].after.Some?
    requires Reports(before, after, pairs, kept + removed)
    ensures BeforesDistinct(kept, removed)
  {
    forall i, j | 0 <= i < |kept| && 0 <= j < |removed|
      ensures kept[i].before != removed[j].before
    {
      var k := Origin(before, after, pairs, kept + removed, kept[i]);
      var l := Origin(before, after, pairs, kept + removed, removed[j]);
    }
  }

  /**
   * The shape of every diff: the kept changes are the after scope in order, the removed ones ascend,
   * and each removal stands just ahead of the first change whose before index exceeds it.
   */
  lemma DiffOrderLaw(before: ParsedModule, after: ParsedModule, func: string)
    requires WellFormed(before) && WellFormed(after) && before.Scope(func).Some? && after.Scope(func).Some?
    ensures var changes := Difference(before, after, func).changes;
      && KeptInOrder(Kept(changes), after.ScopeOps(func))
      && RemovedInOrder(Dropped(changes))
      && RemovalsInPlace(changes) && RemovalsJustAhead(changes)
  {
    var b, a := before.ScopeOps(func), after.ScopeOps(func);
    PairingConserves(before, after, func);
    var kept, removed := Streams(before, after, Pairing(before, after, func), b, a);
    SpliceInterleaves(kept, removed);
    SpliceInPlace(kept, removed);
    SpliceJustAhead(kept, removed);
  }

  /** Each operation of either scope is in one change, and each change is some pair's own. */
  lemma DiffConserves(before: ParsedModule, after: ParsedModule, func: string)
    requires WellFormed(before) && WellFormed(after) && before.Scope(func).Some? && after.Scope(func).Some?
    ensures var changes := Difference(before, after, func).changes;
      && ListsOnce(BeforeFields(changes), before.ScopeOps(func))
      && ListsOnce(AfterFields(changes), after.ScopeOps(func))
      && Reports(before, after, Pairing(before, after, func), changes)
  {
    PairingConserves(before, after, func);
    ChangesConserve(before, after, Pairing(before, after, func), before.ScopeOps(func), after.ScopeOps(func));
  }

  lemma ChangesConserve(before: ParsedModule, after: ParsedModule, pairs: seq<Pair>, b: seq<OpIdx>, a: seq<OpIdx>)
    requires PairsInBounds(before, after, pairs) && Conserving(pairs, b, a)
    ensures var changes := ChangesFrom(before, after, pairs, a);
      && ListsOnce(BeforeFields(changes), b) && ListsOnce(AfterFields(changes), a)
      && Reports(before, after, pairs, changes)
  {
    var kept, removed := Streams(before, after, pairs, b, a);
    var changes := Splice(kept, removed);
    SpliceMembers(kept, removed);
    SameMembersReport(before, after, pairs, kept + removed, changes);
    StreamsDiffer(before, after, pairs, b, a, kept, removed);
    FieldsComplete(before, after, pairs, b, a, changes);
    FieldsDistinct(changes);
  }

  lemma SameMembersReport(before: ParsedModule, after: ParsedModule, pairs: seq<Pair>, s: seq<OpChange>,
      t: seq<OpChange>)
    requires PairsInBounds(before, after, pairs) && Reports(before, after, pairs, s)
    requires forall c :: c in t <==> c in s
    ensures Reports(before, after, pairs, t)
  {
  }

  lemma FieldsDistinct(changes: seq<OpChange>)
    requires AllDiffer(changes)
    ensures var s := BeforeFields(changes);
      forall k, l :: 0 <= k < l < |s| && s[k].Some? ==> s[k] != s[l]
    ensures var s := AfterFields(changes);
      forall k, l :: 0 <= k < l < |s| && s[k].Some? ==> s[k] != s[l]
  {
  }

  lemma FieldsComplete(before: ParsedModule, after: ParsedModule, pairs: seq<Pair>, b: seq<OpIdx>, a: seq<OpIdx>,
      changes: seq<OpChange>)
    requires PairsInBounds(before, after, pairs) && Conserving(pairs, b, a) && Reports(before, after, pairs, changes)
    ensures forall op :: op in b <==> Some(op) in BeforeFields(changes)
    ensures forall op :: op in a <==> Some(op) in AfterFields(changes)
  {
    forall op
      ensures Some(op) in Befores(pairs) <==> Some(op) in BeforeFields(changes)
      ensures Some(op) in Afters(pairs) <==> Some(op) in AfterFields(changes)
    {
      forall k | 0 <= k < |pairs|
        ensures Befores(pairs)[k] in BeforeFields(changes) && Afters(pairs)[k] in AfterFields(changes)
      {
        assert pairs[k] in pairs;
        var i :| 0 <= i < |changes| && changes[i] == ChangeOf(before, after, pairs[k]);
        assert BeforeFields(changes)[i] == pairs[k].0 && AfterFields(changes)[i] == pairs[k].1;
      }
      forall i | 0 <= i < |changes|
        ensures BeforeFields(changes)[i] in Befores(pairs) && AfterFields(changes)[i] in Afters(pairs)
      {
        assert changes[i] in changes;
        var k := Origin(before, after, pairs, changes, changes[i]);
      }
    }
  }

  /** No before operation and no after operation is shared. */
  predicate Differ(c: OpChange, d: OpChange) {
    && (c.before.Some? ==> c.before != d.before)
    && (c.after.Some? ==> c.after != d.after)
  }

  predicate AllDiffer(s: seq<OpChange>) {
    forall i, j :: 0 <= i < j < |s| ==> Differ(s[i], s[j])
  }

  lemma PrependDiffers(c: OpChange, rest: seq<OpChange>)
    requires AllDiffer(rest) && forall d :: d in rest ==> Differ(c, d)
    ensures AllDiffer([c] + rest)
  {
  }

  lemma TailDiffers(s: seq<OpChange>)
    requires AllDiffer(s) && s != []
    ensures AllDiffer(s[1..]) && forall d :: d in s[1..] ==> Differ(s[0], d)
  {
  }

  lemma {:induction false} SpliceStaysDistinct(kept: seq<OpChange>, removed: seq<OpChange>)
    requires AllRemoved(removed) && AllDiffer(kept) && AllDiffer(removed)
    requires forall c, d :: c in kept && d in removed ==> Differ(c, d) && Differ(d, c)
    ensures AllDiffer(Splice(kept, removed))
    decreases |kept| + |removed|
  {
    if kept == [] {
    } else if Precedes(removed, kept[0]) {
      TailDiffers(removed);
      SpliceStaysDistinct(kept, removed[1..]);
      SpliceMembers(kept, removed[1..]);
      assert removed[0] in removed;
      PrependDiffers(removed[0], Splice(kept, removed[1..]));
    } else {
      TailDiffers(kept);
      SpliceStaysDistinct(kept[1..], removed);
      SpliceMembers(kept[1..], removed);
      assert kept[0] in kept;
      PrependDiffers(kept[0], Splice(kept[1..], removed));
    }
  }

  lemma StreamsDiffer(before: ParsedModule, after: ParsedModule, pairs: seq<Pair>, b: seq<OpIdx>, a: seq<OpIdx>,
      kept: seq<OpChange>, removed: seq<OpChange>)
    requires PairsInBounds(before, after, pairs) && Conserving(pairs, b, a)
    requires RemovedInOrder(removed) && KeptInOrder(kept, a) && BeforesDistinct(kept, removed)
    requires Reports(before, after, pairs, kept + removed)
    ensures AllDiffer(Splice(kept, removed))
  {
    forall i, j | 0 <= i < j < |kept|
      ensures Differ(kept[i], kept[j])
    {
      var k := Origin(before, after, pairs, kept + removed, kept[i]);
      var l := Origin(before, after, pairs, kept + removed, kept[j]);
      assert k != l;
    }
    SpliceStaysDistinct(kept, removed);
  }

  predicate FromMatch(c: OpChange) {
    c.kind != Removed && c.before.Some?
  }

  /** The matching keeps the relative order of the operations it pairs. */
  predicate Monotone(changes: seq<OpChange>) {
    forall p, q :: 0 <= p < q < |changes| && FromMatch(changes[p]) && FromMatch(changes[q]) ==>
      changes[p].before.value < changes[q].before.value
  }

  lemma {:induction false} SomeNextKept(changes: seq<OpChange>, p: nat, q: nat) returns (n: nat)
    requires p < q < |changes| && changes[q].kind != Removed
    ensures NextKept(changes, p, n) && n <= q
    decreases q - p
  {
    if changes[p + 1].kind != Removed {
      n := p + 1;
    } else {
      n := SomeNextKept(changes, p + 1, q);
    }
  }

  /** A monotone matching makes the whole diff ascend on the before side too. */
  lemma MonotoneDiffAscends(before: ParsedModule, after: ParsedModule, func: string, p: nat, q: nat)
    requires WellFormed(before) && WellFormed(after) && before.Scope(func).Some? && after.Scope(func).Some?
    requires Monotone(Difference(before, after, func).changes)
    requires p < q < |Difference(before, after, func).changes|
    requires Difference(before, after, func).changes[p].before.Some?
      && Difference(before, after, func).changes[q].before.Some?
    ensures Difference(before, after, func).changes[p].before.value < Difference(before, after,
      func).changes[q].before.value
  {
    var changes := Difference(before, after, func).changes;
    DiffOrderLaw(before, after, func);
    DiffConserves(before, after, func);
    ReportedKinds(before, after, Pairing(before, after, func), changes);
    PlacedAscends(changes, p, q);
  }

  lemma ReportedKinds(before: ParsedModule, after: ParsedModule, pairs: seq<Pair>, changes: seq<OpChange>)
    requires PairsInBounds(before, after, pairs) && Reports(before, after, pairs, changes)
    ensures forall i :: 0 <= i < |changes| ==> (changes[i].kind == Removed <==> IsRemoved(changes[i]))
  {
    forall i | 0 <= i < |changes|
      ensures changes[i].kind == Removed <==> IsRemoved(changes[i])
    {
      assert changes[i] in changes;
    }
  }

  lemma PlacedAscends(changes: seq<OpChange>, p: nat, q: nat)
    requires RemovalsInPlace(changes) && RemovalsJustAhead(changes) && Monotone(changes)
    requires forall i :: 0 <= i < |changes| ==> (changes[i].kind == Removed <==> IsRemoved(changes[i]))
    requires p < q < |changes| && changes[p].before.Some? && changes[q].before.Some?
    ensures changes[p].before.value < changes[q].before.value
  {
    if changes[q].kind == Removed {
      assert PassedBy(changes, q);
    } else if changes[p].kind == Removed {
      var n := SomeNextKept(changes, p, q);
      assert Exceeds(changes[n], changes[p]);
    }
  }

  // --------------------------------------------------- the no-op shortcut

  function UnchangedOp(m: ParsedModule, op: OpIdx): OpChange
    requires op < |m.ops|
  {
    var lines := Some((m.ops[op].lineStart, m.ops[op].lineEnd));
    OpChange(Unchanged, Some(op), Some(op), lines, lines, [])
  }

  /** The answer the server gives without diffing when both snapshots are one blob. */
  function IdenticalBlobDiff(m: ParsedModule, func: string): FunctionDiff
    requires ScopesInBounds(m)
  {
    var ops := m.ScopeOps(func);
    FunctionDiff(func, seq(|ops|, i requires 0 <= i < |ops| => UnchangedOp(m, ops[i])))
  }

  /** The shortcut answers exactly what matching and diffing the module against itself would. */
  lemma ShortcutRefinesDiff(m: ParsedModule, func: string)
    requires WellFormed(m)
    ensures IdenticalBlobDiff(m, func) == Difference(m, m, func)
  {
    if m.Scope(func).Some? {
      var ops := m.ScopeOps(func);
      var pairs := Pairing(m, m, func);
      MatchWithItself(m, ops);
      PairingConserves(m, m, func);
      ShortcutOnPairs(m, pairs, ops);
    }
  }

  lemma ShortcutOnPairs(m: ParsedModule, pairs: seq<Pair>, ops: seq<OpIdx>)
    requires InBounds(ops, |m.ops|) && PairsInBounds(m, m, pairs) && Conserving(pairs, ops, ops)
    requires pairs == seq(|ops|, i requires 0 <= i < |ops| => (Some(ops[i]), Some(ops[i])))
    ensures ChangesFrom(m, m, pairs, ops) == seq(|ops|, i requires 0 <= i < |ops| => UnchangedOp(m, ops[i]))
  {
    KeptStream(m, m, pairs, ops);
    AftersDistinct(pairs, ops);
    ByAfterLookup(m, m, pairs, |pairs|);
    NothingRemoved(m, m, pairs, |pairs|);
    var kept := Drain(SortIndices(ops), ByAfter(m, m, pairs, |pairs|));
    forall i | 0 <= i < |ops|
      ensures kept[i] == UnchangedOp(m, ops[i])
    {
      assert pairs[i].1.value == ops[i];
    }
    SpliceNothing(kept);
  }

  lemma {:induction false} NothingRemoved(before: ParsedModule, after: ParsedModule, pairs: seq<Pair>, n: nat)
    requires n <= |pairs| && PairsInBounds(before, after, pairs)
    requires forall k :: 0 <= k < |pairs| ==> pairs[k].1.Some?
    ensures RemovedIn(before, after, pairs, n) == []
  {
    if n > 0 {
      NothingRemoved(before, after, pairs, n - 1);
    }
  }

  lemma {:induction false} SpliceNothing(kept: seq<OpChange>)
    ensures Splice(kept, []) == kept
  {
    if kept != [] {
      SpliceNothing(kept[1..]);
    }
  }
}
