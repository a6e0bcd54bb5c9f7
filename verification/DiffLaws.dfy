// What each change of a diff says, in terms of the two operations it reports.
module DiffLaws {
  import opened Model
  import opened Matcher
  import opened Diff

  /** The lines an operation takes. */
  predicate LinesTell(op: ParsedOp, lines: Option<(nat, nat)>) {
    lines.Some? && lines.value.0 == op.lineStart && lines.value.1 == op.lineEnd
  }

  /** A detail is one of the three ways the two operations differ, with what each of them has. */
  predicate DetailTells(before: ParsedOp, after: ParsedOp, d: Detail) {
    match d
    case ResultTypes(b, a) => b == before.resultTypes && a == after.resultTypes && b != a
    case OperandCount(b, a) => b == |before.operands| && a == |after.operands| && b != a
    case Attributes(b, a) => b == before.attrSummary && a == after.attrSummary && b != a
  }

  function Rank(d: Detail): nat {
    match d case ResultTypes(_, _) => 0 case OperandCount(_, _) => 1 case Attributes(_, _) => 2
  }

  /** Every difference is told once, types before operands before attributes, and nothing else is. */
  ghost predicate DetailsTell(before: ParsedOp, after: ParsedOp, details: seq<Detail>) {
    && (forall d :: d in details <==> DetailTells(before, after, d))
    && (forall i, j :: 0 <= i < j < |details| ==> Rank(details[i]) < Rank(details[j]))
  }

  /** What a change says of its two operations. */
  ghost predicate ChangeTells(before: ParsedModule, after: ParsedModule, c: OpChange) {
    && (c.before.Some? ==> c.before.value < |before.ops| && LinesTell(before.ops[c.before.value], c.beforeLines))
    && (c.after.Some? ==> c.after.value < |after.ops| && LinesTell(after.ops[c.after.value], c.afterLines))
    && (c.before.None? ==> c.kind == Added && c.beforeLines.None? && c.detail == [] && c.after.Some?)
    && (c.after.None? ==> c.kind == Removed && c.afterLines.None? && c.detail == [])
    && (c.before.Some? && c.after.Some? ==>
         && DetailsTell(before.ops[c.before.value], after.ops[c.after.value], c.detail)
         && c.kind == if c.detail == [] then Unchanged else Modified)
  }

  lemma DetailsAreTold(before: ParsedOp, after: ParsedOp)
    ensures DetailsTell(before, after, Details(before, after))
  {
    var types := if before.resultTypes != after.resultTypes then [ResultTypes(before.resultTypes, after.resultTypes)]
      else [];
    var operands := if |before.operands| != |after.operands| then [OperandCount(|before.operands|, |after.operands|)]
      else [];
    var text := if before.attrSummary != after.attrSummary then [Attributes(before.attrSummary, after.attrSummary)]
      else [];
    assert Details(before, after) == types + operands + text;
    forall d
      ensures d in types + operands + text <==> DetailTells(before, after, d)
    {
      assert d in types <==> d.ResultTypes? && DetailTells(before, after, d);
      assert d in operands <==> d.OperandCount? && DetailTells(before, after, d);
      assert d in text <==> d.Attributes? && DetailTells(before, after, d);
    }
  }

  lemma ChangeOfTells(before: ParsedModule, after: ParsedModule, p: Pair)
    requires p.0.Some? ==> p.0.value < |before.ops|
    requires p.1.Some? ==> p.1.value < |after.ops|
    requires p.0.Some? || p.1.Some?
    ensures ChangeTells(before, after, ChangeOf(before, after, p))
    ensures ChangeOf(before, after, p).before == p.0 && ChangeOf(before, after, p).after == p.1
  {
    if p.0.Some? && p.1.Some? {
      DetailsAreTold(before.ops[p.0.value], after.ops[p.1.value]);
    }
  }

  /** Each change of a diff tells its own pair of operations, which the matcher paired or left alone. */
  lemma DiffTells(before: ParsedModule, after: ParsedModule, func: string, c: OpChange)
    requires WellFormed(before) && WellFormed(after) && c in Difference(before, after, func).changes
    ensures ChangeTells(before, after, c) && (c.before, c.after) in Pairing(before, after, func)
  {
    DiffConserves(before, after, func);
    var p :| p in Pairing(before, after, func) && (p.0.Some? || p.1.Some?) && c == ChangeOf(before, after, p);
    ChangeOfTells(before, after, p);
  }

  predicate RemovedAscend(s: seq<OpChange>)
    requires AllRemoved(s)
  {
    forall i, j :: 0 <= i < j < |s| ==> s[i].before.value <= s[j].before.value
  }

  lemma {:induction false} InsertRemovedTells(s: seq<OpChange>, c: OpChange)
    requires AllRemoved(s) && IsRemoved(c) && RemovedAscend(s)
    ensures RemovedAscend(InsertRemoved(s, c)) && multiset(InsertRemoved(s, c)) == multiset(s) + multiset{c}
  {
    if s != [] {
      var front, last := s[..|s| - 1], s[|s| - 1];
      assert s == front + [last];
      if last.before.value > c.before.value {
        InsertRemovedTells(front, c);
        var r := InsertRemoved(front, c);
        forall i | 0 <= i < |r|
          ensures r[i].before.value <= last.before.value
        {
          assert r[i] in multiset(r);
          assert r[i] == c || r[i] in front;
        }
      }
    }
  }

  /** The queue of removals is in the order of their before indices, whatever order the pairs had, and none is lost. */
  lemma {:induction false} RemovedAreSorted(s: seq<OpChange>)
    requires AllRemoved(s)
    ensures RemovedAscend(SortRemoved(s)) && multiset(SortRemoved(s)) == multiset(s)
  {
    if s != [] {
      assert s == s[..|s| - 1] + [s[|s| - 1]];
      RemovedAreSorted(s[..|s| - 1]);
      InsertRemovedTells(SortRemoved(s[..|s| - 1]), s[|s| - 1]);
    }
  }

  predicate IndicesAscend(s: seq<OpIdx>) {
    forall i, j :: 0 <= i < j < |s| ==> s[i] <= s[j]
  }

  lemma {:induction false} InsertIndexMember(s: seq<OpIdx>, x: OpIdx)
    ensures multiset(InsertIndex(s, x)) == multiset(s) + multiset{x}
    ensures forall y :: y in InsertIndex(s, x) ==> y in s || y == x
  {
    if s != [] {
      assert s == s[..|s| - 1] + [s[|s| - 1]];
      InsertIndexMember(s[..|s| - 1], x);
    }
  }

  lemma {:induction false} InsertIndexTells(s: seq<OpIdx>, x: OpIdx)
    requires IndicesAscend(s)
    ensures IndicesAscend(InsertIndex(s, x)) && multiset(InsertIndex(s, x)) == multiset(s) + multiset{x}
  {
    InsertIndexMember(s, x);
    if s != [] && s[|s| - 1] > x {
      var front, last := s[..|s| - 1], s[|s| - 1];
      InsertIndexTells(front, x);
      InsertIndexMember(front, x);
      IndicesWithLast(InsertIndex(front, x), last);
    }
  }

  lemma IndicesWithLast(r: seq<OpIdx>, last: OpIdx)
    requires IndicesAscend(r) && forall y :: y in r ==> y <= last
    ensures IndicesAscend(r + [last])
  {
    assert forall i :: 0 <= i < |r| ==> r[i] in r;
  }

  /** The after operations are taken in the order of their indices, whatever order the scope had. */
  lemma {:induction false} IndicesAreSorted(s: seq<OpIdx>)
    ensures IndicesAscend(SortIndices(s)) && multiset(SortIndices(s)) == multiset(s)
  {
    if s != [] {
      assert s == s[..|s| - 1] + [s[|s| - 1]];
      IndicesAreSorted(s[..|s| - 1]);
      InsertIndexTells(SortIndices(s[..|s| - 1]), s[|s| - 1]);
    }
  }
}
