// What a snapshot's tokens mean, told from the text and the index rows, and in
// what order the executed passes come.
module SnapshotLaws {
  import opened Model
  import opened Timeline
  import opened Snapshot
  import opened Sorting
  import Parser
  import Reader

  // ------------------------------------------------------------ where statements lie

  /** The octet at which the operation's first line begins. */
  function BeginsAt(text: string, op: ParsedOp): int {
    if 1 <= op.lineStart <= |Offsets(text)| then Offsets(text)[op.lineStart - 1] else -1
  }

  /** The octet at which the line behind its last one begins, or the end of the text. */
  function EndsAt(text: string, op: ParsedOp): int {
    if op.lineEnd < |Offsets(text)| then Offsets(text)[op.lineEnd] else |text|
  }

  /** The span lies within the operation's lines. */
  predicate Holds(text: string, op: ParsedOp, from: int, to: int) {
    0 <= BeginsAt(text, op) <= from && to <= EndsAt(text, op)
  }

  function LinesWidth(text: string, op: ParsedOp): int { EndsAt(text, op) - BeginsAt(text, op) }

  lemma ExtentsAre(text: string, op: ParsedOp)
    requires text != []
    ensures Extent(op, Starts(text, |text|), |text|)
      == if BeginsAt(text, op) < 0 then None else Some((BeginsAt(text, op) as nat, EndsAt(text, op) as nat))
  {
    LineStartsAgreeWithParser(text);
  }

  // ------------------------------------------------------------------ what a row means

  /** The operation is the scope's, and the span lies within its lines. */
  predicate Fits(text: string, ops: seq<ParsedOp>, scopeOps: set<OpIdx>, x: nat, row: IndexRow) {
    x < |ops| && x in scopeOps && Holds(text, ops[x], row.byteStart, row.byteEnd)
  }

  /** Of all that fit, the one of fewest octets, the first on ties. */
  predicate FitsBest(text: string, ops: seq<ParsedOp>, scopeOps: set<OpIdx>, x: nat, row: IndexRow) {
    && Fits(text, ops, scopeOps, x, row)
    && forall y :: 0 <= y < |ops| && Fits(text, ops, scopeOps, y, row) ==>
         LinesWidth(text, ops[x]) < LinesWidth(text, ops[y])
         || (LinesWidth(text, ops[x]) == LinesWidth(text, ops[y]) && x <= y)
  }

  /** A row with an end of -1 is an ordinal; any other is a span of the text. */
  ghost predicate RowMeans(text: string, ops: seq<ParsedOp>, scopeOps: set<OpIdx>, row: IndexRow, op: Option<OpIdx>) {
    if row.byteStart < 0 then op.None?
    else if row.byteEnd == -1 then
      op == if row.byteStart < |ops| && (row.byteStart as nat) in scopeOps then Some(row.byteStart as nat) else None
    else if row.byteEnd < row.byteStart || row.byteEnd > |text| then op.None?
    else
      match op
      case Some(x) => FitsBest(text, ops, scopeOps, x, row)
      case None => forall x: nat :: !Fits(text, ops, scopeOps, x, row)
  }

  lemma CandidateFits(text: string, ops: seq<ParsedOp>, scopeOps: set<OpIdx>, x: nat, row: IndexRow)
    requires text != [] && (forall i :: 0 <= i < |ops| ==> ops[i].idx == i) && x < |ops|
    ensures Candidate(ops, x, scopeOps, Starts(text, |text|), |text|, row.byteStart, row.byteEnd)
      <==> Fits(text, ops, scopeOps, x, row)
    ensures Fits(text, ops, scopeOps, x, row) ==>
      Width(ops[x], Starts(text, |text|), |text|) == LinesWidth(text, ops[x])
  {
    ExtentsAre(text, ops[x]);
  }

  /** Every row means what it should. */
  lemma RowsMean(text: string, ops: seq<ParsedOp>, scopeOps: set<OpIdx>, row: IndexRow)
    requires text != [] && forall i :: 0 <= i < |ops| ==> ops[i].idx == i
    ensures RowMeans(text, ops, scopeOps, row, RowOpIdx(row, ops, scopeOps, Starts(text, |text|), |text|))
  {
    var op := RowOpIdx(row, ops, scopeOps, Starts(text, |text|), |text|);
    if row.byteStart >= 0 && row.byteEnd != -1 && row.byteStart <= row.byteEnd <= |text| {
      forall y: nat | y < |ops|
        ensures Candidate(ops, y, scopeOps, Starts(text, |text|), |text|, row.byteStart, row.byteEnd)
          <==> Fits(text, ops, scopeOps, y, row)
      {
        CandidateFits(text, ops, scopeOps, y, row);
      }
      if op.Some? {
        BestFits(text, ops, scopeOps, op.value, row);
      }
    }
  }

  lemma BestFits(text: string, ops: seq<ParsedOp>, scopeOps: set<OpIdx>, x: nat, row: IndexRow)
    requires text != [] && forall i :: 0 <= i < |ops| ==> ops[i].idx == i
    requires Narrowest(ops, |ops|, scopeOps, Starts(text, |text|), |text|, row.byteStart, row.byteEnd) == Some(x)
    ensures FitsBest(text, ops, scopeOps, x, row)
  {
    CandidateFits(text, ops, scopeOps, x, row);
    forall y: nat | y < |ops| && Fits(text, ops, scopeOps, y, row)
      ensures LinesWidth(text, ops[x]) < LinesWidth(text, ops[y])
        || (LinesWidth(text, ops[x]) == LinesWidth(text, ops[y]) && x <= y)
    {
      CandidateFits(text, ops, scopeOps, y, row);
    }
  }

  // ------------------------------------------------------------------ tokens of a side

  /** How many of the first `i` rows are of the side. */
  function SidePlace(rows: seq<IndexRow>, side: SnapshotSide, i: nat): nat
    requires i <= |rows|
  {
    if i == 0 then 0 else SidePlace(rows, side, i - 1) + if rows[i - 1].side == side then 1 else 0
  }

  lemma {:induction false} SideRowsAppend(rows: seq<IndexRow>, row: IndexRow, side: SnapshotSide)
    ensures RowsOfSide(rows + [row], side) == RowsOfSide(rows, side) + if row.side == side then [row] else []
  {
    if rows != [] {
      SideRowsAppend(rows[1..], row, side);
      assert (rows + [row])[1..] == rows[1..] + [row];
    } else {
      assert ([] + [row])[1..] == [];
      assert RowsOfSide([], side) == [];
    }
  }

  lemma {:induction false} SideRowsAre(rows: seq<IndexRow>, side: SnapshotSide, n: nat)
    requires n <= |rows|
    ensures |RowsOfSide(rows[..n], side)| == SidePlace(rows, side, n)
    ensures forall i :: 0 <= i < n && rows[i].side == side ==>
      SidePlace(rows, side, i) < SidePlace(rows, side, n) && RowsOfSide(rows[..n], side)[SidePlace(rows, side, i)]
        == rows[i]
  {
    if n > 0 {
      SideRowsAre(rows, side, n - 1);
      SideRowsAppend(rows[..n - 1], rows[n - 1], side);
      assert rows[..n] == rows[..n - 1] + [rows[n - 1]];
    }
  }

  lemma {:induction false} SideRowIsThere(rows: seq<IndexRow>, side: SnapshotSide, n: nat, k: nat) returns (i: nat)
    requires n <= |rows| && k < SidePlace(rows, side, n)
    ensures i < n && rows[i].side == side && SidePlace(rows, side, i) == k
  {
    if rows[n - 1].side == side && SidePlace(rows, side, n - 1) == k {
      i := n - 1;
    } else {
      i := SideRowIsThere(rows, side, n - 1, k);
    }
  }

  /** The row is of the side and the token and means something. */
  predicate Tells(rows: seq<IndexRow>, meaning: seq<Option<OpIdx>>, side: SnapshotSide, token: int, i: nat) {
    i < |rows| == |meaning| && rows[i].side == side && rows[i].ptrToken == token && meaning[i].Some?
  }

  /** It is the only row that does. */
  predicate AloneTells(rows: seq<IndexRow>, meaning: seq<Option<OpIdx>>, side: SnapshotSide, token: int, i: nat) {
    Tells(rows, meaning, side, token, i) && forall l :: 0 <= l < |rows| && l != i ==>
      !Tells(rows, meaning, side, token, l)
  }

  /** The meanings of the rows of one side, and of all. */
  predicate SameMeaning(rows: seq<IndexRow>, all: seq<Option<OpIdx>>, side: SnapshotSide, mine: seq<Option<OpIdx>>) {
    && |all| == |rows| && |mine| == SidePlace(rows, side, |rows|)
    && forall i :: 0 <= i < |rows| && rows[i].side == side ==>
         SidePlace(rows, side, i) < |mine| && mine[SidePlace(rows, side, i)] == all[i]
  }

  lemma {:induction false} SidePlacesAscend(rows: seq<IndexRow>, side: SnapshotSide, i: nat, l: nat)
    requires i < l <= |rows| && rows[i].side == side
    ensures SidePlace(rows, side, i) < SidePlace(rows, side, l)
  {
    if i < l - 1 {
      SidePlacesAscend(rows, side, i, l - 1);
    }
  }

  lemma AloneIsOnly(rows: seq<IndexRow>, all: seq<Option<OpIdx>>, side: SnapshotSide, mine: Meaning, token: int, i: nat)
    requires SameMeaning(rows, all, side, mine) && i < |rows| && rows[i].side == side
    requires |RowsOfSide(rows, side)| == |mine|
    ensures AloneTells(rows, all, side, token, i) <==>
      OnlyMention(RowsOfSide(rows, side), mine, token, SidePlace(rows, side, i))
  {
    assert rows[..|rows|] == rows;
    SideRowsAre(rows, side, |rows|);
    var my, k := RowsOfSide(rows, side), SidePlace(rows, side, i);
    if AloneTells(rows, all, side, token, i) {
      forall l | 0 <= l < |my| && my[l].ptrToken == token && mine[l].Some?
        ensures l == k
      {
        var j := SideRowIsThere(rows, side, |rows|, l);
        assert j != i ==> !Tells(rows, all, side, token, j);
      }
    }
    if OnlyMention(my, mine, token, k) {
      forall j | 0 <= j < |rows| && j != i
        ensures !Tells(rows, all, side, token, j)
      {
        if rows[j].side == side {
          if j < i {
            SidePlacesAscend(rows, side, j, i);
          } else {
            SidePlacesAscend(rows, side, i, j);
          }
        }
      }
    }
  }

  /** The meanings of all rows, whatever their side. */
  function AllMeanings(rows: seq<IndexRow>, ops: seq<ParsedOp>, scopeOps: set<OpIdx>,
      text: string): (r: seq<Option<OpIdx>>)
    requires forall i :: 0 <= i < |ops| ==> ops[i].idx == i
    ensures |r| == |rows|
  {
    seq(|rows|, i requires 0 <= i < |rows| => RowOpIdx(rows[i], ops, scopeOps, Starts(text, |text|), |text|))
  }

  lemma MeaningsAgree(rows: seq<IndexRow>, ops: seq<ParsedOp>, scopeOps: set<OpIdx>, text: string, side: SnapshotSide)
    requires forall i :: 0 <= i < |ops| ==> ops[i].idx == i
    ensures var mine := RowsOfSide(rows, side);
      SameMeaning(rows, AllMeanings(rows, ops, scopeOps, text), side,
        MeaningOf(mine, ops, scopeOps, Starts(text, |text|), |text|))
  {
    assert rows[..|rows|] == rows;
    SideRowsAre(rows, side, |rows|);
  }

  /**
   * A token of a snapshot names an operation exactly when one row of that side and token, and no other,
   * means an operation, and then that one.
   */
  lemma SnapshotTokensTell(parse: Parse, text: string, rows: seq<IndexRow>, blob: int, side: SnapshotSide, func: string,
      token: int, op: OpIdx)
    requires SnapshotFor(parse, text, rows, blob, side, func).Some? && WellFormed(parse(blob, text))
    ensures var s, code := SnapshotFor(parse, text, rows, blob, side, func).value, parse(blob, text);
      var all := AllMeanings(rows, code.ops, ScopeSet(code.ScopeOps(func)), text);
      (token in s.tokens && s.tokens[token] == op) <==>
        exists i: nat :: AloneTells(rows, all, side, token, i) && all[i] == Some(op)
  {
    var code := parse(blob, text);
    var scope, mine := ScopeSet(code.ScopeOps(func)), RowsOfSide(rows, side);
    var all := AllMeanings(rows, code.ops, scope, text);
    var meaning := MeaningOf(mine, code.ops, scope, Starts(text, |text|), |text|);
    MeaningsAgree(rows, code.ops, scope, text, side);
    TokensAreUnambiguous(mine, meaning, token, op);
    TokensTellEither(rows, all, side, meaning, token, op);
  }

  lemma TokensTellEither(rows: seq<IndexRow>, all: seq<Option<OpIdx>>, side: SnapshotSide, mine: Meaning, token: int,
      op: OpIdx)
    requires SameMeaning(rows, all, side, mine) && |RowsOfSide(rows, side)| == |mine|
    ensures (exists i: nat :: AloneTells(rows, all, side, token, i) && all[i] == Some(op)) <==>
      exists k :: 0 <= k < |mine| && OnlyMention(RowsOfSide(rows, side), mine, token, k) && mine[k] == Some(op)
  {
    if exists i: nat :: AloneTells(rows, all, side, token, i) && all[i] == Some(op) {
      var i: nat :| AloneTells(rows, all, side, token, i) && all[i] == Some(op);
      AloneIsOnly(rows, all, side, mine, token, i);
      assert OnlyMention(RowsOfSide(rows, side), mine, token, SidePlace(rows, side, i));
    }
    if exists k :: 0 <= k < |mine| && OnlyMention(RowsOfSide(rows, side), mine, token, k) && mine[k] == Some(op) {
      var k :| 0 <= k < |mine| && OnlyMention(RowsOfSide(rows, side), mine, token, k) && mine[k] == Some(op);
      var i := SideRowIsThere(rows, side, |rows|, k);
      AloneIsOnly(rows, all, side, mine, token, i);
      assert all[i] == Some(op);
    }
  }

  // ------------------------------------------------------------------ executed passes

  /** Started earlier, or at the same time and met earlier on the walk. */
  predicate NoLater(a: Leaf, b: Leaf) {
    a.1.info.startNs < b.1.info.startNs || (a.1.info.startNs == b.1.info.startNs && a.0 <= b.0)
  }

  /** The executed passes come in the order they started, and every pass of the walk is among them as often. */
  lemma PassesComeInOrder(forest: seq<Reader.PassNode>)
    ensures var passes := SortLeaves(Leaves(forest, 0));
      && multiset(passes) == multiset(Leaves(forest, 0))
      && forall i, j :: 0 <= i < j < |passes| ==> NoLater(passes[i], passes[j])
  {
    SortByIsStable(Leaves(forest, 0), LeafKey);
    SortByPermutes(Leaves(forest, 0), LeafKey);
    var passes := SortLeaves(Leaves(forest, 0));
    forall i, j | 0 <= i < j < |passes|
      ensures NoLater(passes[i], passes[j])
    {
      assert !Less(LeafKey(passes[j]), LeafKey(passes[i]));
    }
  }

  // ------------------------------------------------------------------------- stages

  /** The text of the blob has a function of that name. */
  predicate Prints(source: Source, parse: Parse, blob: Option<int>, func: string) {
    blob.Some? && source.text(blob.value).Fine? && parse(blob.value, source.text(blob.value).value).Scope(func).Some?
  }

  /**
   * The snapshot is there exactly when its text has the function, and is made of its blob, its text and its pass's
   * rows.
   */
  predicate SideTells(source: Source, parse: Parse, pass: int, blob: Option<int>, side: SnapshotSide, func: string,
      s: Option<SnapshotOps>)
  {
    && (s.Some? <==> Prints(source, parse, blob, func))
    && (s.Some? ==>
         && source.rows(pass).Fine?
         && s == SnapshotFor(parse, source.text(blob.value).value, source.rows(pass).value, blob.value, side, func)
         && s.value.side == side && s.value.blobId == blob
         && s.value.code == parse(blob.value, source.text(blob.value).value))
  }

  /** The stage of a pass: its id and name, what it got and what it left, and its events. */
  predicate StageTells(source: Source, parse: Parse, pass: Reader.PassNode, func: string, stage: Stage) {
    && stage.passId == pass.id && stage.passName == pass.info.name
    && SideTells(source, parse, pass.id, pass.info.irBefore, Before, func, stage.before)
    && SideTells(source, parse, pass.id, pass.info.irAfter, After, func, stage.after)
    && source.events(pass.id) == Fine(stage.events)
  }

  /** The pass got or left the function. */
  predicate Handles(source: Source, parse: Parse, pass: Reader.PassNode, func: string) {
    Prints(source, parse, pass.info.irBefore, func) || Prints(source, parse, pass.info.irAfter, func)
  }

  /** How many of the first `n` passes do. */
  function HandledBy(source: Source, parse: Parse, leaves: seq<Leaf>, func: string, n: nat): nat
    requires n <= |leaves|
  {
    if n == 0 then 0
    else HandledBy(source, parse, leaves, func, n - 1) + if Handles(source, parse, leaves[n - 1].1, func) then 1 else 0
  }

  lemma BuiltTells(source: Source, parse: Parse, pass: int, blob: Option<int>, side: SnapshotSide, func: string)
    requires Built(source, parse, pass, blob, side, func).Fine?
    ensures SideTells(source, parse, pass, blob, side, func, Built(source, parse, pass, blob, side, func).value)
  {
  }

  lemma StageForTells(source: Source, parse: Parse, pass: Reader.PassNode, func: string)
    requires StageFor(source, parse, pass, func).Fine?
    ensures StageFor(source, parse, pass, func).value.Some? <==> Handles(source, parse, pass, func)
    ensures StageFor(source, parse, pass, func).value.Some? ==>
      StageTells(source, parse, pass, func, StageFor(source, parse, pass, func).value.value)
  {
    BuiltTells(source, parse, pass.id, pass.info.irBefore, Before, func);
    BuiltTells(source, parse, pass.id, pass.info.irAfter, After, func);
  }

  /** The n-th pass handles the function, and its stage stands where the passes that do before it put it. */
  predicate StagedAt(source: Source, parse: Parse, leaves: seq<Leaf>, func: string, stages: seq<Stage>, n: nat)
    requires n < |leaves|
  {
    Handles(source, parse, leaves[n].1, func) ==>
      && HandledBy(source, parse, leaves, func, n) < |stages|
      && StageTells(source, parse, leaves[n].1, func, stages[HandledBy(source, parse, leaves, func, n)])
  }

  lemma {:induction false} StagesTell(source: Source, parse: Parse, leaves: seq<Leaf>, func: string, n: nat)
    requires n <= |leaves| && StagesOf(source, parse, leaves[..n], func).Fine?
    ensures var stages := StagesOf(source, parse, leaves[..n], func).value;
      && |stages| == HandledBy(source, parse, leaves, func, n)
      && forall m :: 0 <= m < n ==> StagedAt(source, parse, leaves, func, stages, m)
  {
    if n > 0 {
      StagesGrow(source, parse, leaves, func, n - 1);
      StagesTell(source, parse, leaves, func, n - 1);
      StageForTells(source, parse, leaves[n - 1].1, func);
      var earlier := StagesOf(source, parse, leaves[..n - 1], func).value;
      var stages := StagesOf(source, parse, leaves[..n], func).value;
      forall m | 0 <= m < n
        ensures StagedAt(source, parse, leaves, func, stages, m)
      {
        if m < n - 1 {
          assert StagedAt(source, parse, leaves, func, earlier, m);
        }
      }
    }
  }

  /**
   * A timeline has a stage to each executed pass that handles the function, in the order they started, and no other.
   */
  lemma TimelineTells(source: Source, parse: Parse, forest: seq<Reader.PassNode>, func: string)
    requires TimelineFor(source, parse, forest, func).Fine?
    ensures var leaves, stages := SortLeaves(Leaves(forest, 0)), TimelineFor(source, parse, forest, func).value;
      && |stages| == HandledBy(source, parse, leaves, func, |leaves|)
      && forall n :: 0 <= n < |leaves| ==> StagedAt(source, parse, leaves, func, stages, n)
  {
    var leaves := SortLeaves(Leaves(forest, 0));
    assert leaves[..|leaves|] == leaves;
    StagesTell(source, parse, leaves, func, |leaves|);
  }
}
