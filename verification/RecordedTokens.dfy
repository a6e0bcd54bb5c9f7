// Reading a recorded index back: no operation before a pass has two tokens, so
// no timeline of a recorded trace is ambiguous.
module RecordedTokens {
  import opened Model
  import opened Timeline
  import opened Snapshot
  import Recorder
  import Reader
  import IndexLaws
  import Links
  import Resolve
  import TokenOrder

  /** The rows of one pass as a reader gets them: in the order written, ordinals marked by an end of -1. */
  function ReadBack(rows: seq<Recorder.IndexRow>, pass: int): (r: seq<IndexRow>) {
    if rows == [] then []
    else
      var last := rows[|rows| - 1];
      ReadBack(rows[..|rows| - 1], pass)
      + if last.pass == pass then [IndexRow(last.side, last.token, last.ordinal, -1)] else []
  }

  /** Reading the index either fails or gives the recorded rows. */
  ghost predicate ReadsIndex(source: Source, rows: seq<Recorder.IndexRow>) {
    forall pass :: source.rows(pass).Fine? ==> source.rows(pass).value == ReadBack(rows, pass)
  }

  predicate ReadApart(a: IndexRow, b: IndexRow) {
    a.byteEnd == -1 && b.byteEnd == -1 && (a.side == Before && b.side == Before ==> a.byteStart != b.byteStart)
  }

  ghost predicate ReadOnce(rows: seq<IndexRow>) {
    forall i, j :: 0 <= i < j < |rows| ==> ReadApart(rows[i], rows[j])
  }

  lemma {:induction false} ReadBackMember(rows: seq<Recorder.IndexRow>, pass: int, k: nat) returns (i: nat)
    requires k < |ReadBack(rows, pass)|
    ensures i < |rows| && rows[i].pass == pass
    ensures ReadBack(rows, pass)[k] == IndexRow(rows[i].side, rows[i].token, rows[i].ordinal, -1)
  {
    if k < |ReadBack(rows[..|rows| - 1], pass)| {
      i := ReadBackMember(rows[..|rows| - 1], pass, k);
    } else {
      i := |rows| - 1;
    }
  }

  lemma {:induction false} ReadBackOnce(rows: seq<Recorder.IndexRow>, pass: int)
    requires IndexLaws.BeforeOnce(rows)
    ensures ReadOnce(ReadBack(rows, pass))
  {
    if rows != [] {
      var front, n := rows[..|rows| - 1], |rows| - 1;
      var earlier, all := ReadBack(front, pass), ReadBack(rows, pass);
      assert forall i, j :: 0 <= i < j < n ==> IndexLaws.RowsApart(rows[i], rows[j]) ==>
        IndexLaws.RowsApart(front[i], front[j]);
      ReadBackOnce(front, pass);
      forall i, j | 0 <= i < j < |all|
        ensures ReadApart(all[i], all[j])
      {
        if j < |earlier| {
          assert ReadApart(earlier[i], earlier[j]);
        } else {
          var m := ReadBackMember(front, pass, i);
          assert IndexLaws.RowsApart(rows[m], rows[n]);
        }
      }
    }
  }

  lemma {:induction false} SideMember(rows: seq<IndexRow>, side: SnapshotSide, k: nat) returns (i: nat)
    requires k < |RowsOfSide(rows, side)|
    ensures i < |rows| && rows[i] == RowsOfSide(rows, side)[k] && rows[i].side == side
  {
    if k == 0 && rows[0].side == side {
      i := 0;
    } else {
      i := SideMember(rows[1..], side, if rows[0].side == side then k - 1 else k);
      i := i + 1;
    }
  }

  lemma {:induction false} SideOnce(rows: seq<IndexRow>)
    requires ReadOnce(rows)
    ensures ReadOnce(RowsOfSide(rows, Before))
  {
    if rows != [] {
      forall i, j | 0 <= i < j < |rows[1..]|
        ensures ReadApart(rows[1..][i], rows[1..][j])
      {
        assert ReadApart(rows[i + 1], rows[j + 1]);
      }
      SideOnce(rows[1..]);
      var rest, all := RowsOfSide(rows[1..], Before), RowsOfSide(rows, Before);
      if rows[0].side == Before {
        forall i, j | 0 <= i < j < |all|
          ensures ReadApart(all[i], all[j])
        {
          if i > 0 {
            assert ReadApart(rest[i - 1], rest[j - 1]);
          } else {
            var m := SideMember(rows[1..], Before, j - 1);
            assert ReadApart(rows[0], rows[m + 1]);
          }
        }
      }
    }
  }

  ghost predicate Injective(tokens: map<int, OpIdx>) {
    forall t, u :: t in tokens && u in tokens && tokens[t] == tokens[u] ==> t == u
  }

  /** Every row is an ordinal. */
  predicate AllOrdinals(rows: seq<IndexRow>) {
    forall i :: 0 <= i < |rows| ==> rows[i].byteEnd == -1 && rows[i].side == Before
  }

  lemma OrdinalMeans(row: IndexRow, ops: seq<ParsedOp>, scopeOps: set<OpIdx>, starts: seq<nat>, textLen: nat)
    requires row.byteEnd == -1 && forall i :: 0 <= i < |ops| ==> ops[i].idx == i
    ensures var op := RowOpIdx(row, ops, scopeOps, starts, textLen); op.Some? ==> op.value == row.byteStart
  {
  }

  lemma OrdinalsDiffer(rows: seq<IndexRow>, k: nat, l: nat)
    requires ReadOnce(rows) && AllOrdinals(rows) && k < l < |rows|
    ensures rows[k].byteStart != rows[l].byteStart
  {
    assert ReadApart(rows[k], rows[l]);
  }

  lemma SameOrdinalSameRow(rows: seq<IndexRow>, k: nat, l: nat)
    requires ReadOnce(rows) && AllOrdinals(rows) && k < |rows| && l < |rows|
    ensures rows[k].byteStart == rows[l].byteStart ==> k == l
  {
    if k < l {
      OrdinalsDiffer(rows, k, l);
    } else if l < k {
      OrdinalsDiffer(rows, l, k);
    }
  }

  /** Ordinals that are never repeated give no operation two tokens. */
  lemma OrdinalsAreInjective(rows: seq<IndexRow>, ops: seq<ParsedOp>, scopeOps: set<OpIdx>, starts: seq<nat>,
      textLen: nat)
    requires forall i :: 0 <= i < |ops| ==> ops[i].idx == i
    requires ReadOnce(rows) && AllOrdinals(rows)
    ensures var meaning := MeaningOf(rows, ops, scopeOps, starts, textLen);
      Injective(ScanTo(rows, meaning, |rows|).tokens)
  {
    var meaning := MeaningOf(rows, ops, scopeOps, starts, textLen);
    var tokens := ScanTo(rows, meaning, |rows|).tokens;
    forall t, u | t in tokens && u in tokens && tokens[t] == tokens[u]
      ensures t == u
    {
      TokensAreUnambiguous(rows, meaning, t, tokens[t]);
      TokensAreUnambiguous(rows, meaning, u, tokens[u]);
      var k :| 0 <= k < |rows| && OnlyMention(rows, meaning, t, k) && meaning[k] == Some(tokens[t]);
      var l :| 0 <= l < |rows| && OnlyMention(rows, meaning, u, l) && meaning[l] == Some(tokens[u]);
      OrdinalMeans(rows[k], ops, scopeOps, starts, textLen);
      OrdinalMeans(rows[l], ops, scopeOps, starts, textLen);
      SameOrdinalSameRow(rows, k, l);
    }
  }

  lemma SideOrdinals(rows: seq<Recorder.IndexRow>, pass: int)
    ensures AllOrdinals(RowsOfSide(ReadBack(rows, pass), Before))
  {
    var read := ReadBack(rows, pass);
    var mine := RowsOfSide(read, Before);
    forall k | 0 <= k < |mine|
      ensures mine[k].byteEnd == -1 && mine[k].side == Before
    {
      var i := SideMember(read, Before, k);
      var m := ReadBackMember(rows, pass, i);
    }
  }

  lemma BeforeTokensInjective(parse: Parse, text: string, rows: seq<Recorder.IndexRow>, pass: int, blob: int,
      func: string)
    requires IndexLaws.BeforeOnce(rows) && SnapshotFor(parse, text, ReadBack(rows, pass), blob, Before, func).Some?
    ensures Injective(SnapshotFor(parse, text, ReadBack(rows, pass), blob, Before, func).value.tokens)
  {
    var code := parse(blob, text);
    var mine := RowsOfSide(ReadBack(rows, pass), Before);
    ReadBackOnce(rows, pass);
    SideOnce(ReadBack(rows, pass));
    SideOrdinals(rows, pass);
    ParsedWell(parse, blob, text);
    OrdinalsAreInjective(mine, code.ops, ScopeSet(code.ScopeOps(func)), Starts(text, |text|), |text|);
  }

  ghost predicate StageInjective(stage: Stage) {
    stage.before.Some? ==> Injective(stage.before.value.tokens)
  }

  lemma StageIsInjective(source: Source, parse: Parse, rows: seq<Recorder.IndexRow>, pass: Reader.PassNode,
      func: string)
    requires IndexLaws.BeforeOnce(rows) && ReadsIndex(source, rows)
    requires StageFor(source, parse, pass, func).Fine? && StageFor(source, parse, pass, func).value.Some?
    ensures StageInjective(StageFor(source, parse, pass, func).value.value)
  {
    var built := Built(source, parse, pass.id, pass.info.irBefore, Before, func);
    if built.value.Some? {
      BeforeTokensInjective(parse, source.text(pass.info.irBefore.value).value, rows, pass.id,
        pass.info.irBefore.value, func);
    }
  }

  lemma {:induction false} StagesAreInjective(source: Source, parse: Parse, rows: seq<Recorder.IndexRow>,
      leaves: seq<Leaf>, func: string)
    requires IndexLaws.BeforeOnce(rows) && ReadsIndex(source, rows) && StagesOf(source, parse, leaves, func).Fine?
    ensures forall stage :: stage in StagesOf(source, parse, leaves, func).value ==> StageInjective(stage)
  {
    if leaves != [] {
      StagesAreInjective(source, parse, rows, leaves[..|leaves| - 1], func);
      var pass := leaves[|leaves| - 1].1;
      if StageFor(source, parse, pass, func).value.Some? {
        StageIsInjective(source, parse, rows, pass, func);
      }
    }
  }

  /** The timeline of a recorded trace is never ambiguous. */
  lemma RecordedTimelinesAreUnambiguous(source: Source, parse: Parse, forest: seq<Reader.PassNode>, func: string,
      fidelity: Recorder.Fidelity, callbacks: seq<Recorder.Callback>)
    requires ReadsIndex(source, Recorder.Run(fidelity, callbacks).tables.index)
    requires TimelineFor(source, parse, forest, func).Fine?
    requires StagesOk(TimelineFor(source, parse, forest, func).value, func)
    ensures TokenOrder.RunUnambiguous(Resolve.RunOf(func, TimelineFor(source, parse, forest, func).value))
  {
    var stages := TimelineFor(source, parse, forest, func).value;
    var run := Resolve.RunOf(func, stages);
    IndexLaws.RunKeepsIndex(fidelity, callbacks);
    StagesAreInjective(source, parse, Recorder.Run(fidelity, callbacks).tables.index, SortLeaves(Leaves(forest, 0)),
      func);
    forall s | 0 <= s < |run.stages| && Links.BothSnapshots(run, s)
      ensures TokenOrder.StageUnambiguous(run.At(s))
    {
      Links.PlaceIsOk(run, s);
      assert StageInjective(stages[s]);
      TokenOrder.InjectiveIsUnambiguous(run.At(s));
    }
  }
}
