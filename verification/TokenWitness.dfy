// A trace whose token map is ambiguous: two tokens name one operation before a
// pass and two different ones after it.
module TokenWitness {
  import opened Model
  import opened Timeline
  import opened Snapshot
  import Parser
  import Reader
  import Relations
  import Links
  import Resolve
  import StageLaws
  import TokenOrder
  import Ambiguity

  const FUNC := "(module)"
  const BLOB_BEFORE: int := 1
  const BLOB_AFTER: int := 2
  const PASS: int := 7

  /** A line that is one operation outside any function. */
  predicate PlainLine(lex: Parser.Lexer, line: string) {
    && line != [] && '\n' !in line && Parser.Trim(line) == line
    && Parser.StartsNewStatement(lex, line) && Parser.Delta(line) == 0
    && line[0] != '}' && line[0] != '^' && lex.symbol(line).None?
  }

  function Twice(line: string): string { line + "\n" + line }

  /** Both tokens' spans lie in the first line before; after, each token has an operation of its own. */
  const INDEX_ROWS: seq<IndexRow> := [
    IndexRow(Before, 1, 0, 1), IndexRow(Before, 2, 0, 1), IndexRow(After, 1, 0, -1), IndexRow(After, 2, 1, -1)]

  function WitnessTrace(line: string): Source {
    Source(
      (blob: int) => if blob == BLOB_BEFORE then Fine(line) else Fine(Twice(line)),
      (pass: int) => Fine(INDEX_ROWS),
      (pass: int) => Fine([]))
  }

  const WITNESS_PASS: Reader.PassNode :=
    Reader.PassNode(PASS, Reader.PassInfo("unroll", Some(BLOB_BEFORE), Some(BLOB_AFTER), 0, 1, true), [])

  // ------------------------------------------------------------- the two modules

  function OpAt(lex: Parser.Lexer, line: string, i: nat): ParsedOp {
    Parser.MakeOp(lex.fields(line), i, [], i + 1, i + 1)
  }

  function StateAt(lex: Parser.Lexer, line: string, n: nat): Parser.ParserState {
    Parser.ParserState(seq(n, i requires 0 <= i < n => OpAt(lex, line, i)), [], Parser.AT_TOP, None)
  }

  lemma BraceOpens()
    ensures Parser.Delta("{") == 1
  {
    assert Parser.Scanned("{", 1) == Parser.ScanByte(Parser.Scanned("{", 0), '{');
  }

  lemma PlainStep(lex: Parser.Lexer, line: string, n: nat, bound: nat)
    requires PlainLine(lex, line) && |line| <= bound
    ensures Parser.Step(lex, StateAt(lex, line, n), Parser.Statement(line, n + 1, n + 1), bound)
      == StateAt(lex, line, n + 1)
  {
    var ps, s := StateAt(lex, line, n), Parser.Statement(line, n + 1, n + 1);
    var added := Parser.WithOp(lex, ps, line, s);
    BraceOpens();
    assert !Parser.Closes(line, 0) && !Parser.Structural(line);
    assert Parser.InlineBody(lex, line, 0).None?;
    assert |ps.ops| == n;
    assert added.ops == StateAt(lex, line, n + 1).ops;
    assert Parser.WithScope(lex, added, n, line, 0, s) == added;
  }

  lemma OneLine(lex: Parser.Lexer, line: string)
    requires PlainLine(lex, line)
    ensures Parser.Statements(lex, line) == [Parser.Statement(line, 1, 1)]
    ensures Parser.Parse(lex, line)
      == CodeBefore(lex, line)
  {
    Parser.LastLine(line);
    assert Parser.Assembled(lex, [line], 0) == [];
    var statements := [Parser.Statement(line, 1, 1)];
    assert Parser.Statements(lex, line) == statements;
    assert Parser.RunTo(lex, statements, 0, |line|) == StateAt(lex, line, 0);
    PlainStep(lex, line, 0, |line|);
    assert Parser.RunTo(lex, statements, 1, |line|) == StateAt(lex, line, 1);
    assert StateAt(lex, line, 1).ops == [OpAt(lex, line, 0)];
    assert Parser.Indices(0, 1) == [0];
  }

  lemma TwoLines(lex: Parser.Lexer, line: string)
    requires PlainLine(lex, line)
    ensures Parser.Parse(lex, Twice(line))
      == CodeAfter(lex, line)
  {
    var text := Twice(line);
    Parser.LastLine(line);
    Parser.LineEnds(line, line);
    assert [line] + [line] == [line, line];
    assert Parser.Assembled(lex, [line, line], 1) == [Parser.Statement(line, 1, 1)];
    var statements := [Parser.Statement(line, 1, 1), Parser.Statement(line, 2, 2)];
    assert Parser.Statements(lex, text) == statements;
    assert Parser.RunTo(lex, statements, 0, |text|) == StateAt(lex, line, 0);
    PlainStep(lex, line, 0, |text|);
    assert Parser.RunTo(lex, statements, 1, |text|) == StateAt(lex, line, 1);
    PlainStep(lex, line, 1, |text|);
    assert Parser.RunTo(lex, statements, 2, |text|) == StateAt(lex, line, 2);
    assert StateAt(lex, line, 2).ops == [OpAt(lex, line, 0), OpAt(lex, line, 1)];
    assert Parser.Indices(0, 2) == [0, 1];
  }

  // ----------------------------------------------------------------- the tokens

  lemma WitnessRows()
    ensures RowsOfSide(INDEX_ROWS, Before) == INDEX_ROWS[..2] && RowsOfSide(INDEX_ROWS, After) == INDEX_ROWS[2..]
  {
    assert RowsOfSide(INDEX_ROWS[4..], Before) == [] == RowsOfSide(INDEX_ROWS[4..], After);
    assert INDEX_ROWS[3..][1..] == INDEX_ROWS[4..];
    assert INDEX_ROWS[2..][1..] == INDEX_ROWS[3..];
    assert INDEX_ROWS[1..][1..] == INDEX_ROWS[2..];
  }

  lemma TwoScanned(rows: seq<IndexRow>, meaning: Meaning, a: OpIdx, b: OpIdx)
    requires |rows| == 2 && rows[0].ptrToken == 1 && rows[1].ptrToken == 2 && meaning == [Some(a), Some(b)]
    ensures ScanTo(rows, meaning, 2).tokens == map[1 := a, 2 := b]
  {
    assert ScanTo(rows, meaning, 0) == TokenScan(map[], {});
    assert ScanTo(rows, meaning, 1) == TokenScan(map[1 := a], {});
  }

  lemma {:induction false} NoLineFeedOneStart(line: string, n: nat)
    requires '\n' !in line && n <= |line|
    ensures Starts(line, n) == [0]
  {
    if n > 0 {
      NoLineFeedOneStart(line, n - 1);
      assert line[n - 1] in line;
    }
  }

  lemma SpansMeanTheLine(lex: Parser.Lexer, line: string, token: int)
    requires PlainLine(lex, line)
    ensures RowOpIdx(IndexRow(Before, token, 0, 1), [OpAt(lex, line, 0)], {0}, Starts(line, |line|), |line|) == Some(0)
  {
    NoLineFeedOneStart(line, |line|);
    var ops := [OpAt(lex, line, 0)];
    assert Extent(ops[0], [0], |line|) == Some((0, |line|));
    assert Candidate(ops, 0, {0}, [0], |line|, 0, 1);
  }

  /** A snapshot read off given code, rows and meaning. */
  lemma {:induction false} SnapshotIs(lex: Parser.Lexer, text: string, blob: int, side: SnapshotSide,
      code: ParsedModule, ops: seq<OpIdx>, mine: seq<IndexRow>, meaning: Meaning)
    requires Parser.Parse(lex, text) == code && WellFormed(code) && code.Scope(FUNC).Some?
      && code.Scope(FUNC).value.ops == ops
    requires RowsOfSide(INDEX_ROWS, side) == mine
    requires MeaningOf(mine, code.ops, ScopeSet(ops), Starts(text, |text|), |text|) == meaning
    ensures var s := SnapshotFor(EngineParse(lex), text, INDEX_ROWS, blob, side, FUNC);
      s == Some(SnapshotOps(side, Some(blob), code, Ordinals(ops, |ops|), ScanTo(mine, meaning, |mine|).tokens))
  {
  }

  function CodeBefore(lex: Parser.Lexer, line: string): ParsedModule {
    ParsedModule([OpAt(lex, line, 0)], [FunctionScope(FUNC, [0], 1, 1)])
  }

  function CodeAfter(lex: Parser.Lexer, line: string): ParsedModule {
    ParsedModule([OpAt(lex, line, 0), OpAt(lex, line, 1)], [FunctionScope(FUNC, [0, 1], 1, 2)])
  }

  function WitnessBefore(lex: Parser.Lexer, line: string): SnapshotOps {
    SnapshotOps(Before, Some(BLOB_BEFORE), CodeBefore(lex, line), Ordinals([0], 1), map[1 := 0, 2 := 0])
  }

  function WitnessAfter(lex: Parser.Lexer, line: string): SnapshotOps {
    SnapshotOps(After, Some(BLOB_AFTER), CodeAfter(lex, line), Ordinals([0, 1], 2), map[1 := 0, 2 := 1])
  }

  lemma MeaningBefore(lex: Parser.Lexer, line: string, mine: seq<IndexRow>)
    requires PlainLine(lex, line) && mine == [IndexRow(Before, 1, 0, 1), IndexRow(Before, 2, 0, 1)]
    ensures MeaningOf(mine, [OpAt(lex, line, 0)], ScopeSet([0]), Starts(line, |line|), |line|) == [Some(0), Some(0)]
  {
    assert ScopeSet([0]) == {0};
    SpansMeanTheLine(lex, line, 1);
    SpansMeanTheLine(lex, line, 2);
  }

  lemma MeaningAfter(lex: Parser.Lexer, line: string, mine: seq<IndexRow>, starts: seq<nat>, length: nat)
    requires mine == [IndexRow(After, 1, 0, -1), IndexRow(After, 2, 1, -1)]
    ensures MeaningOf(mine, [OpAt(lex, line, 0), OpAt(lex, line, 1)], ScopeSet([0, 1]), starts, length)
      == [Some(0), Some(1)]
  {
    assert ScopeSet([0, 1]) == {0, 1};
  }

  lemma SnapshotBefore(lex: Parser.Lexer, line: string)
    requires PlainLine(lex, line)
    ensures SnapshotFor(EngineParse(lex), line, INDEX_ROWS, BLOB_BEFORE, Before, FUNC) == Some(WitnessBefore(lex, line))
  {
    OneLine(lex, line);
    WitnessRows();
    Parser.ParsedModulesAreWellFormed(lex, line);
    var mine := INDEX_ROWS[..2];
    MeaningBefore(lex, line, mine);
    SnapshotIs(lex, line, BLOB_BEFORE, Before, CodeBefore(lex, line), [0], mine, [Some(0), Some(0)]);
    TwoScanned(mine, [Some(0), Some(0)], 0, 0);
  }

  lemma SnapshotAfter(lex: Parser.Lexer, line: string)
    requires PlainLine(lex, line)
    ensures SnapshotFor(EngineParse(lex), Twice(line), INDEX_ROWS, BLOB_AFTER, After, FUNC)
      == Some(WitnessAfter(lex, line))
  {
    var text := Twice(line);
    TwoLines(lex, line);
    WitnessRows();
    Parser.ParsedModulesAreWellFormed(lex, text);
    var mine := INDEX_ROWS[2..];
    MeaningAfter(lex, line, mine, Starts(text, |text|), |text|);
    SnapshotIs(lex, text, BLOB_AFTER, After, CodeAfter(lex, line), [0, 1], mine, [Some(0), Some(1)]);
    TwoScanned(mine, [Some(0), Some(1)], 0, 1);
  }

  // ---------------------------------------------------------------- the ambiguity

  function WitnessStage(lex: Parser.Lexer, line: string): Stage {
    Stage(PASS, "unroll", Some(WitnessBefore(lex, line)), Some(WitnessAfter(lex, line)), [])
  }

  lemma BuiltIs(source: Source, parse: Parse, text: string, blob: int, side: SnapshotSide, s: SnapshotOps)
    requires source.text(blob) == Fine(text) && source.rows(PASS) == Fine(INDEX_ROWS)
    requires SnapshotFor(parse, text, INDEX_ROWS, blob, side, FUNC) == Some(s)
    ensures Built(source, parse, PASS, Some(blob), side, FUNC) == Fine(Some(s))
  {
  }

  lemma StageIs(source: Source, parse: Parse, before: SnapshotOps, after: SnapshotOps)
    requires Built(source, parse, PASS, Some(BLOB_BEFORE), Before, FUNC) == Fine(Some(before))
    requires Built(source, parse, PASS, Some(BLOB_AFTER), After, FUNC) == Fine(Some(after))
    requires source.events(PASS) == Fine([])
    ensures TimelineFor(source, parse, [WITNESS_PASS], FUNC)
      == Fine([Stage(PASS, "unroll", Some(before), Some(after), [])])
  {
    OneLeaf();
    var leaves: seq<Leaf> := [(0, WITNESS_PASS)];
    assert leaves[..0] == [];
    assert StagesOf(source, parse, leaves[..0], FUNC) == Fine([]);
    var stage := Stage(PASS, "unroll", Some(before), Some(after), []);
    assert StageFor(source, parse, leaves[0].1, FUNC) == Fine(Some(stage));
    StagesGrow(source, parse, leaves, FUNC, 0);
    assert leaves[..1] == leaves && [] + [stage] == [stage];
  }

  /** The server's timeline of that trace is the one stage. */
  lemma WitnessTimeline(lex: Parser.Lexer, line: string)
    requires PlainLine(lex, line)
    ensures TimelineFor(WitnessTrace(line), EngineParse(lex), [WITNESS_PASS], FUNC) == Fine([WitnessStage(lex, line)])
    ensures TimelineOk([WitnessStage(lex, line)], FUNC)
  {
    var source, parse := WitnessTrace(line), EngineParse(lex);
    var before, after := WitnessBefore(lex, line), WitnessAfter(lex, line);
    SnapshotBefore(lex, line);
    SnapshotAfter(lex, line);
    BuiltIs(source, parse, line, BLOB_BEFORE, Before, before);
    BuiltIs(source, parse, Twice(line), BLOB_AFTER, After, after);
    StageIs(source, parse, before, after);
    OnePassOnce();
    TimelinesAreOk(source, parse, [WITNESS_PASS], FUNC);
  }

  lemma OneLeaf()
    ensures SortLeaves(Leaves([WITNESS_PASS], 0)) == [(0, WITNESS_PASS)]
  {
    var leaves: seq<Leaf> := [(0, WITNESS_PASS)];
    assert Leaves([WITNESS_PASS][1..], 1) == [];
    assert Leaves([WITNESS_PASS], 0) == leaves;
    assert leaves[..0] == [];
  }

  lemma OnePassOnce()
    ensures forall id :: Reader.Occurrences([WITNESS_PASS], id) <= 1
  {
    forall id
      ensures Reader.Occurrences([WITNESS_PASS], id) <= 1
    {
      assert Reader.Occurrences([WITNESS_PASS][1..], id) == 0;
    }
  }

  lemma WitnessScopes(lex: Parser.Lexer, line: string)
    ensures CodeBefore(lex, line).ScopeOps(FUNC) == [0] && CodeAfter(lex, line).ScopeOps(FUNC) == [0, 1]
  {
  }

  /** What a token of the witness means on one side. */
  lemma WitnessMeans(run: Links.Run, lex: Parser.Lexer, line: string, token: int, side: SnapshotSide) returns (id: nat)
    requires run.Ok() && run.func == FUNC && run.stages == [WitnessStage(lex, line)] && (token == 1 || token == 2)
    ensures Relations.Meant(run.At(0), side, token) == Some(id) && Relations.IsNode(run.At(0), side, id)
    ensures run.nodes[id].key.opIdx == (if side == Before then 0 else token - 1)
    ensures run.nodes[id].op.name == lex.fields(line).name
  {
    var at := run.At(0);
    Links.PlaceIsOk(run, 0);
    WitnessScopes(lex, line);
    Relations.MeantIsNode(at, side, token);
    assert Relations.TokenInScope(at, side, token);
    id := Relations.Meant(at, side, token).value;
    assert Relations.NodeFits(at, run.nodes[id]);
  }

  lemma WitnessCandidate(run: Links.Run, lex: Parser.Lexer, line: string, token: int) returns (from: nat, to: nat)
    requires run.Ok() && run.func == FUNC && run.stages == [WitnessStage(lex, line)] && (token == 1 || token == 2)
    ensures TokenOrder.Candidate(run.At(0), StageLaws.AfterEvents(run.At(0)).claims, token, from, to)
    ensures Relations.IsNode(run.At(0), Before, from) && run.nodes[from].key.opIdx == 0
    ensures Relations.IsNode(run.At(0), After, to) && run.nodes[to].key.opIdx == token - 1
  {
    from := WitnessMeans(run, lex, line, token, Before);
    to := WitnessMeans(run, lex, line, token, After);
    NoEventsNoClaims(run.At(0));
    NamesakesAreCarried(run.At(0), token, from, to);
  }

  lemma NoEventsNoClaims(at: Relations.Place)
    requires at.stage.events == []
    ensures StageLaws.AfterEvents(at).claims == Relations.UNCLAIMED
  {
  }

  lemma NamesakesAreCarried(at: Relations.Place, token: int, from: nat, to: nat)
    requires Relations.IsNode(at, Before, from) && Relations.IsNode(at, After, to)
    requires Relations.Meant(at, Before, token) == Some(from) && Relations.Meant(at, After, token) == Some(to)
    requires at.nodes[from].op.name == at.nodes[to].op.name
    ensures TokenOrder.Candidate(at, Relations.UNCLAIMED, token, from, to)
  {
  }

  /** The server can read a trace whose resolution depends on the order of a hash map. */
  lemma AmbiguousTrace(lex: Parser.Lexer, line: string)
    requires PlainLine(lex, line)
    ensures var timeline := TimelineFor(WitnessTrace(line), EngineParse(lex), [WITNESS_PASS], FUNC);
      timeline.Fine? && TimelineOk(timeline.value, FUNC) && !Ambiguity.OneResult(Resolve.RunOf(FUNC, timeline.value))
  {
    WitnessTimeline(lex, line);
    var run := Resolve.RunOf(FUNC, [WitnessStage(lex, line)]);
    var from, to := WitnessCandidate(run, lex, line, 1);
    var also, too := WitnessCandidate(run, lex, line, 2);
    Ambiguity.NodesByOccurrence(run, 0, Before, from, also);
    assert 1 in Relations.TokensOf(run.stages[0]) && 2 in Relations.TokensOf(run.stages[0]);
    Ambiguity.AmbiguousStageShows(run, 0, 1, 2, from, to, too);
  }
}
