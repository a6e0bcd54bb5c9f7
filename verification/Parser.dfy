// Recovering operations and function scopes from printed IR, statement by
// statement. Text is a string of octets. What an operation's text says is left
// to a `Lexer`; braces, regions, scopes and line numbers are kept in full.
module Parser {
  import opened Model

  /** The contents the parser reads off one statement. */
  datatype OpText = OpText(
    name: string,
    results: seq<string>,
    operands: seq<string>,
    resultTypes: seq<string>,
    attrSummary: string,
    location: Option<string>,
    isOpaque: bool)

  /** Any reading of statement text: where a word starts an operation, symbols, and fields. */
  datatype Lexer = Lexer(
    beginsOp: string -> bool,
    symbol: string -> Option<string>,
    fields: string -> OpText)

  datatype Statement = Statement(text: string, lineStart: nat, lineEnd: nat)

  // ------------------------------------------------------------------ lines

  predicate IsSpace(c: char) { c == ' ' || '\t' <= c <= '\r' }

  function TrimStart(s: string): (r: string)
    ensures |r| <= |s|
  {
    if s != [] && IsSpace(s[0]) then TrimStart(s[1..]) else s
  }

  function TrimEnd(s: string): (r: string)
    ensures |r| <= |s|
  {
    if s != [] && IsSpace(s[|s| - 1]) then TrimEnd(s[..|s| - 1]) else s
  }

  function Trim(s: string): (r: string)
    ensures |r| <= |s|
  {
    TrimEnd(TrimStart(s))
  }

  /** The position of the first line feed, or the length. */
  function LineLength(text: string): (n: nat)
    ensures n <= |text|
    ensures n < |text| ==> text[n] == '\n'
    ensures forall i :: 0 <= i < n ==> text[i] != '\n'
  {
    if text == [] || text[0] == '\n' then 0 else 1 + LineLength(text[1..])
  }

  /** Lines end at a line feed; a trailing one opens no further line. */
  function Lines(text: string): (r: seq<string>) {
    if text == [] then []
    else
      var n := LineLength(text);
      if n == |text| then [text] else [text[..n]] + Lines(text[n + 1..])
  }

  // -------------------------------------------------------------- statements

  predicate StartsNewStatement(lex: Lexer, trimmed: string) {
    trimmed != [] && (trimmed[0] in "%}^\"" || lex.beginsOp(trimmed))
  }

  /** The first `n` lines grouped into statements. */
  function Assembled(lex: Lexer, lines: seq<string>, n: nat): (r: seq<Statement>)
    requires n <= |lines|
  {
    if n == 0 then []
    else
      var out, trimmed := Assembled(lex, lines, n - 1), Trim(lines[n - 1]);
      if trimmed == [] then out
      else if out == [] || StartsNewStatement(lex, trimmed) then out + [Statement(trimmed, n, n)]
      else
        var last := out[|out| - 1];
        out[|out| - 1 := Statement(last.text + " " + trimmed, last.lineStart, n)]
  }

  method AssembleStatements(lex: Lexer, text: string) returns (out: seq<Statement>)
    ensures out == Assembled(lex, Lines(text), |Lines(text)|)
  {
    var lines := Lines(text);
    out := [];
    for i := 0 to |lines|
      invariant out == Assembled(lex, lines, i)
    {
      var lineNo := i + 1;
      var trimmed := Trim(lines[i]);
      if trimmed != [] {
        if out == [] || StartsNewStatement(lex, trimmed) {
          out := out + [Statement(trimmed, lineNo, lineNo)];
        } else {
          var last := out[|out| - 1];
          out := out[|out| - 1 := Statement(last.text + " " + trimmed, last.lineStart, lineNo)];
        }
      }
    }
  }

  function TotalLength(lines: seq<string>, n: nat): nat
    requires n <= |lines|
  {
    if n == 0 then 0 else TotalLength(lines, n - 1) + |lines[n - 1]| + 1
  }

  lemma {:induction false} TotalLengthStep(line: string, rest: seq<string>, n: nat)
    requires n <= |rest|
    ensures TotalLength([line] + rest, n + 1) == |line| + 1 + TotalLength(rest, n)
  {
    if n > 0 {
      TotalLengthStep(line, rest, n - 1);
      assert ([line] + rest)[n] == rest[n - 1];
    }
  }

  /** Lines and the line feeds between them take no more room than the text. */
  lemma {:induction false} LinesFit(text: string)
    ensures TotalLength(Lines(text), |Lines(text)|) <= |text| + 1
  {
    if text != [] {
      var n := LineLength(text);
      if n < |text| {
        LinesFit(text[n + 1..]);
        TotalLengthStep(text[..n], Lines(text[n + 1..]), |Lines(text[n + 1..])|);
        if text[n + 1..] == [] {
          assert Lines(text) == [text[..n]];
        }
      } else {
        assert TotalLength([text], 1) == |text| + 1;
      }
    }
  }

  lemma {:induction false} TotalLengthGrows(lines: seq<string>, m: nat, n: nat)
    requires m <= n <= |lines|
    ensures TotalLength(lines, m) <= TotalLength(lines, n)
  {
    if m < n {
      TotalLengthGrows(lines, m, n - 1);
    }
  }

  /** Where a statement stands: inside the lines seen so far, and no longer than their text. */
  predicate Placed(s: Statement, lines: seq<string>, n: nat)
    requires n <= |lines|
  {
    && 1 <= s.lineStart <= s.lineEnd <= n
    && |s.text| + 1 + TotalLength(lines, s.lineStart - 1) <= TotalLength(lines, s.lineEnd)
  }

  lemma {:induction false} StatementsPlaced(lex: Lexer, lines: seq<string>, n: nat)
    requires n <= |lines|
    ensures forall k :: 0 <= k < |Assembled(lex, lines, n)| ==> Placed(Assembled(lex, lines, n)[k], lines, n)
  {
    if n > 0 {
      StatementsPlaced(lex, lines, n - 1);
      var out := Assembled(lex, lines, n - 1);
      forall k | 0 <= k < |out|
        ensures Placed(out[k], lines, n)
      {
        assert Placed(out[k], lines, n - 1);
      }
      if out != [] {
        TotalLengthGrows(lines, out[|out| - 1].lineEnd, n - 1);
      }
    }
  }

  predicate Bounded(statements: seq<Statement>, bound: nat) {
    forall k :: 0 <= k < |statements| ==> |statements[k].text| <= bound
  }

  predicate AllPlaced(statements: seq<Statement>, lines: seq<string>) {
    forall k :: 0 <= k < |statements| ==> Placed(statements[k], lines, |lines|)
  }

  function Statements(lex: Lexer, text: string): seq<Statement> {
    Assembled(lex, Lines(text), |Lines(text)|)
  }

  /** No statement is longer than the text, so parsing a part of one always shrinks. */
  lemma StatementsFit(lex: Lexer, text: string)
    ensures Bounded(Statements(lex, text), |text|) && AllPlaced(Statements(lex, text), Lines(text))
  {
    var lines, statements := Lines(text), Statements(lex, text);
    StatementsPlaced(lex, lines, |lines|);
    LinesFit(text);
    forall k | 0 <= k < |statements|
      ensures |statements[k].text| <= |text|
    {
      assert Placed(statements[k], lines, |lines|);
      TotalLengthGrows(lines, statements[k].lineEnd, |lines|);
    }
  }

  // ----------------------------------------------------------------- braces

  datatype Scan = Scan(delta: int, inString: bool, escaped: bool)

  function ScanByte(s: Scan, c: char): Scan {
    if s.inString && c == '\\' && !s.escaped then s.(escaped := true)
    else if c == '"' && !s.escaped then s.(inString := !s.inString, escaped := false)
    else if !s.inString && c == '{' then s.(delta := s.delta + 1, escaped := false)
    else if !s.inString && c == '}' then s.(delta := s.delta - 1, escaped := false)
    else s.(escaped := false)
  }

  function Scanned(s: string, n: nat): Scan
    requires n <= |s|
  {
    if n == 0 then Scan(0, false, false) else ScanByte(Scanned(s, n - 1), s[n - 1])
  }

  /** Opening minus closing braces outside string literals. */
  function Delta(s: string): int { Scanned(s, |s|).delta }

  method BraceDelta(s: string) returns (delta: int)
    ensures delta == Delta(s)
  {
    delta := 0;
    var inString, escaped := false, false;
    for k := 0 to |s|
      invariant Scan(delta, inString, escaped) == Scanned(s, k)
    {
      if inString && s[k] == '\\' && !escaped {
        escaped := true;
      } else {
        if s[k] == '"' && !escaped {
          inString := !inString;
        } else if !inString {
          if s[k] == '{' {
            delta := delta + 1;
          } else if s[k] == '}' {
            delta := delta - 1;
          }
        }
        escaped := false;
      }
    }
  }

  function FirstOf(s: string, c: char): (r: Option<nat>)
    ensures r.Some? ==> r.value < |s| && s[r.value] == c && c !in s[..r.value]
    ensures r.None? ==> c !in s
  {
    if s == [] then None
    else if s[0] == c then Some(0)
    else match FirstOf(s[1..], c) case Some(i) => Some(i + 1) case None => None
  }

  function LastOf(s: string, c: char): (r: Option<nat>)
    ensures r.Some? ==> r.value < |s| && s[r.value] == c && c !in s[r.value + 1..]
    ensures r.None? ==> c !in s
  {
    if s == [] then None
    else if s[|s| - 1] == c then Some(|s| - 1)
    else LastOf(s[..|s| - 1], c)
  }

  // ---------------------------------------------------------------- regions

  type Path = seq<nat>

  datatype Regions = Regions(path: Path, counters: seq<nat>)

  const AT_TOP: Regions := Regions([], [0])

  /** The number the next child region gets; an emptied counter stack answers zero. */
  function NextChild(r: Regions): nat {
    if r.counters == [] then 0 else r.counters[|r.counters| - 1]
  }

  function OpenOne(r: Regions): Regions {
    var counted := if r.counters == [] then [] else r.counters[|r.counters| - 1 := NextChild(r) + 1];
    Regions(r.path + [NextChild(r)], counted + [0])
  }

  function DropLast<T>(s: seq<T>): seq<T> { if s == [] then [] else s[..|s| - 1] }

  function CloseOne(r: Regions): Regions {
    Regions(DropLast(r.path), DropLast(r.counters))
  }

  function OpenMany(r: Regions, n: nat): Regions {
    if n == 0 then r else OpenOne(OpenMany(r, n - 1))
  }

  // ---------------------------------------------------------------- parsing

  /** The scope being filled: its index and the region depth of its body. */
  datatype Active = Active(functionIdx: nat, bodyDepth: nat)

  datatype ParserState = ParserState(
    ops: seq<ParsedOp>,
    functions: seq<FunctionScope>,
    regions: Regions,
    active: Option<Active>)

  const FRESH: ParserState := ParserState([], [], AT_TOP, None)

  function EndLine(functions: seq<FunctionScope>, f: nat, line: nat): (r: seq<FunctionScope>)
    ensures |r| == |functions|
  {
    if f < |functions| then functions[f := functions[f].(lineEnd := line)] else functions
  }

  /** One closing brace; a scope ends when the stack is shallower than its body. */
  function CloseBrace(ps: ParserState, line: nat): ParserState {
    var regions := CloseOne(ps.regions);
    if ps.active.Some? && |regions.path| < ps.active.value.bodyDepth
    then ps.(regions := regions, active := None, functions := EndLine(ps.functions, ps.active.value.functionIdx, line))
    else ps.(regions := regions)
  }

  function CloseBraces(ps: ParserState, n: nat, line: nat): ParserState {
    if n == 0 then ps else CloseBrace(CloseBraces(ps, n - 1, line), line)
  }

  function MakeOp(text: OpText, idx: OpIdx, path: Path, lineStart: nat, lineEnd: nat): ParsedOp {
    ParsedOp(idx, text.name, text.results, text.operands, text.resultTypes, text.attrSummary, text.location,
             path, |path|, lineStart, lineEnd, text.isOpaque)
  }

  /** Operations of a single-line body, renumbered to follow `base` earlier ones. */
  function Adopted(inner: seq<ParsedOp>, base: nat, lineStart: nat, lineEnd: nat): (r: seq<ParsedOp>)
    ensures |r| == |inner|
  {
    seq(|inner|, i requires 0 <= i < |inner| => inner[i].(idx := base + i, lineStart := lineStart, lineEnd := lineEnd))
  }

  function Indices(base: nat, n: nat): (r: seq<OpIdx>)
    ensures |r| == n
  {
    seq(n, i requires 0 <= i < n => base + i)
  }

  /** The body of a balanced single-line function: between its first `{` and last `}`. */
  function InlineBody(lex: Lexer, trimmed: string, delta: int): (r: Option<string>)
    ensures r.Some? ==> |r.value| < |trimmed| && lex.symbol(trimmed).Some?
  {
    if delta > 0 || lex.symbol(trimmed).None? then None
    else
      var first, last := FirstOf(trimmed, '{'), LastOf(trimmed, '}');
      if first.Some? && last.Some? && first.value < last.value then Some(trimmed[first.value + 1..last.value]) else None
  }

  function WithInline(ps: ParserState, name: string, inner: seq<ParsedOp>, s: Statement): ParserState {
    ps.(ops := ps.ops + Adopted(inner, |ps.ops|, s.lineStart, s.lineEnd),
        functions := ps.functions + [FunctionScope(name, Indices(|ps.ops|, |inner|), s.lineStart, s.lineEnd)])
  }

  /** Opens a function scope, or adds the operation to the one being filled. */
  function WithScope(lex: Lexer, ps: ParserState, idx: OpIdx, trimmed: string, delta: int, s: Statement): ParserState {
    if delta > 0 && ps.active.None? && lex.symbol(trimmed).Some? then
      ps.(functions := ps.functions + [FunctionScope(lex.symbol(trimmed).value, [], s.lineStart, s.lineEnd)],
          active := Some(Active(|ps.functions|, |ps.regions.path| + 1)))
    else if ps.active.Some? && ps.active.value.functionIdx < |ps.functions| then
      var f := ps.active.value.functionIdx;
      ps.(functions := ps.functions[f := ps.functions[f].(ops := ps.functions[f].ops + [idx], lineEnd := s.lineEnd)])
    else ps
  }

  function WithOp(lex: Lexer, ps: ParserState, trimmed: string, s: Statement): ParserState {
    ps.(ops := ps.ops + [MakeOp(lex.fields(trimmed), |ps.ops|, ps.regions.path, s.lineStart, s.lineEnd)])
  }

  predicate Closes(trimmed: string, delta: int) {
    trimmed == "}" || (delta < 0 && trimmed != [] && trimmed[0] == '}')
  }

  predicate Structural(trimmed: string) {
    trimmed == "{" || (trimmed != [] && trimmed[0] == '^')
  }

  function Opening(ps: ParserState, delta: int): ParserState {
    if delta > 0 then ps.(regions := OpenMany(ps.regions, delta)) else ps
  }

  function Step(lex: Lexer, ps: ParserState, s: Statement, bound: nat): ParserState
    requires |s.text| <= bound
    decreases bound, 0, 0
  {
    var trimmed := Trim(s.text);
    var delta := Delta(trimmed);
    if Closes(trimmed, delta) then (if delta < 0 then CloseBraces(ps, -delta, s.lineEnd) else ps)
    else if Structural(trimmed) then Opening(ps, delta)
    else
      var added := WithOp(lex, ps, trimmed, s);
      var inlined := match InlineBody(lex, trimmed, delta)
        case Some(body) => WithInline(added, lex.symbol(trimmed).value, Parse(lex, body).ops, s)
        case None => added;
      Opening(WithScope(lex, inlined, |ps.ops|, trimmed, delta, s), delta)
  }

  function RunTo(lex: Lexer, statements: seq<Statement>, n: nat, bound: nat): ParserState
    requires n <= |statements| && Bounded(statements, bound)
    decreases bound, 0, n
  {
    if n == 0 then FRESH else Step(lex, RunTo(lex, statements, n - 1, bound), statements[n - 1], bound)
  }

  /** Without any function the whole snapshot is one scope. */
  function Completed(ps: ParserState): ParsedModule {
    if ps.functions == [] && ps.ops != [] then
      ParsedModule(ps.ops, [FunctionScope("(module)", Indices(0, |ps.ops|), ps.ops[0].lineStart,
        ps.ops[|ps.ops| - 1].lineEnd)])
    else ParsedModule(ps.ops, ps.functions)
  }

  /** Single-line bodies are parsed by recursion, always on strictly shorter text. */
  function Parse(lex: Lexer, text: string): ParsedModule
    decreases |text|, 1, 0
  {
    StatementsFit(lex, text);
    var statements := Statements(lex, text);
    Completed(RunTo(lex, statements, |statements|, |text|))
  }

  // ------------------------------------------------------ the parser's loops

  method CloseRegions(ps: ParserState, delta: int, line: nat) returns (r: ParserState)
    requires delta <= 0
    ensures r == CloseBraces(ps, -delta, line)
  {
    r := ps;
    for k := 0 to -delta
      invariant r == CloseBraces(ps, k, line)
    {
      var path, counters := r.regions.path, r.regions.counters;
      if path != [] {
        path := path[..|path| - 1];
      }
      if counters != [] {
        counters := counters[..|counters| - 1];
      }
      r := r.(regions := Regions(path, counters));
      if r.active.Some? {
        var scope := r.active.value;
        if |path| < scope.bodyDepth {
          r := r.(functions := EndLine(r.functions, scope.functionIdx, line), active := None);
        }
      }
    }
  }

  method OpenRegions(regions: Regions, delta: nat) returns (r: Regions)
    ensures r == OpenMany(regions, delta)
  {
    r := regions;
    for k := 0 to delta
      invariant r == OpenMany(regions, k)
    {
      var path, counters, child := r.path, r.counters, 0;
      if counters != [] {
        child := counters[|counters| - 1];
        counters := counters[|counters| - 1 := child + 1];
      }
      r := Regions(path + [child], counters + [0]);
    }
  }

  method AdoptInner(ps: ParserState, name: string, inner: seq<ParsedOp>, s: Statement) returns (r: ParserState)
    ensures r == WithInline(ps, name, inner, s)
  {
    var ops := ps.ops;
    var innerOps: seq<OpIdx> := [];
    for i := 0 to |inner|
      invariant ops == ps.ops + Adopted(inner, |ps.ops|, s.lineStart, s.lineEnd)[..i]
      invariant innerOps == Indices(|ps.ops|, |inner|)[..i]
    {
      innerOps := innerOps + [|ops|];
      ops := ops + [inner[i].(idx := |ops|, lineStart := s.lineStart, lineEnd := s.lineEnd)];
    }
    assert Adopted(inner, |ps.ops|, s.lineStart, s.lineEnd)[..|inner|] == Adopted(inner, |ps.ops|, s.lineStart,
      s.lineEnd);
    assert Indices(|ps.ops|, |inner|)[..|inner|] == Indices(|ps.ops|, |inner|);
    r := ps.(ops := ops, functions := ps.functions + [FunctionScope(name, innerOps, s.lineStart, s.lineEnd)]);
  }

  method ParseStatement(lex: Lexer, ps: ParserState, s: Statement, bound: nat) returns (r: ParserState)
    requires |s.text| <= bound
    ensures r == Step(lex, ps, s, bound)
    decreases bound, 0
  {
    var trimmed := Trim(s.text);
    var delta := BraceDelta(trimmed);
    if trimmed == "}" || (delta < 0 && trimmed != [] && trimmed[0] == '}') {
      r := ps;
      if delta < 0 {
        r := CloseRegions(ps, delta, s.lineEnd);
      }
      return;
    }
    if trimmed == "{" || (trimmed != [] && trimmed[0] == '^') {
      r := ps;
      if delta > 0 {
        var regions := OpenRegions(ps.regions, delta);
        r := r.(regions := regions);
      }
      return;
    }
    var idx := |ps.ops|;
    r := WithOp(lex, ps, trimmed, s);
    var body := InlineBody(lex, trimmed, delta);
    if body.Some? {
      var inner := ParseModule(lex, body.value);
      r := AdoptInner(r, lex.symbol(trimmed).value, inner.ops, s);
    }
    r := WithScope(lex, r, idx, trimmed, delta, s);
    if delta > 0 {
      var regions := OpenRegions(r.regions, delta);
      r := r.(regions := regions);
    }
  }

  method ParseModule(lex: Lexer, text: string) returns (m: ParsedModule)
    ensures m == Parse(lex, text)
    decreases |text|, 1
  {
    StatementsFit(lex, text);
    var statements := AssembleStatements(lex, text);
    var ps := FRESH;
    for n := 0 to |statements|
      invariant ps == RunTo(lex, statements, n, |text|)
    {
      ps := ParseStatement(lex, ps, statements[n], |text|);
    }
    m := Completed(ps);
  }

  // -------------------------------------------------------- what is promised

  predicate Apart(a: seq<OpIdx>, b: seq<OpIdx>) {
    forall i, j :: 0 <= i < |a| && 0 <= j < |b| ==> a[i] != b[j]
  }

  predicate OpOk(op: ParsedOp, idx: nat, lines: nat) {
    op.idx == idx && op.depth == |op.regionPath| && 1 <= op.lineStart <= op.lineEnd <= lines
  }

  predicate OpsOk(ops: seq<ParsedOp>, lines: nat) {
    forall i :: 0 <= i < |ops| ==> OpOk(ops[i], i, lines)
  }

  predicate ScopeOk(f: FunctionScope, bound: nat) {
    StrictlyIncreasing(f.ops) && InBounds(f.ops, bound)
  }

  predicate ScopesOk(functions: seq<FunctionScope>, bound: nat) {
    && (forall f :: 0 <= f < |functions| ==> ScopeOk(functions[f], bound))
    && (forall f, g :: 0 <= f < g < |functions| ==> Apart(functions[f].ops, functions[g].ops))
  }

  /** A scope being filled exists, and its body is never deeper than the region stack. */
  predicate ActiveOk(ps: ParserState) {
    ps.active.Some? ==>
      ps.active.value.functionIdx < |ps.functions| && 1 <= ps.active.value.bodyDepth <= |ps.regions.path|
  }

  predicate StateOk(ps: ParserState, lines: nat) {
    OpsOk(ps.ops, lines) && ScopesOk(ps.functions, |ps.ops|) && ActiveOk(ps)
  }

  lemma EndLineKeepsScopes(functions: seq<FunctionScope>, f: nat, line: nat, bound: nat)
    requires ScopesOk(functions, bound)
    ensures ScopesOk(EndLine(functions, f, line), bound)
  {
    var r := EndLine(functions, f, line);
    assert forall g :: 0 <= g < |r| ==> r[g].ops == functions[g].ops;
    forall g | 0 <= g < |r|
      ensures ScopeOk(r[g], bound)
    {
      assert ScopeOk(functions[g], bound);
    }
  }

  lemma {:induction false} ClosingKeepsState(ps: ParserState, n: nat, line: nat, lines: nat)
    requires StateOk(ps, lines)
    ensures StateOk(CloseBraces(ps, n, line), lines)
  {
    if n > 0 {
      ClosingKeepsState(ps, n - 1, line, lines);
      var earlier := CloseBraces(ps, n - 1, line);
      if earlier.active.Some? {
        EndLineKeepsScopes(earlier.functions, earlier.active.value.functionIdx, line, |earlier.ops|);
      }
    }
  }

  lemma {:induction false} OpeningDeepens(r: Regions, n: nat)
    ensures |OpenMany(r, n).path| == |r.path| + n
  {
    if n > 0 {
      OpeningDeepens(r, n - 1);
    }
  }

  lemma MoreOpsKeepScopes(functions: seq<FunctionScope>, bound: nat, more: nat)
    requires ScopesOk(functions, bound) && bound <= more
    ensures ScopesOk(functions, more)
  {
    forall f | 0 <= f < |functions|
      ensures ScopeOk(functions[f], more)
    {
      assert ScopeOk(functions[f], bound);
    }
  }

  /** A scope of operations newer than all others joins the list. */
  lemma NewScopeKeepsScopes(functions: seq<FunctionScope>, f: FunctionScope, bound: nat, more: nat)
    requires ScopesOk(functions, bound) && bound <= more && ScopeOk(f, more)
    requires forall i :: 0 <= i < |f.ops| ==> bound <= f.ops[i]
    ensures ScopesOk(functions + [f], more)
  {
    MoreOpsKeepScopes(functions, bound, more);
    var r := functions + [f];
    forall g, h | 0 <= g < h < |r|
      ensures Apart(r[g].ops, r[h].ops)
    {
      if h == |functions| {
        assert ScopeOk(functions[g], bound);
      }
    }
  }

  /** An operation in no scope yet joins the scope being filled, at its end. */
  lemma PushKeepsScopes(functions: seq<FunctionScope>, f: nat, idx: OpIdx, line: nat, bound: nat)
    requires ScopesOk(functions, bound) && f < |functions| && idx < bound
    requires forall g, i :: 0 <= g < |functions| && 0 <= i < |functions[g].ops| ==> functions[g].ops[i] != idx
    requires forall i :: 0 <= i < |functions[f].ops| ==> functions[f].ops[i] < idx
    ensures ScopesOk(functions[f := functions[f].(ops := functions[f].ops + [idx], lineEnd := line)], bound)
  {
    var r := functions[f := functions[f].(ops := functions[f].ops + [idx], lineEnd := line)];
    assert ScopeOk(functions[f], bound);
    forall g | 0 <= g < |r|
      ensures ScopeOk(r[g], bound)
    {
      assert ScopeOk(functions[g], bound);
    }
    forall g, h | 0 <= g < h < |r|
      ensures Apart(r[g].ops, r[h].ops)
    {
      assert Apart(functions[g].ops, functions[h].ops);
    }
  }

  predicate SpanOk(s: Statement, lines: nat) {
    1 <= s.lineStart <= s.lineEnd <= lines
  }

  lemma OpKeepsState(lex: Lexer, ps: ParserState, trimmed: string, s: Statement, lines: nat)
    requires StateOk(ps, lines) && SpanOk(s, lines)
    ensures StateOk(WithOp(lex, ps, trimmed, s), lines)
  {
    MoreOpsKeepScopes(ps.functions, |ps.ops|, |ps.ops| + 1);
  }

  lemma InlineKeepsState(ps: ParserState, name: string, inner: seq<ParsedOp>, s: Statement, lines: nat, innerLines: nat)
    requires StateOk(ps, lines) && SpanOk(s, lines) && OpsOk(inner, innerLines)
    ensures StateOk(WithInline(ps, name, inner, s), lines)
  {
    var adopted := Adopted(inner, |ps.ops|, s.lineStart, s.lineEnd);
    var ops := ps.ops + adopted;
    forall i | 0 <= i < |ops|
      ensures OpOk(ops[i], i, lines)
    {
      if i >= |ps.ops| {
        assert OpOk(inner[i - |ps.ops|], i - |ps.ops|, innerLines);
      }
    }
    NewScopeKeepsScopes(ps.functions, FunctionScope(name, Indices(|ps.ops|, |inner|), s.lineStart, s.lineEnd),
      |ps.ops|, |ops|);
  }

  predicate OlderThan(ps: ParserState, f: nat, idx: OpIdx) {
    f < |ps.functions| && forall i :: 0 <= i < |ps.functions[f].ops| ==> ps.functions[f].ops[i] < idx
  }

  /** The operation just parsed is in no scope, and newer than everything but its own inline body. */
  predicate Unscoped(ps: ParserState, idx: OpIdx) {
    && idx < |ps.ops|
    && (forall f, i :: 0 <= f < |ps.functions| && 0 <= i < |ps.functions[f].ops| ==> ps.functions[f].ops[i] != idx)
    && (ps.active.Some? ==> OlderThan(ps, ps.active.value.functionIdx, idx))
  }

  lemma ScopeKeepsOps(lex: Lexer, ps: ParserState, idx: OpIdx, trimmed: string, delta: int, s: Statement)
    requires ScopesOk(ps.functions, |ps.ops|) && Unscoped(ps, idx)
    ensures ScopesOk(WithScope(lex, ps, idx, trimmed, delta, s).functions, |ps.ops|)
    ensures WithScope(lex, ps, idx, trimmed, delta, s).ops == ps.ops
  {
    if delta > 0 && ps.active.None? && lex.symbol(trimmed).Some? {
      NewScopeKeepsScopes(ps.functions, FunctionScope(lex.symbol(trimmed).value, [], s.lineStart, s.lineEnd),
        |ps.ops|, |ps.ops|);
    } else if ps.active.Some? {
      PushKeepsScopes(ps.functions, ps.active.value.functionIdx, idx, s.lineEnd, |ps.ops|);
    }
  }

  /** A scope opened by a statement is entered by the regions the same statement opens. */
  lemma ScopeThenRegions(lex: Lexer, ps: ParserState, idx: OpIdx, trimmed: string, delta: int, s: Statement, lines: nat)
    requires StateOk(ps, lines) && Unscoped(ps, idx)
    ensures StateOk(Opening(WithScope(lex, ps, idx, trimmed, delta, s), delta), lines)
  {
    ScopeKeepsOps(lex, ps, idx, trimmed, delta, s);
    if delta > 0 {
      OpeningDeepens(ps.regions, delta);
    }
  }

  lemma FreshIsUnscoped(lex: Lexer, ps: ParserState, trimmed: string, s: Statement, lines: nat)
    requires StateOk(ps, lines)
    ensures Unscoped(WithOp(lex, ps, trimmed, s), |ps.ops|)
  {
    forall f | 0 <= f < |ps.functions|
      ensures forall i :: 0 <= i < |ps.functions[f].ops| ==> ps.functions[f].ops[i] < |ps.ops|
    {
      assert ScopeOk(ps.functions[f], |ps.ops|);
    }
  }

  lemma InlineStaysUnscoped(ps: ParserState, idx: OpIdx, name: string, inner: seq<ParsedOp>, s: Statement)
    requires Unscoped(ps, idx)
    ensures Unscoped(WithInline(ps, name, inner, s), idx)
  {
  }

  lemma StepKeepsState(lex: Lexer, ps: ParserState, s: Statement, bound: nat, lines: nat)
    requires |s.text| <= bound && StateOk(ps, lines) && SpanOk(s, lines)
    ensures StateOk(Step(lex, ps, s, bound), lines)
    decreases bound, 0, 0
  {
    var trimmed := Trim(s.text);
    var delta := Delta(trimmed);
    if Closes(trimmed, delta) {
      if delta < 0 {
        ClosingKeepsState(ps, -delta, s.lineEnd, lines);
      }
    } else if Structural(trimmed) {
      if delta > 0 {
        OpeningDeepens(ps.regions, delta);
      }
    } else {
      var added := WithOp(lex, ps, trimmed, s);
      OpKeepsState(lex, ps, trimmed, s, lines);
      FreshIsUnscoped(lex, ps, trimmed, s, lines);
      match InlineBody(lex, trimmed, delta)
      case Some(body) =>
        var name, inner := lex.symbol(trimmed).value, Parse(lex, body).ops;
        ParseIsWellFormed(lex, body);
        InlineKeepsState(added, name, inner, s, lines, |Lines(body)|);
        InlineStaysUnscoped(added, |ps.ops|, name, inner, s);
        ScopeThenRegions(lex, WithInline(added, name, inner, s), |ps.ops|, trimmed, delta, s, lines);
      case None =>
        ScopeThenRegions(lex, added, |ps.ops|, trimmed, delta, s, lines);
    }
  }

  lemma {:induction false} RunKeepsState(lex: Lexer, statements: seq<Statement>, n: nat, bound: nat, lines: nat)
    requires n <= |statements| && Bounded(statements, bound) && forall k :: 0 <= k < |statements| ==>
      SpanOk(statements[k], lines)
    ensures StateOk(RunTo(lex, statements, n, bound), lines)
    decreases bound, 0, n
  {
    if n > 0 {
      RunKeepsState(lex, statements, n - 1, bound, lines);
      StepKeepsState(lex, RunTo(lex, statements, n - 1, bound), statements[n - 1], bound, lines);
    }
  }

  /**
   * For every text: operation i has index i and a depth equal to its path length and lies inside
   * the text's lines; scope lists are strictly increasing, in bounds and pairwise disjoint.
   */
  lemma ParseIsWellFormed(lex: Lexer, text: string)
    ensures var m := Parse(lex, text);
      OpsOk(m.ops, |Lines(text)|) && ScopesOk(m.functions, |m.ops|)
    decreases |text|, 1, 0
  {
    StatementsFit(lex, text);
    var statements, lines := Statements(lex, text), |Lines(text)|;
    forall k | 0 <= k < |statements|
      ensures SpanOk(statements[k], lines)
    {
      assert Placed(statements[k], Lines(text), lines);
    }
    RunKeepsState(lex, statements, |statements|, |text|, lines);
    var ps := RunTo(lex, statements, |statements|, |text|);
    if ps.functions == [] && ps.ops != [] {
      assert ScopeOk(Completed(ps).functions[0], |ps.ops|);
    }
  }

  /** What the matcher, the diff and the graph assume of a parsed module. */
  lemma ParsedModulesAreWellFormed(lex: Lexer, text: string)
    ensures WellFormed(Parse(lex, text))
  {
    var m := Parse(lex, text);
    ParseIsWellFormed(lex, text);
    forall i | 0 <= i < |m.ops|
      ensures m.ops[i].idx == i
    {
      assert OpOk(m.ops[i], i, |Lines(text)|);
    }
    forall f | f in m.functions
      ensures InBounds(f.ops, |m.ops|) && StrictlyIncreasing(f.ops)
    {
      var g :| 0 <= g < |m.functions| && m.functions[g] == f;
      assert ScopeOk(m.functions[g], |m.ops|);
    }
  }

  // ------------------------------------------------------ paths of regions

  datatype Opened = Opened(regions: Regions, paths: seq<Path>, blind: bool)

  const UNOPENED: Opened := Opened(AT_TOP, [], false)

  /** Opening also records the new path, and whether it was numbered blindly after others existed. */
  function RecordOpen(o: Opened): Opened {
    var r := OpenOne(o.regions);
    Opened(r, o.paths + [r.path], o.blind || (o.regions.counters == [] && o.paths != []))
  }

  function RecordOpens(o: Opened, n: nat): Opened {
    if n == 0 then o else RecordOpen(RecordOpens(o, n - 1))
  }

  function RecordCloses(o: Opened, n: nat): Opened {
    if n == 0 then o else var earlier := RecordCloses(o, n - 1); earlier.(regions := CloseOne(earlier.regions))
  }

  /** What a statement does to the region stack. */
  function RecordStatement(o: Opened, s: Statement): Opened {
    var trimmed := Trim(s.text);
    var delta := Delta(trimmed);
    if Closes(trimmed, delta) then (if delta < 0 then RecordCloses(o, -delta) else o)
    else if delta > 0 then RecordOpens(o, delta)
    else o
  }

  function Recorded(statements: seq<Statement>, n: nat): Opened
    requires n <= |statements|
  {
    if n == 0 then UNOPENED else RecordStatement(Recorded(statements, n - 1), statements[n - 1])
  }

  lemma {:induction false} OpensFollowRegions(o: Opened, n: nat)
    ensures RecordOpens(o, n).regions == OpenMany(o.regions, n)
  {
    if n > 0 {
      OpensFollowRegions(o, n - 1);
    }
  }

  lemma {:induction false} ClosesFollowRegions(o: Opened, ps: ParserState, n: nat, line: nat)
    requires o.regions == ps.regions
    ensures RecordCloses(o, n).regions == CloseBraces(ps, n, line).regions
  {
    if n > 0 {
      ClosesFollowRegions(o, ps, n - 1, line);
    }
  }

  lemma StatementFollowsRegions(lex: Lexer, o: Opened, ps: ParserState, s: Statement, bound: nat)
    requires o.regions == ps.regions && |s.text| <= bound
    ensures RecordStatement(o, s).regions == Step(lex, ps, s, bound).regions
  {
    var trimmed := Trim(s.text);
    var delta := Delta(trimmed);
    if Closes(trimmed, delta) {
      if delta < 0 {
        ClosesFollowRegions(o, ps, -delta, s.lineEnd);
      }
    } else if delta > 0 {
      OpensFollowRegions(o, delta);
    }
  }

  /** The record is the parser's own region stack, statement by statement. */
  lemma {:induction false} RecordFollowsParser(lex: Lexer, statements: seq<Statement>, n: nat, bound: nat)
    requires n <= |statements| && Bounded(statements, bound)
    ensures Recorded(statements, n).regions == RunTo(lex, statements, n, bound).regions
  {
    if n > 0 {
      RecordFollowsParser(lex, statements, n - 1, bound);
      StatementFollowsRegions(lex, Recorded(statements, n - 1), RunTo(lex, statements, n - 1, bound),
        statements[n - 1], bound);
    }
  }

  predicate NoRepeats(paths: seq<Path>) {
    forall i, j :: 0 <= i < j < |paths| ==> paths[i] != paths[j]
  }

  /** How many counters are missing: none until a close finds the stack empty. */
  function Missing(r: Regions): int { |r.path| + 1 - |r.counters| }

  /** Every opened path that leaves the current stack at level `i` did so under a smaller number. */
  predicate Numbered(q: Path, r: Regions, i: nat)
    requires i <= |r.path| && 0 <= i - Missing(r) < |r.counters|
  {
    |q| > i && q[..i] == r.path[..i] ==> q[i] < r.counters[i - Missing(r)]
  }

  predicate NumberedAll(q: Path, r: Regions)
    requires 0 <= Missing(r) <= 1
  {
    forall i :: Missing(r) <= i <= |r.path| ==> Numbered(q, r, i)
  }

  predicate StackNumbered(r: Regions)
    requires 0 <= Missing(r) <= 1
  {
    forall i :: Missing(r) <= i < |r.path| ==> r.path[i] < r.counters[i - Missing(r)]
  }

  predicate OpenedOk(o: Opened) {
    && 0 <= Missing(o.regions) <= 1
    && StackNumbered(o.regions)
    && (o.paths != [] ==> [0] in o.paths)
    && (o.paths == [] ==> o.regions.path == [] && (o.regions.counters != [] ==> o.regions.counters == [0]))
    && (if o.blind then !NoRepeats(o.paths)
        else NoRepeats(o.paths) && forall k :: 0 <= k < |o.paths| ==> NumberedAll(o.paths[k], o.regions))
  }

  lemma NewPathIsNew(r: Regions, q: Path)
    requires 0 <= Missing(r) <= 1 && r.counters != [] && NumberedAll(q, r)
    ensures q != OpenOne(r).path
  {
    assert Numbered(q, r, |r.path|);
  }

  lemma OpenKeepsNumbering(r: Regions, q: Path)
    requires 0 <= Missing(r) <= 1 && r.counters != [] && NumberedAll(q, r)
    ensures Missing(OpenOne(r)) == Missing(r) && NumberedAll(q, OpenOne(r))
  {
    var next := OpenOne(r);
    assert Numbered(q, r, |r.path|);
    if |q| > |r.path| && q[..|r.path|] == r.path {
      assert q[|r.path|] < next.path[|r.path|];
      assert |q| > |r.path| + 1 ==> q[..|r.path| + 1][|r.path|] == q[|r.path|];
    }
    forall i | Missing(r) <= i <= |next.path|
      ensures Numbered(q, next, i)
    {
      if i <= |r.path| {
        assert Numbered(q, r, i);
        assert next.path[..i] == r.path[..i];
      } else {
        assert i == |r.path| + 1;
        assert |q| > i ==> q[..i][..|r.path|] == q[..|r.path|];
      }
    }
  }

  lemma NewPathIsNumbered(r: Regions)
    requires 0 <= Missing(r) <= 1 && r.counters != [] && StackNumbered(r)
    ensures Missing(OpenOne(r)) == Missing(r) && NumberedAll(OpenOne(r).path, OpenOne(r)) && StackNumbered(OpenOne(r))
  {
  }

  lemma OpenKeepsFirst(o: Opened)
    requires OpenedOk(o)
    ensures [0] in RecordOpen(o).paths
  {
    var next := RecordOpen(o);
    assert next.paths[|o.paths|] == OpenOne(o.regions).path;
    if o.paths != [] {
      assert [0] in o.paths;
    } else {
      assert next.paths[0] == [0];
    }
  }

  lemma RepeatsStay(paths: seq<Path>, p: Path)
    requires !NoRepeats(paths) || p in paths
    ensures !NoRepeats(paths + [p])
  {
    if p in paths {
      var k :| 0 <= k < |paths| && paths[k] == p;
      assert (paths + [p])[k] == (paths + [p])[|paths|];
    } else {
      var i, j :| 0 <= i < j < |paths| && paths[i] == paths[j];
      assert (paths + [p])[i] == (paths + [p])[j];
    }
  }

  /** With no counter left the new region is numbered zero at the top. */
  lemma OpenBlindly(o: Opened)
    requires OpenedOk(o) && o.regions.counters == []
    ensures OpenedOk(RecordOpen(o))
  {
    assert o.regions.path == [];
    assert OpenOne(o.regions) == Regions([0], [0]);
    OpenKeepsFirst(o);
    if o.paths != [] {
      RepeatsStay(o.paths, [0]);
    }
  }

  lemma OpenNumbered(o: Opened)
    requires OpenedOk(o) && o.regions.counters != [] && !o.blind
    ensures OpenedOk(RecordOpen(o))
  {
    var r, next := o.regions, RecordOpen(o);
    OpenKeepsFirst(o);
    NewPathIsNumbered(r);
    forall k | 0 <= k < |o.paths|
      ensures o.paths[k] != next.regions.path && NumberedAll(o.paths[k], next.regions)
    {
      NewPathIsNew(r, o.paths[k]);
      OpenKeepsNumbering(r, o.paths[k]);
    }
  }

  lemma OpenKeepsRecord(o: Opened)
    requires OpenedOk(o)
    ensures OpenedOk(RecordOpen(o))
  {
    if o.regions.counters == [] {
      OpenBlindly(o);
    } else if o.blind {
      OpenKeepsFirst(o);
      NewPathIsNumbered(o.regions);
      RepeatsStay(o.paths, OpenOne(o.regions).path);
    } else {
      OpenNumbered(o);
    }
  }

  lemma CloseKeepsNumbering(r: Regions, q: Path)
    requires 0 <= Missing(r) <= 1 && NumberedAll(q, r)
    ensures 0 <= Missing(CloseOne(r)) <= 1 && NumberedAll(q, CloseOne(r))
  {
    var next := CloseOne(r);
    if r.path != [] {
      forall i | Missing(next) <= i <= |next.path|
        ensures Numbered(q, next, i)
      {
        assert Numbered(q, r, i);
        assert next.path[..i] == r.path[..i];
      }
    }
  }

  lemma CloseKeepsRecord(o: Opened)
    requires OpenedOk(o)
    ensures OpenedOk(o.(regions := CloseOne(o.regions)))
  {
    if !o.blind {
      forall k | 0 <= k < |o.paths|
        ensures NumberedAll(o.paths[k], CloseOne(o.regions))
      {
        CloseKeepsNumbering(o.regions, o.paths[k]);
      }
    }
  }

  lemma {:induction false} OpensKeepRecord(o: Opened, n: nat)
    requires OpenedOk(o)
    ensures OpenedOk(RecordOpens(o, n))
  {
    if n > 0 {
      OpensKeepRecord(o, n - 1);
      OpenKeepsRecord(RecordOpens(o, n - 1));
    }
  }

  lemma {:induction false} ClosesKeepRecord(o: Opened, n: nat)
    requires OpenedOk(o)
    ensures OpenedOk(RecordCloses(o, n))
  {
    if n > 0 {
      ClosesKeepRecord(o, n - 1);
      CloseKeepsRecord(RecordCloses(o, n - 1));
    }
  }

  lemma {:induction false} RecordIsOk(statements: seq<Statement>, n: nat)
    requires n <= |statements|
    ensures OpenedOk(Recorded(statements, n))
  {
    if n > 0 {
      RecordIsOk(statements, n - 1);
      var o, s := Recorded(statements, n - 1), statements[n - 1];
      var delta := Delta(Trim(s.text));
      if delta < 0 {
        ClosesKeepRecord(o, -delta);
      } else {
        OpensKeepRecord(o, delta);
      }
    }
  }

  /** The region paths one call opens, in order, and whether any was numbered blindly. */
  function RegionsOf(lex: Lexer, text: string): Opened {
    Recorded(Statements(lex, text), |Statements(lex, text)|)
  }

  /**
   * Region paths are unique exactly when no region is opened with the counter stack empty after
   * another region was opened: only then does the counter that would tell them apart not exist.
   */
  lemma RegionPathsUniqueIff(lex: Lexer, text: string)
    ensures NoRepeats(RegionsOf(lex, text).paths) <==> !RegionsOf(lex, text).blind
  {
    RecordIsOk(Statements(lex, text), |Statements(lex, text)|);
  }

  /** No closing brace of the first `n` statements met an empty region stack. */
  predicate Balanced(statements: seq<Statement>, n: nat)
    requires n <= |statements|
  {
    n == 0 ||
    (Balanced(statements, n - 1)
     && (var delta := Delta(Trim(statements[n - 1].text)); -delta <= |Recorded(statements, n - 1).regions.path|))
  }

  lemma {:induction false} ClosesWithinPath(o: Opened, n: nat)
    requires Missing(o.regions) == 0 && n <= |o.regions.path| && !o.blind
    ensures Missing(RecordCloses(o, n).regions) == 0 && !RecordCloses(o, n).blind
    ensures |RecordCloses(o, n).regions.path| == |o.regions.path| - n
  {
    if n > 0 {
      ClosesWithinPath(o, n - 1);
    }
  }

  lemma {:induction false} OpensCounted(o: Opened, n: nat)
    requires Missing(o.regions) == 0 && !o.blind
    ensures Missing(RecordOpens(o, n).regions) == 0 && !RecordOpens(o, n).blind
  {
    if n > 0 {
      OpensCounted(o, n - 1);
    }
  }

  lemma {:induction false} BalancedIsNeverBlind(statements: seq<Statement>, n: nat)
    requires n <= |statements| && Balanced(statements, n)
    ensures Missing(Recorded(statements, n).regions) == 0 && !Recorded(statements, n).blind
  {
    if n > 0 {
      BalancedIsNeverBlind(statements, n - 1);
      var o, delta := Recorded(statements, n - 1), Delta(Trim(statements[n - 1].text));
      if delta < 0 {
        ClosesWithinPath(o, -delta);
      } else {
        OpensCounted(o, delta);
      }
    }
  }

  /** While closes never outnumber opens, no two regions share a path. */
  lemma BalancedTextHasUniquePaths(lex: Lexer, text: string)
    requires Balanced(Statements(lex, text), |Statements(lex, text)|)
    ensures NoRepeats(RegionsOf(lex, text).paths)
  {
    BalancedIsNeverBlind(Statements(lex, text), |Statements(lex, text)|);
    RegionPathsUniqueIff(lex, text);
  }

  /** A line that opens exactly one region and is always a statement of its own. */
  predicate OpensRegion(lex: Lexer, line: string) {
    && line != [] && '\n' !in line && Trim(line) == line && line[0] != '}'
    && StartsNewStatement(lex, line) && Delta(line) == 1
  }

  function OverClosed(line: string): string {
    line + "\n" + ("}" + "\n" + ("}" + "\n" + line))
  }

  lemma LineEnds(line: string, rest: string)
    requires '\n' !in line
    ensures LineLength(line + "\n" + rest) == |line|
    ensures Lines(line + "\n" + rest) == [line] + Lines(rest)
  {
    var text := line + "\n" + rest;
    var n := LineLength(text);
    assert text[|line|] == '\n';
    assert forall i :: 0 <= i < |line| ==> text[i] in line;
    assert n == |line|;
    assert text[..n] == line && text[n + 1..] == rest;
  }

  lemma LastLine(line: string)
    requires line != [] && '\n' !in line
    ensures Lines(line) == [line]
  {
    assert forall i :: 0 <= i < |line| ==> line[i] in line;
  }

  lemma OverClosedLines(line: string)
    requires line != [] && '\n' !in line
    ensures Lines(OverClosed(line)) == [line, "}", "}", line]
  {
    var one := "}" + "\n" + line;
    var two := "}" + "\n" + one;
    LastLine(line);
    LineEnds("}", line);
    LineEnds("}", one);
    LineEnds(line, two);
  }

  /** Four lines that each begin a statement are four statements. */
  lemma FourStatements(lex: Lexer, lines: seq<string>)
    requires |lines| == 4 && forall k :: 0 <= k < 4 ==>
      Trim(lines[k]) == lines[k] && lines[k] != [] && StartsNewStatement(lex, lines[k])
    ensures Assembled(lex, lines, 4)
      == [Statement(lines[0], 1, 1), Statement(lines[1], 2, 2), Statement(lines[2], 3, 3), Statement(lines[3], 4, 4)]
  {
    assert Assembled(lex, lines, 1) == [Statement(lines[0], 1, 1)];
    assert Assembled(lex, lines, 2) == [Statement(lines[0], 1, 1), Statement(lines[1], 2, 2)];
    assert Assembled(lex, lines, 3) == [Statement(lines[0], 1, 1), Statement(lines[1], 2, 2),
      Statement(lines[2], 3, 3)];
  }

  lemma OneClose(o: Opened, s: Statement)
    requires s.text == "}"
    ensures RecordStatement(o, s) == o.(regions := CloseOne(o.regions))
  {
    CloseIsTrimmed();
    assert RecordCloses(o, 1) == RecordCloses(o, 0).(regions := CloseOne(o.regions));
  }

  lemma CloseIsTrimmed()
    ensures Trim("}") == "}" && Delta("}") == -1
  {
    assert Scanned("}", 1) == ScanByte(Scanned("}", 0), '}');
  }

  lemma OneOpen(lex: Lexer, o: Opened, s: Statement)
    requires OpensRegion(lex, s.text)
    ensures RecordStatement(o, s) == RecordOpen(o)
  {
    assert RecordOpens(o, 1) == RecordOpen(RecordOpens(o, 0));
  }

  lemma OverClosedStatements(lex: Lexer, line: string)
    requires OpensRegion(lex, line)
    ensures Statements(lex, OverClosed(line))
      == [Statement(line, 1, 1), Statement("}", 2, 2), Statement("}", 3, 3), Statement(line, 4, 4)]
  {
    OverClosedLines(line);
    CloseIsTrimmed();
    FourStatements(lex, [line, "}", "}", line]);
  }

  lemma OverClosedRecord(lex: Lexer, s: Statement, t: Statement, u: Statement, v: Statement)
    requires OpensRegion(lex, s.text) && OpensRegion(lex, v.text) && t.text == "}" && u.text == "}"
    ensures Recorded([s, t, u, v], 4) == Opened(Regions([0], [0]), [[0], [0]], true)
  {
    FourRecorded(s, t, u, v);
    OneOpen(lex, UNOPENED, s);
    TopClosedTwice(RecordOpen(UNOPENED), t, u);
    var emptied := Opened(Regions([], []), [[0]], false);
    OneOpen(lex, emptied, v);
    assert RecordOpen(emptied) == Opened(Regions([0], [0]), [[0], [0]], true);
  }

  /** With one closing brace too many, the region opened next repeats the path of the first. */
  lemma ExtraBraceRepeatsPath(lex: Lexer, line: string)
    requires OpensRegion(lex, line)
    ensures RegionsOf(lex, OverClosed(line)).blind && RegionsOf(lex, OverClosed(line)).paths == [[0], [0]]
  {
    OverClosedStatements(lex, line);
    OverClosedRecord(lex, Statement(line, 1, 1), Statement("}", 2, 2), Statement("}", 3, 3), Statement(line, 4, 4));
  }

  /** From one open region, two closes empty the counters. */
  lemma TopClosedTwice(first: Opened, t: Statement, u: Statement)
    requires t.text == "}" && u.text == "}" && first == RecordOpen(UNOPENED)
    ensures RecordStatement(RecordStatement(first, t), u) == Opened(Regions([], []), [[0]], false)
  {
    OneClose(first, t);
    var second := first.(regions := CloseOne(first.regions));
    OneClose(second, u);
    assert first == Opened(Regions([0], [1, 0]), [[0]], false);
    assert second.regions == Regions([], [1]);
  }

  lemma FourRecorded(a: Statement, b: Statement, c: Statement, d: Statement)
    ensures Recorded([a, b, c, d], 4)
      == RecordStatement(RecordStatement(RecordStatement(RecordStatement(UNOPENED, a), b), c), d)
  {
    var all := [a, b, c, d];
    assert Recorded(all, 1) == RecordStatement(Recorded(all, 0), a);
    assert Recorded(all, 2) == RecordStatement(Recorded(all, 1), b);
    assert Recorded(all, 3) == RecordStatement(Recorded(all, 2), c);
  }

  lemma ModuleOpensRegion(lex: Lexer)
    requires lex.beginsOp("module {")
    ensures OpensRegion(lex, "module {")
  {
    var line := "module {";
    assert Scanned(line, 1) == Scan(0, false, false);
    assert Scanned(line, 2) == Scan(0, false, false);
    assert Scanned(line, 3) == Scan(0, false, false);
    assert Scanned(line, 4) == Scan(0, false, false);
    assert Scanned(line, 5) == Scan(0, false, false);
    assert Scanned(line, 6) == Scan(0, false, false);
    assert Scanned(line, 7) == Scan(0, false, false);
    assert Scanned(line, 8) == Scan(1, false, false);
  }

  lemma ModuleText()
    ensures OverClosed("module {") == "module {\n}\n}\nmodule {"
  {
  }

  /** A module closed twice and opened again: a text the parser accepts whose two regions share a path. */
  lemma ModuleClosedTwice(lex: Lexer)
    requires lex.beginsOp("module {")
    ensures var text := "module {\n}\n}\nmodule {";
      RegionsOf(lex, text).blind && RegionsOf(lex, text).paths == [[0], [0]] && !NoRepeats(RegionsOf(lex, text).paths)
  {
    ModuleOpensRegion(lex);
    ExtraBraceRepeatsPath(lex, "module {");
    ModuleText();
    var paths := RegionsOf(lex, OverClosed("module {")).paths;
    assert paths[0] == paths[1];
  }
}
