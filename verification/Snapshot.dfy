// Normalising a recorded trace: which operation an index row means, which
// tokens are unambiguous, and the order of the executed passes.
module Snapshot {
  import opened Model
  import opened Timeline
  import Parser
  import opened Sorting
  import Reader

  // ----------------------------------------------------------- line offsets

  /** Offsets at which the first `n` octets start a line. */
  function Starts(text: string, n: nat): (r: seq<nat>)
    requires n <= |text|
  {
    if n == 0 then [0]
    else Starts(text, n - 1) + if text[n - 1] == '\n' && n < |text| then [n] else []
  }

  method LineStarts(text: string) returns (starts: seq<nat>)
    ensures starts == Starts(text, |text|)
  {
    starts := [0];
    for index := 0 to |text|
      invariant starts == Starts(text, index)
    {
      if text[index] == '\n' && index + 1 < |text| {
        starts := starts + [index + 1];
      }
    }
  }

  predicate Ascending(s: seq<nat>) {
    forall i, j :: 0 <= i < j < |s| ==> s[i] < s[j]
  }

  predicate StartsLine(text: string, p: nat) {
    p == 0 || (0 < p < |text| && text[p - 1] == '\n')
  }

  predicate UpTo(s: seq<nat>, n: nat) {
    forall i :: 0 <= i < |s| ==> s[i] <= n
  }

  lemma AppendAscends(s: seq<nat>, n: nat, added: seq<nat>)
    requires n > 0 && Ascending(s) && UpTo(s, n - 1) && (added == [] || added == [n])
    ensures Ascending(s + added) && UpTo(s + added, n)
  {
  }

  lemma {:induction false} StartsAscend(text: string, n: nat)
    requires n <= |text|
    ensures Ascending(Starts(text, n)) && UpTo(Starts(text, n), n)
  {
    if n > 0 {
      StartsAscend(text, n - 1);
      AppendAscends(Starts(text, n - 1), n, if text[n - 1] == '\n' && n < |text| then [n] else []);
    }
  }

  lemma {:induction false} StartsMember(text: string, n: nat, p: nat)
    requires n <= |text|
    ensures p in Starts(text, n) <==> p <= n && StartsLine(text, p)
  {
    if n > 0 {
      StartsMember(text, n - 1, p);
      var added := if text[n - 1] == '\n' && n < |text| then [n] else [];
      assert p in Starts(text, n) <==> p in Starts(text, n - 1) || p in added;
    }
  }

  function Shifted(offsets: seq<nat>, distance: nat): (r: seq<nat>)
    ensures |r| == |offsets| && forall i :: 0 <= i < |r| ==> r[i] == offsets[i] + distance
  {
    seq(|offsets|, i requires 0 <= i < |offsets| => offsets[i] + distance)
  }

  /** The offsets of the parser's lines. */
  function Offsets(text: string): (r: seq<nat>)
    ensures |r| == |Parser.Lines(text)|
  {
    if text == [] then []
    else
      var n := Parser.LineLength(text);
      if n == |text| then [0]
      else
        LinesUnfold(text, n);
        var rest := Offsets(text[n + 1..]);
        [0] + Shifted(rest, n + 1)
  }

  /** Each offset is where that line's text begins, and the next one follows its line feed. */
  lemma {:induction false} OffsetsHoldLines(text: string, k: nat)
    requires k < |Parser.Lines(text)|
    ensures LineAt(text, k)
  {
    var n := Parser.LineLength(text);
    if n < |text| {
      LinesUnfold(text, n);
      if k > 0 {
        OffsetsHoldLines(text[n + 1..], k - 1);
        LaterLineAt(text, n, k);
      } else {
        FirstLine(text, n);
      }
    }
  }

  /** The line stands at the offset, and the next line, if any, starts just after its line feed. */
  predicate PlacedAt(text: string, line: string, offset: nat, next: Option<nat>) {
    && offset + |line| <= |text| && text[offset..offset + |line|] == line
    && (match next case Some(p) => p == offset + |line| + 1 case None => offset + |line| + 1 >= |text|)
  }

  function NextOf(offsets: seq<nat>, k: nat): Option<nat> {
    if k + 1 < |offsets| then Some(offsets[k + 1]) else None
  }

  predicate LineAt(text: string, k: nat)
    requires k < |Parser.Lines(text)|
  {
    PlacedAt(text, Parser.Lines(text)[k], Offsets(text)[k], NextOf(Offsets(text), k))
  }

  lemma PlacedInTail(text: string, from: nat, line: string, offset: nat, next: Option<nat>)
    requires from <= |text| && PlacedAt(text[from..], line, offset, next)
    ensures PlacedAt(text, line, offset + from, if next.Some? then Some(next.value + from) else None)
  {
    SliceOfTail(text, from, offset, |line|);
  }

  lemma SliceOfTail(text: string, from: nat, offset: nat, length: nat)
    requires from <= |text| && offset + length <= |text| - from
    ensures text[offset + from..offset + from + length] == text[from..][offset..offset + length]
  {
  }

  lemma FirstLine(text: string, n: nat)
    requires n < |text| && n == Parser.LineLength(text)
    ensures var lines, offsets := Parser.Lines(text), Offsets(text);
      lines[0] == text[..n] && offsets[0] == 0 && (|lines| > 1 ==> offsets[1] == n + 1)
        && (|lines| == 1 ==> n + 1 == |text|)
  {
    var rest := text[n + 1..];
    if rest != [] {
      assert Offsets(rest)[0] == 0;
    }
  }

  lemma LinesUnfold(text: string, n: nat)
    requires n < |text| && n == Parser.LineLength(text)
    ensures Parser.Lines(text) == [text[..n]] + Parser.Lines(text[n + 1..])
  {
  }

  lemma ShiftedAfterZero(rest: seq<nat>, distance: nat, all: seq<nat>)
    requires all == [0] + Shifted(rest, distance)
    ensures |all| == 1 + |rest| && forall k :: 0 < k < |all| ==> all[k] == rest[k - 1] + distance
  {
  }

  lemma OffsetsUnfold(text: string, n: nat)
    requires n < |text| && n == Parser.LineLength(text)
    ensures |Offsets(text)| == 1 + |Offsets(text[n + 1..])|
    ensures forall k :: 0 < k < |Offsets(text)| ==> Offsets(text)[k] == Offsets(text[n + 1..])[k - 1] + n + 1
  {
    ShiftedAfterZero(Offsets(text[n + 1..]), n + 1, Offsets(text));
  }

  /** A line placed in the remainder is placed as far behind in the whole. */
  lemma PlacedLater(text: string, from: nat, line: string, tail: seq<nat>, all: seq<nat>, k: nat)
    requires from <= |text| && 0 < k <= |tail| && |all| == 1 + |tail|
    requires forall i :: 0 < i < |all| ==> all[i] == tail[i - 1] + from
    requires PlacedAt(text[from..], line, tail[k - 1], NextOf(tail, k - 1))
    ensures PlacedAt(text, line, all[k], NextOf(all, k))
  {
    PlacedInTail(text, from, line, tail[k - 1], NextOf(tail, k - 1));
  }

  lemma LaterLineAt(text: string, n: nat, k: nat)
    requires n < |text| && n == Parser.LineLength(text) && 0 < k < |Parser.Lines(text)|
    requires k - 1 < |Parser.Lines(text[n + 1..])| && LineAt(text[n + 1..], k - 1)
    ensures LineAt(text, k)
  {
    var rest := text[n + 1..];
    LinesUnfold(text, n);
    OffsetsUnfold(text, n);
    PlacedLater(text, n + 1, Parser.Lines(rest)[k - 1], Offsets(rest), Offsets(text), k);
  }

  lemma {:induction false} OffsetsAreLineStarts(text: string)
    requires text != []
    ensures Ascending(Offsets(text)) && forall p: nat :: p in Offsets(text) <==> p <= |text| && StartsLine(text, p)
  {
    var n := Parser.LineLength(text);
    var offsets := Offsets(text);
    if n < |text| {
      var rest := text[n + 1..];
      if rest != [] {
        OffsetsAreLineStarts(rest);
      }
      ShiftedStarts(text, n, rest);
    } else {
      assert forall p: nat :: StartsLine(text, p) && p <= |text| ==> p == 0;
    }
  }

  lemma ShiftedMember(tail: seq<nat>, d: nat, p: nat)
    requires d > 0
    ensures p in [0] + Shifted(tail, d) <==> p == 0 || (p >= d && p - d in tail)
  {
    var all := [0] + Shifted(tail, d);
    if p >= d && p - d in tail {
      var i :| 0 <= i < |tail| && tail[i] == p - d;
      assert all[i + 1] == p;
    }
    if p in all && p != 0 {
      var i :| 0 <= i < |all| && all[i] == p;
      assert tail[i - 1] == p - d;
    }
  }

  /** Beyond its first line a text starts lines where its remainder does. */
  lemma StartsShift(text: string, n: nat, rest: string, p: nat)
    requires n < |text| && n == Parser.LineLength(text) && rest == text[n + 1..]
    ensures p <= |text| && StartsLine(text, p)
      <==> p == 0 || (p >= n + 1 && rest != [] && p - n - 1 <= |rest| && StartsLine(rest, p - n - 1))
  {
    if 0 < p <= n {
      assert text[p - 1] != '\n';
    }
  }

  lemma ShiftedAscends(tail: seq<nat>, d: nat)
    requires Ascending(tail) && d > 0
    ensures Ascending([0] + Shifted(tail, d))
  {
  }

  lemma {:induction false} ShiftedStarts(text: string, n: nat, rest: string)
    requires n < |text| && n == Parser.LineLength(text) && rest == text[n + 1..]
    requires rest != [] ==> Ascending(Offsets(rest)) && forall p: nat :: p in Offsets(rest) <==>
      p <= |rest| && StartsLine(rest, p)
    ensures Ascending(Offsets(text)) && forall p: nat :: p in Offsets(text) <==> p <= |text| && StartsLine(text, p)
  {
    var tail := Offsets(rest);
    assert Offsets(text) == [0] + Shifted(tail, n + 1);
    ShiftedAscends(tail, n + 1);
    forall p: nat
      ensures p in Offsets(text) <==> p <= |text| && StartsLine(text, p)
    {
      ShiftedMember(tail, n + 1, p);
      StartsShift(text, n, rest, p);
    }
  }

  lemma {:induction false} AscendingUnique(a: seq<nat>, b: seq<nat>)
    requires Ascending(a) && Ascending(b) && forall p: nat :: p in a <==> p in b
    ensures a == b
  {
    if a == [] {
      assert forall i :: 0 <= i < |b| ==> b[i] in b;
    } else {
      assert a[0] in b;
      assert b[0] in a;
      forall p: nat
        ensures p in a[1..] <==> p in b[1..]
      {
        assert p in a[1..] <==> p in a && p != a[0];
        assert p in b[1..] <==> p in b && p != b[0];
      }
      AscendingUnique(a[1..], b[1..]);
    }
  }

  /** The server's line offsets are the offsets of the parser's lines. */
  lemma LineStartsAgreeWithParser(text: string)
    requires text != []
    ensures Starts(text, |text|) == Offsets(text)
  {
    StartsAscend(text, |text|);
    forall p: nat
      ensures p in Starts(text, |text|) <==> p <= |text| && StartsLine(text, p)
    {
      StartsMember(text, |text|, p);
    }
    OffsetsAreLineStarts(text);
    AscendingUnique(Starts(text, |text|), Offsets(text));
  }

  // -------------------------------------------------- rows and operations

  /** One row of `op_index` as read back. */
  datatype IndexRow = IndexRow(side: SnapshotSide, ptrToken: int, byteStart: int, byteEnd: int)

  /** The octets an operation's lines take up; none when its first line is unknown. */
  function Extent(op: ParsedOp, starts: seq<nat>, textLen: nat): Option<(nat, nat)> {
    if op.lineStart == 0 || op.lineStart - 1 >= |starts| then None
    else Some((starts[op.lineStart - 1], if op.lineEnd < |starts| then starts[op.lineEnd] else textLen))
  }

  predicate Covers(op: ParsedOp, starts: seq<nat>, textLen: nat, from: int, to: int) {
    match Extent(op, starts, textLen)
    case Some((start, end)) => start <= from && to <= end
    case None => false
  }

  function Width(op: ParsedOp, starts: seq<nat>, textLen: nat): int {
    match Extent(op, starts, textLen) case Some((start, end)) => end - start case None => 0
  }

  predicate Candidate(ops: seq<ParsedOp>, i: nat, scopeOps: set<OpIdx>, starts: seq<nat>, textLen: nat, from: int,
      to: int)
    requires i < |ops|
  {
    ops[i].idx in scopeOps && Covers(ops[i], starts, textLen, from, to)
  }

  /** `min_by_key` on (width, index) over the first `n` operations. */
  function Narrowest(ops: seq<ParsedOp>, n: nat, scopeOps: set<OpIdx>, starts: seq<nat>, textLen: nat, from: int,
      to: int): (r: Option<OpIdx>)
    requires n <= |ops| && forall i :: 0 <= i < |ops| ==> ops[i].idx == i
    ensures r.Some? ==> r.value < n && Candidate(ops, r.value, scopeOps, starts, textLen, from, to)
    ensures r.None? ==> forall i :: 0 <= i < n ==> !Candidate(ops, i, scopeOps, starts, textLen, from, to)
    ensures r.Some? ==> forall i :: 0 <= i < n && Candidate(ops, i, scopeOps, starts, textLen, from, to) ==>
      Width(ops[r.value], starts, textLen) < Width(ops[i], starts, textLen)
      || (Width(ops[r.value], starts, textLen) == Width(ops[i], starts, textLen) && r.value <= i)
  {
    if n == 0 then None
    else
      var best := Narrowest(ops, n - 1, scopeOps, starts, textLen, from, to);
      if !Candidate(ops, n - 1, scopeOps, starts, textLen, from, to) then best
      else if best.None? || Width(ops[n - 1], starts, textLen) < Width(ops[best.value], starts, textLen)
        then Some(n - 1)
      else best
  }

  /** Which operation of the scope a row means: an ordinal when the end is -1, else a span. */
  function RowOpIdx(row: IndexRow, ops: seq<ParsedOp>, scopeOps: set<OpIdx>, starts: seq<nat>,
      textLen: nat): (r: Option<OpIdx>)
    requires forall i :: 0 <= i < |ops| ==> ops[i].idx == i
    ensures r.Some? ==> r.value in scopeOps && r.value < |ops|
  {
    if row.byteStart < 0 then None
    else if row.byteEnd == -1 then
      if row.byteStart < |ops| && ops[row.byteStart].idx in scopeOps then Some(ops[row.byteStart].idx) else None
    else if row.byteEnd < row.byteStart || row.byteEnd > textLen then None
    else Narrowest(ops, |ops|, scopeOps, starts, textLen, row.byteStart, row.byteEnd)
  }

  /**
   * A span means the narrowest covering statement of the scope, the lowest index on ties, and nothing if none covers.
   */
  lemma SpansMeanNarrowest(row: IndexRow, ops: seq<ParsedOp>, scopeOps: set<OpIdx>, starts: seq<nat>, textLen: nat,
      i: nat)
    requires (forall k :: 0 <= k < |ops| ==> ops[k].idx == k) && i < |ops|
    requires 0 <= row.byteStart <= row.byteEnd <= textLen
    requires Candidate(ops, i, scopeOps, starts, textLen, row.byteStart, row.byteEnd)
    ensures var r := RowOpIdx(row, ops, scopeOps, starts, textLen);
      && r.Some? && Candidate(ops, r.value, scopeOps, starts, textLen, row.byteStart, row.byteEnd)
      && Width(ops[r.value], starts, textLen) <= Width(ops[i], starts, textLen)
      && (Width(ops[r.value], starts, textLen) == Width(ops[i], starts, textLen) ==> r.value <= i)
  {
  }

  /** Every operation the parser makes has a known extent inside the text. */
  lemma {:induction false} ParsedOpsHaveExtents(lex: Parser.Lexer, text: string, i: nat)
    requires i < |Parser.Parse(lex, text).ops|
    ensures var op := Parser.Parse(lex, text).ops[i];
      var extent := Extent(op, Starts(text, |text|), |text|);
      extent.Some? && extent.value.0 <= extent.value.1 <= |text|
  {
    var op := Parser.Parse(lex, text).ops[i];
    var starts, lines := Starts(text, |text|), Parser.Lines(text);
    Parser.ParseIsWellFormed(lex, text);
    assert Parser.OpOk(op, i, |lines|);
    assert text != [];
    LineStartsAgreeWithParser(text);
    OffsetsAreLineStarts(text);
    OffsetsHoldLines(text, op.lineStart - 1);
    assert forall k :: 0 <= k < |starts| ==> starts[k] in starts;
  }

  // ----------------------------------------------------------------- tokens

  datatype TokenScan = TokenScan(tokens: map<int, OpIdx>, duplicates: set<int>)

  /** The operation each row of one side means. */
  type Meaning = seq<Option<OpIdx>>

  function ScanRow(scan: TokenScan, token: int, op: Option<OpIdx>): TokenScan {
    if token in scan.duplicates || op.None? then scan
    else if token in scan.tokens then TokenScan(scan.tokens - {token}, scan.duplicates + {token})
    else scan.(tokens := scan.tokens[token := op.value])
  }

  /** How many of the first `n` rows carry the token and mean some operation. */
  function Mentions(rows: seq<IndexRow>, meaning: Meaning, n: nat, token: int): nat
    requires n <= |rows| == |meaning|
  {
    if n == 0 then 0
    else Mentions(rows, meaning, n - 1, token) + if rows[n - 1].ptrToken == token && meaning[n - 1].Some? then 1 else 0
  }

  function ScanTo(rows: seq<IndexRow>, meaning: Meaning, n: nat): TokenScan
    requires n <= |rows| == |meaning|
  {
    if n == 0 then TokenScan(map[], {}) else ScanRow(ScanTo(rows, meaning, n - 1), rows[n - 1].ptrToken, meaning[n - 1])
  }

  lemma {:induction false} ScanCounts(rows: seq<IndexRow>, meaning: Meaning, n: nat, token: int)
    requires n <= |rows| == |meaning|
    ensures token in ScanTo(rows, meaning, n).tokens <==> Mentions(rows, meaning, n, token) == 1
    ensures token in ScanTo(rows, meaning, n).duplicates <==> Mentions(rows, meaning, n, token) >= 2
  {
    if n > 0 {
      ScanCounts(rows, meaning, n - 1, token);
    }
  }

  lemma {:induction false} MentionWitness(rows: seq<IndexRow>, meaning: Meaning, n: nat, token: int, k: nat)
    requires k < n <= |rows| == |meaning| && rows[k].ptrToken == token && meaning[k].Some?
    ensures Mentions(rows, meaning, n, token) >= 1
    ensures token in ScanTo(rows, meaning, n).tokens ==> ScanTo(rows, meaning, n).tokens[token] == meaning[k].value
  {
    ScanCounts(rows, meaning, n, token);
    ScanCounts(rows, meaning, n - 1, token);
    if k < n - 1 {
      MentionWitness(rows, meaning, n - 1, token, k);
    }
  }

  /** The row is the only one of its token that means an operation. */
  predicate OnlyMention(rows: seq<IndexRow>, meaning: Meaning, token: int, k: nat)
    requires k < |rows| == |meaning|
  {
    rows[k].ptrToken == token && meaning[k].Some?
    && forall l :: 0 <= l < |rows| && rows[l].ptrToken == token && meaning[l].Some? ==> l == k
  }

  lemma {:induction false} MentionsPositive(rows: seq<IndexRow>, meaning: Meaning, n: nat, token: int) returns (k: nat)
    requires n <= |rows| == |meaning| && Mentions(rows, meaning, n, token) >= 1
    ensures k < n && rows[k].ptrToken == token && meaning[k].Some?
  {
    if rows[n - 1].ptrToken == token && meaning[n - 1].Some? {
      k := n - 1;
    } else {
      k := MentionsPositive(rows, meaning, n - 1, token);
    }
  }

  lemma {:induction false} TwoMentions(rows: seq<IndexRow>, meaning: Meaning, n: nat, token: int, k: nat, l: nat)
    requires k < l < n <= |rows| == |meaning|
    requires rows[k].ptrToken == token && meaning[k].Some? && rows[l].ptrToken == token && meaning[l].Some?
    ensures Mentions(rows, meaning, n, token) >= 2
  {
    if l < n - 1 {
      TwoMentions(rows, meaning, n - 1, token, k, l);
    } else {
      MentionWitness(rows, meaning, n - 1, token, k);
    }
  }

  lemma {:induction false} AtMostOneMention(rows: seq<IndexRow>, meaning: Meaning, n: nat, token: int, k: nat)
    requires k < |rows| == |meaning| && n <= |rows| && OnlyMention(rows, meaning, token, k)
    ensures Mentions(rows, meaning, n, token) == if k < n then 1 else 0
  {
    if n > 0 {
      AtMostOneMention(rows, meaning, n - 1, token, k);
    }
  }

  /** A token is kept exactly when one and only one row of it means an operation, and then as that operation. */
  lemma TokensAreUnambiguous(rows: seq<IndexRow>, meaning: Meaning, token: int, op: OpIdx)
    requires |rows| == |meaning|
    ensures var tokens := ScanTo(rows, meaning, |rows|).tokens;
      (token in tokens && tokens[token] == op) <==>
      exists k :: 0 <= k < |rows| && OnlyMention(rows, meaning, token, k) && meaning[k] == Some(op)
  {
    var tokens := ScanTo(rows, meaning, |rows|).tokens;
    ScanCounts(rows, meaning, |rows|, token);
    if token in tokens {
      var k := MentionsPositive(rows, meaning, |rows|, token);
      MentionWitness(rows, meaning, |rows|, token, k);
      forall l | 0 <= l < |rows| && rows[l].ptrToken == token && meaning[l].Some?
        ensures l == k
      {
        if l < k { TwoMentions(rows, meaning, |rows|, token, l, k); }
        if k < l { TwoMentions(rows, meaning, |rows|, token, k, l); }
      }
      assert OnlyMention(rows, meaning, token, k);
    }
    if exists k :: 0 <= k < |rows| && OnlyMention(rows, meaning, token, k) && meaning[k] == Some(op) {
      var k :| 0 <= k < |rows| && OnlyMention(rows, meaning, token, k) && meaning[k] == Some(op);
      AtMostOneMention(rows, meaning, |rows|, token, k);
      MentionWitness(rows, meaning, |rows|, token, k);
    }
  }

  lemma {:induction false} TokensStayInScope(rows: seq<IndexRow>, meaning: Meaning, n: nat, scopeOps: set<OpIdx>)
    requires n <= |rows| == |meaning| && forall k :: 0 <= k < |meaning| && meaning[k].Some? ==>
      meaning[k].value in scopeOps
    ensures forall t :: t in ScanTo(rows, meaning, n).tokens ==> ScanTo(rows, meaning, n).tokens[t] in scopeOps
  {
    if n > 0 {
      TokensStayInScope(rows, meaning, n - 1, scopeOps);
    }
  }

  // --------------------------------------------------------------- snapshots

  /** A read of the immutable trace, which may fail. */
  datatype Read<+T> = Fine(value: T) | Failed

  /** The trace behind a reader: blob texts, and per pass its index rows and events. */
  datatype Source = Source(
    text: int -> Read<string>,
    rows: int -> Read<seq<IndexRow>>,
    events: int -> Read<seq<Event>>)

  ghost predicate ParsesWell(parse: (int, string) -> ParsedModule) {
    forall blob, text :: WellFormed(parse(blob, text))
  }

  /** How the text of a blob becomes a module; the server parses through a memo. */
  type Parse = parse: (int, string) -> ParsedModule | ParsesWell(parse) witness (blob: int,
      text: string) => ParsedModule([], [])

  lemma ParsedWell(parse: Parse, blob: int, text: string)
    ensures WellFormed(parse(blob, text))
  {
    assert ParsesWell(parse);
  }

  /** Parsing with the engine's parser. */
  function EngineParse(lex: Parser.Lexer): Parse {
    var parse := (blob: int, text: string) => Parser.Parse(lex, text);
    assert ParsesWell(parse) by {
      forall blob, text
        ensures WellFormed(parse(blob, text))
      {
        Parser.ParsedModulesAreWellFormed(lex, text);
      }
    }
    parse
  }

  function Ordinals(ops: seq<OpIdx>, n: nat): map<OpIdx, nat>
    requires n <= |ops|
  {
    if n == 0 then map[] else Ordinals(ops, n - 1)[ops[n - 1] := n - 1]
  }

  function RowsOfSide(rows: seq<IndexRow>, side: SnapshotSide): (r: seq<IndexRow>) {
    if rows == [] then [] else (if rows[0].side == side then [rows[0]] else []) + RowsOfSide(rows[1..], side)
  }

  function MeaningOf(rows: seq<IndexRow>, ops: seq<ParsedOp>, scopeOps: set<OpIdx>, starts: seq<nat>,
      textLen: nat): (r: Meaning)
    requires forall i :: 0 <= i < |ops| ==> ops[i].idx == i
    ensures |r| == |rows|
  {
    seq(|rows|, k requires 0 <= k < |rows| => RowOpIdx(rows[k], ops, scopeOps, starts, textLen))
  }

  function ScopeSet(ops: seq<OpIdx>): set<OpIdx> { set op | op in ops }

  /** The snapshot of one function on one side of a pass. */
  function SnapshotFor(parse: Parse, text: string, rows: seq<IndexRow>, blob: int, side: SnapshotSide,
      func: string): Option<SnapshotOps> {
    var code := parse(blob, text);
    match code.Scope(func)
    case None => None
    case Some(scope) =>
      var mine := RowsOfSide(rows, side);
      var meaning := MeaningOf(mine, code.ops, ScopeSet(scope.ops), Starts(text, |text|), |text|);
      Some(SnapshotOps(side, Some(blob), code, Ordinals(scope.ops, |scope.ops|), ScanTo(mine, meaning, |mine|).tokens))
  }

  function Built(source: Source, parse: Parse, pass: int, blob: Option<int>, side: SnapshotSide,
      func: string): Read<Option<SnapshotOps>> {
    match blob
    case None => Fine(None)
    case Some(id) =>
      match source.text(id)
      case Failed => Failed
      case Fine(text) =>
        if parse(id, text).Scope(func).None? then Fine(None)
        else
          match source.rows(pass)
          case Failed => Failed
          case Fine(rows) => Fine(SnapshotFor(parse, text, rows, id, side, func))
  }

  method BuildSnapshot(source: Source, parse: Parse, pass: int, blob: Option<int>, side: SnapshotSide, func: string)
    returns (r: Read<Option<SnapshotOps>>)
    ensures r == Built(source, parse, pass, blob, side, func)
  {
    if blob.None? {
      return Fine(None);
    }
    var read := source.text(blob.value);
    if read.Failed? {
      return Failed;
    }
    var text := read.value;
    var code := parse(blob.value, text);
    ParsedWell(parse, blob.value, text);
    if code.Scope(func).None? {
      return Fine(None);
    }
    var scopeOps := code.Scope(func).value.ops;
    var starts := LineStarts(text);
    var rowsRead := source.rows(pass);
    if rowsRead.Failed? {
      return Failed;
    }
    var tokens := CollectTokens(RowsOfSide(rowsRead.value, side), code.ops, ScopeSet(scopeOps), starts, |text|);
    r := Fine(Some(SnapshotOps(side, Some(blob.value), code, Ordinals(scopeOps, |scopeOps|), tokens)));
  }

  method CollectTokens(rows: seq<IndexRow>, ops: seq<ParsedOp>, scopeOps: set<OpIdx>, starts: seq<nat>, textLen: nat)
    returns (tokens: map<int, OpIdx>)
    requires forall i :: 0 <= i < |ops| ==> ops[i].idx == i
    ensures tokens == ScanTo(rows, MeaningOf(rows, ops, scopeOps, starts, textLen), |rows|).tokens
  {
    tokens := map[];
    var duplicates: set<int> := {};
    ghost var meaning := MeaningOf(rows, ops, scopeOps, starts, textLen);
    for n := 0 to |rows|
      invariant TokenScan(tokens, duplicates) == ScanTo(rows, meaning, n)
    {
      var token := rows[n].ptrToken;
      if token !in duplicates {
        var op := RowOpIdx(rows[n], ops, scopeOps, starts, textLen);
        if op.Some? {
          if token in tokens {
            tokens := tokens - {token};
            duplicates := duplicates + {token};
          } else {
            tokens := tokens[token := op.value];
          }
        }
      }
    }
  }

  lemma {:induction false} OrdinalsArePlaces(ops: seq<OpIdx>, n: nat)
    requires n <= |ops| && StrictlyIncreasing(ops)
    ensures forall i :: 0 <= i < n ==> ops[i] in Ordinals(ops, n) && Ordinals(ops, n)[ops[i]] == i
  {
    if n > 0 {
      OrdinalsArePlaces(ops, n - 1);
    }
  }

  /** What a snapshot promises the resolver. */
  lemma SnapshotsAreOk(parse: Parse, text: string, rows: seq<IndexRow>, blob: int, side: SnapshotSide, func: string)
    requires SnapshotFor(parse, text, rows, blob, side, func).Some?
    ensures SnapshotOk(SnapshotFor(parse, text, rows, blob, side, func).value, side, func)
    ensures TokensInScope(SnapshotFor(parse, text, rows, blob, side, func).value, func)
  {
    var code := parse(blob, text);
    var ops := code.ScopeOps(func);
    var mine := RowsOfSide(rows, side);
    var meaning := MeaningOf(mine, code.ops, ScopeSet(ops), Starts(text, |text|), |text|);
    OrdinalsArePlaces(ops, |ops|);
    TokensStayInScope(mine, meaning, |mine|, ScopeSet(ops));
  }

  // ---------------------------------------------------------------- timeline

  type Leaf = (nat, Reader.PassNode)

  function CountNodes(nodes: seq<Reader.PassNode>): nat {
    if nodes == [] then 0 else 1 + CountNodes(nodes[0].children) + CountNodes(nodes[1..])
  }

  /** Passes without children, each with its place in a pre-order walk. */
  function Leaves(nodes: seq<Reader.PassNode>, order: nat): seq<Leaf> {
    if nodes == [] then []
    else
      (if nodes[0].children == [] then [(order, nodes[0])] else Leaves(nodes[0].children, order + 1))
      + Leaves(nodes[1..], order + 1 + CountNodes(nodes[0].children))
  }

  method CollectLeaves(nodes: seq<Reader.PassNode>, order: nat) returns (next: nat, output: seq<Leaf>)
    ensures next == order + CountNodes(nodes) && output == Leaves(nodes, order)
    decreases nodes
  {
    next, output := order, [];
    for i := 0 to |nodes|
      invariant next + CountNodes(nodes[i..]) == order + CountNodes(nodes)
      invariant output + Leaves(nodes[i..], next) == Leaves(nodes, order)
    {
      LeavesUnfold(nodes, i, next);
      var mine: seq<Leaf>;
      next, mine := CollectLeaf(nodes[i], next);
      output := output + mine;
    }
    assert nodes[|nodes|..] == [];
  }

  /** The leaves at and below one node. */
  function LeavesAt(node: Reader.PassNode, order: nat): seq<Leaf> {
    if node.children == [] then [(order, node)] else Leaves(node.children, order + 1)
  }

  lemma LeavesUnfold(nodes: seq<Reader.PassNode>, i: nat, order: nat)
    requires i < |nodes|
    ensures Leaves(nodes[i..], order) == LeavesAt(nodes[i], order) + Leaves(nodes[i + 1..],
      order + 1 + CountNodes(nodes[i].children))
    ensures CountNodes(nodes[i..]) == 1 + CountNodes(nodes[i].children) + CountNodes(nodes[i + 1..])
  {
    assert nodes[i..][1..] == nodes[i + 1..];
  }

  method CollectLeaf(node: Reader.PassNode, order: nat) returns (next: nat, output: seq<Leaf>)
    ensures next == order + 1 + CountNodes(node.children) && output == LeavesAt(node, order)
    decreases node
  {
    if node.children == [] {
      return order + 1, [(order, node)];
    }
    next, output := CollectLeaves(node.children, order + 1);
  }

  function LeafKey(leaf: Leaf): Key { (leaf.1.info.startNs, leaf.0, 0) }

  /** `sort_by_key` on (start, walk order). */
  function SortLeaves(s: seq<Leaf>): seq<Leaf> { SortBy(s, LeafKey) }

  function LeavesWith(s: seq<Leaf>, id: int): nat {
    if s == [] then 0 else LeavesWith(s[..|s| - 1], id) + if s[|s| - 1].1.id == id then 1 else 0
  }

  lemma {:induction false} LeavesWithConcat(a: seq<Leaf>, b: seq<Leaf>, id: int)
    ensures LeavesWith(a + b, id) == LeavesWith(a, id) + LeavesWith(b, id)
  {
    if b == [] {
      assert a + b == a;
    } else {
      LeavesWithConcat(a, b[..|b| - 1], id);
      assert (a + b)[..|a + b| - 1] == a + b[..|b| - 1];
    }
  }

  lemma {:induction false} InsertKeepsCount(s: seq<Leaf>, l: Leaf, id: int)
    ensures LeavesWith(Insert(s, l, LeafKey), id) == LeavesWith(s, id) + if l.1.id == id then 1 else 0
  {
    if s != [] && Less(LeafKey(l), LeafKey(s[|s| - 1])) {
      InsertKeepsCount(s[..|s| - 1], l, id);
    }
  }

  lemma {:induction false} SortKeepsCount(s: seq<Leaf>, id: int)
    ensures LeavesWith(SortLeaves(s), id) == LeavesWith(s, id)
  {
    if s != [] {
      SortKeepsCount(s[..|s| - 1], id);
      InsertKeepsCount(SortLeaves(s[..|s| - 1]), s[|s| - 1], id);
    }
  }

  /** A leaf is a node of the forest, met once per node. */
  lemma {:induction false} LeavesAreNodes(nodes: seq<Reader.PassNode>, order: nat, id: int)
    ensures LeavesWith(Leaves(nodes, order), id) <= Reader.Occurrences(nodes, id)
  {
    if nodes != [] {
      var rest := Leaves(nodes[1..], order + 1 + CountNodes(nodes[0].children));
      LeavesAreNodes(nodes[1..], order + 1 + CountNodes(nodes[0].children), id);
      if nodes[0].children == [] {
        LeavesWithConcat([(order, nodes[0])], rest, id);
        assert [(order, nodes[0])][..0] == [];
      } else {
        LeavesAreNodes(nodes[0].children, order + 1, id);
        LeavesWithConcat(Leaves(nodes[0].children, order + 1), rest, id);
      }
    }
  }

  /** The stage of one executed pass; none when the function is in neither snapshot. */
  function StageFor(source: Source, parse: Parse, pass: Reader.PassNode, func: string): Read<Option<Stage>> {
    match Built(source, parse, pass.id, pass.info.irBefore, Before, func)
    case Failed => Failed
    case Fine(before) =>
      match Built(source, parse, pass.id, pass.info.irAfter, After, func)
      case Failed => Failed
      case Fine(after) =>
        if before.None? && after.None? then Fine(None)
        else
          match source.events(pass.id)
          case Failed => Failed
          case Fine(events) => Fine(Some(Stage(pass.id, pass.info.name, before, after, events)))
  }

  function Extended(earlier: Read<seq<Stage>>, stage: Read<Option<Stage>>): Read<seq<Stage>> {
    if earlier.Failed? || stage.Failed? then Failed
    else if stage.value.None? then earlier
    else Fine(earlier.value + [stage.value.value])
  }

  function StagesOf(source: Source, parse: Parse, leaves: seq<Leaf>, func: string): Read<seq<Stage>> {
    if leaves == [] then Fine([])
    else Extended(StagesOf(source, parse, leaves[..|leaves| - 1], func),
      StageFor(source, parse, leaves[|leaves| - 1].1, func))
  }

  function TimelineFor(source: Source, parse: Parse, forest: seq<Reader.PassNode>, func: string): Read<seq<Stage>> {
    StagesOf(source, parse, SortLeaves(Leaves(forest, 0)), func)
  }

  method BuildStage(source: Source, parse: Parse, pass: Reader.PassNode, func: string) returns (r: Read<Option<Stage>>)
    ensures r == StageFor(source, parse, pass, func)
  {
    var before := BuildSnapshot(source, parse, pass.id, pass.info.irBefore, Before, func);
    if before.Failed? {
      return Failed;
    }
    var after := BuildSnapshot(source, parse, pass.id, pass.info.irAfter, After, func);
    if after.Failed? {
      return Failed;
    }
    if before.value.None? && after.value.None? {
      return Fine(None);
    }
    var events := source.events(pass.id);
    if events.Failed? {
      return Failed;
    }
    r := Fine(Some(Stage(pass.id, pass.info.name, before.value, after.value, events.value)));
  }

  method BuildTimeline(source: Source, parse: Parse, forest: seq<Reader.PassNode>, func: string)
      returns (r: Read<seq<Stage>>)
    ensures r == TimelineFor(source, parse, forest, func)
  {
    var order, leaves := CollectLeaves(forest, 0);
    leaves := SortLeaves(leaves);
    var timeline: seq<Stage> := [];
    for n := 0 to |leaves|
      invariant StagesOf(source, parse, leaves[..n], func) == Fine(timeline)
    {
      StagesGrow(source, parse, leaves, func, n);
      FailureSpreads(source, parse, leaves, func, n + 1);
      var stage := BuildStage(source, parse, leaves[n].1, func);
      if stage.Failed? {
        return Failed;
      }
      if stage.value.Some? {
        timeline := timeline + [stage.value.value];
      }
    }
    assert leaves[..|leaves|] == leaves;
    r := Fine(timeline);
  }

  lemma StagesGrow(source: Source, parse: Parse, leaves: seq<Leaf>, func: string, n: nat)
    requires n < |leaves|
    ensures StagesOf(source, parse, leaves[..n + 1], func)
      == Extended(StagesOf(source, parse, leaves[..n], func), StageFor(source, parse, leaves[n].1, func))
  {
    assert leaves[..n + 1][..n] == leaves[..n];
  }

  lemma {:induction false} FailureSpreads(source: Source, parse: Parse, leaves: seq<Leaf>, func: string, n: nat)
    requires n <= |leaves|
    ensures StagesOf(source, parse, leaves[..n], func).Failed? ==> StagesOf(source, parse, leaves, func).Failed?
    decreases |leaves| - n
  {
    if n < |leaves| {
      FailureSpreads(source, parse, leaves, func, n + 1);
      assert leaves[..n + 1][..n] == leaves[..n];
    } else {
      assert leaves[..n] == leaves;
    }
  }

  function StagesWith(stages: seq<Stage>, id: int): nat {
    if stages == [] then 0 else StagesWith(stages[..|stages| - 1], id) + if stages[|stages| - 1].passId == id then 1
      else 0
  }

  lemma {:induction false} StagesFromLeaves(source: Source, parse: Parse, leaves: seq<Leaf>, func: string, id: int)
    requires StagesOf(source, parse, leaves, func).Fine?
    ensures StagesWith(StagesOf(source, parse, leaves, func).value, id) <= LeavesWith(leaves, id)
  {
    if leaves != [] {
      StagesFromLeaves(source, parse, leaves[..|leaves| - 1], func, id);
      var earlier := StagesOf(source, parse, leaves[..|leaves| - 1], func).value;
      var stage := StageFor(source, parse, leaves[|leaves| - 1].1, func).value;
      if stage.Some? {
        assert (earlier + [stage.value])[..|earlier|] == earlier;
      }
    }
  }

  lemma {:induction false} TwoStages(stages: seq<Stage>, i: nat, j: nat)
    requires i < j < |stages| && stages[i].passId == stages[j].passId
    ensures StagesWith(stages, stages[i].passId) >= 2
  {
    if j == |stages| - 1 {
      OneStage(stages[..j], i);
    } else {
      TwoStages(stages[..|stages| - 1], i, j);
    }
  }

  lemma {:induction false} OneStage(stages: seq<Stage>, i: nat)
    requires i < |stages|
    ensures StagesWith(stages, stages[i].passId) >= 1
  {
    if i < |stages| - 1 {
      OneStage(stages[..|stages| - 1], i);
    }
  }

  lemma {:induction false} StagesAreOk(source: Source, parse: Parse, leaves: seq<Leaf>, func: string)
    requires StagesOf(source, parse, leaves, func).Fine?
    ensures forall stage :: stage in StagesOf(source, parse, leaves, func).value ==>
      StageOk(stage, func) && StageInScope(stage, func)
  {
    if leaves != [] {
      StagesAreOk(source, parse, leaves[..|leaves| - 1], func);
      var pass := leaves[|leaves| - 1].1;
      if StageFor(source, parse, pass, func).value.Some? {
        StageIsOk(source, parse, pass, func);
      }
    }
  }

  lemma StageIsOk(source: Source, parse: Parse, pass: Reader.PassNode, func: string)
    requires StageFor(source, parse, pass, func).Fine? && StageFor(source, parse, pass, func).value.Some?
    ensures var stage := StageFor(source, parse, pass, func).value.value; StageOk(stage, func) && StageInScope(stage,
      func)
  {
    BuiltIsOk(source, parse, pass.id, pass.info.irBefore, Before, func);
    BuiltIsOk(source, parse, pass.id, pass.info.irAfter, After, func);
  }

  lemma BuiltIsOk(source: Source, parse: Parse, pass: int, blob: Option<int>, side: SnapshotSide, func: string)
    ensures var r := Built(source, parse, pass, blob, side, func);
      r.Fine? && r.value.Some? ==> SnapshotOk(r.value.value, side, func) && TokensInScope(r.value.value, func)
  {
    var r := Built(source, parse, pass, blob, side, func);
    if r.Fine? && r.value.Some? {
      SnapshotsAreOk(parse, source.text(blob.value).value, source.rows(pass).value, blob.value, side, func);
    }
  }

  lemma StagesDiffer(source: Source, parse: Parse, forest: seq<Reader.PassNode>, func: string, i: nat, j: nat)
    requires TimelineFor(source, parse, forest, func).Fine?
    requires forall id :: Reader.Occurrences(forest, id) <= 1
    requires i < j < |TimelineFor(source, parse, forest, func).value|
    ensures var stages := TimelineFor(source, parse, forest, func).value; stages[i].passId != stages[j].passId
  {
    var stages := TimelineFor(source, parse, forest, func).value;
    if stages[i].passId == stages[j].passId {
      var id := stages[i].passId;
      TwoStages(stages, i, j);
      StagesFromLeaves(source, parse, SortLeaves(Leaves(forest, 0)), func, id);
      SortKeepsCount(Leaves(forest, 0), id);
      LeavesAreNodes(forest, 0, id);
    }
  }

  /** A forest that holds each pass once gives the resolver everything it assumes. */
  lemma TimelinesAreOk(source: Source, parse: Parse, forest: seq<Reader.PassNode>, func: string)
    requires TimelineFor(source, parse, forest, func).Fine?
    requires forall id :: Reader.Occurrences(forest, id) <= 1
    ensures TimelineOk(TimelineFor(source, parse, forest, func).value, func)
  {
    var stages := TimelineFor(source, parse, forest, func).value;
    StagesAreOk(source, parse, SortLeaves(Leaves(forest, 0)), func);
    assert forall i :: 0 <= i < |stages| ==> stages[i] in stages;
    forall i, j | 0 <= i < j < |stages|
      ensures stages[i].passId != stages[j].passId
    {
      StagesDiffer(source, parse, forest, func, i, j);
    }
  }

  /**
   * Executed passes come in start order, in walk order among equal starts, each as often as the forest has it as a
   * leaf.
   */
  lemma LeavesInTimeOrder(forest: seq<Reader.PassNode>, id: int)
    ensures Sorted(SortLeaves(Leaves(forest, 0)), LeafKey)
    ensures LeavesWith(SortLeaves(Leaves(forest, 0)), id) == LeavesWith(Leaves(forest, 0), id)
  {
    SortByIsStable(Leaves(forest, 0), LeafKey);
    SortKeepsCount(Leaves(forest, 0), id);
  }

  // -------------------------------------------------------- where modules come from

  /** The snapshot's module is what its blob's text parses to. */
  ghost predicate FromBlob(source: Source, parse: Parse, snapshot: Option<SnapshotOps>) {
    snapshot.Some? ==>
      && snapshot.value.blobId.Some? && source.text(snapshot.value.blobId.value).Fine?
      && snapshot.value.code == parse(snapshot.value.blobId.value, source.text(snapshot.value.blobId.value).value)
  }

  lemma {:induction false} StagesFromBlobs(source: Source, parse: Parse, leaves: seq<Leaf>, func: string)
    requires StagesOf(source, parse, leaves, func).Fine?
    ensures forall stage, side :: stage in StagesOf(source, parse, leaves, func).value ==>
      FromBlob(source, parse, SideOf(stage, side))
  {
    if leaves != [] {
      StagesFromBlobs(source, parse, leaves[..|leaves| - 1], func);
      var pass := leaves[|leaves| - 1].1;
      if StageFor(source, parse, pass, func).value.Some? {
        StageFromBlobs(source, parse, pass, func);
      }
    }
  }

  lemma StageFromBlobs(source: Source, parse: Parse, pass: Reader.PassNode, func: string)
    requires StageFor(source, parse, pass, func).Fine? && StageFor(source, parse, pass, func).value.Some?
    ensures forall side :: FromBlob(source, parse, SideOf(StageFor(source, parse, pass, func).value.value, side))
  {
  }

  /** Equal blob ids mean equal modules. */
  lemma BlobsMeanModules(source: Source, parse: Parse, forest: seq<Reader.PassNode>, func: string)
    requires TimelineFor(source, parse, forest, func).Fine?
    ensures BlobsAgree(TimelineFor(source, parse, forest, func).value)
  {
    var stages := TimelineFor(source, parse, forest, func).value;
    StagesFromBlobs(source, parse, SortLeaves(Leaves(forest, 0)), func);
    forall i, j, a, b | 0 <= i < |stages| && 0 <= j < |stages|
      ensures SameCode(SideOf(stages[i], a), SideOf(stages[j], b))
    {
      assert FromBlob(source, parse, SideOf(stages[i], a)) && FromBlob(source, parse, SideOf(stages[j], b));
    }
  }

  // --------------------------------------------------- only the trace's own texts count

  /** The two agree on every text of the trace. */
  ghost predicate ParseAlike(source: Source, p: Parse, q: Parse) {
    forall blob: int :: AlikeAt(source, p, q, blob)
  }

  ghost predicate AlikeAt(source: Source, p: Parse, q: Parse, blob: int) {
    source.text(blob).Fine? ==> p(blob, source.text(blob).value) == q(blob, source.text(blob).value)
  }

  lemma BuiltAlike(source: Source, p: Parse, q: Parse, pass: int, blob: Option<int>, side: SnapshotSide, func: string)
    requires ParseAlike(source, p, q)
    ensures Built(source, p, pass, blob, side, func) == Built(source, q, pass, blob, side, func)
  {
    if blob.Some? && source.text(blob.value).Fine? {
      assert AlikeAt(source, p, q, blob.value);
    }
  }

  lemma {:induction false} StagesAlike(source: Source, p: Parse, q: Parse, leaves: seq<Leaf>, func: string)
    requires ParseAlike(source, p, q)
    ensures StagesOf(source, p, leaves, func) == StagesOf(source, q, leaves, func)
  {
    if leaves != [] {
      StagesAlike(source, p, q, leaves[..|leaves| - 1], func);
      var pass := leaves[|leaves| - 1].1;
      BuiltAlike(source, p, q, pass.id, pass.info.irBefore, Before, func);
      BuiltAlike(source, p, q, pass.id, pass.info.irAfter, After, func);
    }
  }
}
