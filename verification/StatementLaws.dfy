// How lines become statements: which lines begin one, which continue one, and
// what the text of each is.
module StatementLaws {
  import opened Model
  import opened Parser

  /** Blank, tab, line feed, vertical tab, form feed, carriage return. */
  predicate Space(c: char) {
    c == ' ' || c == '\t' || c == '\n' || c == '\U{000B}' || c == '\U{000C}' || c == '\r'
  }

  /** The text without the space around it: the longest part that neither begins nor ends with space. */
  ghost predicate TrimTells(s: string, r: string) {
    && (r != [] ==> !Space(r[0]) && !Space(r[|r| - 1]))
    && exists a, b :: 0 <= a <= b <= |s| && r == s[a..b]
         && (forall i :: 0 <= i < a ==> Space(s[i])) && (forall i :: b <= i < |s| ==> Space(s[i]))
  }

  lemma {:induction false} StartTrimmed(s: string) returns (a: nat)
    ensures a <= |s| && TrimStart(s) == s[a..] && forall i :: 0 <= i < a ==> Space(s[i])
    ensures TrimStart(s) != [] ==> !Space(TrimStart(s)[0])
  {
    a := 0;
    if s != [] && IsSpace(s[0]) {
      a := StartTrimmed(s[1..]);
      a := a + 1;
    }
  }

  lemma {:induction false} EndTrimmed(s: string) returns (b: nat)
    ensures b <= |s| && TrimEnd(s) == s[..b] && forall i :: b <= i < |s| ==> Space(s[i])
    ensures TrimEnd(s) != [] ==> !Space(TrimEnd(s)[|TrimEnd(s)| - 1])
  {
    b := |s|;
    if s != [] && IsSpace(s[|s| - 1]) {
      b := EndTrimmed(s[..|s| - 1]);
      assert s[..|s| - 1][..b] == s[..b];
    }
  }

  lemma TrimmedTells(s: string)
    ensures TrimTells(s, Trim(s))
  {
    var a := StartTrimmed(s);
    var b := EndTrimmed(s[a..]);
    assert Trim(s) == s[a..][..b] == s[a..a + b];
    forall i | a + b <= i < |s|
      ensures Space(s[i])
    {
      assert s[i] == s[a..][i - a];
    }
  }

  // ------------------------------------------------------------------ statements

  predicate Blank(lines: seq<string>, i: nat)
    requires i < |lines|
  {
    Trim(lines[i]) == []
  }

  /** A value, a closing brace, a block label, a quoted name, or what the lexer takes for an operation. */
  predicate Begins(lex: Lexer, lines: seq<string>, i: nat)
    requires i < |lines|
  {
    var t := Trim(lines[i]);
    t != [] && (t[0] == '%' || t[0] == '}' || t[0] == '^' || t[0] == '"' || lex.beginsOp(t))
  }

  /** The lines from `from` up to `to`, trimmed, the blank ones left out, with one space between them. */
  function Joined(lines: seq<string>, from: nat, to: nat): string
    requires from <= to <= |lines|
  {
    if from == to then []
    else
      var front, last := Joined(lines, from, to - 1), Trim(lines[to - 1]);
      if last == [] then front else if front == [] then last else front + " " + last
  }

  predicate AllBlank(lines: seq<string>, from: nat, to: nat)
    requires to <= |lines|
  {
    forall i :: from <= i < to ==> Blank(lines, i)
  }

  /** A statement goes from the line that begins it to the last line before the next that is not blank. */
  predicate StatementTells(lex: Lexer, lines: seq<string>, s: Statement, first: bool) {
    && 1 <= s.lineStart <= s.lineEnd <= |lines|
    && !Blank(lines, s.lineStart - 1) && !Blank(lines, s.lineEnd - 1)
    && (first || Begins(lex, lines, s.lineStart - 1))
    && (forall i :: s.lineStart <= i < s.lineEnd ==> !Begins(lex, lines, i))
    && s.text == Joined(lines, s.lineStart - 1, s.lineEnd)
  }

  /** Where the statements so far end. */
  function EndOf(out: seq<Statement>): nat {
    if out == [] then 0 else out[|out| - 1].lineEnd
  }

  /** Statements cover all lines but blank ones, in order. */
  predicate StatementsTell(lex: Lexer, lines: seq<string>, n: nat, out: seq<Statement>)
    requires n <= |lines|
  {
    && (forall k :: 0 <= k < |out| ==> StatementTells(lex, lines, out[k], k == 0))
    && (forall k :: 0 <= k < |out| ==> GapIsBlank(lines, out, k))
    && EndOf(out) <= n && AllBlank(lines, EndOf(out), n)
  }

  /** Nothing but blank lines stands between a statement and the one before it. */
  predicate GapIsBlank(lines: seq<string>, out: seq<Statement>, k: nat)
    requires k < |out|
  {
    && 1 <= out[k].lineStart <= |lines| && EndOf(out[..k]) < out[k].lineStart
    && AllBlank(lines, EndOf(out[..k]), out[k].lineStart - 1)
  }

  lemma {:induction false} BlankJoinsNothing(lines: seq<string>, from: nat, mid: nat, to: nat)
    requires from <= mid <= to <= |lines| && AllBlank(lines, mid, to)
    ensures Joined(lines, from, to) == Joined(lines, from, mid)
  {
    if mid < to {
      BlankJoinsNothing(lines, from, mid, to - 1);
      assert Blank(lines, to - 1);
    }
  }

  lemma {:induction false} JoinedIsSome(lines: seq<string>, from: nat, to: nat, i: nat)
    requires from <= i < to <= |lines| && !Blank(lines, i)
    ensures Joined(lines, from, to) != []
  {
    if i < to - 1 {
      JoinedIsSome(lines, from, to - 1, i);
    }
  }

  lemma GapsStay(lines: seq<string>, out: seq<Statement>, more: seq<Statement>, k: nat)
    requires k < |out| <= |more| && GapIsBlank(lines, out, k) && more[..k] == out[..k]
    requires more[k].lineStart == out[k].lineStart
    ensures GapIsBlank(lines, more, k)
  {
  }

  /** A line that begins a statement of its own. */
  lemma BegunTells(lex: Lexer, lines: seq<string>, n: nat, out: seq<Statement>)
    requires 0 < n <= |lines| && StatementsTell(lex, lines, n - 1, out)
    requires !Blank(lines, n - 1) && (out == [] || Begins(lex, lines, n - 1))
    ensures StatementsTell(lex, lines, n, out + [Statement(Trim(lines[n - 1]), n, n)])
  {
    var s := Statement(Trim(lines[n - 1]), n, n);
    var more := out + [s];
    assert Joined(lines, n - 1, n - 1) == [];
    assert StatementTells(lex, lines, s, |out| == 0);
    assert more[..|out|] == out;
    forall k | 0 <= k < |more|
      ensures GapIsBlank(lines, more, k)
    {
      if k < |out| {
        assert more[..k] == out[..k];
        GapsStay(lines, out, more, k);
      }
    }
  }

  lemma ContinuedOne(lex: Lexer, lines: seq<string>, n: nat, s: Statement, first: bool)
    requires 0 < n <= |lines| && StatementTells(lex, lines, s, first) && s.lineEnd < n
    requires AllBlank(lines, s.lineEnd, n - 1) && !Blank(lines, n - 1) && !Begins(lex, lines, n - 1)
    ensures StatementTells(lex, lines, Statement(s.text + " " + Trim(lines[n - 1]), s.lineStart, n), first)
  {
    BlankJoinsNothing(lines, s.lineStart - 1, s.lineEnd, n - 1);
    JoinedIsSome(lines, s.lineStart - 1, s.lineEnd, s.lineStart - 1);
    forall i | s.lineStart <= i < n
      ensures !Begins(lex, lines, i)
    {
      if s.lineEnd <= i < n - 1 {
        assert Blank(lines, i);
      }
    }
  }

  /** A line that goes on with the last statement. */
  lemma ContinuedTells(lex: Lexer, lines: seq<string>, n: nat, out: seq<Statement>)
    requires 0 < n <= |lines| && StatementsTell(lex, lines, n - 1, out) && out != []
    requires !Blank(lines, n - 1) && !Begins(lex, lines, n - 1)
    ensures var last := out[|out| - 1];
      StatementsTell(lex, lines, n,
        out[|out| - 1 := Statement(last.text + " " + Trim(lines[n - 1]), last.lineStart, n)])
  {
    var last := out[|out| - 1];
    var now := Statement(last.text + " " + Trim(lines[n - 1]), last.lineStart, n);
    ContinuedOne(lex, lines, n, last, |out| == 1);
    LastGrowsOn(lex, lines, n, out, now, out[|out| - 1 := now]);
  }

  lemma LastGrowsOn(lex: Lexer, lines: seq<string>, n: nat, out: seq<Statement>, now: Statement, more: seq<Statement>)
    requires 0 < n <= |lines| && StatementsTell(lex, lines, n - 1, out) && out != []
    requires more == out[|out| - 1 := now] && now.lineStart == out[|out| - 1].lineStart && now.lineEnd == n
    requires StatementTells(lex, lines, now, |out| == 1)
    ensures StatementsTell(lex, lines, n, more)
  {
    forall k | 0 <= k < |more|
      ensures GapIsBlank(lines, more, k)
    {
      assert more[..k] == out[..k];
      GapsStay(lines, out, more, k);
    }
  }

  lemma SkippedTells(lex: Lexer, lines: seq<string>, n: nat, out: seq<Statement>)
    requires 0 < n <= |lines| && StatementsTell(lex, lines, n - 1, out) && Blank(lines, n - 1)
    ensures StatementsTell(lex, lines, n, out)
  {
  }

  lemma AssembledUnfolds(lex: Lexer, lines: seq<string>, n: nat, out: seq<Statement>)
    requires 0 < n <= |lines| && out == Assembled(lex, lines, n - 1)
    ensures Blank(lines, n - 1) ==> Assembled(lex, lines, n) == out
    ensures !Blank(lines, n - 1) && (out == [] || Begins(lex, lines, n - 1)) ==>
      Assembled(lex, lines, n) == out + [Statement(Trim(lines[n - 1]), n, n)]
    ensures !Blank(lines, n - 1) && out != [] && !Begins(lex, lines, n - 1) ==>
      Assembled(lex, lines, n) == out[|out| - 1 :=
        Statement(out[|out| - 1].text + " " + Trim(lines[n - 1]), out[|out| - 1].lineStart, n)]
  {
  }

  /** The lines of a text become statements as they should. */
  lemma {:induction false} AssembledTells(lex: Lexer, lines: seq<string>, n: nat)
    requires n <= |lines|
    ensures StatementsTell(lex, lines, n, Assembled(lex, lines, n))
  {
    if n > 0 {
      var out := Assembled(lex, lines, n - 1);
      AssembledTells(lex, lines, n - 1);
      AssembledUnfolds(lex, lines, n, out);
      OneMoreLine(lex, lines, n, out, Assembled(lex, lines, n));
    }
  }

  lemma OneMoreLine(lex: Lexer, lines: seq<string>, n: nat, out: seq<Statement>, next: seq<Statement>)
    requires 0 < n <= |lines| && StatementsTell(lex, lines, n - 1, out)
    requires if Blank(lines, n - 1) then next == out
      else if out == [] || Begins(lex, lines, n - 1) then next == out + [Statement(Trim(lines[n - 1]), n, n)]
      else next == out[|out| - 1 :=
        Statement(out[|out| - 1].text + " " + Trim(lines[n - 1]), out[|out| - 1].lineStart, n)]
    ensures StatementsTell(lex, lines, n, next)
  {
    if Blank(lines, n - 1) {
      SkippedTells(lex, lines, n, out);
    } else if out == [] || Begins(lex, lines, n - 1) {
      BegunTells(lex, lines, n, out);
    } else {
      ContinuedTells(lex, lines, n, out);
    }
  }

  // ------------------------------------------------------------------------ lines

  /** The lines put together again, a line feed behind each but perhaps the last. */
  function Glued(lines: seq<string>): string {
    if lines == [] then [] else if |lines| == 1 then lines[0] else lines[0] + "\n" + Glued(lines[1..])
  }

  lemma GluedOn(line: string, rest: seq<string>)
    requires rest != []
    ensures Glued([line] + rest) == line + "\n" + Glued(rest)
  {
    assert ([line] + rest)[1..] == rest;
  }

  lemma TextSplits(text: string, n: nat)
    requires n < |text| && text[n] == '\n'
    ensures text == text[..n] + "\n" + text[n + 1..]
  {
  }

  /** The lines glued together are the text, but perhaps for a line feed at its end. */
  predicate GluesTo(lines: seq<string>, text: string) {
    && (text == Glued(lines) || text == Glued(lines) + "\n")
    && (text != [] && text[|text| - 1] != '\n' ==> text == Glued(lines))
  }

  lemma GluesOn(line: string, lines: seq<string>, rest: string)
    requires lines != [] && rest != [] && GluesTo(lines, rest)
    ensures GluesTo([line] + lines, line + "\n" + rest)
  {
    GluedOn(line, lines);
    var text := line + "\n" + rest;
    assert text[|text| - 1] == rest[|rest| - 1];
    assert line + "\n" + (Glued(lines) + "\n") == (line + "\n" + Glued(lines)) + "\n";
  }

  /** Lines are the text between line feeds; a last line feed opens no further line. */
  lemma {:induction false} LinesTell(text: string)
    ensures GluesTo(Lines(text), text) && (Lines(text) == [] <==> text == [])
    ensures forall k :: 0 <= k < |Lines(text)| ==> '\n' !in Lines(text)[k]
  {
    if text != [] {
      var n := LineLength(text);
      if n < |text| {
        var line, rest := text[..n], text[n + 1..];
        LinesTell(rest);
        TextSplits(text, n);
        if rest == [] {
          OneLineGlues(line);
        } else {
          GluesOn(line, Lines(rest), rest);
        }
      }
    }
  }

  lemma OneLineGlues(line: string)
    ensures Lines([]) == [] && [line] + Lines([]) == [line]
    ensures GluesTo([line], line + "\n" + "")
  {
    assert line + "\n" + "" == Glued([line]) + "\n";
  }
}
