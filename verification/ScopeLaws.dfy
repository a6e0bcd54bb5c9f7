// What a parsed module holds, told statement by statement: which operation each
// statement gave, where it stands, and which function's list it is in.
module ScopeLaws {
  import opened Model
  import opened Parser

  // ----------------------------------------------------------- told from statements

  function Word(s: Statement): string { Trim(s.text) }

  /** Every statement is an operation but for lone braces, closing lines and block labels. */
  predicate Bears(s: Statement) {
    var t := Word(s);
    t != "{" && t != "}" && (t != [] ==> t[0] != '^' && !(t[0] == '}' && Delta(t) < 0))
  }

  /** The body of a function that is opened and closed in one statement: from its first `{` to its last `}`. */
  ghost predicate IsBody(lex: Lexer, t: string, body: string) {
    && Delta(t) <= 0 && lex.symbol(t).Some?
    && exists a, b :: 0 <= a < b < |t| && t[a] == '{' && '{' !in t[..a] && t[b] == '}' && '}' !in t[b + 1..]
         && body == t[a + 1..b]
  }

  function BodyOf(lex: Lexer, s: Statement): Option<string> {
    if Bears(s) then InlineBody(lex, Word(s), Delta(Word(s))) else None
  }

  lemma BodiesAre(lex: Lexer, s: Statement, body: string)
    ensures BodyOf(lex, s) == Some(body) <==> Bears(s) && IsBody(lex, Word(s), body)
  {
    var t := Word(s);
    if Bears(s) && IsBody(lex, t, body) {
      var a, b :| 0 <= a < b < |t| && t[a] == '{' && '{' !in t[..a] && t[b] == '}' && '}' !in t[b + 1..]
        && body == t[a + 1..b];
      FirstIs(t, '{', a);
      LastIs(t, '}', b);
    }
  }

  lemma {:induction false} FirstIs(t: string, c: char, a: nat)
    requires a < |t| && t[a] == c && c !in t[..a]
    ensures FirstOf(t, c) == Some(a)
  {
    if a > 0 {
      assert t[..a][0] == t[0];
      assert t[1..][..a - 1] == t[..a][1..];
      FirstIs(t[1..], c, a - 1);
    }
  }

  lemma {:induction false} LastIs(t: string, c: char, b: nat)
    requires b < |t| && t[b] == c && c !in t[b + 1..]
    ensures LastOf(t, c) == Some(b)
  {
    if b < |t| - 1 {
      var front := t[..|t| - 1];
      assert t[b + 1..][|t| - b - 2] == t[|t| - 1];
      assert front[b + 1..] == t[b + 1..][..|t| - b - 2];
      LastIs(front, c, b);
    }
  }

  /** The operations of a single-line body, parsed as a text of its own. */
  function Inner(lex: Lexer, s: Statement): seq<ParsedOp> {
    match BodyOf(lex, s) case Some(body) => Parse(lex, body).ops case None => []
  }

  /** How many operations the first `k` statements gave: the index of the next one. */
  function OpPlace(lex: Lexer, ss: seq<Statement>, k: nat): nat
    requires k <= |ss|
  {
    if k == 0 then 0
    else OpPlace(lex, ss, k - 1) + if Bears(ss[k - 1]) then 1 + |Inner(lex, ss[k - 1])| else 0
  }

  /** How deep the regions are nested when statement `k` is met. */
  function DepthAt(ss: seq<Statement>, k: nat): nat
    requires k <= |ss|
  {
    |Recorded(ss, k).regions.path|
  }

  /** The statement names a function and leaves its region open. */
  predicate NamesScope(lex: Lexer, s: Statement) {
    Bears(s) && Delta(Word(s)) > 0 && lex.symbol(Word(s)).Some?
  }

  /** The statement whose function is open when statement `k` is met. */
  function ScopeAt(lex: Lexer, ss: seq<Statement>, k: nat): (r: Option<nat>)
    requires k <= |ss|
    ensures r.Some? ==> r.value < k
  {
    if k == 0 then None
    else
      match ScopeAt(lex, ss, k - 1)
      case Some(s) => if DepthAt(ss, k) <= DepthAt(ss, s) then None else Some(s)
      case None => if NamesScope(lex, ss[k - 1]) then Some(k - 1) else None
  }

  predicate OpensScope(lex: Lexer, ss: seq<Statement>, s: nat) {
    s < |ss| && NamesScope(lex, ss[s]) && ScopeAt(lex, ss, s).None?
  }

  /** From behind statement `s` to statement `k` the regions are deeper than at `s`. */
  ghost predicate Deeper(ss: seq<Statement>, s: nat, k: nat)
    requires k <= |ss|
  {
    forall m :: s < m <= k ==> DepthAt(ss, m) > DepthAt(ss, s)
  }

  lemma DeeperStep(ss: seq<Statement>, s: nat, k: nat)
    requires s < k <= |ss|
    ensures Deeper(ss, s, k) <==> Deeper(ss, s, k - 1) && DepthAt(ss, k) > DepthAt(ss, s)
  {
  }

  lemma {:induction false} OpenIsDeeper(lex: Lexer, ss: seq<Statement>, k: nat)
    requires k <= |ss| && ScopeAt(lex, ss, k).Some?
    ensures var s := ScopeAt(lex, ss, k).value; OpensScope(lex, ss, s) && Deeper(ss, s, k)
  {
    var s := ScopeAt(lex, ss, k).value;
    if ScopeAt(lex, ss, k - 1).Some? {
      OpenIsDeeper(lex, ss, k - 1);
      DeeperStep(ss, s, k);
    } else {
      OpeningDeepensBy(ss, s);
    }
  }

  lemma OpensNext(lex: Lexer, ss: seq<Statement>, s: nat)
    requires OpensScope(lex, ss, s)
    ensures ScopeAt(lex, ss, s + 1) == Some(s)
  {
  }

  lemma StaysOpen(lex: Lexer, ss: seq<Statement>, s: nat, m: nat)
    requires m < |ss| && ScopeAt(lex, ss, m) == Some(s) && DepthAt(ss, m + 1) > DepthAt(ss, s)
    ensures ScopeAt(lex, ss, m + 1) == Some(s)
  {
  }

  lemma DeeperAt(ss: seq<Statement>, s: nat, k: nat, m: nat)
    requires s < m <= k <= |ss| && Deeper(ss, s, k)
    ensures DepthAt(ss, m) > DepthAt(ss, s)
  {
  }

  lemma DeeperIsOpen(lex: Lexer, ss: seq<Statement>, k: nat, s: nat)
    requires s < k <= |ss| && OpensScope(lex, ss, s) && Deeper(ss, s, k)
    ensures ScopeAt(lex, ss, k) == Some(s)
  {
    OpensNext(lex, ss, s);
    var m := s + 1;
    while m < k
      invariant s < m <= k && ScopeAt(lex, ss, m) == Some(s)
    {
      DeeperAt(ss, s, k, m + 1);
      StaysOpen(lex, ss, s, m);
      m := m + 1;
    }
  }

  /** A function is open from the statement that names it until the regions are no deeper than there. */
  lemma ScopeIsOpenWhile(lex: Lexer, ss: seq<Statement>, k: nat, s: nat)
    requires k <= |ss|
    ensures ScopeAt(lex, ss, k) == Some(s) <==> s < k && OpensScope(lex, ss, s) && Deeper(ss, s, k)
  {
    if ScopeAt(lex, ss, k) == Some(s) {
      OpenIsDeeper(lex, ss, k);
    }
    if s < k && OpensScope(lex, ss, s) && Deeper(ss, s, k) {
      DeeperIsOpen(lex, ss, k, s);
    }
  }

  lemma {:induction false} OpensDeepen(o: Opened, n: nat)
    ensures |RecordOpens(o, n).regions.path| == |o.regions.path| + n
  {
    if n > 0 {
      OpensDeepen(o, n - 1);
    }
  }

  /** An operation that opens regions goes that much deeper; none goes up. */
  lemma OpeningDeepensBy(ss: seq<Statement>, k: nat)
    requires k < |ss| && !Closes(Word(ss[k]), Delta(Word(ss[k])))
    ensures DepthAt(ss, k + 1) == DepthAt(ss, k) + if Delta(Word(ss[k])) > 0 then Delta(Word(ss[k])) else 0
  {
    if Delta(Word(ss[k])) > 0 {
      OpensDeepen(Recorded(ss, k), Delta(Word(ss[k])));
    }
  }

  // ------------------------------------------------------------------- operations

  /** The operation of statement `k`: what its text says, under the regions open there, on its lines. */
  predicate OpTells(lex: Lexer, ss: seq<Statement>, k: nat, op: ParsedOp)
    requires k < |ss|
  {
    var says := lex.fields(Word(ss[k]));
    && op.idx == OpPlace(lex, ss, k)
    && op.name == says.name && op.results == says.results && op.operands == says.operands
    && op.resultTypes == says.resultTypes && op.attrSummary == says.attrSummary && op.location == says.location
    && op.isOpaque == says.isOpaque
    && op.regionPath == Recorded(ss, k).regions.path && op.depth == DepthAt(ss, k)
    && op.lineStart == ss[k].lineStart && op.lineEnd == ss[k].lineEnd
  }

  /** An operation of a single-line body: as parsed there, but numbered here and on the statement's lines. */
  predicate InnerTells(lex: Lexer, ss: seq<Statement>, k: nat, i: nat, op: ParsedOp)
    requires k < |ss| && i < |Inner(lex, ss[k])|
  {
    var inner := Inner(lex, ss[k])[i];
    && op.idx == OpPlace(lex, ss, k) + 1 + i
    && op.name == inner.name && op.results == inner.results && op.operands == inner.operands
    && op.resultTypes == inner.resultTypes && op.attrSummary == inner.attrSummary && op.location == inner.location
    && op.isOpaque == inner.isOpaque && op.regionPath == inner.regionPath && op.depth == inner.depth
    && op.lineStart == ss[k].lineStart && op.lineEnd == ss[k].lineEnd
  }

  predicate OpsTellOf(lex: Lexer, ss: seq<Statement>, k: nat, ops: seq<ParsedOp>)
    requires k < |ss|
  {
    Bears(ss[k]) ==>
      && OpPlace(lex, ss, k) + |Inner(lex, ss[k])| < |ops|
      && OpTells(lex, ss, k, ops[OpPlace(lex, ss, k)])
      && forall j :: OpPlace(lex, ss, k) < j <= OpPlace(lex, ss, k) + |Inner(lex, ss[k])| ==>
           InnerTells(lex, ss, k, j - OpPlace(lex, ss, k) - 1, ops[j])
  }

  predicate OpsTell(lex: Lexer, ss: seq<Statement>, n: nat, ops: seq<ParsedOp>)
    requires n <= |ss|
  {
    |ops| == OpPlace(lex, ss, n) && forall k :: 0 <= k < n ==> OpsTellOf(lex, ss, k, ops)
  }

  lemma MoreOpsTell(lex: Lexer, ss: seq<Statement>, k: nat, ops: seq<ParsedOp>, more: seq<ParsedOp>)
    requires k < |ss| && OpsTellOf(lex, ss, k, ops)
    ensures OpsTellOf(lex, ss, k, ops + more)
  {
  }

  lemma AdoptedTell(lex: Lexer, ss: seq<Statement>, n: nat, ops: seq<ParsedOp>, op: ParsedOp)
    requires n < |ss| && Bears(ss[n]) && |ops| == OpPlace(lex, ss, n) && OpTells(lex, ss, n, op)
    ensures var inner := Inner(lex, ss[n]);
      OpsTellOf(lex, ss, n, ops + [op] + Adopted(inner, |ops| + 1, ss[n].lineStart, ss[n].lineEnd))
  {
  }

  /** The operations of the first `n` statements, and then of one more. */
  lemma OpsTellOn(lex: Lexer, ss: seq<Statement>, n: nat, ops: seq<ParsedOp>, op: ParsedOp)
    requires n < |ss| && Bears(ss[n]) && OpsTell(lex, ss, n, ops) && OpTells(lex, ss, n, op)
    ensures var inner := Inner(lex, ss[n]);
      OpsTell(lex, ss, n + 1, ops + [op] + Adopted(inner, |ops| + 1, ss[n].lineStart, ss[n].lineEnd))
  {
    var adopted := Adopted(Inner(lex, ss[n]), |ops| + 1, ss[n].lineStart, ss[n].lineEnd);
    Associate(ops, [op], adopted);
    AdoptedTell(lex, ss, n, ops, op);
    MoreTell(lex, ss, n, ops, [op] + adopted);
  }

  lemma MoreTell(lex: Lexer, ss: seq<Statement>, n: nat, ops: seq<ParsedOp>, more: seq<ParsedOp>)
    requires n < |ss| && OpsTell(lex, ss, n, ops) && OpsTellOf(lex, ss, n, ops + more)
    requires |ops + more| == OpPlace(lex, ss, n + 1)
    ensures OpsTell(lex, ss, n + 1, ops + more)
  {
    forall k | 0 <= k < n
      ensures OpsTellOf(lex, ss, k, ops + more)
    {
      MoreOpsTell(lex, ss, k, ops, more);
    }
  }

  // -------------------------------------------------------------------- functions

  /** How many functions the first `k` statements gave: the place of the next one. */
  function FuncPlace(lex: Lexer, ss: seq<Statement>, k: nat): nat
    requires k <= |ss|
  {
    if k == 0 then 0
    else FuncPlace(lex, ss, k - 1) + if BodyOf(lex, ss[k - 1]).Some? || OpensScope(lex, ss, k - 1) then 1 else 0
  }

  /** The operation of statement `k` is met while the function of statement `s` is open. */
  predicate Member(lex: Lexer, ss: seq<Statement>, s: nat, k: nat) {
    k < |ss| && Bears(ss[k]) && ScopeAt(lex, ss, k) == Some(s)
  }

  /** The statement is in the open function or closes it. */
  predicate Touches(lex: Lexer, ss: seq<Statement>, s: nat, k: nat) {
    k < |ss| && ScopeAt(lex, ss, k) == Some(s) && (Bears(ss[k]) || ScopeAt(lex, ss, k + 1) != Some(s))
  }

  /** The last of the first `n` statements that is in the function, closes it, or names it. */
  function LastTouch(lex: Lexer, ss: seq<Statement>, s: nat, n: nat): (r: nat)
    requires s < n <= |ss|
    ensures s <= r < n && (r == s || Touches(lex, ss, s, r))
    ensures forall m :: r < m < n ==> !Touches(lex, ss, s, m)
  {
    if n == s + 1 then s else if Touches(lex, ss, s, n - 1) then n - 1 else LastTouch(lex, ss, s, n - 1)
  }

  ghost predicate Lists(lex: Lexer, ss: seq<Statement>, s: nat, n: nat, x: nat)
    requires n <= |ss|
  {
    exists k :: 0 <= k < n && Member(lex, ss, s, k) && x == OpPlace(lex, ss, k)
  }

  /**
   * The function of statement `s`: its name, from there to the last statement that touches it, and exactly its
   * members.
   */
  ghost predicate ScopeTells(lex: Lexer, ss: seq<Statement>, s: nat, n: nat, f: FunctionScope)
    requires s < n <= |ss|
  {
    && Some(f.name) == lex.symbol(Word(ss[s])) && f.lineStart == ss[s].lineStart
    && f.lineEnd == ss[LastTouch(lex, ss, s, n)].lineEnd
    && forall x: nat :: x in f.ops <==> Lists(lex, ss, s, n, x)
  }

  /** The function of a single-line body: exactly the operations of that body. */
  predicate InlineTells(lex: Lexer, ss: seq<Statement>, k: nat, f: FunctionScope)
    requires k < |ss|
  {
    && Some(f.name) == lex.symbol(Word(ss[k])) && f.lineStart == ss[k].lineStart && f.lineEnd == ss[k].lineEnd
    && |f.ops| == |Inner(lex, ss[k])| && forall i :: 0 <= i < |f.ops| ==> f.ops[i] == OpPlace(lex, ss, k) + 1 + i
  }

  ghost predicate FuncTellsOf(lex: Lexer, ss: seq<Statement>, s: nat, n: nat, functions: seq<FunctionScope>)
    requires s < n <= |ss|
  {
    var place := FuncPlace(lex, ss, s);
    && (OpensScope(lex, ss, s) ==> place < |functions| && ScopeTells(lex, ss, s, n, functions[place]))
    && (BodyOf(lex, ss[s]).Some? ==> place < |functions| && InlineTells(lex, ss, s, functions[place]))
  }

  ghost predicate FuncsTell(lex: Lexer, ss: seq<Statement>, n: nat, functions: seq<FunctionScope>)
    requires n <= |ss|
  {
    |functions| == FuncPlace(lex, ss, n) && forall s :: 0 <= s < n ==> FuncTellsOf(lex, ss, s, n, functions)
  }

  predicate ActiveTells(lex: Lexer, ss: seq<Statement>, n: nat, active: Option<Active>)
    requires n <= |ss|
  {
    match ScopeAt(lex, ss, n)
    case None => active.None?
    case Some(s) => active == Some(Active(FuncPlace(lex, ss, s), DepthAt(ss, s) + 1))
  }

  lemma {:induction false} FuncPlacesAscend(lex: Lexer, ss: seq<Statement>, s: nat, k: nat)
    requires s < k <= |ss|
    ensures FuncPlace(lex, ss, s + 1) <= FuncPlace(lex, ss, k)
  {
    if s + 1 < k {
      FuncPlacesAscend(lex, ss, s, k - 1);
    }
  }

  /** A statement that gives a function has a place of its own. */
  predicate Gives(lex: Lexer, ss: seq<Statement>, s: nat) {
    s < |ss| && (BodyOf(lex, ss[s]).Some? || OpensScope(lex, ss, s))
  }

  lemma PlacesDiffer(lex: Lexer, ss: seq<Statement>, s: nat, o: nat)
    requires Gives(lex, ss, s) && Gives(lex, ss, o) && s != o
    ensures FuncPlace(lex, ss, s) != FuncPlace(lex, ss, o)
  {
    FuncPlacesAscend(lex, ss, if s < o then s else o, if s < o then o else s);
  }

  lemma ListsMore(lex: Lexer, ss: seq<Statement>, s: nat, n: nat, x: nat)
    requires n < |ss|
    ensures Lists(lex, ss, s, n + 1, x) <==>
      Lists(lex, ss, s, n, x) || (Member(lex, ss, s, n) && x == OpPlace(lex, ss, n))
  {
    if Lists(lex, ss, s, n, x) {
      var k :| 0 <= k < n && Member(lex, ss, s, k) && x == OpPlace(lex, ss, k);
      assert k < n + 1;
    }
    if Member(lex, ss, s, n) && x == OpPlace(lex, ss, n) {
      assert n < n + 1;
    }
  }

  /** A statement that does not touch the function leaves it as it is. */
  lemma ScopeStays(lex: Lexer, ss: seq<Statement>, s: nat, n: nat, f: FunctionScope)
    requires s < n < |ss| && ScopeTells(lex, ss, s, n, f) && !Touches(lex, ss, s, n)
    ensures ScopeTells(lex, ss, s, n + 1, f)
  {
    forall x: nat
      ensures x in f.ops <==> Lists(lex, ss, s, n + 1, x)
    {
      ListsMore(lex, ss, s, n, x);
    }
  }

  lemma ScopeGrows(lex: Lexer, ss: seq<Statement>, s: nat, n: nat, f: FunctionScope, now: FunctionScope)
    requires s < n < |ss| && ScopeTells(lex, ss, s, n, f) && Member(lex, ss, s, n)
    requires now == f.(ops := f.ops + [OpPlace(lex, ss, n)], lineEnd := ss[n].lineEnd)
    ensures ScopeTells(lex, ss, s, n + 1, now)
  {
    forall x: nat
      ensures x in now.ops <==> Lists(lex, ss, s, n + 1, x)
    {
      ListsMore(lex, ss, s, n, x);
    }
  }

  lemma ScopeEnds(lex: Lexer, ss: seq<Statement>, s: nat, n: nat, f: FunctionScope)
    requires s < n < |ss| && ScopeTells(lex, ss, s, n, f) && Touches(lex, ss, s, n) && !Bears(ss[n])
    ensures ScopeTells(lex, ss, s, n + 1, f.(lineEnd := ss[n].lineEnd))
  {
    forall x: nat
      ensures x in f.ops <==> Lists(lex, ss, s, n + 1, x)
    {
      ListsMore(lex, ss, s, n, x);
    }
  }

  lemma ScopeBegins(lex: Lexer, ss: seq<Statement>, n: nat, f: FunctionScope)
    requires OpensScope(lex, ss, n) && Some(f.name) == lex.symbol(Word(ss[n])) && f.ops == []
    requires f.lineStart == ss[n].lineStart && f.lineEnd == ss[n].lineEnd
    ensures ScopeTells(lex, ss, n, n + 1, f)
  {
  }

  /** The place of the open function, when the statement touches it. */
  function TouchedPlace(lex: Lexer, ss: seq<Statement>, n: nat): Option<nat>
    requires n < |ss|
  {
    match ScopeAt(lex, ss, n)
    case None => None
    case Some(s) => if Touches(lex, ss, s, n) then Some(FuncPlace(lex, ss, s)) else None
  }

  /** Every function of before is still there, and all but the touched one as it was. */
  predicate OthersStay(functions: seq<FunctionScope>, next: seq<FunctionScope>, touched: Option<nat>) {
    |functions| <= |next| && forall k :: 0 <= k < |functions| && touched != Some(k) ==> next[k] == functions[k]
  }

  lemma TouchedElsewhere(lex: Lexer, ss: seq<Statement>, n: nat, s: nat)
    requires s < n < |ss| && Gives(lex, ss, s) && !Touches(lex, ss, s, n)
    ensures TouchedPlace(lex, ss, n) != Some(FuncPlace(lex, ss, s))
  {
    if TouchedPlace(lex, ss, n).Some? {
      OpenIsDeeper(lex, ss, n);
      PlacesDiffer(lex, ss, s, ScopeAt(lex, ss, n).value);
    }
  }

  /** A single-line body opens nothing, so nothing touches its function later. */
  lemma InlineIsUntouched(lex: Lexer, ss: seq<Statement>, n: nat, s: nat)
    requires s < n < |ss| && BodyOf(lex, ss[s]).Some?
    ensures !OpensScope(lex, ss, s) && !Touches(lex, ss, s, n)
  {
    if Touches(lex, ss, s, n) {
      OpenIsDeeper(lex, ss, n);
    }
  }

  lemma OneFunctionOn(lex: Lexer, ss: seq<Statement>, n: nat, functions: seq<FunctionScope>, next: seq<FunctionScope>,
      s: nat)
    requires s < n < |ss| && FuncTellsOf(lex, ss, s, n, functions)
    requires OthersStay(functions, next, TouchedPlace(lex, ss, n))
    requires OpensScope(lex, ss, s) && Touches(lex, ss, s, n) ==>
      FuncPlace(lex, ss, s) < |next| && ScopeTells(lex, ss, s, n + 1, next[FuncPlace(lex, ss, s)])
    ensures FuncTellsOf(lex, ss, s, n + 1, next)
  {
    if BodyOf(lex, ss[s]).Some? {
      InlineIsUntouched(lex, ss, n, s);
      TouchedElsewhere(lex, ss, n, s);
    } else if OpensScope(lex, ss, s) && !Touches(lex, ss, s, n) {
      TouchedElsewhere(lex, ss, n, s);
      ScopeStays(lex, ss, s, n, functions[FuncPlace(lex, ss, s)]);
    }
  }

  /** The touched function, if any, tells one statement more. */
  ghost predicate TouchedTells(lex: Lexer, ss: seq<Statement>, n: nat, next: seq<FunctionScope>)
    requires n < |ss|
  {
    match ScopeAt(lex, ss, n)
    case None => true
    case Some(s) =>
      Touches(lex, ss, s, n) ==>
        FuncPlace(lex, ss, s) < |next| && ScopeTells(lex, ss, s, n + 1, next[FuncPlace(lex, ss, s)])
  }

  lemma EarlierFunctionOn(lex: Lexer, ss: seq<Statement>, n: nat, functions: seq<FunctionScope>,
      next: seq<FunctionScope>, s: nat)
    requires s < n < |ss| && FuncTellsOf(lex, ss, s, n, functions)
    requires OthersStay(functions, next, TouchedPlace(lex, ss, n)) && TouchedTells(lex, ss, n, next)
    ensures FuncTellsOf(lex, ss, s, n + 1, next)
  {
    OneFunctionOn(lex, ss, n, functions, next, s);
  }

  lemma FunctionsOn(lex: Lexer, ss: seq<Statement>, n: nat, functions: seq<FunctionScope>, next: seq<FunctionScope>)
    requires n < |ss| && FuncsTell(lex, ss, n, functions) && OthersStay(functions, next, TouchedPlace(lex, ss, n))
    requires |next| == FuncPlace(lex, ss, n + 1) && FuncTellsOf(lex, ss, n, n + 1, next)
    requires TouchedTells(lex, ss, n, next)
    ensures FuncsTell(lex, ss, n + 1, next)
  {
    var m := n + 1;
    forall s: nat | s < m
      ensures FuncTellsOf(lex, ss, s, m, next)
    {
      if s < n {
        EarlierFunctionOn(lex, ss, n, functions, next, s);
      }
    }
  }

  // ------------------------------------------------------ statement by statement

  ghost predicate StateTells(lex: Lexer, ss: seq<Statement>, n: nat, ps: ParserState)
    requires n <= |ss|
  {
    && OpsTell(lex, ss, n, ps.ops) && FuncsTell(lex, ss, n, ps.functions) && ActiveTells(lex, ss, n, ps.active)
    && ps.regions == Recorded(ss, n).regions
  }

  /** Closing braces end the open function when they leave the regions shallower than its body, and do nothing else. */
  lemma {:induction false} ClosingDoes(ps: ParserState, n: nat, line: nat)
    requires ps.active.Some? ==> ps.active.value.bodyDepth <= |ps.regions.path|
    ensures var r := CloseBraces(ps, n, line);
      && r.ops == ps.ops && |r.regions.path| == (if n <= |ps.regions.path| then |ps.regions.path| - n else 0)
      && (if ps.active.Some? && |r.regions.path| < ps.active.value.bodyDepth
          then r.active.None? && r.functions == EndLine(ps.functions, ps.active.value.functionIdx, line)
          else r.active == ps.active && r.functions == ps.functions)
  {
    if n > 0 {
      ClosingDoes(ps, n - 1, line);
    }
  }

  lemma ActiveIsDeep(lex: Lexer, ss: seq<Statement>, n: nat, ps: ParserState)
    requires n <= |ss| && StateTells(lex, ss, n, ps)
    ensures ps.active.Some? <==> ScopeAt(lex, ss, n).Some?
    ensures ps.active.Some? ==>
      var s := ScopeAt(lex, ss, n).value;
      && OpensScope(lex, ss, s) && FuncPlace(lex, ss, s) < |ps.functions|
      && ps.active.value == Active(FuncPlace(lex, ss, s), DepthAt(ss, s) + 1)
      && ps.active.value.bodyDepth <= |ps.regions.path|
      && ScopeTells(lex, ss, s, n, ps.functions[FuncPlace(lex, ss, s)])
  {
    if ScopeAt(lex, ss, n).Some? {
      var s := ScopeAt(lex, ss, n).value;
      OpenIsDeeper(lex, ss, n);
      assert FuncTellsOf(lex, ss, s, n, ps.functions);
    }
  }

  lemma QuietOps(lex: Lexer, ss: seq<Statement>, n: nat, ops: seq<ParsedOp>)
    requires n < |ss| && !Bears(ss[n]) && OpsTell(lex, ss, n, ops)
    ensures OpsTell(lex, ss, n + 1, ops)
  {
  }

  /** What a closing line does to the functions and to the one being filled. */
  lemma CloseFunctions(lex: Lexer, ss: seq<Statement>, n: nat, ps: ParserState, next: ParserState)
    requires n < |ss| && StateTells(lex, ss, n, ps) && !Bears(ss[n]) && |next.regions.path| == DepthAt(ss, n + 1)
    requires if ps.active.Some? && |next.regions.path| < ps.active.value.bodyDepth
      then next.active.None? && next.functions == EndLine(ps.functions, ps.active.value.functionIdx, ss[n].lineEnd)
      else next.active == ps.active && next.functions == ps.functions
    requires !OpensScope(lex, ss, n)
    ensures FuncsTell(lex, ss, n + 1, next.functions) && ActiveTells(lex, ss, n + 1, next.active)
  {
    ActiveIsDeep(lex, ss, n, ps);
    if ps.active.Some? && next.active.None? {
      var s := ScopeAt(lex, ss, n).value;
      ScopeEnds(lex, ss, s, n, ps.functions[FuncPlace(lex, ss, s)]);
    }
    FunctionsOn(lex, ss, n, ps.functions, next.functions);
  }

  /** The state after a closing line: perhaps shallower, and perhaps with the open function ended. */
  predicate ClosesTo(ps: ParserState, next: ParserState, line: nat) {
    && next.ops == ps.ops
    && if ps.active.Some? && |next.regions.path| < ps.active.value.bodyDepth
       then next.active.None? && next.functions == EndLine(ps.functions, ps.active.value.functionIdx, line)
       else next.active == ps.active && next.functions == ps.functions
  }

  lemma CloseDoes(ps: ParserState, delta: int, line: nat)
    requires ps.active.Some? ==> ps.active.value.bodyDepth <= |ps.regions.path|
    ensures ClosesTo(ps, if delta < 0 then CloseBraces(ps, -delta, line) else ps, line)
  {
    if delta < 0 {
      ClosingDoes(ps, -delta, line);
    }
  }

  /** A closing line. */
  lemma CloseTells(lex: Lexer, ss: seq<Statement>, n: nat, ps: ParserState, next: ParserState)
    requires n < |ss| && StateTells(lex, ss, n, ps) && !Bears(ss[n])
    requires next.regions == Recorded(ss, n + 1).regions && ClosesTo(ps, next, ss[n].lineEnd)
    ensures StateTells(lex, ss, n + 1, next)
  {
    QuietOps(lex, ss, n, ps.ops);
    CloseFunctions(lex, ss, n, ps, next);
  }

  /** A lone opening brace or a block label. */
  lemma StructureTells(lex: Lexer, ss: seq<Statement>, n: nat, ps: ParserState, next: ParserState)
    requires n < |ss| && StateTells(lex, ss, n, ps) && Structural(Word(ss[n]))
      && !Closes(Word(ss[n]), Delta(Word(ss[n])))
    requires next.regions == Recorded(ss, n + 1).regions && next == ps.(regions := next.regions)
    ensures StateTells(lex, ss, n + 1, next)
  {
    QuietOps(lex, ss, n, ps.ops);
    ActiveIsDeep(lex, ss, n, ps);
    OpeningDeepensBy(ss, n);
    FunctionsOn(lex, ss, n, ps.functions, next.functions);
  }

  // An operation.

  /** The function list with the single-line body's function behind the others. */
  function WithBody(lex: Lexer, ss: seq<Statement>, n: nat, functions: seq<FunctionScope>): seq<FunctionScope>
    requires n < |ss|
  {
    if BodyOf(lex, ss[n]).None? then functions
    else
      functions + [FunctionScope(lex.symbol(Word(ss[n])).value, Indices(OpPlace(lex, ss, n) + 1, |Inner(lex, ss[n])|),
                                 ss[n].lineStart, ss[n].lineEnd)]
  }

  lemma BodyTells(lex: Lexer, ss: seq<Statement>, n: nat, functions: seq<FunctionScope>)
    requires n < |ss| && |functions| == FuncPlace(lex, ss, n) && BodyOf(lex, ss[n]).Some?
    ensures InlineTells(lex, ss, n, WithBody(lex, ss, n, functions)[|functions|])
  {
  }

  /** The function that is open takes the operation. */
  lemma MemberTells(lex: Lexer, ss: seq<Statement>, n: nat, ps: ParserState, next: seq<FunctionScope>)
    requires n < |ss| && StateTells(lex, ss, n, ps) && Bears(ss[n]) && ps.active.Some?
    requires var f := ps.active.value.functionIdx; var with := WithBody(lex, ss, n, ps.functions);
      f < |ps.functions| && next
        == with[f := with[f].(ops := with[f].ops + [OpPlace(lex, ss, n)], lineEnd := ss[n].lineEnd)]
    ensures FuncsTell(lex, ss, n + 1, next)
  {
    ActiveIsDeep(lex, ss, n, ps);
    var s := ScopeAt(lex, ss, n).value;
    var f := FuncPlace(lex, ss, s);
    ScopeGrows(lex, ss, s, n, ps.functions[f], next[f]);
    if BodyOf(lex, ss[n]).Some? {
      BodyTells(lex, ss, n, ps.functions);
    }
    FunctionsOn(lex, ss, n, ps.functions, next);
  }

  /** A function opens. */
  lemma OpenerTells(lex: Lexer, ss: seq<Statement>, n: nat, ps: ParserState, next: seq<FunctionScope>)
    requires n < |ss| && StateTells(lex, ss, n, ps) && ps.active.None? && NamesScope(lex, ss[n])
    requires next
      == ps.functions + [FunctionScope(lex.symbol(Word(ss[n])).value, [], ss[n].lineStart, ss[n].lineEnd)]
    ensures FuncsTell(lex, ss, n + 1, next)
  {
    ScopeBegins(lex, ss, n, next[|ps.functions|]);
    FunctionsOn(lex, ss, n, ps.functions, next);
  }

  /** No function is open and none opens. */
  lemma OutsiderTells(lex: Lexer, ss: seq<Statement>, n: nat, ps: ParserState)
    requires n < |ss| && StateTells(lex, ss, n, ps) && Bears(ss[n]) && ps.active.None? && !NamesScope(lex, ss[n])
    ensures FuncsTell(lex, ss, n + 1, WithBody(lex, ss, n, ps.functions))
  {
    if BodyOf(lex, ss[n]).Some? {
      BodyTells(lex, ss, n, ps.functions);
    }
    FunctionsOn(lex, ss, n, ps.functions, WithBody(lex, ss, n, ps.functions));
  }

  /** The operation of a statement, and then those of its single-line body. */
  function OpsWith(lex: Lexer, ss: seq<Statement>, n: nat, ps: ParserState): seq<ParsedOp>
    requires n < |ss|
  {
    ps.ops + [MakeOp(lex.fields(Word(ss[n])), |ps.ops|, ps.regions.path, ss[n].lineStart, ss[n].lineEnd)]
    + Adopted(Inner(lex, ss[n]), |ps.ops| + 1, ss[n].lineStart, ss[n].lineEnd)
  }

  /** What a statement that bears an operation does, before its regions open. */
  function Borne(lex: Lexer, ss: seq<Statement>, n: nat, ps: ParserState): ParserState
    requires n < |ss|
  {
    ParserState(OpsWith(lex, ss, n, ps), WithBody(lex, ss, n, ps.functions), ps.regions, ps.active)
  }

  lemma BearingIs(lex: Lexer, ss: seq<Statement>, n: nat, ps: ParserState, bound: nat)
    requires n < |ss| && Bears(ss[n]) && |ss[n].text| <= bound && |ps.ops| == OpPlace(lex, ss, n)
    ensures var t, delta := Word(ss[n]), Delta(Word(ss[n]));
      Step(lex, ps, ss[n], bound) == Opening(WithScope(lex, Borne(lex, ss, n, ps), |ps.ops|, t, delta, ss[n]), delta)
  {
    var added := WithOp(lex, ps, Word(ss[n]), ss[n]);
    if BodyOf(lex, ss[n]).None? {
      assert Adopted([], |ps.ops| + 1, ss[n].lineStart, ss[n].lineEnd) == [];
      assert OpsWith(lex, ss, n, ps) == added.ops;
    } else {
      assert OpsWith(lex, ss, n, ps)
        == added.ops + Adopted(Inner(lex, ss[n]), |added.ops|, ss[n].lineStart, ss[n].lineEnd);
    }
  }

  lemma OwnOpTells(lex: Lexer, ss: seq<Statement>, n: nat, ps: ParserState)
    requires n < |ss| && Bears(ss[n]) && StateTells(lex, ss, n, ps)
    ensures OpsTell(lex, ss, n + 1, OpsWith(lex, ss, n, ps))
  {
    var op := MakeOp(lex.fields(Word(ss[n])), |ps.ops|, ps.regions.path, ss[n].lineStart, ss[n].lineEnd);
    OpsTellOn(lex, ss, n, ps.ops, op);
  }

  /** What scoping does to the functions and the one being filled. */
  lemma ScopingTells(lex: Lexer, ss: seq<Statement>, n: nat, ps: ParserState)
    requires n < |ss| && Bears(ss[n]) && StateTells(lex, ss, n, ps)
    ensures var t := Word(ss[n]);
      var scoped := WithScope(lex, Borne(lex, ss, n, ps), |ps.ops|, t, Delta(t), ss[n]);
      && FuncsTell(lex, ss, n + 1, scoped.functions) && ActiveTells(lex, ss, n + 1, scoped.active)
      && scoped.ops == OpsWith(lex, ss, n, ps) && scoped.regions == ps.regions
  {
    var t := Word(ss[n]);
    var scoped := WithScope(lex, Borne(lex, ss, n, ps), |ps.ops|, t, Delta(t), ss[n]);
    ActiveIsDeep(lex, ss, n, ps);
    OpeningDeepensBy(ss, n);
    if ps.active.Some? {
      MemberTells(lex, ss, n, ps, scoped.functions);
    } else if NamesScope(lex, ss[n]) {
      OpenerTells(lex, ss, n, ps, scoped.functions);
    } else {
      OutsiderTells(lex, ss, n, ps);
    }
  }

  lemma BearingTells(lex: Lexer, ss: seq<Statement>, n: nat, ps: ParserState, bound: nat)
    requires n < |ss| && Bears(ss[n]) && StateTells(lex, ss, n, ps) && |ss[n].text| <= bound
    requires Step(lex, ps, ss[n], bound).regions == Recorded(ss, n + 1).regions
    ensures StateTells(lex, ss, n + 1, Step(lex, ps, ss[n], bound))
  {
    BearingIs(lex, ss, n, ps, bound);
    OwnOpTells(lex, ss, n, ps);
    ScopingTells(lex, ss, n, ps);
  }

  lemma CloseStepTells(lex: Lexer, ss: seq<Statement>, n: nat, ps: ParserState, next: ParserState)
    requires n < |ss| && StateTells(lex, ss, n, ps) && Closes(Word(ss[n]), Delta(Word(ss[n])))
    requires next.regions == Recorded(ss, n + 1).regions
    requires next == if Delta(Word(ss[n])) < 0 then CloseBraces(ps, -Delta(Word(ss[n])), ss[n].lineEnd) else ps
    ensures StateTells(lex, ss, n + 1, next)
  {
    ActiveIsDeep(lex, ss, n, ps);
    CloseDoes(ps, Delta(Word(ss[n])), ss[n].lineEnd);
    CloseTells(lex, ss, n, ps, next);
  }

  lemma StepIs(lex: Lexer, ss: seq<Statement>, n: nat, ps: ParserState, bound: nat)
    requires n < |ss| && |ss[n].text| <= bound && ps.regions == Recorded(ss, n).regions
    ensures var t, delta, next := Word(ss[n]), Delta(Word(ss[n])), Step(lex, ps, ss[n], bound);
      && next.regions == Recorded(ss, n + 1).regions
      && (Closes(t, delta) ==> next == if delta < 0 then CloseBraces(ps, -delta, ss[n].lineEnd) else ps)
      && (!Closes(t, delta) && Structural(t) ==> next == ps.(regions := next.regions))
      && (Bears(ss[n]) <==> !Closes(t, delta) && !Structural(t))
  {
    StatementFollowsRegions(lex, Recorded(ss, n), ps, ss[n], bound);
  }

  lemma StatementTells(lex: Lexer, ss: seq<Statement>, n: nat, ps: ParserState, bound: nat)
    requires n < |ss| && StateTells(lex, ss, n, ps) && |ss[n].text| <= bound
    ensures StateTells(lex, ss, n + 1, Step(lex, ps, ss[n], bound))
  {
    StepIs(lex, ss, n, ps, bound);
    if Bears(ss[n]) {
      BearingTells(lex, ss, n, ps, bound);
    } else if Closes(Word(ss[n]), Delta(Word(ss[n]))) {
      CloseStepTells(lex, ss, n, ps, Step(lex, ps, ss[n], bound));
    } else {
      StructureTells(lex, ss, n, ps, Step(lex, ps, ss[n], bound));
    }
  }

  lemma FreshTells(lex: Lexer, ss: seq<Statement>)
    ensures StateTells(lex, ss, 0, FRESH)
  {
  }

  lemma RunUnfolds(lex: Lexer, ss: seq<Statement>, n: nat, bound: nat)
    requires n <= |ss| && Bounded(ss, bound)
    ensures RunTo(lex, ss, n, bound)
      == if n == 0 then FRESH else Step(lex, RunTo(lex, ss, n - 1, bound), ss[n - 1], bound)
  {
  }

  lemma {:induction false} RunTells(lex: Lexer, ss: seq<Statement>, n: nat, bound: nat)
    requires n <= |ss| && Bounded(ss, bound)
    ensures StateTells(lex, ss, n, RunTo(lex, ss, n, bound))
  {
    RunUnfolds(lex, ss, n, bound);
    if n == 0 {
      FreshTells(lex, ss);
    } else {
      RunTells(lex, ss, n - 1, bound);
      NextTells(lex, ss, n, RunTo(lex, ss, n - 1, bound), RunTo(lex, ss, n, bound), bound);
    }
  }

  lemma NextTells(lex: Lexer, ss: seq<Statement>, n: nat, ps: ParserState, next: ParserState, bound: nat)
    requires 0 < n <= |ss| && |ss[n - 1].text| <= bound && StateTells(lex, ss, n - 1, ps)
    requires next == Step(lex, ps, ss[n - 1], bound)
    ensures StateTells(lex, ss, n, next)
  {
    StatementTells(lex, ss, n - 1, ps, bound);
  }

  // ------------------------------------------------------------------ whole texts

  /** One scope of everything, from the first operation's line to the last one's; none of an empty text. */
  predicate WholeTells(m: ParsedModule) {
    if m.ops == [] then m.functions == []
    else
      && |m.functions| == 1 && m.functions[0].name == "(module)"
      && m.functions[0].lineStart == m.ops[0].lineStart && m.functions[0].lineEnd == m.ops[|m.ops| - 1].lineEnd
      && |m.functions[0].ops| == |m.ops| && forall i :: 0 <= i < |m.ops| ==> m.functions[0].ops[i] == i
  }

  /**
   * For every text: each statement that is an operation gives it, under the regions open there and on
   * its own lines, followed by those of a single-line body; each statement that names a function and
   * opens it gives a scope of exactly the operations met until it closes; a single-line body's scope is
   * exactly its operations; and where no function is named, one scope holds everything.
   */
  lemma ParseTells(lex: Lexer, text: string)
    ensures var ss, m := Statements(lex, text), Parse(lex, text);
      && OpsTell(lex, ss, |ss|, m.ops)
      && (if FuncPlace(lex, ss, |ss|) > 0 then FuncsTell(lex, ss, |ss|, m.functions) else WholeTells(m))
  {
    StatementsFit(lex, text);
    var ss := Statements(lex, text);
    RunTells(lex, ss, |ss|, |text|);
  }
}
