// Many requests share the caches and memo tables, each table behind its own
// lock, checked and filled in separate critical sections. Whatever the
// interleaving, hits, misses and evictions, every answer is the one that
// recomputing from the immutable trace gives.
module Lookup {
  import opened Model
  import opened Timeline
  import opened Links
  import opened Histories
  import opened Resolve
  import opened Snapshot
  import Cache
  import Diff
  import Parser
  import Reader
  import Recorder
  import Replay
  import TokenOrder
  import Ambiguity
  import RecordedTokens

  // ------------------------------------------------------- what recomputing gives

  /** The trace a server process serves; it never changes. */
  datatype World = World(source: Source, lex: Parser.Lexer, forest: seq<Reader.PassNode>)

  /** Reading back gave each recorded pass one node. */
  ghost predicate WorldOk(w: World) {
    forall id :: Reader.Occurrences(w.forest, id) <= 1
  }

  function FreshTimeline(w: World, func: string): Read<seq<Stage>> {
    TimelineFor(w.source, EngineParse(w.lex), w.forest, func)
  }

  type Answer = Read<Option<ResolvedFunction>>

  /** The answer of a lookup that reads nothing but the trace. */
  ghost predicate Recomputed(w: World, func: string, answer: Answer) {
    match FreshTimeline(w, func)
    case Failed => answer == Failed
    case Fine(stages) =>
      if stages == [] then answer == Fine(None)
      else answer.Fine? && answer.value.Some? && Resolution(func, stages, answer.value.value)
  }

  type DiffKey = (int, int, string)

  function ModuleOf(w: World, blob: int): Read<ParsedModule> {
    match w.source.text(blob) case Failed => Failed case Fine(text) => Fine(Parser.Parse(w.lex, text))
  }

  /** The diff of two blobs, computed in full even when they are the same. */
  ghost predicate DiffRecomputed(w: World, key: DiffKey, answer: Read<Diff.FunctionDiff>) {
    var before, after := ModuleOf(w, key.0), ModuleOf(w, key.1);
    if before.Failed? || after.Failed? then answer == Failed
    else Diff.ScopesInBounds(before.value) && Diff.ScopesInBounds(after.value)
         && answer == Fine(Diff.Difference(before.value, after.value, key.2))
  }

  // ---------------------------------------------------------------- the machine

  datatype Shared = Shared(
    parsed: map<int, ParsedModule>,
    diffs: map<DiffKey, Diff.FunctionDiff>,
    timelines: map<string, seq<Stage>>,
    resolved: map<string, ResolvedFunction>)

  datatype Goal = WantHistories(func: string) | WantDiff(key: DiffKey)

  /** Where a request stands between two critical sections. */
  datatype Task =
    | Asked(func: string)
    | Missed(func: string)
    | Reading(goal: Goal, got: map<int, ParsedModule>)
    | Parsing(goal: Goal, got: map<int, ParsedModule>, blob: int, code: ParsedModule)
    | Built(func: string, stages: seq<Stage>)
    | Timed(func: string, stages: seq<Stage>)
    | Answering(func: string, result: ResolvedFunction)
    | Answered(func: string, answer: Answer)
    | Differing(key: DiffKey, diff: Diff.FunctionDiff)
    | Differed(key: DiffKey, outcome: Read<Diff.FunctionDiff>)

  /** Modules already fetched through the memo are used as fetched. */
  function ParseVia(w: World, got: map<int, ParsedModule>): (r: Parse) {
    var parse := (blob: int, text: string) =>
      if blob in got && WellFormed(got[blob]) then got[blob] else Parser.Parse(w.lex, text);
    assert ParsesWell(parse) by {
      forall blob, text
        ensures WellFormed(parse(blob, text))
      {
        Parser.ParsedModulesAreWellFormed(w.lex, text);
      }
    }
    parse
  }

  /** One blob goes through the memo: a hit is taken, a miss is parsed outside the lock. */
  ghost predicate Fetches(w: World, a: Shared, t: Task, u: Task)
    requires t.Reading?
  {
    exists blob :: w.source.text(blob).Fine? &&
      u == if blob in a.parsed then Reading(t.goal, t.got[blob := a.parsed[blob]])
           else Parsing(t.goal, t.got, blob, Parser.Parse(w.lex, w.source.text(blob).value))
  }

  /** Every text is read and the timeline or the diff can be put together. */
  ghost predicate Concludes(w: World, a: Shared, t: Task, u: Task)
    requires t.Reading?
  {
    match t.goal
    case WantHistories(func) =>
      (match TimelineFor(w.source, ParseVia(w, t.got), w.forest, func)
       case Failed => u == Answered(func, Failed)
       case Fine(stages) => u == if stages == [] then Answered(func, Fine(None)) else Built(func, stages))
    case WantDiff(key) =>
      if w.source.text(key.0).Failed? || w.source.text(key.1).Failed? then u == Differed(key, Failed)
      else
        && key.0 in t.got && key.1 in t.got
        && Diff.ScopesInBounds(t.got[key.0]) && Diff.ScopesInBounds(t.got[key.1])
        && if key.0 == key.1 then u == Differed(key, Fine(Diff.IdenticalBlobDiff(t.got[key.1], key.2)))
           else if key in a.diffs then u == Differed(key, Fine(a.diffs[key]))
           else u == Differing(key, Diff.Difference(t.got[key.0], t.got[key.1], key.2))
  }

  /** One critical section of one request. Eviction may drop any entries at all. */
  ghost predicate TaskStep(w: World, a: Shared, t: Task, b: Shared, u: Task) {
    match t
    case Asked(func) =>
      b == a && u == if func in a.resolved then Answered(func, Fine(Some(a.resolved[func]))) else Missed(func)
    case Missed(func) =>
      b == a && u == if func in a.timelines then Timed(func, a.timelines[func]) else Reading(WantHistories(func), map[])
    case Reading(goal, got) =>
      b == a && (Fetches(w, a, t, u) || Concludes(w, a, t, u))
    case Parsing(goal, got, blob, code) =>
      b == a.(parsed := a.parsed[blob := code]) && u == Reading(goal, got[blob := code])
    case Built(func, stages) =>
      b == a.(timelines := b.timelines) && Cache.PartOf(b.timelines, a.timelines[func := stages])
        && u == Timed(func, stages)
    case Timed(func, stages) =>
      b == a && u.Answering? && u.func == func && Resolution(func, stages, u.result)
    case Answering(func, result) =>
      && b == a.(resolved := b.resolved) && Cache.PartOf(b.resolved, a.resolved[func := result])
      && u == Answered(func, Fine(Some(result)))
    case Answered(_, _) => false
    case Differing(key, diff) =>
      b == a.(diffs := a.diffs[key := diff]) && u == Differed(key, Fine(diff))
    case Differed(_, _) => false
  }

  // -------------------------------------------------------------- the invariant

  ghost predicate GotOk(w: World, got: map<int, ParsedModule>) {
    forall blob :: blob in got ==> ModuleOf(w, blob) == Fine(got[blob])
  }

  ghost predicate TimelineRight(w: World, func: string, stages: seq<Stage>) {
    FreshTimeline(w, func) == Fine(stages) && stages != []
  }

  ghost predicate SharedOk(w: World, a: Shared) {
    && GotOk(w, a.parsed)
    && (forall key :: key in a.diffs ==> DiffRecomputed(w, key, Fine(a.diffs[key])))
    && (forall func :: func in a.timelines ==> TimelineRight(w, func, a.timelines[func]))
    && (forall func :: func in a.resolved ==> Recomputed(w, func, Fine(Some(a.resolved[func]))))
  }

  ghost predicate TaskOk(w: World, t: Task) {
    match t
    case Asked(_) => true
    case Missed(_) => true
    case Reading(_, got) => GotOk(w, got)
    case Parsing(_, got, blob, code) => GotOk(w, got) && ModuleOf(w, blob) == Fine(code)
    case Built(func, stages) => TimelineRight(w, func, stages)
    case Timed(func, stages) => TimelineRight(w, func, stages)
    case Answering(func, result) => Recomputed(w, func, Fine(Some(result)))
    case Answered(func, answer) => Recomputed(w, func, answer)
    case Differing(key, diff) => DiffRecomputed(w, key, Fine(diff))
    case Differed(key, outcome) => DiffRecomputed(w, key, outcome)
  }

  /** A timeline built through the memo is the timeline. */
  lemma MemoBuildsTimeline(w: World, got: map<int, ParsedModule>, func: string)
    requires GotOk(w, got)
    ensures TimelineFor(w.source, ParseVia(w, got), w.forest, func) == FreshTimeline(w, func)
  {
    var p, q := ParseVia(w, got), EngineParse(w.lex);
    forall blob: int
      ensures AlikeAt(w.source, p, q, blob)
    {
      if w.source.text(blob).Fine? {
        ScopesFit(w, blob);
        assert blob in got ==> ModuleOf(w, blob) == Fine(got[blob]);
      }
    }
    StagesAlike(w.source, p, q, SortLeaves(Leaves(w.forest, 0)), func);
  }

  lemma ScopesFit(w: World, blob: int)
    requires w.source.text(blob).Fine?
    ensures WellFormed(ModuleOf(w, blob).value) && Diff.ScopesInBounds(ModuleOf(w, blob).value)
  {
    Parser.ParsedModulesAreWellFormed(w.lex, w.source.text(blob).value);
  }

  lemma FetchKeepsOk(w: World, a: Shared, t: Task, u: Task)
    requires SharedOk(w, a) && TaskOk(w, t) && t.Reading? && Fetches(w, a, t, u)
    ensures TaskOk(w, u)
  {
  }

  lemma ConclusionIsRight(w: World, a: Shared, t: Task, u: Task)
    requires SharedOk(w, a) && TaskOk(w, t) && t.Reading? && Concludes(w, a, t, u)
    ensures TaskOk(w, u)
  {
    match t.goal
    case WantHistories(func) =>
      MemoBuildsTimeline(w, t.got, func);
    case WantDiff(key) =>
      if w.source.text(key.0).Fine? && w.source.text(key.1).Fine? {
        ScopesFit(w, key.0);
        ScopesFit(w, key.1);
        assert ModuleOf(w, key.0) == Fine(t.got[key.0]) && ModuleOf(w, key.1) == Fine(t.got[key.1]);
        Diff.ShortcutRefinesDiff(t.got[key.1], key.2);
      }
  }

  lemma ParsingKeepsOk(w: World, a: Shared, blob: int, code: ParsedModule)
    requires SharedOk(w, a) && ModuleOf(w, blob) == Fine(code)
    ensures SharedOk(w, a.(parsed := a.parsed[blob := code]))
  {
  }

  lemma TimelinePutKeepsOk(w: World, a: Shared, b: Shared, func: string, stages: seq<Stage>)
    requires SharedOk(w, a) && TimelineRight(w, func, stages)
    requires b == a.(timelines := b.timelines) && Cache.PartOf(b.timelines, a.timelines[func := stages])
    ensures SharedOk(w, b)
  {
  }

  lemma ResolvedPutKeepsOk(w: World, a: Shared, b: Shared, func: string, result: ResolvedFunction)
    requires SharedOk(w, a) && Recomputed(w, func, Fine(Some(result)))
    requires b == a.(resolved := b.resolved) && Cache.PartOf(b.resolved, a.resolved[func := result])
    ensures SharedOk(w, b)
  {
  }

  lemma DiffPutKeepsOk(w: World, a: Shared, key: DiffKey, diff: Diff.FunctionDiff)
    requires SharedOk(w, a) && DiffRecomputed(w, key, Fine(diff))
    ensures SharedOk(w, a.(diffs := a.diffs[key := diff]))
  {
  }

  lemma ReadingKeepsOk(w: World, a: Shared, t: Task, u: Task)
    requires SharedOk(w, a) && TaskOk(w, t) && t.Reading? && (Fetches(w, a, t, u) || Concludes(w, a, t, u))
    ensures TaskOk(w, u)
  {
    if Fetches(w, a, t, u) {
      FetchKeepsOk(w, a, t, u);
    } else {
      ConclusionIsRight(w, a, t, u);
    }
  }

  /** Finding an entry in a cache, or none, leaves the tables alone. */
  lemma LookingKeepsOk(w: World, a: Shared, t: Task, b: Shared, u: Task)
    requires SharedOk(w, a) && TaskOk(w, t) && TaskStep(w, a, t, b, u) && (t.Asked? || t.Missed?)
    ensures b == a && TaskOk(w, u)
  {
  }

  /** No critical section breaks the tables or the request. */
  lemma StepKeepsOk(w: World, a: Shared, t: Task, b: Shared, u: Task)
    requires SharedOk(w, a) && TaskOk(w, t) && TaskStep(w, a, t, b, u)
    ensures SharedOk(w, b) && TaskOk(w, u)
  {
    match t
    case Asked(_) =>
      LookingKeepsOk(w, a, t, b, u);
    case Missed(_) =>
      LookingKeepsOk(w, a, t, b, u);
    case Reading(_, _) =>
      ReadingKeepsOk(w, a, t, u);
    case Parsing(_, _, blob, code) =>
      ParsingKeepsOk(w, a, blob, code);
    case Built(func, stages) =>
      TimelinePutKeepsOk(w, a, b, func, stages);
    case Timed(_, _) =>
    case Answering(func, result) =>
      ResolvedPutKeepsOk(w, a, b, func, result);
    case Answered(_, _) =>
    case Differing(key, diff) =>
      DiffPutKeepsOk(w, a, key, diff);
    case Differed(_, _) =>
  }

  // ------------------------------------------------------------------------ runs

  datatype State = State(shared: Shared, tasks: map<nat, Task>)

  ghost predicate StateOk(w: World, s: State) {
    SharedOk(w, s.shared) && forall id :: id in s.tasks ==> TaskOk(w, s.tasks[id])
  }

  predicate Arrival(t: Task) {
    t.Asked? || (t.Reading? && t.goal.WantDiff? && t.got == map[])
  }

  /** A request arrives, or some request passes its next critical section. */
  ghost predicate Step(w: World, s: State, r: State) {
    || (exists id: nat, t :: id !in s.tasks && Arrival(t) && r == s.(tasks := s.tasks[id := t]))
    || (exists id, u :: id in s.tasks && TaskStep(w, s.shared, s.tasks[id], r.shared, u) && r.tasks == s.tasks[id := u])
  }

  lemma StepKeepsState(w: World, s: State, r: State)
    requires StateOk(w, s) && Step(w, s, r)
    ensures StateOk(w, r)
  {
    if exists id, u :: id in s.tasks && TaskStep(w, s.shared, s.tasks[id], r.shared, u) && r.tasks == s.tasks[id := u] {
      var id, u :| id in s.tasks && TaskStep(w, s.shared, s.tasks[id], r.shared, u) && r.tasks == s.tasks[id := u];
      StepKeepsOk(w, s.shared, s.tasks[id], r.shared, u);
    }
  }

  const EMPTY := State(Shared(map[], map[], map[], map[]), map[])

  /** The server process: empty tables, then any steps of any requests. */
  ghost predicate IsRun(w: World, states: seq<State>) {
    && states != [] && states[0] == EMPTY
    && forall k :: 0 <= k < |states| - 1 ==> Step(w, states[k], states[k + 1])
  }

  lemma {:induction false} RunKeepsState(w: World, states: seq<State>, n: nat)
    requires IsRun(w, states) && n < |states|
    ensures StateOk(w, states[n])
  {
    if n > 0 {
      RunKeepsState(w, states, n - 1);
      assert Step(w, states[n - 1], states[n - 1 + 1]);
      StepKeepsState(w, states[n - 1], states[n]);
    }
  }

  /** Every answer given in any run is the recomputed one. */
  lemma EveryAnswerIsRecomputed(w: World, states: seq<State>, n: nat, id: nat)
    requires IsRun(w, states) && n < |states| && id in states[n].tasks
    ensures states[n].tasks[id].Answered? ==> Recomputed(w, states[n].tasks[id].func, states[n].tasks[id].answer)
    ensures states[n].tasks[id].Differed? ==> DiffRecomputed(w, states[n].tasks[id].key, states[n].tasks[id].outcome)
  {
    RunKeepsState(w, states, n);
  }

  /** Where no token is ambiguous, all answers about a function are one and the same. */
  lemma AnswersAgree(w: World, func: string, a: Answer, b: Answer)
    requires WorldOk(w) && Recomputed(w, func, a) && Recomputed(w, func, b)
    requires var t := FreshTimeline(w, func); t.Fine? && StagesOk(t.value, func) ==>
      TokenOrder.RunUnambiguous(RunOf(func, t.value))
    ensures a == b
  {
    var t := FreshTimeline(w, func);
    if t.Fine? && t.value != [] {
      TimelinesAreOk(w.source, EngineParse(w.lex), w.forest, func);
      var run := RunOf(func, t.value);
      var o1 :| ResolvedBy(func, t.value, o1, a.value.value);
      var o2 :| ResolvedBy(func, t.value, o2, b.value.value);
      TokenOrder.AnyOrderResolvesAlike(run, o1, o2, a.value.value, b.value.value);
    }
  }

  /** Where some stage is ambiguous, two different answers are both what recomputation may give. */
  lemma AmbiguousAnswersDiffer(w: World, func: string) returns (a: Answer, b: Answer)
    requires WorldOk(w) && FreshTimeline(w, func).Fine? && StagesOk(FreshTimeline(w, func).value, func)
    requires !TokenOrder.RunUnambiguous(RunOf(func, FreshTimeline(w, func).value))
    ensures Recomputed(w, func, a) && Recomputed(w, func, b) && a != b
  {
    var stages := FreshTimeline(w, func).value;
    var run := RunOf(func, stages);
    TimelinesAreOk(w.source, EngineParse(w.lex), w.forest, func);
    Ambiguity.OneResultIffUnambiguous(run);
    var o1, o2 := Ambiguity.TwoResults(run);
    a, b := Fine(Some(Ambiguity.ResultOf(run, o1))), Fine(Some(Ambiguity.ResultOf(run, o2)));
    ResultResolves(w, func, stages, o1);
    ResultResolves(w, func, stages, o2);
  }

  lemma ResultResolves(w: World, func: string, stages: seq<Stage>, orders: Orders)
    requires FreshTimeline(w, func) == Fine(stages) && stages != [] && StagesOk(stages, func)
    requires OrdersOk(RunOf(func, stages), orders, |stages|)
    ensures Recomputed(w, func, Fine(Some(Ambiguity.ResultOf(RunOf(func, stages), orders))))
  {
    assert ResolvedBy(func, stages, orders, Ambiguity.ResultOf(RunOf(func, stages), orders));
  }

  /** The resolver has an answer for every timeline the trace gives. */
  method Recompute(w: World, func: string) returns (answer: Answer)
    requires WorldOk(w)
    ensures Recomputed(w, func, answer)
  {
    var parse := EngineParse(w.lex);
    var timeline := BuildTimeline(w.source, parse, w.forest, func);
    if timeline.Failed? {
      return Failed;
    }
    if timeline.value == [] {
      return Fine(None);
    }
    TimelinesAreOk(w.source, parse, w.forest, func);
    var r := ResolveFunction(func, timeline.value);
    answer := Fine(Some(r));
  }

  /** A recorded trace, read back in the order the query gives, is one the server can serve. */
  lemma RecordedTracesServe(w: World, fidelity: Recorder.Fidelity, callbacks: seq<Recorder.Callback>,
      rows: seq<Reader.Row>)
    requires Reader.QueryResult(Recorder.Run(fidelity, callbacks).tables.passes, rows)
    requires w.forest == Replay.PassTree(Recorder.Run(fidelity, callbacks).tables.passes)
    ensures WorldOk(w)
  {
    Replay.RecordedRunsReadBack(fidelity, callbacks, rows);
    forall id
      ensures Reader.Occurrences(w.forest, id) <= 1
    {
      Reader.ForestHoldsEachRowOnce(rows, id);
    }
  }

  /** About a recorded trace every request for a function gets one and the same answer, whatever the hash maps do. */
  lemma RecordedAnswersAgree(w: World, fidelity: Recorder.Fidelity, callbacks: seq<Recorder.Callback>,
      rows: seq<Reader.Row>, func: string, a: Answer, b: Answer)
    requires Reader.QueryResult(Recorder.Run(fidelity, callbacks).tables.passes, rows)
    requires w.forest == Replay.PassTree(Recorder.Run(fidelity, callbacks).tables.passes)
    requires RecordedTokens.ReadsIndex(w.source, Recorder.Run(fidelity, callbacks).tables.index)
    requires Recomputed(w, func, a) && Recomputed(w, func, b)
    ensures a == b
  {
    RecordedTracesServe(w, fidelity, callbacks, rows);
    var t := FreshTimeline(w, func);
    if t.Fine? && StagesOk(t.value, func) {
      RecordedTokens.RecordedTimelinesAreUnambiguous(w.source, EngineParse(w.lex), w.forest, func, fidelity, callbacks);
    }
    AnswersAgree(w, func, a, b);
  }

  /** What the resolver assumes, and what its naming law assumes, the server's timelines have. */
  lemma ServedTimelinesAreOk(w: World, func: string)
    requires WorldOk(w) && FreshTimeline(w, func).Fine?
    ensures TimelineOk(FreshTimeline(w, func).value, func) && BlobsAgree(FreshTimeline(w, func).value)
  {
    TimelinesAreOk(w.source, EngineParse(w.lex), w.forest, func);
    BlobsMeanModules(w.source, EngineParse(w.lex), w.forest, func);
  }
}
