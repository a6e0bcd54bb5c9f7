// Well-nested callbacks: one stack of open pipelines, passes, patterns and
// actions per thread explains everything the recorder keeps in five separately
// keyed maps.
module Nesting {
  import opened Model
  import opened Reader
  import opened Recorder

  datatype Frame =
    | PassFrame(pass: PassPtr, id: int)
    | PipeFrame(owner: Option<int>)
    | PatternFrame(pattern: string)
    | ActionFrame(action: string)

  /** What an event should carry. */
  datatype Stamp = Stamp(
    pass: int, kind: EventKind, token: int, newToken: Option<int>, pattern: Option<string>, source: EventSource)

  /** What a trace should hold, told from the nesting alone. */
  datatype Story = Story(
    stacks: map<Thread, seq<Frame>>,
    parents: seq<Option<int>>,
    stamps: seq<Stamp>,
    finished: bool)

  const BLANK: Story := Story(map[], [], [], false)

  /** The open pass of that name on a thread's stack. */
  function OpenId(frames: seq<Frame>, pass: PassPtr): Option<int> {
    if frames == [] then None
    else
      var last := frames[|frames| - 1];
      if last.PassFrame? && last.pass == pass then Some(last.id) else OpenId(frames[..|frames| - 1], pass)
  }

  /** The ids of the open passes, outermost first. */
  function PassIds(frames: seq<Frame>): seq<int> {
    if frames == [] then []
    else
      PassIds(frames[..|frames| - 1]) + if frames[|frames| - 1].PassFrame? then [frames[|frames| - 1].id] else []
  }

  /** The passes owning the open pipelines, outermost first. */
  function Owners(frames: seq<Frame>): seq<Option<int>> {
    if frames == [] then []
    else
      Owners(frames[..|frames| - 1]) + if frames[|frames| - 1].PipeFrame? then [frames[|frames| - 1].owner] else []
  }

  /** The open patterns, outermost first. */
  function Patterns(frames: seq<Frame>): seq<string> {
    if frames == [] then []
    else
      Patterns(frames[..|frames| - 1])
      + if frames[|frames| - 1].PatternFrame? then [frames[|frames| - 1].pattern] else []
  }

  /** The open actions, outermost first. */
  function Actions(frames: seq<Frame>): seq<string> {
    if frames == [] then []
    else
      Actions(frames[..|frames| - 1])
      + if frames[|frames| - 1].ActionFrame? then [frames[|frames| - 1].action] else []
  }

  function InnermostPattern(frames: seq<Frame>): Option<string> {
    if frames == [] then None
    else if frames[|frames| - 1].PatternFrame? then Some(frames[|frames| - 1].pattern)
    else InnermostPattern(frames[..|frames| - 1])
  }

  function InnermostAction(frames: seq<Frame>): Option<string> {
    if frames == [] then None
    else if frames[|frames| - 1].ActionFrame? then Some(frames[|frames| - 1].action)
    else InnermostAction(frames[..|frames| - 1])
  }

  function InnermostPass(frames: seq<Frame>): Option<int> {
    if frames == [] then None
    else if frames[|frames| - 1].PassFrame? then Some(frames[|frames| - 1].id)
    else InnermostPass(frames[..|frames| - 1])
  }

  /** The owner of the innermost pipeline; the root row when there is none. */
  function InnermostOwner(frames: seq<Frame>): int {
    if frames == [] then 1
    else if frames[|frames| - 1].PipeFrame? then (match frames[|frames| - 1].owner case Some(id) => id case None => 1)
    else InnermostOwner(frames[..|frames| - 1])
  }

  function Frames(story: Story, t: Thread): seq<Frame> {
    StackOf(story.stacks, t)
  }

  /** An event is credited to the innermost pattern, or to the innermost action outside any pattern. */
  function Credit(frames: seq<Frame>): Option<string> {
    if InnermostPattern(frames).Some? then InnermostPattern(frames) else InnermostAction(frames)
  }

  function StampOf(frames: seq<Frame>, pass: int, kind: EventKind, token: int, newToken: Option<int>): Stamp {
    Stamp(pass, kind, token, newToken, Credit(frames),
          if InnermostAction(frames).Some? then FromAction else FromListener)
  }

  /** Before the end, properly bracketed on each thread, no pass entered twice, storage answering every write. */
  predicate Fits(story: Story, c: Callback) {
    !story.finished &&
    match c
    case BeforePass(t, p, _, _, walk, reply) => OpenId(Frames(story, t), p).None? && StorageServes(reply, walk)
    case AfterPass(t, p, _, _, walk, reply) =>
      OnTop(Frames(story, t), p) && StorageServes(reply, walk)
    case AfterPipeline(t) => Frames(story, t) != [] && Frames(story, t)[|Frames(story, t)| - 1].PipeFrame?
    case Identity(_, _, _, _, reply) => reply.passStored
    case EndPattern(t) => Frames(story, t) != [] && Frames(story, t)[|Frames(story, t)| - 1].PatternFrame?
    case EndAction(t) => Frames(story, t) != [] && Frames(story, t)[|Frames(story, t)| - 1].ActionFrame?
    case _ => true
  }

  predicate StorageServes(reply: StorageReply, walk: seq<WalkedOp>) {
    reply.blob.Some? && reply.rootStored && reply.passStored && |walk| <= reply.indexStored && reply.rootEnded
      && reply.metaStored
  }

  function Opened(story: Story): seq<Option<int>> {
    if story.parents == [] then [None] else story.parents
  }

  function Tell(fidelity: Fidelity, story: Story, c: Callback): Story {
    match c
    case BeforePipeline(t, pt, pp) => story.(stacks := Pushed(story.stacks, t,
      PipeFrame(OpenId(Frames(story, pt), pp))))
    case AfterPipeline(t) => story.(stacks := Popped(story.stacks, t))
    case BeforePass(t, p, _, _, _, _) =>
      var rows := Opened(story);
      story.(stacks := Pushed(story.stacks, t, PassFrame(p, |rows| + 1)),
             parents := rows + [Some(InnermostOwner(Frames(story, t)))])
    case AfterPass(t, _, _, _, _, _) => story.(stacks := Popped(story.stacks, t))
    case Identity(t, kind, token, newToken, _) =>
      var innermost := InnermostPass(Frames(story, t));
      if fidelity == Full && innermost.Some?
      then story.(stamps := story.stamps + [StampOf(Frames(story, t), innermost.value, kind, token, newToken)])
      else story
    case BeginPattern(t, pattern) => story.(stacks := Pushed(story.stacks, t, PatternFrame(pattern)))
    case EndPattern(t) => story.(stacks := Popped(story.stacks, t))
    case BeginAction(t, action) => story.(stacks := Pushed(story.stacks, t, ActionFrame(action)))
    case EndAction(t) => story.(stacks := Popped(story.stacks, t))
    case Finish(_) => story.(finished := true)
  }

  function Told(fidelity: Fidelity, callbacks: seq<Callback>): Story {
    if callbacks == [] then BLANK
    else Tell(fidelity, Told(fidelity, callbacks[..|callbacks| - 1]), callbacks[|callbacks| - 1])
  }

  predicate WellNested(fidelity: Fidelity, callbacks: seq<Callback>) {
    callbacks == [] ||
    (WellNested(fidelity, callbacks[..|callbacks| - 1])
     && Fits(Told(fidelity, callbacks[..|callbacks| - 1]), callbacks[|callbacks| - 1]))
  }

  // ------------------------------------------------------------- refinement

  /** No pass is open twice on one thread. */
  predicate EnteredOnce(frames: seq<Frame>) {
    frames == [] ||
    (EnteredOnce(frames[..|frames| - 1])
     && (frames[|frames| - 1].PassFrame? ==> OpenId(frames[..|frames| - 1], frames[|frames| - 1].pass).None?))
  }

  function ActiveId(active: map<Execution, ActivePass>, t: Thread, p: PassPtr): Option<int> {
    if (t, p) in active then Some(active[(t, p)].id) else None
  }

  /** One thread's share of the three maps is a projection of its stack. */
  predicate Projects(frames: seq<Frame>, ids: seq<int>, owners: seq<Option<int>>) {
    EnteredOnce(frames) && ids == PassIds(frames) && owners == Owners(frames)
  }

  predicate Names(frames: seq<Frame>, patterns: seq<string>, actions: seq<string>) {
    patterns == Patterns(frames) && actions == Actions(frames)
  }

  ghost predicate NamesAgree(stacks: map<Thread, seq<Frame>>, patterns: map<Thread, seq<string>>,
      actions: map<Thread, seq<string>>) {
    forall t :: Names(StackOf(stacks, t), StackOf(patterns, t), StackOf(actions, t))
  }

  ghost predicate NoneEmpty<T>(stacks: map<Thread, seq<T>>) {
    forall t :: t in stacks ==> stacks[t] != []
  }

  /** A thread with nothing open has no entry in any map. */
  ghost predicate NoEmptyStacks(s: State) {
    NoneEmpty(s.activePassIds) && NoneEmpty(s.pipelineParents) && NoneEmpty(s.currentPatterns)
      && NoneEmpty(s.currentActions)
  }

  ghost predicate StacksAgree(stacks: map<Thread, seq<Frame>>, ids: map<Thread, seq<int>>,
      owners: map<Thread, seq<Option<int>>>) {
    forall t :: Projects(StackOf(stacks, t), StackOf(ids, t), StackOf(owners, t))
  }

  ghost predicate ActiveAgrees(stacks: map<Thread, seq<Frame>>, active: map<Execution, ActivePass>) {
    forall t, p :: ActiveId(active, t, p) == OpenId(StackOf(stacks, t), p)
  }

  function StampIn(row: EventRow): Stamp {
    Stamp(row.pass, row.kind, row.token, row.newToken, row.pattern, row.source)
  }

  /** The rows' parents and the events' passes, patterns and sources are the ones the story tells. */
  predicate TablesAgree(story: Story, tables: Tables) {
    && |tables.passes| == |story.parents|
         && (forall k :: 0 <= k < |story.parents| ==> tables.passes[k].parent == story.parents[k])
    && |tables.events| == |story.stamps|
         && (forall k :: 0 <= k < |story.stamps| ==> StampIn(tables.events[k]) == story.stamps[k])
  }

  ghost predicate Refines(story: Story, s: State) {
    && s.firstError.None? && s.finished == story.finished
    && s.rootPass == (if story.parents == [] then None else Some(1))
    && StacksAgree(story.stacks, s.activePassIds, s.pipelineParents)
    && ActiveAgrees(story.stacks, s.activePasses)
    && NamesAgree(story.stacks, s.currentPatterns, s.currentActions)
    && NoEmptyStacks(s)
    && TablesAgree(story, s.tables)
  }

  lemma PushedStack<T>(stacks: map<Thread, seq<T>>, t: Thread, x: T)
    ensures forall u ::
      StackOf(Pushed(stacks, t, x), u) == if u == t then StackOf(stacks, t) + [x] else StackOf(stacks, u)
  {
  }

  lemma PoppedStack<T>(stacks: map<Thread, seq<T>>, t: Thread)
    requires StackOf(stacks, t) != []
    ensures forall u ::
      StackOf(Popped(stacks, t), u) == if u == t then StackOf(stacks, t)[..|StackOf(stacks, t)| - 1]
        else StackOf(stacks, u)
  {
  }

  lemma PushUnfolds(frames: seq<Frame>, f: Frame)
    ensures PassIds(frames + [f]) == PassIds(frames) + if f.PassFrame? then [f.id] else []
    ensures Owners(frames + [f]) == Owners(frames) + if f.PipeFrame? then [f.owner] else []
    ensures Patterns(frames + [f]) == Patterns(frames) + if f.PatternFrame? then [f.pattern] else []
    ensures Actions(frames + [f]) == Actions(frames) + if f.ActionFrame? then [f.action] else []
    ensures EnteredOnce(frames + [f]) == (EnteredOnce(frames) && (f.PassFrame? ==> OpenId(frames, f.pass).None?))
    ensures forall p :: OpenId(frames + [f], p) == if f.PassFrame? && f.pass == p then Some(f.id) else OpenId(frames, p)
  {
    assert (frames + [f])[..|frames|] == frames;
  }

  type Named = map<Thread, seq<string>>

  /** One thread's stack and names change, the others' stay. */
  lemma NamesChange(stacks: map<Thread, seq<Frame>>, patterns: Named, actions: Named, t: Thread,
      newStacks: map<Thread, seq<Frame>>, newPatterns: Named, newActions: Named)
    requires NamesAgree(stacks, patterns, actions)
    requires forall u :: u != t ==> StackOf(newStacks, u) == StackOf(stacks, u)
    requires forall u :: u != t ==> StackOf(newPatterns, u) == StackOf(patterns, u)
    requires forall u :: u != t ==> StackOf(newActions, u) == StackOf(actions, u)
    requires Names(StackOf(newStacks, t), StackOf(newPatterns, t), StackOf(newActions, t))
    ensures NamesAgree(newStacks, newPatterns, newActions)
  {
    forall u
      ensures Names(StackOf(newStacks, u), StackOf(newPatterns, u), StackOf(newActions, u))
    {
      assert Names(StackOf(stacks, u), StackOf(patterns, u), StackOf(actions, u));
    }
  }

  /** Opening a frame adds its name to the map of its kind. */
  lemma PatternOpens(stacks: map<Thread, seq<Frame>>, patterns: Named, actions: Named, t: Thread, name: string)
    requires NamesAgree(stacks, patterns, actions)
    ensures NamesAgree(Pushed(stacks, t, PatternFrame(name)), Pushed(patterns, t, name), actions)
  {
    assert Names(StackOf(stacks, t), StackOf(patterns, t), StackOf(actions, t));
    PushedStack(stacks, t, PatternFrame(name));
    PushedStack(patterns, t, name);
    PushUnfolds(StackOf(stacks, t), PatternFrame(name));
    NamesChange(stacks, patterns, actions, t, Pushed(stacks, t, PatternFrame(name)), Pushed(patterns, t, name),
      actions);
  }

  lemma ActionOpens(stacks: map<Thread, seq<Frame>>, patterns: Named, actions: Named, t: Thread, name: string)
    requires NamesAgree(stacks, patterns, actions)
    ensures NamesAgree(Pushed(stacks, t, ActionFrame(name)), patterns, Pushed(actions, t, name))
  {
    assert Names(StackOf(stacks, t), StackOf(patterns, t), StackOf(actions, t));
    PushedStack(stacks, t, ActionFrame(name));
    PushedStack(actions, t, name);
    PushUnfolds(StackOf(stacks, t), ActionFrame(name));
    NamesChange(stacks, patterns, actions, t, Pushed(stacks, t, ActionFrame(name)), patterns, Pushed(actions, t, name));
  }

  lemma NamelessOpens(stacks: map<Thread, seq<Frame>>, patterns: Named, actions: Named, t: Thread, f: Frame)
    requires NamesAgree(stacks, patterns, actions) && !IsNameFrame(f)
    ensures NamesAgree(Pushed(stacks, t, f), patterns, actions)
  {
    assert Names(StackOf(stacks, t), StackOf(patterns, t), StackOf(actions, t));
    PushedStack(stacks, t, f);
    PushUnfolds(StackOf(stacks, t), f);
    NamesChange(stacks, patterns, actions, t, Pushed(stacks, t, f), patterns, actions);
  }

  lemma PopUnfolds(frames: seq<Frame>)
    requires frames != []
    ensures var f := frames[|frames| - 1];
      && (if f.PatternFrame? then Patterns(frames) != [] && Patterns(frames[..|frames| - 1])
           == Patterns(frames)[..|Patterns(frames)| - 1]
          else Patterns(frames[..|frames| - 1]) == Patterns(frames))
      && (if f.ActionFrame? then Actions(frames) != [] && Actions(frames[..|frames| - 1])
           == Actions(frames)[..|Actions(frames)| - 1]
          else Actions(frames[..|frames| - 1]) == Actions(frames))
  {
  }

  /** Closing the top frame takes its name off the map of its kind. */
  lemma PatternCloses(stacks: map<Thread, seq<Frame>>, patterns: Named, actions: Named, t: Thread)
    requires NamesAgree(stacks, patterns, actions)
    requires StackOf(stacks, t) != [] && StackOf(stacks, t)[|StackOf(stacks, t)| - 1].PatternFrame?
    ensures NamesAgree(Popped(stacks, t), Popped(patterns, t), actions)
  {
    assert Names(StackOf(stacks, t), StackOf(patterns, t), StackOf(actions, t));
    PopUnfolds(StackOf(stacks, t));
    PoppedStack(stacks, t);
    PoppedStack(patterns, t);
    NamesChange(stacks, patterns, actions, t, Popped(stacks, t), Popped(patterns, t), actions);
  }

  lemma ActionCloses(stacks: map<Thread, seq<Frame>>, patterns: Named, actions: Named, t: Thread)
    requires NamesAgree(stacks, patterns, actions)
    requires StackOf(stacks, t) != [] && StackOf(stacks, t)[|StackOf(stacks, t)| - 1].ActionFrame?
    ensures NamesAgree(Popped(stacks, t), patterns, Popped(actions, t))
  {
    assert Names(StackOf(stacks, t), StackOf(patterns, t), StackOf(actions, t));
    PopUnfolds(StackOf(stacks, t));
    PoppedStack(stacks, t);
    PoppedStack(actions, t);
    NamesChange(stacks, patterns, actions, t, Popped(stacks, t), patterns, Popped(actions, t));
  }

  lemma NamelessCloses(stacks: map<Thread, seq<Frame>>, patterns: Named, actions: Named, t: Thread)
    requires NamesAgree(stacks, patterns, actions)
    requires StackOf(stacks, t) != [] && !IsNameFrame(StackOf(stacks, t)[|StackOf(stacks, t)| - 1])
    ensures NamesAgree(Popped(stacks, t), patterns, actions)
  {
    assert Names(StackOf(stacks, t), StackOf(patterns, t), StackOf(actions, t));
    PopUnfolds(StackOf(stacks, t));
    PoppedStack(stacks, t);
    NamesChange(stacks, patterns, actions, t, Popped(stacks, t), patterns, actions);
  }

  lemma PushedNoneEmpty<T>(stacks: map<Thread, seq<T>>, t: Thread, x: T)
    requires NoneEmpty(stacks)
    ensures NoneEmpty(Pushed(stacks, t, x))
  {
  }

  lemma PoppedNoneEmpty<T>(stacks: map<Thread, seq<T>>, t: Thread)
    requires NoneEmpty(stacks)
    ensures NoneEmpty(Popped(stacks, t))
  {
  }

  predicate IsNameFrame(f: Frame) { f.PatternFrame? || f.ActionFrame? }

  lemma NameFrameOpens(stacks: map<Thread, seq<Frame>>, ids: map<Thread, seq<int>>,
      owners: map<Thread, seq<Option<int>>>, active: map<Execution, ActivePass>, t: Thread, f: Frame)
    requires StacksAgree(stacks, ids, owners) && ActiveAgrees(stacks, active) && IsNameFrame(f)
    ensures StacksAgree(Pushed(stacks, t, f), ids, owners) && ActiveAgrees(Pushed(stacks, t, f), active)
  {
    PushedStack(stacks, t, f);
    PushUnfolds(StackOf(stacks, t), f);
    forall u
      ensures Projects(StackOf(Pushed(stacks, t, f), u), StackOf(ids, u), StackOf(owners, u))
    {
      assert Projects(StackOf(stacks, u), StackOf(ids, u), StackOf(owners, u));
    }
    SameOpenIds(stacks, Pushed(stacks, t, f), active, t);
  }

  lemma NameFrameCloses(stacks: map<Thread, seq<Frame>>, ids: map<Thread, seq<int>>,
      owners: map<Thread, seq<Option<int>>>, active: map<Execution, ActivePass>, t: Thread)
    requires StacksAgree(stacks, ids, owners) && ActiveAgrees(stacks, active)
    requires var frames := StackOf(stacks, t); frames != [] && IsNameFrame(frames[|frames| - 1])
    ensures StacksAgree(Popped(stacks, t), ids, owners) && ActiveAgrees(Popped(stacks, t), active)
  {
    assert Projects(StackOf(stacks, t), StackOf(ids, t), StackOf(owners, t));
    NamePops(StackOf(stacks, t), StackOf(ids, t), StackOf(owners, t));
    PoppedStack(stacks, t);
    forall u
      ensures Projects(StackOf(Popped(stacks, t), u), StackOf(ids, u), StackOf(owners, u))
    {
      assert Projects(StackOf(stacks, u), StackOf(ids, u), StackOf(owners, u));
    }
    SameOpenIds(stacks, Popped(stacks, t), active, t);
  }

  lemma NamePops(frames: seq<Frame>, ids: seq<int>, owners: seq<Option<int>>)
    requires Projects(frames, ids, owners) && frames != [] && IsNameFrame(frames[|frames| - 1])
    ensures Projects(frames[..|frames| - 1], ids, owners)
    ensures forall p :: OpenId(frames[..|frames| - 1], p) == OpenId(frames, p)
  {
  }

  /** A thread whose open passes stay the same does not disturb the active ones. */
  lemma SameOpenIds(stacks: map<Thread, seq<Frame>>, now: map<Thread, seq<Frame>>, active: map<Execution, ActivePass>,
      t: Thread)
    requires ActiveAgrees(stacks, active) && forall u :: u != t ==> StackOf(now, u) == StackOf(stacks, u)
    requires forall p :: OpenId(StackOf(now, t), p) == OpenId(StackOf(stacks, t), p)
    ensures ActiveAgrees(now, active)
  {
    forall u, p
      ensures ActiveId(active, u, p) == OpenId(StackOf(now, u), p)
    {
      assert ActiveId(active, u, p) == OpenId(StackOf(stacks, u), p);
    }
  }

  lemma PipelineOpens(stacks: map<Thread, seq<Frame>>, ids: map<Thread, seq<int>>,
      owners: map<Thread, seq<Option<int>>>, active: map<Execution, ActivePass>, t: Thread, owner: Option<int>)
    requires StacksAgree(stacks, ids, owners) && ActiveAgrees(stacks, active)
    ensures StacksAgree(Pushed(stacks, t, PipeFrame(owner)), ids, Pushed(owners, t, owner))
    ensures ActiveAgrees(Pushed(stacks, t, PipeFrame(owner)), active)
  {
    PushedStack(stacks, t, PipeFrame(owner));
    PushedStack(owners, t, owner);
    PushUnfolds(StackOf(stacks, t), PipeFrame(owner));
    assert Projects(StackOf(stacks, t), StackOf(ids, t), StackOf(owners, t));
    forall u
      ensures Projects(StackOf(Pushed(stacks, t, PipeFrame(owner)), u), StackOf(ids, u),
        StackOf(Pushed(owners, t, owner), u))
    {
      assert Projects(StackOf(stacks, u), StackOf(ids, u), StackOf(owners, u));
    }
    SameOpenIds(stacks, Pushed(stacks, t, PipeFrame(owner)), active, t);
  }

  lemma PassOpens(stacks: map<Thread, seq<Frame>>, ids: map<Thread, seq<int>>, owners: map<Thread, seq<Option<int>>>,
      active: map<Execution, ActivePass>, t: Thread, pass: PassPtr, entry: ActivePass)
    requires StacksAgree(stacks, ids, owners) && ActiveAgrees(stacks, active) && OpenId(StackOf(stacks, t), pass).None?
    ensures StacksAgree(Pushed(stacks, t, PassFrame(pass, entry.id)), Pushed(ids, t, entry.id), owners)
    ensures ActiveAgrees(Pushed(stacks, t, PassFrame(pass, entry.id)), active[(t, pass) := entry])
  {
    var f := PassFrame(pass, entry.id);
    PushedStack(stacks, t, f);
    PushedStack(ids, t, entry.id);
    PushUnfolds(StackOf(stacks, t), f);
    forall u
      ensures Projects(StackOf(Pushed(stacks, t, f), u), StackOf(Pushed(ids, t, entry.id), u), StackOf(owners, u))
    {
      assert Projects(StackOf(stacks, u), StackOf(ids, u), StackOf(owners, u));
    }
    PassEntersActive(stacks, active, t, pass, entry);
  }

  lemma PassEntersActive(stacks: map<Thread, seq<Frame>>, active: map<Execution, ActivePass>, t: Thread, pass: PassPtr,
      entry: ActivePass)
    requires ActiveAgrees(stacks, active)
    ensures ActiveAgrees(Pushed(stacks, t, PassFrame(pass, entry.id)), active[(t, pass) := entry])
  {
    var f := PassFrame(pass, entry.id);
    PushedStack(stacks, t, f);
    PushUnfolds(StackOf(stacks, t), f);
    forall u, p
      ensures ActiveId(active[(t, pass) := entry], u, p) == OpenId(StackOf(Pushed(stacks, t, f), u), p)
    {
      assert ActiveId(active, u, p) == OpenId(StackOf(stacks, u), p);
    }
  }

  predicate OnTop(frames: seq<Frame>, pass: PassPtr) {
    frames != [] && frames[|frames| - 1].PassFrame? && frames[|frames| - 1].pass == pass
  }

  lemma PipePops(frames: seq<Frame>, ids: seq<int>, owners: seq<Option<int>>)
    requires Projects(frames, ids, owners) && frames != [] && frames[|frames| - 1].PipeFrame?
    ensures owners != [] && Projects(frames[..|frames| - 1], ids, owners[..|owners| - 1])
    ensures forall p :: OpenId(frames[..|frames| - 1], p) == OpenId(frames, p)
  {
  }

  lemma PipelineCloses(stacks: map<Thread, seq<Frame>>, ids: map<Thread, seq<int>>,
      owners: map<Thread, seq<Option<int>>>, active: map<Execution, ActivePass>, t: Thread)
    requires StacksAgree(stacks, ids, owners) && ActiveAgrees(stacks, active)
    requires var frames := StackOf(stacks, t); frames != [] && frames[|frames| - 1].PipeFrame?
    ensures StacksAgree(Popped(stacks, t), ids, Popped(owners, t)) && ActiveAgrees(Popped(stacks, t), active)
  {
    assert Projects(StackOf(stacks, t), StackOf(ids, t), StackOf(owners, t));
    PipePops(StackOf(stacks, t), StackOf(ids, t), StackOf(owners, t));
    PoppedStack(stacks, t);
    PoppedStack(owners, t);
    forall u
      ensures Projects(StackOf(Popped(stacks, t), u), StackOf(ids, u), StackOf(Popped(owners, t), u))
    {
      assert Projects(StackOf(stacks, u), StackOf(ids, u), StackOf(owners, u));
    }
    SameOpenIds(stacks, Popped(stacks, t), active, t);
  }

  lemma PassLeavesStack(stacks: map<Thread, seq<Frame>>, ids: map<Thread, seq<int>>,
      owners: map<Thread, seq<Option<int>>>, t: Thread, pass: PassPtr)
    requires StacksAgree(stacks, ids, owners) && OnTop(StackOf(stacks, t), pass)
    ensures StacksAgree(Popped(stacks, t), Popped(ids, t), owners)
  {
    assert Projects(StackOf(stacks, t), StackOf(ids, t), StackOf(owners, t));
    PoppedStack(stacks, t);
    PoppedStack(ids, t);
    forall u
      ensures Projects(StackOf(Popped(stacks, t), u), StackOf(Popped(ids, t), u), StackOf(owners, u))
    {
      assert Projects(StackOf(stacks, u), StackOf(ids, u), StackOf(owners, u));
    }
  }

  lemma PassLeavesActive(stacks: map<Thread, seq<Frame>>, active: map<Execution, ActivePass>, t: Thread, pass: PassPtr)
    requires ActiveAgrees(stacks, active) && OnTop(StackOf(stacks, t), pass) && EnteredOnce(StackOf(stacks, t))
    ensures ActiveAgrees(Popped(stacks, t), active - {(t, pass)})
  {
    PoppedStack(stacks, t);
    forall u, p
      ensures ActiveId(active - {(t, pass)}, u, p) == OpenId(StackOf(Popped(stacks, t), u), p)
    {
      assert ActiveId(active, u, p) == OpenId(StackOf(stacks, u), p);
    }
  }

  lemma {:induction false} TopsAgree(frames: seq<Frame>)
    ensures InnermostPass(frames) == (if PassIds(frames) == [] then None
      else Some(PassIds(frames)[|PassIds(frames)| - 1]))
    ensures InnermostPattern(frames) == (if Patterns(frames) == [] then None
      else Some(Patterns(frames)[|Patterns(frames)| - 1]))
    ensures InnermostAction(frames) == (if Actions(frames) == [] then None
      else Some(Actions(frames)[|Actions(frames)| - 1]))
    ensures InnermostOwner(frames) == (if Owners(frames) != [] && Owners(frames)[|Owners(frames)| - 1].Some?
                                       then Owners(frames)[|Owners(frames)| - 1].value else 1)
  {
    if frames != [] {
      TopsAgree(frames[..|frames| - 1]);
    }
  }

  // ------------------------------------------------------- callback by callback

  /** The maps may be exchanged for others that agree with the new stacks. */
  lemma Reframed(story: Story, s: State, stacks: map<Thread, seq<Frame>>, ids: map<Thread, seq<int>>,
      owners: map<Thread, seq<Option<int>>>, patterns: Named, actions: Named, active: map<Execution, ActivePass>)
    requires Refines(story, s)
    requires StacksAgree(stacks, ids, owners) && ActiveAgrees(stacks, active) && NamesAgree(stacks, patterns, actions)
    requires NoneEmpty(ids) && NoneEmpty(owners) && NoneEmpty(patterns) && NoneEmpty(actions)
    ensures Refines(story.(stacks := stacks),
                    s.(activePasses := active, activePassIds := ids, pipelineParents := owners,
                       currentPatterns := patterns, currentActions := actions))
  {
  }

  lemma PipelineNoted(story: Story, s: State, t: Thread, pt: Thread, pp: PassPtr)
    requires Refines(story, s) && !story.finished
    ensures Step(s, BeforePipeline(t, pt, pp))
      == s.(pipelineParents := Pushed(s.pipelineParents, t, OpenId(Frames(story, pt), pp)))
  {
    assert ActiveId(s.activePasses, pt, pp) == OpenId(Frames(story, pt), pp);
  }

  lemma PipelineStep(story: Story, s: State, t: Thread, pt: Thread, pp: PassPtr)
    requires Refines(story, s) && !story.finished
    ensures Refines(Tell(s.fidelity, story, BeforePipeline(t, pt, pp)), Step(s, BeforePipeline(t, pt, pp)))
  {
    var owner := OpenId(Frames(story, pt), pp);
    PipelineNoted(story, s, t, pt, pp);
    PipelineOpens(story.stacks, s.activePassIds, s.pipelineParents, s.activePasses, t, owner);
    NamelessOpens(story.stacks, s.currentPatterns, s.currentActions, t, PipeFrame(owner));
    PushedNoneEmpty(s.pipelineParents, t, owner);
    Reframed(story, s, Pushed(story.stacks, t, PipeFrame(owner)), s.activePassIds, Pushed(s.pipelineParents, t, owner),
             s.currentPatterns, s.currentActions, s.activePasses);
  }

  lemma PipelineEndStep(story: Story, s: State, t: Thread)
    requires Refines(story, s) && Fits(story, AfterPipeline(t))
    ensures Refines(Tell(s.fidelity, story, AfterPipeline(t)), Step(s, AfterPipeline(t)))
  {
    PipelineCloses(story.stacks, s.activePassIds, s.pipelineParents, s.activePasses, t);
    NamelessCloses(story.stacks, s.currentPatterns, s.currentActions, t);
    PoppedNoneEmpty(s.pipelineParents, t);
    Reframed(story, s, Popped(story.stacks, t), s.activePassIds, Popped(s.pipelineParents, t),
             s.currentPatterns, s.currentActions, s.activePasses);
  }

  lemma PatternStep(story: Story, s: State, t: Thread, name: string)
    requires Refines(story, s)
    ensures Refines(story.(stacks := Pushed(story.stacks, t, PatternFrame(name))),
                    s.(currentPatterns := Pushed(s.currentPatterns, t, name)))
  {
    NameFrameOpens(story.stacks, s.activePassIds, s.pipelineParents, s.activePasses, t, PatternFrame(name));
    PatternOpens(story.stacks, s.currentPatterns, s.currentActions, t, name);
    PushedNoneEmpty(s.currentPatterns, t, name);
    Reframed(story, s, Pushed(story.stacks, t, PatternFrame(name)), s.activePassIds, s.pipelineParents,
             Pushed(s.currentPatterns, t, name), s.currentActions, s.activePasses);
  }

  lemma ActionStep(story: Story, s: State, t: Thread, name: string)
    requires Refines(story, s)
    ensures Refines(story.(stacks := Pushed(story.stacks, t, ActionFrame(name))),
                    s.(currentActions := Pushed(s.currentActions, t, name)))
  {
    NameFrameOpens(story.stacks, s.activePassIds, s.pipelineParents, s.activePasses, t, ActionFrame(name));
    ActionOpens(story.stacks, s.currentPatterns, s.currentActions, t, name);
    PushedNoneEmpty(s.currentActions, t, name);
    Reframed(story, s, Pushed(story.stacks, t, ActionFrame(name)), s.activePassIds, s.pipelineParents,
             s.currentPatterns, Pushed(s.currentActions, t, name), s.activePasses);
  }

  lemma PatternEndStep(story: Story, s: State, t: Thread)
    requires Refines(story, s) && Fits(story, EndPattern(t))
    ensures Refines(story.(stacks := Popped(story.stacks, t)), s.(currentPatterns := Popped(s.currentPatterns, t)))
  {
    NameFrameCloses(story.stacks, s.activePassIds, s.pipelineParents, s.activePasses, t);
    PatternCloses(story.stacks, s.currentPatterns, s.currentActions, t);
    PoppedNoneEmpty(s.currentPatterns, t);
    Reframed(story, s, Popped(story.stacks, t), s.activePassIds, s.pipelineParents,
             Popped(s.currentPatterns, t), s.currentActions, s.activePasses);
  }

  lemma ActionEndStep(story: Story, s: State, t: Thread)
    requires Refines(story, s) && Fits(story, EndAction(t))
    ensures Refines(story.(stacks := Popped(story.stacks, t)), s.(currentActions := Popped(s.currentActions, t)))
  {
    NameFrameCloses(story.stacks, s.activePassIds, s.pipelineParents, s.activePasses, t);
    ActionCloses(story.stacks, s.currentPatterns, s.currentActions, t);
    PoppedNoneEmpty(s.currentActions, t);
    Reframed(story, s, Popped(story.stacks, t), s.activePassIds, s.pipelineParents,
             s.currentPatterns, Popped(s.currentActions, t), s.activePasses);
  }

  lemma StampRefines(story: Story, s: State, row: EventRow, counters: map<int, int>)
    requires Refines(story, s)
    ensures Refines(story.(stamps := story.stamps + [StampIn(row)]),
                    s.(nextIdentitySequence := counters, tables := s.tables.(events := s.tables.events + [row])))
  {
  }

  /** The event row a thread's innermost pass gets. */
  lemma IdentityStamps(s: State, t: Thread, kind: EventKind, token: int, newToken: Option<int>, reply: StorageReply)
    returns (row: EventRow, counters: map<int, int>)
    requires !Gated(s) && reply.passStored && s.fidelity == Full && Top(s.activePassIds, t).Some?
    ensures StampIn(row) == Stamp(Top(s.activePassIds, t).value, kind, token, newToken, PatternFor(s, t),
      SourceFor(s, t))
    ensures AfterIdentity(s, t, kind, token, newToken, reply)
      == s.(nextIdentitySequence := counters, tables := s.tables.(events := s.tables.events + [row]))
  {
    var pass := Top(s.activePassIds, t).value;
    var order := Counter(s.nextIdentitySequence, pass);
    row := EventRow(pass, kind, token, newToken, PatternFor(s, t), SourceFor(s, t), order);
    counters := s.nextIdentitySequence[pass := order + 1];
  }

  lemma IdentityStep(story: Story, s: State, t: Thread, kind: EventKind, token: int, newToken: Option<int>,
      reply: StorageReply)
    requires Refines(story, s) && !story.finished && reply.passStored
    ensures Refines(Tell(s.fidelity, story, Identity(t, kind, token, newToken, reply)),
      AfterIdentity(s, t, kind, token, newToken, reply))
  {
    InnermostIsTop(story, s, t);
    if s.fidelity == Full && Top(s.activePassIds, t).Some? {
      var row, counters := IdentityStamps(s, t, kind, token, newToken, reply);
      StampRefines(story, s, row, counters);
    }
  }

  lemma InnermostIsTop(story: Story, s: State, t: Thread)
    requires Refines(story, s)
    ensures InnermostPass(Frames(story, t)) == Top(s.activePassIds, t)
    ensures Credit(Frames(story, t)) == PatternFor(s, t)
    ensures InnermostAction(Frames(story, t)).Some? <==> SourceFor(s, t) == FromAction
  {
    TopsAgree(Frames(story, t));
    assert Projects(StackOf(story.stacks, t), StackOf(s.activePassIds, t), StackOf(s.pipelineParents, t));
    assert Names(StackOf(story.stacks, t), StackOf(s.currentPatterns, t), StackOf(s.currentActions, t));
  }

  /** An index that is stored in full changes nothing but the index table. */
  lemma IndexRefines(story: Story, s: State, pass: int, side: SnapshotSide, walk: seq<WalkedOp>, stored: nat)
    requires Refines(story, s) && |walk| <= stored
    ensures Refines(story, IndexWritten(s, pass, side, walk, stored))
    ensures IndexWritten(s, pass, side, walk, stored).fidelity == s.fidelity
  {
    if s.fidelity == Full {
    }
  }

  lemma RootRefines(story: Story, s: State, before: Option<int>, now: int)
    requires Refines(story, s)
    ensures Refines(story.(parents := Opened(story)), WithRoot(s, before, now))
  {
    if s.rootPass.None? {
    }
  }

  lemma RowRefines(story: Story, s: State, parent: int, name: string, before: Option<int>, now: int)
    requires Refines(story, s) && story.parents != []
    ensures Refines(story.(parents := story.parents + [Some(parent)]), WithRow(s, parent, name, before, now))
  {
  }

  lemma RegisterRefines(story: Story, s: State, t: Thread, pass: PassPtr, active: ActivePass, walk: seq<WalkedOp>,
      reply: StorageReply)
    requires Refines(story, s) && OpenId(Frames(story, t), pass).None? && StorageServes(reply, walk)
    ensures Refines(story.(stacks := Pushed(story.stacks, t, PassFrame(pass, active.id))),
      Registered(s, t, pass, active, walk, reply))
  {
    assert ActiveId(s.activePasses, t, pass).None?;
    PassOpens(story.stacks, s.activePassIds, s.pipelineParents, s.activePasses, t, pass, active);
    NamelessOpens(story.stacks, s.currentPatterns, s.currentActions, t, PassFrame(pass, active.id));
    PushedNoneEmpty(s.activePassIds, t, active.id);
    Reframed(story, s, Pushed(story.stacks, t, PassFrame(pass, active.id)), Pushed(s.activePassIds, t, active.id),
      s.pipelineParents,
             s.currentPatterns, s.currentActions, s.activePasses[(t, pass) := active]);
    var mid := s.(activePasses := s.activePasses[(t, pass) := active], activePassIds := Pushed(s.activePassIds, t,
      active.id));
    IndexRefines(story.(stacks := Pushed(story.stacks, t, PassFrame(pass, active.id))), mid, active.id, Before, walk,
      reply.indexStored);
  }

  lemma ParentIsInnermostOwner(story: Story, s: State, t: Thread)
    requires Refines(story, s) && s.rootPass.Some?
    ensures ParentFor(s, t) == InnermostOwner(Frames(story, t))
  {
    TopsAgree(Frames(story, t));
    assert Projects(StackOf(story.stacks, t), StackOf(s.activePassIds, t), StackOf(s.pipelineParents, t));
  }

  lemma StoredPassIs(s: State, t: Thread, pass: PassPtr, name: string, now: int, walk: seq<WalkedOp>,
      reply: StorageReply)
    requires !Gated(s) && StorageServes(reply, walk)
    ensures var before := Snapshot(s, reply);
      var r := WithRoot(s, before, now);
      AfterBeforePass(s, t, pass, name, now, walk, reply)
        == Registered(WithRow(r, ParentFor(r, t), name, Snapshot(r, reply), now), t, pass,
                      ActivePass(|r.tables.passes| + 1, ParentFor(r, t), Snapshot(r, reply)), walk, reply)
  {
  }

  lemma PassStep(story: Story, s: State, t: Thread, pass: PassPtr, name: string, now: int, walk: seq<WalkedOp>,
      reply: StorageReply)
    requires Refines(story, s) && Fits(story, BeforePass(t, pass, name, now, walk, reply))
    ensures Refines(Tell(s.fidelity, story, BeforePass(t, pass, name, now, walk, reply)),
      AfterBeforePass(s, t, pass, name, now, walk, reply))
  {
    var r := WithRoot(s, Snapshot(s, reply), now);
    var begun := story.(parents := Opened(story));
    RootRefines(story, s, Snapshot(s, reply), now);
    ParentIsInnermostOwner(begun, r, t);
    StoredPassIs(s, t, pass, name, now, walk, reply);
    PassStepFrom(begun, r, t, pass, name, now, walk, reply);
  }

  lemma PassStepFrom(begun: Story, r: State, t: Thread, pass: PassPtr, name: string, now: int, walk: seq<WalkedOp>,
      reply: StorageReply)
    requires Refines(begun, r) && begun.parents != [] && OpenId(Frames(begun, t), pass).None?
      && StorageServes(reply, walk)
    requires r.rootPass.Some?
    ensures var parent := ParentFor(r, t);
      Refines(begun.(stacks := Pushed(begun.stacks, t, PassFrame(pass, |begun.parents| + 1)),
                     parents := begun.parents + [Some(parent)]),
              Registered(WithRow(r, parent, name, Snapshot(r, reply), now), t, pass,
                         ActivePass(|r.tables.passes| + 1, parent, Snapshot(r, reply)), walk, reply))
  {
    var parent := ParentFor(r, t);
    var told := begun.(parents := begun.parents + [Some(parent)]);
    RowRefines(begun, r, parent, name, Snapshot(r, reply), now);
    RegisterRefines(told, WithRow(r, parent, name, Snapshot(r, reply), now), t, pass,
                    ActivePass(|r.tables.passes| + 1, parent, Snapshot(r, reply)), walk, reply);
  }

  lemma RowEndRefines(story: Story, s: State, id: int, after: Option<int>, now: int, changed: bool)
    requires Refines(story, s)
    ensures Refines(story, RowEnded(s, id, after, now, changed, true))
  {
  }

  lemma EndRefines(story: Story, s: State, active: ActivePass, failed: bool, after: Option<int>, now: int,
      reply: StorageReply)
    requires Refines(story, s) && reply.passStored && reply.rootEnded && reply.metaStored
    ensures Refines(story, WithEnd(s, active, failed, after, now, reply))
  {
    var changed := failed || Differ(active.before, after);
    var ended := RowEnded(s, active.id, after, now, changed, true);
    RowEndRefines(story, s, active.id, after, now, changed);
    RowEndRefines(story, ended, active.parent, after, now, failed || Differ(ended.rootBefore, after));
    NoteRefines(story, RootEnded(ended, active, failed, after, now, reply), failed, reply);
  }

  lemma NoteRefines(story: Story, s: State, failed: bool, reply: StorageReply)
    requires Refines(story, s) && reply.metaStored
    ensures Refines(story, FailureNoted(s, failed, reply))
  {
    if failed {
    }
  }

  lemma CloseRefines(story: Story, s: State, t: Thread, pass: PassPtr)
    requires Refines(story, s) && OnTop(Frames(story, t), pass)
    ensures Refines(story.(stacks := Popped(story.stacks, t)), Closed(s, t, pass))
  {
    PassLeavesStack(story.stacks, s.activePassIds, s.pipelineParents, t, pass);
    assert Projects(StackOf(story.stacks, t), StackOf(s.activePassIds, t), StackOf(s.pipelineParents, t));
    PassLeavesActive(story.stacks, s.activePasses, t, pass);
    NamelessCloses(story.stacks, s.currentPatterns, s.currentActions, t);
    PoppedNoneEmpty(s.activePassIds, t);
    Reframed(story, s, Popped(story.stacks, t), Popped(s.activePassIds, t), s.pipelineParents,
             s.currentPatterns, s.currentActions, s.activePasses - {(t, pass)});
  }

  lemma PassEndStep(story: Story, s: State, t: Thread, pass: PassPtr, failed: bool, now: int, walk: seq<WalkedOp>,
      reply: StorageReply)
    requires Refines(story, s) && Fits(story, AfterPass(t, pass, failed, now, walk, reply))
    ensures Refines(Tell(s.fidelity, story, AfterPass(t, pass, failed, now, walk, reply)),
      AfterAfterPass(s, t, pass, failed, now, walk, reply))
  {
    assert ActiveId(s.activePasses, t, pass) == OpenId(Frames(story, t), pass);
    var active := s.activePasses[(t, pass)];
    if failed {
      EndRefines(story, s, active, failed, None, now, reply);
      CloseRefines(story, WithEnd(s, active, failed, None, now, reply), t, pass);
    } else {
      var indexed := IndexWritten(s, active.id, After, walk, reply.indexStored);
      IndexRefines(story, s, active.id, After, walk, reply.indexStored);
      EndRefines(story, indexed, active, failed, Snapshot(s, reply), now, reply);
      CloseRefines(story, WithEnd(indexed, active, failed, Snapshot(s, reply), now, reply), t, pass);
    }
  }

  lemma StepRefines(story: Story, s: State, c: Callback)
    requires Refines(story, s) && Fits(story, c)
    ensures Refines(Tell(s.fidelity, story, c), Step(s, c))
  {
    match c
    case BeforePipeline(t, pt, pp) => PipelineStep(story, s, t, pt, pp);
    case AfterPipeline(t) => PipelineEndStep(story, s, t);
    case BeforePass(t, p, name, now, walk, reply) => PassStep(story, s, t, p, name, now, walk, reply);
    case AfterPass(t, p, failed, now, walk, reply) => PassEndStep(story, s, t, p, failed, now, walk, reply);
    case Identity(t, kind, token, newToken, reply) => IdentityStep(story, s, t, kind, token, newToken, reply);
    case BeginPattern(t, pattern) => PatternStep(story, s, t, pattern);
    case EndPattern(t) => PatternEndStep(story, s, t);
    case BeginAction(t, action) => ActionStep(story, s, t, action);
    case EndAction(t) => ActionEndStep(story, s, t);
    case Finish(reply) =>
  }

  // ----------------------------------------------------------- whole runs

  lemma {:induction false} RunKeepsFidelity(fidelity: Fidelity, callbacks: seq<Callback>)
    ensures Run(fidelity, callbacks).fidelity == fidelity
  {
    if callbacks != [] {
      RunKeepsFidelity(fidelity, callbacks[..|callbacks| - 1]);
      StepKeepsFidelity(Run(fidelity, callbacks[..|callbacks| - 1]), callbacks[|callbacks| - 1]);
    }
  }

  lemma StepKeepsFidelity(s: State, c: Callback)
    ensures Step(s, c).fidelity == s.fidelity
  {
    match c
    case BeforePass(t, p, name, now, walk, reply) => OpeningKeepsFidelity(s, t, p, name, now, walk, reply);
    case AfterPass(t, p, failed, now, walk, reply) => EndingKeepsFidelity(s, t, p, failed, now, walk, reply);
    case Identity(t, kind, token, newToken, reply) => IdentityKeepsFidelity(s, t, kind, token, newToken, reply);
    case _ =>
  }

  lemma IdentityKeepsFidelity(s: State, t: Thread, kind: EventKind, token: int, newToken: Option<int>,
      reply: StorageReply)
    ensures AfterIdentity(s, t, kind, token, newToken, reply).fidelity == s.fidelity
  {
  }

  lemma RowsKeepFidelity(s: State, rows: seq<IndexRow>)
    ensures WithIndex(s, rows).fidelity == s.fidelity && StorageFailed(WithIndex(s, rows)).fidelity == s.fidelity
  {
  }

  lemma IndexKeepsFidelity(s: State, pass: int, side: SnapshotSide, walk: seq<WalkedOp>, stored: nat)
    ensures IndexWritten(s, pass, side, walk, stored).fidelity == s.fidelity
  {
    if s.fidelity != Full || s.firstError.Some? {
    } else {
      RowsKeepFidelity(s, Indexed(pass, side, walk, if stored < |walk| then stored else |walk|));
    }
  }

  lemma RegisterKeepsFidelity(s: State, t: Thread, pass: PassPtr, active: ActivePass, walk: seq<WalkedOp>,
      reply: StorageReply)
    ensures Registered(s, t, pass, active, walk, reply).fidelity == s.fidelity
  {
    if (t, pass) !in s.activePasses {
      IndexKeepsFidelity(s.(activePasses := s.activePasses[(t, pass) := active],
        activePassIds := Pushed(s.activePassIds, t, active.id)),
                         active.id, Before, walk, reply.indexStored);
    }
  }

  lemma OpeningKeepsFidelity(s: State, t: Thread, pass: PassPtr, name: string, now: int, walk: seq<WalkedOp>,
      reply: StorageReply)
    ensures AfterBeforePass(s, t, pass, name, now, walk, reply).fidelity == s.fidelity
  {
    if Gated(s) {
    } else if SnapshotFailed(s, reply) || (s.rootPass.None? && !reply.rootStored) {
    } else if s.rootPass.Some? {
      RowKeepsFidelity(s, t, pass, name, now, walk, reply);
    } else {
      RowKeepsFidelity(WithRoot(s, Snapshot(s, reply), now), t, pass, name, now, walk, reply);
    }
  }

  lemma RowKeepsFidelity(s: State, t: Thread, pass: PassPtr, name: string, now: int, walk: seq<WalkedOp>,
      reply: StorageReply)
    requires s.rootPass.Some?
    ensures WithPass(s, t, pass, name, now, walk, reply).fidelity == s.fidelity
  {
    if reply.passStored {
      var parent, before := ParentFor(s, t), Snapshot(s, reply);
      RegisterKeepsFidelity(WithRow(s, parent, name, before, now), t, pass, ActivePass(|s.tables.passes| + 1, parent,
        before), walk, reply);
    }
  }

  lemma EndKeepsFidelity(s: State, active: ActivePass, failed: bool, after: Option<int>, now: int, reply: StorageReply)
    ensures WithEnd(s, active, failed, after, now, reply).fidelity == s.fidelity
  {
    var ended := RowEnded(s, active.id, after, now, failed || Differ(active.before, after), reply.passStored);
    assert ended.fidelity == s.fidelity;
    assert RootEnded(ended, active, failed, after, now, reply).fidelity == s.fidelity;
  }

  lemma EndingKeepsFidelity(s: State, t: Thread, pass: PassPtr, failed: bool, now: int, walk: seq<WalkedOp>,
      reply: StorageReply)
    ensures AfterAfterPass(s, t, pass, failed, now, walk, reply).fidelity == s.fidelity
  {
    if !Gated(s) && (t, pass) in s.activePasses {
      var active := s.activePasses[(t, pass)];
      IndexKeepsFidelity(s, active.id, After, walk, reply.indexStored);
      var after := if failed then None else Snapshot(s, reply);
      EndKeepsFidelity(if failed then s else IndexWritten(s, active.id, After, walk, reply.indexStored), active,
        failed, after, now, reply);
    }
  }

  /**
   * On every well-nested run, however the threads interleave, the recorder latches no error, its
   * maps are projections of one stack per thread, every row hangs under the pass that owned its
   * thread's innermost pipeline, and every event carries its thread's innermost pass, its innermost
   * pattern (outside any pattern its innermost action), and whether an action was open.
   */
  lemma {:induction false} WellNestedRunsTellTheStory(fidelity: Fidelity, callbacks: seq<Callback>)
    requires WellNested(fidelity, callbacks)
    ensures Refines(Told(fidelity, callbacks), Run(fidelity, callbacks))
  {
    if callbacks == [] {
      assert StacksAgree(map[], map[], map[]);
    } else {
      var earlier, last := callbacks[..|callbacks| - 1], callbacks[|callbacks| - 1];
      WellNestedRunsTellTheStory(fidelity, earlier);
      RunKeepsFidelity(fidelity, earlier);
      StepRefines(Told(fidelity, earlier), Run(fidelity, earlier), last);
    }
  }

  /** A thread that left nothing open has no entry in any of the recorder's maps. */
  lemma ClosedRunsLeaveNothingOpen(fidelity: Fidelity, callbacks: seq<Callback>, t: Thread, p: PassPtr)
    requires WellNested(fidelity, callbacks) && Frames(Told(fidelity, callbacks), t) == []
    ensures var s := Run(fidelity, callbacks);
      && (t, p) !in s.activePasses && t !in s.activePassIds && t !in s.pipelineParents
      && t !in s.currentPatterns && t !in s.currentActions
  {
    var story, s := Told(fidelity, callbacks), Run(fidelity, callbacks);
    WellNestedRunsTellTheStory(fidelity, callbacks);
    assert Projects(StackOf(story.stacks, t), StackOf(s.activePassIds, t), StackOf(s.pipelineParents, t));
    assert Names(StackOf(story.stacks, t), StackOf(s.currentPatterns, t), StackOf(s.currentActions, t));
    assert ActiveId(s.activePasses, t, p) == OpenId(StackOf(story.stacks, t), p);
  }

  /** Once finished, no callback of any kind, nested or not, adds to the trace. */
  lemma {:induction false} FinishSeals(fidelity: Fidelity, callbacks: seq<Callback>, later: seq<Callback>)
    requires Run(fidelity, callbacks).finished
    ensures Run(fidelity, callbacks + later).finished && Run(fidelity, callbacks + later).tables
      == Run(fidelity, callbacks).tables
  {
    if later == [] {
      assert callbacks + later == callbacks;
    } else {
      var front, last := later[..|later| - 1], later[|later| - 1];
      FinishSeals(fidelity, callbacks, front);
      assert callbacks + later == (callbacks + front) + [last];
      RunGrows(fidelity, callbacks + front, last);
      FinishedIgnores(Run(fidelity, callbacks + front), last);
    }
  }

  lemma RunGrows(fidelity: Fidelity, callbacks: seq<Callback>, c: Callback)
    ensures Run(fidelity, callbacks + [c]) == Step(Run(fidelity, callbacks), c)
  {
    assert (callbacks + [c])[..|callbacks|] == callbacks;
  }

  lemma FinishedIgnores(s: State, c: Callback)
    requires s.finished
    ensures Step(s, c).finished && Step(s, c).tables == s.tables
  {
    match c
    case _ =>
  }
}
