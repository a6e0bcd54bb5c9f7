// The trace recorder: callbacks from many threads, serialised by one mutex,
// each a step on the recorder's maps and on the append-only trace tables.
module Recorder {
  import opened Model
  import opened Reader

  type Thread = int
  type PassPtr = int
  type Execution = (Thread, PassPtr)

  datatype Fidelity = Timeline | Text | Full

  datatype RecorderError = Storage | Reentered | NotStarted

  datatype ActivePass = ActivePass(id: int, parent: int, before: Option<int>)

  datatype EventKind = InsertedOp | ErasedOp | ReplacedOp | ModifiedOp

  datatype EventSource = FromListener | FromAction

  /** One row of `op_identity`. */
  datatype EventRow = EventRow(
    pass: int,
    kind: EventKind,
    token: int,
    newToken: Option<int>,
    pattern: Option<string>,
    source: EventSource,
    order: int)

  /** One row of `op_index`; the recorder always writes ordinals, with an end of -1. */
  datatype IndexRow = IndexRow(pass: int, side: SnapshotSide, token: int, ordinal: nat, opName: string)

  /** An operation met by the pre-order walk of a snapshot. */
  datatype WalkedOp = WalkedOp(token: int, name: string)

  /** What the storage answered to the writes one callback makes, in the order it makes them. */
  datatype StorageReply = StorageReply(
    blob: Option<int>,
    rootStored: bool,
    passStored: bool,
    indexStored: nat,
    rootEnded: bool,
    metaStored: bool)

  datatype Callback =
    | BeforePipeline(thread: Thread, parentThread: Thread, parentPass: PassPtr)
    | AfterPipeline(thread: Thread)
    | BeforePass(thread: Thread, pass: PassPtr, name: string, now: int, walk: seq<WalkedOp>, reply: StorageReply)
    | AfterPass(thread: Thread, pass: PassPtr, failed: bool, now: int, walk: seq<WalkedOp>, reply: StorageReply)
    | Identity(thread: Thread, kind: EventKind, token: int, newToken: Option<int>, reply: StorageReply)
    | BeginPattern(thread: Thread, pattern: string)
    | EndPattern(thread: Thread)
    | BeginAction(thread: Thread, action: string)
    | EndAction(thread: Thread)
    | Finish(reply: StorageReply)

  datatype Tables = Tables(
    passes: seq<Row>,
    events: seq<EventRow>,
    index: seq<IndexRow>,
    passFailed: bool)

  datatype State = State(
    fidelity: Fidelity,
    tables: Tables,
    finished: bool,
    firstError: Option<RecorderError>,
    rootPass: Option<int>,
    rootBefore: Option<int>,
    activePasses: map<Execution, ActivePass>,
    activePassIds: map<Thread, seq<int>>,
    pipelineParents: map<Thread, seq<Option<int>>>,
    nextSequence: map<int, int>,
    nextIdentitySequence: map<int, int>,
    currentPatterns: map<Thread, seq<string>>,
    currentActions: map<Thread, seq<string>>)

  function Attached(fidelity: Fidelity): State {
    State(fidelity, Tables([], [], [], false), false, None, None, None, map[], map[], map[], map[], map[], map[], map[])
  }

  // --------------------------------------------------------- small helpers

  function StackOf<T>(stacks: map<Thread, seq<T>>, t: Thread): seq<T> {
    if t in stacks then stacks[t] else []
  }

  function Pushed<T>(stacks: map<Thread, seq<T>>, t: Thread, x: T): map<Thread, seq<T>> {
    stacks[t := StackOf(stacks, t) + [x]]
  }

  /** Pops one entry; a stack that becomes empty is erased. */
  function Popped<T>(stacks: map<Thread, seq<T>>, t: Thread): map<Thread, seq<T>> {
    var s := StackOf(stacks, t);
    if s == [] then stacks
    else if |s| == 1 then stacks - {t}
    else stacks[t := s[..|s| - 1]]
  }

  function Top<T>(stacks: map<Thread, seq<T>>, t: Thread): Option<T> {
    var s := StackOf(stacks, t);
    if s == [] then None else Some(s[|s| - 1])
  }

  function Counter(counters: map<int, int>, key: int): int {
    if key in counters then counters[key] else 0
  }

  function Latched(error: Option<RecorderError>, next: RecorderError): Option<RecorderError> {
    if error.None? then Some(next) else error
  }

  // ----------------------------------------------------------- the storage

  /** `beginPass`: rows are never deleted, so the next key follows the last. */
  function Inserted(passes: seq<Row>, parent: Option<int>, order: int, name: string, before: Option<int>,
      now: int): seq<Row> {
    passes + [Row(|passes| + 1, parent, order, PassInfo(name, before, None, now, now, false))]
  }

  /** `endPass` on an existing row. */
  function Ended(passes: seq<Row>, id: int, after: Option<int>, now: int, changed: bool): seq<Row> {
    if 1 <= id <= |passes| then
      var row := passes[id - 1];
      passes[id - 1 := row.(info := row.info.(irAfter := after, endNs := now, irChanged := changed))]
    else passes
  }

  /** The first `n` operations of a walk, indexed by ordinal. */
  function Indexed(pass: int, side: SnapshotSide, walk: seq<WalkedOp>, n: nat): (r: seq<IndexRow>)
    requires n <= |walk|
  {
    seq(n, i requires 0 <= i < n => IndexRow(pass, side, walk[i].token, i, walk[i].name))
  }

  function WithIndex(s: State, rows: seq<IndexRow>): State {
    s.(tables := s.tables.(index := s.tables.index + rows))
  }

  function StorageFailed(s: State): State {
    s.(firstError := Some(Storage))
  }

  /** `writeOpIndex`: stops at the first row the storage refuses. */
  function IndexWritten(s: State, pass: int, side: SnapshotSide, walk: seq<WalkedOp>, stored: nat): State {
    if s.fidelity != Full || s.firstError.Some? then s
    else if stored < |walk| then StorageFailed(WithIndex(s, Indexed(pass, side, walk, stored)))
    else WithIndex(s, Indexed(pass, side, walk, |walk|))
  }

  // --------------------------------------------------------------- the steps

  function Gated(s: State): bool { s.finished || s.firstError.Some? }

  function AfterBeforePipeline(s: State, t: Thread, parentThread: Thread, parentPass: PassPtr): State {
    if Gated(s) then s
    else
      var key := (parentThread, parentPass);
      var parent := if key in s.activePasses then Some(s.activePasses[key].id) else None;
      s.(pipelineParents := Pushed(s.pipelineParents, t, parent))
  }

  function Snapshot(s: State, reply: StorageReply): Option<int> {
    if s.fidelity == Timeline then None else reply.blob
  }

  function SnapshotFailed(s: State, reply: StorageReply): bool {
    s.fidelity != Timeline && reply.blob.None?
  }

  /** The first pass of a trace opens the root row. */
  function WithRoot(s: State, before: Option<int>, now: int): State {
    if s.rootPass.Some? then s
    else
      s.(tables := s.tables.(passes := Inserted(s.tables.passes, None, 0, "Pipeline", before, now)),
         rootPass := Some(|s.tables.passes| + 1),
         rootBefore := before)
  }

  /** The pass owning the innermost pipeline of the thread, or the root. */
  function ParentFor(s: State, t: Thread): int
    requires s.rootPass.Some?
  {
    var owner := Top(s.pipelineParents, t);
    if owner.Some? && owner.value.Some? then owner.value.value else s.rootPass.value
  }

  /** Registers a stored pass as the innermost one of its thread. */
  function Registered(s: State, t: Thread, pass: PassPtr, active: ActivePass, walk: seq<WalkedOp>,
      reply: StorageReply): State {
    if (t, pass) in s.activePasses then s.(firstError := Latched(s.firstError, Reentered))
    else
      IndexWritten(s.(activePasses := s.activePasses[(t, pass) := active], activePassIds := Pushed(s.activePassIds,
        t, active.id)),
                   active.id, Before, walk, reply.indexStored)
  }

  /** The sibling number is taken before the row is written. */
  function Counted(s: State, parent: int): State {
    s.(nextSequence := s.nextSequence[parent := Counter(s.nextSequence, parent) + 1])
  }

  function WithRow(s: State, parent: int, name: string, before: Option<int>, now: int): State {
    Counted(s, parent).(tables := s.tables.(passes :=
      Inserted(s.tables.passes, Some(parent), Counter(s.nextSequence, parent), name, before, now)))
  }

  function WithPass(s: State, t: Thread, pass: PassPtr, name: string, now: int, walk: seq<WalkedOp>,
      reply: StorageReply): State
    requires s.rootPass.Some?
  {
    var parent, before := ParentFor(s, t), Snapshot(s, reply);
    if !reply.passStored then Counted(s, parent).(firstError := Some(Storage))
    else
      Registered(WithRow(s, parent, name, before, now), t, pass, ActivePass(|s.tables.passes| + 1, parent, before),
        walk, reply)
  }

  function AfterBeforePass(s: State, t: Thread, pass: PassPtr, name: string, now: int, walk: seq<WalkedOp>,
      reply: StorageReply): State {
    if Gated(s) then s
    else if SnapshotFailed(s, reply) || (s.rootPass.None? && !reply.rootStored) then s.(firstError := Some(Storage))
    else WithPass(WithRoot(s, Snapshot(s, reply), now), t, pass, name, now, walk, reply)
  }

  function Differ(before: Option<int>, after: Option<int>): bool {
    before.Some? && after.Some? && before != after
  }

  function Closed(s: State, t: Thread, pass: PassPtr): State
  {
    s.(activePasses := s.activePasses - {(t, pass)}, activePassIds := Popped(s.activePassIds, t))
  }

  function RowEnded(s: State, id: int, after: Option<int>, now: int, changed: bool, stored: bool): State {
    if stored then s.(tables := s.tables.(passes := Ended(s.tables.passes, id, after, now, changed)))
    else s.(firstError := Latched(s.firstError, Storage))
  }

  /** A direct child of the root also moves the root's end. */
  function RootEnded(s: State, active: ActivePass, failed: bool, after: Option<int>, now: int,
      reply: StorageReply): State {
    if s.firstError.None? && s.rootPass == Some(active.parent)
    then RowEnded(s, active.parent, after, now, failed || Differ(s.rootBefore, after), reply.rootEnded)
    else s
  }

  function FailureNoted(s: State, failed: bool, reply: StorageReply): State {
    if failed && s.firstError.None? then
      if reply.metaStored then s.(tables := s.tables.(passFailed := true)) else s.(firstError := Some(Storage))
    else s
  }

  function WithEnd(s: State, active: ActivePass, failed: bool, after: Option<int>, now: int,
      reply: StorageReply): State {
    var ended := RowEnded(s, active.id, after, now, failed || Differ(active.before, after), reply.passStored);
    FailureNoted(RootEnded(ended, active, failed, after, now, reply), failed, reply)
  }

  function AfterAfterPass(s: State, t: Thread, pass: PassPtr, failed: bool, now: int, walk: seq<WalkedOp>,
      reply: StorageReply): State {
    if Gated(s) then s
    else if (t, pass) !in s.activePasses then s.(firstError := Some(NotStarted))
    else if !failed && SnapshotFailed(s, reply) then s.(firstError := Some(Storage))
    else
      var active := s.activePasses[(t, pass)];
      var after := if failed then None else Snapshot(s, reply);
      var indexed := if failed then s else IndexWritten(s, active.id, After, walk, reply.indexStored);
      Closed(WithEnd(indexed, active, failed, after, now, reply), t, pass)
  }

  function SourceFor(s: State, t: Thread): EventSource {
    if Top(s.currentActions, t).Some? then FromAction else FromListener
  }

  function PatternFor(s: State, t: Thread): Option<string> {
    if Top(s.currentPatterns, t).Some? then Top(s.currentPatterns, t) else Top(s.currentActions, t)
  }

  /** The event number is taken before the row is written. */
  function WithEvent(s: State, row: EventRow, stored: bool): State {
    var counted := s.(nextIdentitySequence := s.nextIdentitySequence[row.pass := row.order + 1]);
    if stored then counted.(tables := s.tables.(events := s.tables.events + [row]))
      else counted.(firstError := Some(Storage))
  }

  function AfterIdentity(s: State, t: Thread, kind: EventKind, token: int, newToken: Option<int>,
      reply: StorageReply): State {
    if s.fidelity != Full || Gated(s) then s
    else
      match Top(s.activePassIds, t)
      case None => s
      case Some(pass) =>
        var order := Counter(s.nextIdentitySequence, pass);
        WithEvent(s, EventRow(pass, kind, token, newToken, PatternFor(s, t), SourceFor(s, t), order), reply.passStored)
  }

  function AfterFinish(s: State, reply: StorageReply): State {
    if s.finished then s else s.(finished := true, firstError := None)
  }

  /** One callback, with the mutex held throughout. */
  function Step(s: State, c: Callback): State {
    match c
    case BeforePipeline(t, pt, pp) => AfterBeforePipeline(s, t, pt, pp)
    case AfterPipeline(t) => s.(pipelineParents := Popped(s.pipelineParents, t))
    case BeforePass(t, p, name, now, walk, reply) => AfterBeforePass(s, t, p, name, now, walk, reply)
    case AfterPass(t, p, failed, now, walk, reply) => AfterAfterPass(s, t, p, failed, now, walk, reply)
    case Identity(t, kind, token, newToken, reply) => AfterIdentity(s, t, kind, token, newToken, reply)
    case BeginPattern(t, pattern) => s.(currentPatterns := Pushed(s.currentPatterns, t, pattern))
    case EndPattern(t) => s.(currentPatterns := Popped(s.currentPatterns, t))
    case BeginAction(t, action) => s.(currentActions := Pushed(s.currentActions, t, action))
    case EndAction(t) => s.(currentActions := Popped(s.currentActions, t))
    case Finish(reply) => AfterFinish(s, reply)
  }

  /** Any interleaving of the threads' callbacks, in the order they took the mutex. */
  function Run(fidelity: Fidelity, callbacks: seq<Callback>): State {
    if callbacks == [] then Attached(fidelity)
    else Step(Run(fidelity, callbacks[..|callbacks| - 1]), callbacks[|callbacks| - 1])
  }

  // ------------------------------------------------------------ the recorder

  /** The recorder as the callbacks see it: fields updated in place. */
  class TraceRecorder {
    const fidelity: Fidelity
    var tables: Tables
    var finished: bool
    var firstError: Option<RecorderError>
    var rootPass: Option<int>
    var rootBefore: Option<int>
    var activePasses: map<Execution, ActivePass>
    var activePassIds: map<Thread, seq<int>>
    var pipelineParents: map<Thread, seq<Option<int>>>
    var nextSequence: map<int, int>
    var nextIdentitySequence: map<int, int>
    var currentPatterns: map<Thread, seq<string>>
    var currentActions: map<Thread, seq<string>>

    function View(): State
      reads this
    {
      State(fidelity, tables, finished, firstError, rootPass, rootBefore, activePasses, activePassIds,
            pipelineParents, nextSequence, nextIdentitySequence, currentPatterns, currentActions)
    }

    constructor (fidelity: Fidelity)
      ensures View() == Attached(fidelity)
    {
      this.fidelity := fidelity;
      tables := Tables([], [], [], false);
      finished, firstError, rootPass, rootBefore := false, None, None, None;
      activePasses, activePassIds, pipelineParents := map[], map[], map[];
      nextSequence, nextIdentitySequence := map[], map[];
      currentPatterns, currentActions := map[], map[];
    }

    method RememberError(error: RecorderError)
      modifies this`firstError
      ensures firstError == Latched(old(firstError), error)
    {
      if firstError.None? {
        firstError := Some(error);
      }
    }

    method BeforePipeline(t: Thread, parentThread: Thread, parentPass: PassPtr)
      modifies this
      ensures View() == Step(old(View()), Callback.BeforePipeline(t, parentThread, parentPass))
    {
      if finished || firstError.Some? {
        return;
      }
      var parent: Option<int> := None;
      if (parentThread, parentPass) in activePasses {
        parent := Some(activePasses[(parentThread, parentPass)].id);
      }
      pipelineParents := pipelineParents[t := StackOf(pipelineParents, t) + [parent]];
    }

    method AfterPipeline(t: Thread)
      modifies this
      ensures View() == Step(old(View()), Callback.AfterPipeline(t))
    {
      if t !in pipelineParents || pipelineParents[t] == [] {
        return;
      }
      var parents := pipelineParents[t];
      parents := parents[..|parents| - 1];
      if parents == [] {
        pipelineParents := pipelineParents - {t};
      } else {
        pipelineParents := pipelineParents[t := parents];
      }
    }

    method WriteOpIndex(pass: int, side: SnapshotSide, walk: seq<WalkedOp>, stored: nat)
      modifies this`tables, this`firstError
      ensures View() == IndexWritten(old(View()), pass, side, walk, stored)
    {
      if fidelity != Full || firstError.Some? {
        return;
      }
      var ordinal := 0;
      while ordinal < |walk| && firstError.None?
        invariant 0 <= ordinal <= |walk|
        invariant ordinal <= stored && (firstError.Some? ==> firstError == Some(Storage) && ordinal == stored < |walk|)
        invariant tables == old(tables).(index := old(tables).index + Indexed(pass, side, walk, ordinal))
        decreases |walk| - ordinal, if firstError.None? then 1 else 0
      {
        if ordinal < stored {
          var row := IndexRow(pass, side, walk[ordinal].token, ordinal, walk[ordinal].name);
          assert Indexed(pass, side, walk, ordinal + 1) == Indexed(pass, side, walk, ordinal) + [row];
          tables := tables.(index := tables.index + [row]);
          ordinal := ordinal + 1;
        } else {
          RememberError(Storage);
        }
      }
    }

    method BeforePass(t: Thread, pass: PassPtr, name: string, now: int, walk: seq<WalkedOp>, reply: StorageReply)
      modifies this
      ensures View() == Step(old(View()), Callback.BeforePass(t, pass, name, now, walk, reply))
    {
      if finished || firstError.Some? {
        return;
      }
      var before: Option<int> := None;
      if fidelity != Timeline {
        if reply.blob.None? {
          RememberError(Storage);
          return;
        }
        before := reply.blob;
      }
      if rootPass.None? {
        if !reply.rootStored {
          RememberError(Storage);
          return;
        }
        OpenRoot(before, now);
      }
      OpenPass(t, pass, name, now, walk, reply, before);
    }

    method OpenRoot(before: Option<int>, now: int)
      requires rootPass.None?
      modifies this`tables, this`rootPass, this`rootBefore
      ensures View() == WithRoot(old(View()), before, now)
    {
      rootPass := Some(|tables.passes| + 1);
      tables := tables.(passes := Inserted(tables.passes, None, 0, "Pipeline", before, now));
      rootBefore := before;
    }

    method InnermostParent(t: Thread) returns (parent: int)
      requires rootPass.Some?
      ensures parent == ParentFor(View(), t)
    {
      parent := rootPass.value;
      if t in pipelineParents && pipelineParents[t] != [] && pipelineParents[t][|pipelineParents[t]| - 1].Some? {
        parent := pipelineParents[t][|pipelineParents[t]| - 1].value;
      }
    }

    method OpenPass(t: Thread, pass: PassPtr, name: string, now: int, walk: seq<WalkedOp>, reply: StorageReply,
        before: Option<int>)
      requires rootPass.Some? && firstError.None? && before == Snapshot(View(), reply)
      modifies this
      ensures View() == WithPass(old(View()), t, pass, name, now, walk, reply)
    {
      var parent := InnermostParent(t);
      var sequence := Counter(nextSequence, parent);
      nextSequence := nextSequence[parent := sequence + 1];
      if !reply.passStored {
        RememberError(Storage);
        return;
      }
      var id := |tables.passes| + 1;
      tables := tables.(passes := Inserted(tables.passes, Some(parent), sequence, name, before, now));
      Register(t, pass, ActivePass(id, parent, before), walk, reply);
    }

    method Register(t: Thread, pass: PassPtr, active: ActivePass, walk: seq<WalkedOp>, reply: StorageReply)
      requires firstError.None?
      modifies this
      ensures View() == Registered(old(View()), t, pass, active, walk, reply)
    {
      if (t, pass) in activePasses {
        RememberError(Reentered);
      } else {
        activePasses := activePasses[(t, pass) := active];
      }
      if firstError.None? {
        activePassIds := Pushed(activePassIds, t, active.id);
        WriteOpIndex(active.id, Before, walk, reply.indexStored);
      }
    }

    method AfterPass(t: Thread, pass: PassPtr, failed: bool, now: int, walk: seq<WalkedOp>, reply: StorageReply)
      modifies this
      ensures View() == Step(old(View()), Callback.AfterPass(t, pass, failed, now, walk, reply))
    {
      if finished || firstError.Some? {
        return;
      }
      if (t, pass) !in activePasses {
        RememberError(NotStarted);
        return;
      }
      var active := activePasses[(t, pass)];
      var after: Option<int> := None;
      if !failed {
        if fidelity != Timeline {
          if reply.blob.None? {
            RememberError(Storage);
            return;
          }
          after := reply.blob;
        }
        WriteOpIndex(active.id, After, walk, reply.indexStored);
      }
      EndPass(active, failed, after, now, reply);
      Close(t, pass);
    }

    method Close(t: Thread, pass: PassPtr)
      modifies this`activePasses, this`activePassIds
      ensures View() == Closed(old(View()), t, pass)
    {
      activePasses := activePasses - {(t, pass)};
      if t in activePassIds && activePassIds[t] != [] {
        var ids := activePassIds[t][..|activePassIds[t]| - 1];
        if ids == [] {
          activePassIds := activePassIds - {t};
        } else {
          activePassIds := activePassIds[t := ids];
        }
      }
    }

    method EndPass(active: ActivePass, failed: bool, after: Option<int>, now: int, reply: StorageReply)
      modifies this`tables, this`firstError
      ensures View() == WithEnd(old(View()), active, failed, after, now, reply)
    {
      var changed := failed || (active.before.Some? && after.Some? && active.before != after);
      if reply.passStored {
        tables := tables.(passes := Ended(tables.passes, active.id, after, now, changed));
      } else {
        RememberError(Storage);
      }
      if firstError.None? && rootPass == Some(active.parent) {
        var rootChanged := failed || (rootBefore.Some? && after.Some? && rootBefore != after);
        if reply.rootEnded {
          tables := tables.(passes := Ended(tables.passes, rootPass.value, after, now, rootChanged));
        } else {
          RememberError(Storage);
        }
      }
      if failed && firstError.None? {
        if reply.metaStored {
          tables := tables.(passFailed := true);
        } else {
          RememberError(Storage);
        }
      }
    }

    /** The innermost pattern, or outside any the innermost action, and who reports. */
    method Credited(t: Thread) returns (pattern: Option<string>, source: EventSource)
      ensures pattern == PatternFor(View(), t) && source == SourceFor(View(), t)
    {
      pattern := Top(currentPatterns, t);
      if pattern.None? {
        pattern := Top(currentActions, t);
      }
      source := if Top(currentActions, t).Some? then FromAction else FromListener;
    }

    method RecordIdentity(t: Thread, kind: EventKind, token: int, newToken: Option<int>, reply: StorageReply)
      modifies this
      ensures View() == Step(old(View()), Callback.Identity(t, kind, token, newToken, reply))
    {
      if fidelity != Full || finished || firstError.Some? {
        return;
      }
      if t !in activePassIds || activePassIds[t] == [] {
        return;
      }
      var pass := activePassIds[t][|activePassIds[t]| - 1];
      var pattern, source := Credited(t);
      WriteEvent(EventRow(pass, kind, token, newToken, pattern, source, Counter(nextIdentitySequence, pass)),
        reply.passStored);
    }

    method WriteEvent(row: EventRow, stored: bool)
      requires firstError.None?
      modifies this`tables, this`firstError, this`nextIdentitySequence
      ensures View() == WithEvent(old(View()), row, stored)
    {
      nextIdentitySequence := nextIdentitySequence[row.pass := row.order + 1];
      if stored {
        tables := tables.(events := tables.events + [row]);
      } else {
        RememberError(Storage);
      }
    }

    method PushPattern(t: Thread, pattern: string)
      modifies this`currentPatterns
      ensures View() == Step(old(View()), BeginPattern(t, pattern))
    {
      currentPatterns := Pushed(currentPatterns, t, pattern);
    }

    method PopPattern(t: Thread)
      modifies this`currentPatterns
      ensures View() == Step(old(View()), EndPattern(t))
    {
      currentPatterns := Popped(currentPatterns, t);
    }

    method PushAction(t: Thread, action: string)
      modifies this`currentActions
      ensures View() == Step(old(View()), BeginAction(t, action))
    {
      currentActions := Pushed(currentActions, t, action);
    }

    method PopAction(t: Thread)
      modifies this`currentActions
      ensures View() == Step(old(View()), EndAction(t))
    {
      currentActions := Popped(currentActions, t);
    }

    /** Reports the first callback error, if any, and closes the recorder for good. */
    method FinishTrace(reply: StorageReply) returns (error: Option<RecorderError>)
      modifies this
      ensures View() == Step(old(View()), Finish(reply))
      ensures error == if old(finished) then None
        else if old(firstError).Some? then old(firstError) else if reply.passStored then None else Some(Storage)
    {
      if finished {
        return None;
      }
      if !reply.passStored {
        RememberError(Storage);
      }
      finished := true;
      error := firstError;
      firstError := None;
    }
  }
}
