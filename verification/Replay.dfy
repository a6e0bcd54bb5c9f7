// From callbacks back to a forest: what every run of the recorder keeps, and
// the theorem that reading the recorded table rebuilds the pass tree.
module Replay {
  import opened Model
  import opened Reader
  import opened Recorder

  // -------------------------------------------------------------- the table

  /** How many of the first `n` rows have the given parent. */
  function Siblings(passes: seq<Row>, n: nat, parent: Option<int>): nat
    requires n <= |passes|
  {
    if n == 0 then 0 else Siblings(passes, n - 1, parent) + if passes[n - 1].parent == parent then 1 else 0
  }

  /**
   * A recorded table: keys count up from one, only the first row is a root, parents come before
   * their children, and siblings are numbered from zero in begin order.
   */
  ghost predicate TableOk(passes: seq<Row>) {
    forall k :: 0 <= k < |passes| ==> RowOk(passes, k)
  }

  predicate RowOk(passes: seq<Row>, k: nat)
    requires k < |passes|
  {
    && passes[k].id == k + 1
    && (passes[k].parent.None? <==> k == 0)
    && (k > 0 ==> 1 <= passes[k].parent.value <= k)
    && passes[k].order == Siblings(passes, k, passes[k].parent)
  }

  lemma {:induction false} SiblingsOfPrefix(passes: seq<Row>, more: seq<Row>, n: nat, parent: Option<int>)
    requires n <= |passes| <= |more|
    requires forall k :: 0 <= k < n ==> passes[k].parent == more[k].parent
    ensures Siblings(passes, n, parent) == Siblings(more, n, parent)
  {
    if n > 0 {
      SiblingsOfPrefix(passes, more, n - 1, parent);
    }
  }

  lemma InsertKeepsTable(passes: seq<Row>, parent: Option<int>, order: int, name: string, before: Option<int>, now: int)
    requires TableOk(passes) && order == Siblings(passes, |passes|, parent)
    requires if passes == [] then parent.None? else parent.Some? && 1 <= parent.value <= |passes|
    ensures TableOk(Inserted(passes, parent, order, name, before, now))
    ensures var more := Inserted(passes, parent, order, name, before, now);
      forall p :: Siblings(more, |passes| + 1, p) == Siblings(passes, |passes|, p) + if p == parent then 1 else 0
  {
    var more := Inserted(passes, parent, order, name, before, now);
    forall k | 0 <= k < |more|
      ensures RowOk(more, k)
    {
      SiblingsOfPrefix(passes, more, k, more[k].parent);
      assert k < |passes| ==> RowOk(passes, k);
    }
    forall p
      ensures Siblings(more, |passes|, p) == Siblings(passes, |passes|, p)
    {
      SiblingsOfPrefix(passes, more, |passes|, p);
    }
  }

  lemma EndKeepsTable(passes: seq<Row>, id: int, after: Option<int>, now: int, changed: bool)
    requires TableOk(passes)
    ensures TableOk(Ended(passes, id, after, now, changed)) && |Ended(passes, id, after, now, changed)| == |passes|
    ensures forall p :: Siblings(Ended(passes, id, after, now, changed), |passes|, p) == Siblings(passes, |passes|, p)
  {
    var next := Ended(passes, id, after, now, changed);
    forall k | 0 <= k < |next|
      ensures RowOk(next, k)
    {
      SiblingsOfPrefix(passes, next, k, next[k].parent);
      assert RowOk(passes, k);
    }
    forall p
      ensures Siblings(next, |passes|, p) == Siblings(passes, |passes|, p)
    {
      SiblingsOfPrefix(passes, next, |passes|, p);
    }
  }

  // ------------------------------------------------------- the run invariant

  ghost predicate ActiveKnown(active: map<Execution, ActivePass>, n: nat) {
    forall e :: e in active ==> 1 <= active[e].id <= n
  }

  ghost predicate IdsKnown(ids: map<Thread, seq<int>>, n: nat) {
    forall t, i :: t in ids && 0 <= i < |ids[t]| ==> 1 <= ids[t][i] <= n
  }

  ghost predicate OwnersKnown(owners: map<Thread, seq<Option<int>>>, n: nat) {
    forall t, i :: t in owners && 0 <= i < |owners[t]| && owners[t][i].Some? ==> 1 <= owners[t][i].value <= n
  }

  /** Ids held in the recorder's maps name existing rows. */
  ghost predicate KnownIds(n: nat, rootPass: Option<int>, active: map<Execution, ActivePass>,
      ids: map<Thread, seq<int>>, owners: map<Thread, seq<Option<int>>>) {
    && rootPass == (if n == 0 then None else Some(1))
    && ActiveKnown(active, n) && IdsKnown(ids, n) && OwnersKnown(owners, n)
  }

  /** The next sibling number of every parent is the number of its rows. */
  ghost predicate CountersAgree(counters: map<int, int>, passes: seq<Row>) {
    forall p :: Counter(counters, p) == Siblings(passes, |passes|, Some(p))
  }

  /** How many of the first `n` events belong to the pass. */
  function EventsOf(events: seq<EventRow>, n: nat, pass: int): nat
    requires n <= |events|
  {
    if n == 0 then 0 else EventsOf(events, n - 1, pass) + if events[n - 1].pass == pass then 1 else 0
  }

  /** Each event names a recorded pass and is numbered in order within it. */
  ghost predicate EventsOk(events: seq<EventRow>, n: nat) {
    forall k :: 0 <= k < |events| ==> EventOk(events, k, n)
  }

  predicate EventOk(events: seq<EventRow>, k: nat, n: nat)
    requires k < |events|
  {
    1 <= events[k].pass <= n && events[k].order == EventsOf(events, k, events[k].pass)
  }

  ghost predicate EventCountersAgree(counters: map<int, int>, events: seq<EventRow>) {
    forall p :: Counter(counters, p) == EventsOf(events, |events|, p)
  }

  /** The counters matter only while rows can still be added. */
  ghost predicate Inv(s: State) {
    && TableOk(s.tables.passes)
    && KnownIds(|s.tables.passes|, s.rootPass, s.activePasses, s.activePassIds, s.pipelineParents)
    && (!Gated(s) ==> CountersAgree(s.nextSequence, s.tables.passes))
    && EventsOk(s.tables.events, |s.tables.passes|)
    && (!Gated(s) ==> EventCountersAgree(s.nextIdentitySequence, s.tables.events))
  }

  /** What the invariant speaks of, besides the counters. */
  datatype Core = Core(
    passes: seq<Row>,
    events: seq<EventRow>,
    rootPass: Option<int>,
    activePasses: map<Execution, ActivePass>,
    activePassIds: map<Thread, seq<int>>,
    pipelineParents: map<Thread, seq<Option<int>>>)

  function CoreOf(s: State): Core {
    Core(s.tables.passes, s.tables.events, s.rootPass, s.activePasses, s.activePassIds, s.pipelineParents)
  }

  datatype Counters = Counters(sequence: map<int, int>, identity: map<int, int>)

  function CountersOf(s: State): Counters {
    Counters(s.nextSequence, s.nextIdentitySequence)
  }

  /** Nothing the invariant speaks of changes, except that an error may close the table. */
  predicate SameCore(s: State, t: State) {
    && CoreOf(s) == CoreOf(t)
    && (Gated(t) || (!Gated(s) && CountersOf(s) == CountersOf(t)))
  }

  lemma CoreKeepsInv(s: State, t: State)
    requires Inv(s) && SameCore(s, t)
    ensures Inv(t)
  {
  }

  lemma RowsTouchNoCore(s: State, rows: seq<IndexRow>)
    ensures CoreOf(WithIndex(s, rows)) == CoreOf(s) && CountersOf(WithIndex(s, rows)) == CountersOf(s)
    ensures Gated(WithIndex(s, rows)) == Gated(s)
  {
    var t := WithIndex(s, rows);
    assert t.tables.passes == s.tables.passes && t.tables.events == s.tables.events;
  }

  lemma FailureTouchesNoCore(s: State)
    ensures CoreOf(StorageFailed(s)) == CoreOf(s) && CountersOf(StorageFailed(s)) == CountersOf(s)
    ensures Gated(StorageFailed(s))
  {
    assert StorageFailed(s).tables == s.tables;
  }

  lemma IndexCore(s: State, pass: int, side: SnapshotSide, walk: seq<WalkedOp>, stored: nat)
    ensures SameCore(s, IndexWritten(s, pass, side, walk, stored))
  {
    if s.fidelity != Full || s.firstError.Some? {
    } else if stored < |walk| {
      var rows := Indexed(pass, side, walk, stored);
      RowsTouchNoCore(s, rows);
      FailureTouchesNoCore(WithIndex(s, rows));
    } else {
      RowsTouchNoCore(s, Indexed(pass, side, walk, |walk|));
    }
  }

  lemma MoreRowsKeepKnown(n: nat, s: State)
    requires Inv(s) && |s.tables.passes| <= n
    ensures ActiveKnown(s.activePasses, n) && IdsKnown(s.activePassIds, n) && OwnersKnown(s.pipelineParents, n)
    ensures EventsOk(s.tables.events, n)
  {
    forall k | 0 <= k < |s.tables.events|
      ensures EventOk(s.tables.events, k, n)
    {
      assert EventOk(s.tables.events, k, |s.tables.passes|);
    }
  }

  lemma RootKeepsInv(s: State, before: Option<int>, now: int)
    requires Inv(s) && !Gated(s)
    ensures Inv(WithRoot(s, before, now)) && WithRoot(s, before, now).rootPass == Some(1)
  {
    if s.rootPass.None? {
      InsertKeepsTable(s.tables.passes, None, 0, "Pipeline", before, now);
      MoreRowsKeepKnown(1, s);
    }
  }

  lemma PassRowKeepsInv(s: State, parent: int, name: string, before: Option<int>, now: int)
    requires Inv(s) && !Gated(s) && 1 <= parent <= |s.tables.passes|
    ensures Inv(WithRow(s, parent, name, before, now))
  {
    var order := Counter(s.nextSequence, parent);
    assert order == Siblings(s.tables.passes, |s.tables.passes|, Some(parent));
    InsertKeepsTable(s.tables.passes, Some(parent), order, name, before, now);
    MoreRowsKeepKnown(|s.tables.passes| + 1, s);
    InsertCounts(s.nextSequence, s.tables.passes, parent, order, name, before, now);
  }

  lemma InsertCounts(counters: map<int, int>, passes: seq<Row>, parent: int, order: int, name: string,
      before: Option<int>, now: int)
    requires CountersAgree(counters, passes) && order == Counter(counters, parent)
    requires var more := Inserted(passes, Some(parent), order, name, before, now);
      forall p :: Siblings(more, |passes| + 1, p) == Siblings(passes, |passes|, p) + if p == Some(parent) then 1 else 0
    ensures CountersAgree(counters[parent := order + 1], Inserted(passes, Some(parent), order, name, before, now))
  {
  }

  lemma PushKeepsIds(ids: map<Thread, seq<int>>, n: nat, t: Thread, id: int)
    requires IdsKnown(ids, n) && 1 <= id <= n
    ensures IdsKnown(Pushed(ids, t, id), n)
  {
  }

  function Activated(s: State, t: Thread, pass: PassPtr, active: ActivePass): State {
    s.(activePasses := s.activePasses[(t, pass) := active], activePassIds := Pushed(s.activePassIds, t, active.id))
  }

  lemma RegisteredCore(s: State, t: Thread, pass: PassPtr, active: ActivePass, walk: seq<WalkedOp>, reply: StorageReply)
    ensures SameCore(if (t, pass) in s.activePasses then s else Activated(s, t, pass, active),
                     Registered(s, t, pass, active, walk, reply))
  {
    if (t, pass) !in s.activePasses {
      IndexCore(Activated(s, t, pass, active), active.id, Before, walk, reply.indexStored);
    }
  }

  lemma ActivatedKeepsInv(s: State, t: Thread, pass: PassPtr, active: ActivePass)
    requires Inv(s) && 1 <= active.id <= |s.tables.passes|
    ensures Inv(Activated(s, t, pass, active))
  {
    PushKeepsIds(s.activePassIds, |s.tables.passes|, t, active.id);
  }

  lemma RegisterKeepsInv(s: State, t: Thread, pass: PassPtr, active: ActivePass, walk: seq<WalkedOp>,
      reply: StorageReply)
    requires Inv(s) && 1 <= active.id <= |s.tables.passes|
    ensures Inv(Registered(s, t, pass, active, walk, reply))
  {
    RegisteredCore(s, t, pass, active, walk, reply);
    if (t, pass) in s.activePasses {
      CoreKeepsInv(s, Registered(s, t, pass, active, walk, reply));
    } else {
      ActivatedKeepsInv(s, t, pass, active);
      CoreKeepsInv(Activated(s, t, pass, active), Registered(s, t, pass, active, walk, reply));
    }
  }

  lemma ParentIsKnown(s: State, t: Thread)
    requires Inv(s) && s.rootPass == Some(1)
    ensures 1 <= ParentFor(s, t) <= |s.tables.passes|
  {
  }

  lemma WithPassIs(s: State, t: Thread, pass: PassPtr, name: string, now: int, walk: seq<WalkedOp>, reply: StorageReply)
    requires s.rootPass.Some?
    ensures var parent, before := ParentFor(s, t), Snapshot(s, reply);
      WithPass(s, t, pass, name, now, walk, reply)
        == if reply.passStored
           then Registered(WithRow(s, parent, name, before, now), t, pass, ActivePass(|s.tables.passes| + 1, parent,
             before), walk, reply)
           else Counted(s, parent).(firstError := Some(Storage))
  {
  }

  lemma WithPassKeepsInv(s: State, t: Thread, pass: PassPtr, name: string, now: int, walk: seq<WalkedOp>,
      reply: StorageReply)
    requires Inv(s) && !Gated(s) && s.rootPass == Some(1)
    ensures Inv(WithPass(s, t, pass, name, now, walk, reply))
  {
    ParentIsKnown(s, t);
    WithPassIs(s, t, pass, name, now, walk, reply);
    PassKeepsInv(s, t, pass, ParentFor(s, t), name, now, walk, reply, WithPass(s, t, pass, name, now, walk, reply));
  }

  lemma PassKeepsInv(s: State, t: Thread, pass: PassPtr, parent: int, name: string, now: int, walk: seq<WalkedOp>,
      reply: StorageReply, next: State)
    requires Inv(s) && !Gated(s) && 1 <= parent <= |s.tables.passes|
    requires next ==
      if reply.passStored
      then Registered(WithRow(s, parent, name, Snapshot(s, reply), now), t, pass,
                      ActivePass(|s.tables.passes| + 1, parent, Snapshot(s, reply)), walk, reply)
      else Counted(s, parent).(firstError := Some(Storage))
    ensures Inv(next)
  {
    if reply.passStored {
      StoredPassKeepsInv(s, t, pass, parent, name, now, walk, reply);
    } else {
      RefusedPassKeepsInv(s, parent);
    }
  }

  lemma RefusedPassKeepsInv(s: State, parent: int)
    requires Inv(s)
    ensures Inv(Counted(s, parent).(firstError := Some(Storage)))
  {
  }

  lemma StoredPassKeepsInv(s: State, t: Thread, pass: PassPtr, parent: int, name: string, now: int, walk: seq<WalkedOp>,
      reply: StorageReply)
    requires Inv(s) && !Gated(s) && 1 <= parent <= |s.tables.passes|
    ensures Inv(Registered(WithRow(s, parent, name, Snapshot(s, reply), now), t, pass,
                           ActivePass(|s.tables.passes| + 1, parent, Snapshot(s, reply)), walk, reply))
  {
    var r := WithRow(s, parent, name, Snapshot(s, reply), now);
    PassRowKeepsInv(s, parent, name, Snapshot(s, reply), now);
    RegisterKeepsInv(r, t, pass, ActivePass(|s.tables.passes| + 1, parent, Snapshot(s, reply)), walk, reply);
  }

  lemma BeforePassKeepsInv(s: State, t: Thread, pass: PassPtr, name: string, now: int, walk: seq<WalkedOp>,
      reply: StorageReply)
    requires Inv(s)
    ensures Inv(AfterBeforePass(s, t, pass, name, now, walk, reply))
  {
    if Gated(s) {
    } else if SnapshotFailed(s, reply) || (s.rootPass.None? && !reply.rootStored) {
      CoreKeepsInv(s, s.(firstError := Some(Storage)));
    } else {
      RootKeepsInv(s, Snapshot(s, reply), now);
      WithPassKeepsInv(WithRoot(s, Snapshot(s, reply), now), t, pass, name, now, walk, reply);
    }
  }

  lemma EndRowKeepsInv(s: State, id: int, after: Option<int>, now: int, changed: bool, stored: bool)
    requires Inv(s)
    ensures Inv(RowEnded(s, id, after, now, changed, stored))
  {
    if stored {
      EndKeepsTable(s.tables.passes, id, after, now, changed);
    } else {
      CoreKeepsInv(s, RowEnded(s, id, after, now, changed, stored));
    }
  }

  lemma WithEndKeepsInv(s: State, active: ActivePass, failed: bool, after: Option<int>, now: int, reply: StorageReply)
    requires Inv(s)
    ensures Inv(WithEnd(s, active, failed, after, now, reply))
  {
    var changed, rootChanged := failed || Differ(active.before, after), failed || Differ(s.rootBefore, after);
    var ended := RowEnded(s, active.id, after, now, changed, reply.passStored);
    EndRowKeepsInv(s, active.id, after, now, changed, reply.passStored);
    EndRowKeepsInv(ended, active.parent, after, now, rootChanged, reply.rootEnded);
    var rooted := RootEnded(ended, active, failed, after, now, reply);
    FailureCore(rooted, failed, reply);
    CoreKeepsInv(rooted, FailureNoted(rooted, failed, reply));
  }

  lemma FailureCore(s: State, failed: bool, reply: StorageReply)
    ensures SameCore(s, FailureNoted(s, failed, reply))
  {
    if failed && s.firstError.None? {
      if reply.metaStored {
      } else {
      }
    }
  }

  lemma PopKeepsIds(ids: map<Thread, seq<int>>, n: nat, t: Thread)
    requires IdsKnown(ids, n)
    ensures IdsKnown(Popped(ids, t), n)
  {
  }

  lemma CloseKeepsInv(s: State, t: Thread, pass: PassPtr)
    requires Inv(s)
    ensures Inv(Closed(s, t, pass))
  {
    PopKeepsIds(s.activePassIds, |s.tables.passes|, t);
  }

  lemma AfterPassKeepsInv(s: State, t: Thread, pass: PassPtr, failed: bool, now: int, walk: seq<WalkedOp>,
      reply: StorageReply)
    requires Inv(s)
    ensures Inv(AfterAfterPass(s, t, pass, failed, now, walk, reply))
  {
    if Gated(s) {
    } else if (t, pass) !in s.activePasses {
      CoreKeepsInv(s, s.(firstError := Some(NotStarted)));
    } else if !failed && SnapshotFailed(s, reply) {
      CoreKeepsInv(s, s.(firstError := Some(Storage)));
    } else {
      var active := s.activePasses[(t, pass)];
      if failed {
        CompletedKeepsInv(s, t, pass, active, failed, None, now, reply);
      } else {
        IndexCore(s, active.id, After, walk, reply.indexStored);
        CoreKeepsInv(s, IndexWritten(s, active.id, After, walk, reply.indexStored));
        CompletedKeepsInv(IndexWritten(s, active.id, After, walk, reply.indexStored), t, pass, active, failed,
          Snapshot(s, reply), now, reply);
      }
    }
  }

  lemma CompletedKeepsInv(s: State, t: Thread, pass: PassPtr, active: ActivePass, failed: bool, after: Option<int>,
      now: int, reply: StorageReply)
    requires Inv(s)
    ensures Inv(Closed(WithEnd(s, active, failed, after, now, reply), t, pass))
  {
    WithEndKeepsInv(s, active, failed, after, now, reply);
    CloseKeepsInv(WithEnd(s, active, failed, after, now, reply), t, pass);
  }

  lemma {:induction false} EventsOfPrefix(events: seq<EventRow>, row: EventRow, n: nat, pass: int)
    requires n <= |events|
    ensures EventsOf(events + [row], n, pass) == EventsOf(events, n, pass)
  {
    if n > 0 {
      EventsOfPrefix(events, row, n - 1, pass);
    }
  }

  lemma EventKeepsInv(s: State, row: EventRow)
    requires Inv(s) && !Gated(s) && 1 <= row.pass <= |s.tables.passes|
      && row.order == Counter(s.nextIdentitySequence, row.pass)
    ensures Inv(WithEvent(s, row, true))
  {
    var events := s.tables.events;
    var more := events + [row];
    forall k, p | 0 <= k <= |events|
      ensures EventsOf(more, k, p) == EventsOf(events, k, p)
    {
      EventsOfPrefix(events, row, k, p);
    }
    forall k | 0 <= k < |more|
      ensures EventOk(more, k, |s.tables.passes|)
    {
      assert k < |events| ==> EventOk(events, k, |s.tables.passes|);
    }
    assert forall p :: EventsOf(more, |more|, p) == EventsOf(events, |events|, p) + if row.pass == p then 1 else 0;
  }

  lemma IdentityKeepsInv(s: State, t: Thread, kind: EventKind, token: int, newToken: Option<int>, reply: StorageReply)
    requires Inv(s)
    ensures Inv(AfterIdentity(s, t, kind, token, newToken, reply))
  {
    if s.fidelity == Full && !Gated(s) && Top(s.activePassIds, t).Some? {
      var pass := Top(s.activePassIds, t).value;
      var order := Counter(s.nextIdentitySequence, pass);
      if reply.passStored {
        EventKeepsInv(s, EventRow(pass, kind, token, newToken, PatternFor(s, t), SourceFor(s, t), order));
      } else {
        RefusedEventKeepsInv(s, EventRow(pass, kind, token, newToken, PatternFor(s, t), SourceFor(s, t), order));
      }
    }
  }

  lemma RefusedEventKeepsInv(s: State, row: EventRow)
    requires Inv(s)
    ensures Inv(WithEvent(s, row, false))
  {
    CoreKeepsInv(s, WithEvent(s, row, false));
  }

  lemma OwnersKeepInv(s: State, owners: map<Thread, seq<Option<int>>>)
    requires Inv(s) && OwnersKnown(owners, |s.tables.passes|)
    ensures Inv(s.(pipelineParents := owners))
  {
  }

  lemma PushKeepsOwners(owners: map<Thread, seq<Option<int>>>, n: nat, t: Thread, owner: Option<int>)
    requires OwnersKnown(owners, n) && (owner.Some? ==> 1 <= owner.value <= n)
    ensures OwnersKnown(Pushed(owners, t, owner), n) && OwnersKnown(Popped(owners, t), n)
  {
  }

  lemma BeforePipelineKeepsInv(s: State, t: Thread, parentThread: Thread, parentPass: PassPtr)
    requires Inv(s)
    ensures Inv(AfterBeforePipeline(s, t, parentThread, parentPass))
  {
    if !Gated(s) {
      var key := (parentThread, parentPass);
      var owner := if key in s.activePasses then Some(s.activePasses[key].id) else None;
      PushKeepsOwners(s.pipelineParents, |s.tables.passes|, t, owner);
      OwnersKeepInv(s, Pushed(s.pipelineParents, t, owner));
    }
  }

  lemma StepKeepsInv(s: State, c: Callback)
    requires Inv(s)
    ensures Inv(Step(s, c))
  {
    match c
    case BeforePipeline(t, pt, pp) => BeforePipelineKeepsInv(s, t, pt, pp);
    case AfterPipeline(t) =>
      PushKeepsOwners(s.pipelineParents, |s.tables.passes|, t, None);
      OwnersKeepInv(s, Popped(s.pipelineParents, t));
    case BeforePass(t, p, name, now, walk, reply) => BeforePassKeepsInv(s, t, p, name, now, walk, reply);
    case AfterPass(t, p, failed, now, walk, reply) => AfterPassKeepsInv(s, t, p, failed, now, walk, reply);
    case Identity(t, kind, token, newToken, reply) => IdentityKeepsInv(s, t, kind, token, newToken, reply);
    case _ => CoreKeepsInv(s, Step(s, c));
  }

  /** Every run keeps the table readable: well nested or not, and whatever the storage refuses. */
  lemma {:induction false} RunKeepsInv(fidelity: Fidelity, callbacks: seq<Callback>)
    ensures Inv(Run(fidelity, callbacks))
  {
    if callbacks != [] {
      RunKeepsInv(fidelity, callbacks[..|callbacks| - 1]);
      StepKeepsInv(Run(fidelity, callbacks[..|callbacks| - 1]), callbacks[|callbacks| - 1]);
    }
  }

  // ------------------------------------------------------ reading it back

  lemma TableIsReadable(table: seq<Row>, rows: seq<Row>)
    requires TableOk(table) && QueryResult(table, rows)
    ensures Reader.DistinctIds(table) && Reader.DistinctIds(rows) && ParentsFirst(table) && ParentsFirst(rows)
  {
    assert forall k :: 0 <= k < |table| ==> RowOk(table, k);
    forall r | r in table && r.parent.Some?
      ensures r.parent.value < r.id && exists q :: q in table && q.id == r.parent.value
    {
      var k :| 0 <= k < |table| && table[k] == r;
      assert RowOk(table, k) && RowOk(table, r.parent.value - 1);
      assert table[r.parent.value - 1] in table;
    }
    SmallerParentsSortFirst(table, rows);
    forall k | 0 <= k < |table|
      ensures ParentBefore(table, k)
    {
      assert RowOk(table, k);
      if k > 0 {
        assert RowOk(table, table[k].parent.value - 1);
      }
    }
    assert forall k :: 0 <= k < |table| ==> RowOk(table, k) && table[k].id == k + 1;
    PermutedIdsDistinct(table, rows);
  }

  lemma PermutedIdsDistinct(table: seq<Row>, rows: seq<Row>)
    requires multiset(rows) == multiset(table) && forall k :: 0 <= k < |table| ==> table[k].id == k + 1
    ensures Reader.DistinctIds(rows)
  {
    forall i, j | 0 <= i < j < |rows|
      ensures rows[i].id != rows[j].id
    {
      if rows[i].id == rows[j].id {
        assert rows[i] in multiset(table) && rows[j] in multiset(table);
        assert rows[i] == rows[j] == table[rows[i].id - 1];
        TwiceInSequence(rows, i, j);
        OnceInTable(table, rows[i].id - 1);
      }
    }
  }

  lemma TwiceInSequence(rows: seq<Row>, i: nat, j: nat)
    requires i < j < |rows| && rows[i] == rows[j]
    ensures multiset(rows)[rows[i]] >= 2
  {
    assert rows == rows[..i] + [rows[i]] + rows[i + 1..j] + [rows[j]] + rows[j + 1..];
  }

  lemma OnceInTable(table: seq<Row>, k: nat)
    requires k < |table| && forall j :: 0 <= j < |table| ==> table[j].id == j + 1
    ensures multiset(table)[table[k]] == 1
  {
    assert table == table[..k] + [table[k]] + table[k + 1..];
    assert table[k] !in table[..k] && table[k] !in table[k + 1..];
  }

  function RowsAt(rows: seq<Row>, positions: seq<nat>): (r: seq<Row>)
    requires forall i :: 0 <= i < |positions| ==> positions[i] < |rows|
    ensures |r| == |positions|
  {
    seq(|positions|, i requires 0 <= i < |positions| => rows[positions[i]])
  }

  predicate OrdersAscend(rows: seq<Row>) {
    forall i, j :: 0 <= i < j < |rows| ==> rows[i].order < rows[j].order
  }

  /** Two ascending lists with the same rows are the same list. */
  lemma {:induction false} AscendingUnique(a: seq<Row>, b: seq<Row>)
    requires OrdersAscend(a) && OrdersAscend(b) && forall r :: r in a <==> r in b
    ensures a == b
  {
    if a == [] {
      assert forall i :: 0 <= i < |b| ==> b[i] in b;
    } else {
      assert a[0] in b && b[0] in a;
      assert a[0] == b[0];
      forall r
        ensures r in a[1..] <==> r in b[1..]
      {
        assert r in a[1..] <==> r in a && r != a[0];
        assert r in b[1..] <==> r in b && r != b[0];
      }
      AscendingUnique(a[1..], b[1..]);
    }
  }

  lemma {:induction false} SiblingsGrow(table: seq<Row>, m: nat, n: nat, parent: Option<int>)
    requires m < n <= |table| && table[m].parent == parent
    ensures Siblings(table, m, parent) < Siblings(table, n, parent)
  {
    if m + 1 < n {
      SiblingsGrow(table, m, n - 1, parent);
    }
  }

  lemma BeginOrderAscends(table: seq<Row>, parent: Option<int>)
    requires TableOk(table)
    ensures OrdersAscend(RowsAt(table, Positions(table, parent, 0)))
  {
    var p := Positions(table, parent, 0);
    var a := RowsAt(table, p);
    forall i, j | 0 <= i < j < |a|
      ensures a[i].order < a[j].order
    {
      assert RowOk(table, p[i]) && RowOk(table, p[j]);
      SiblingsGrow(table, p[i], p[j], parent);
    }
  }

  lemma MembersOrdered(a: seq<Row>, x: Row, y: Row)
    requires OrdersAscend(a) && x in a && y in a && x != y && x.order <= y.order
    ensures x.order < y.order
  {
    var k :| 0 <= k < |a| && a[k] == x;
    var l :| 0 <= l < |a| && a[l] == y;
  }

  lemma QueryOrderAscends(table: seq<Row>, rows: seq<Row>, parent: Option<int>, a: seq<Row>)
    requires QueryResult(table, rows) && Reader.DistinctIds(rows) && OrdersAscend(a)
    requires forall r :: r in a <==> r in RowsAt(rows, Positions(rows, parent, 0))
    ensures OrdersAscend(RowsAt(rows, Positions(rows, parent, 0)))
  {
    var q := Positions(rows, parent, 0);
    var b := RowsAt(rows, q);
    forall i, j | 0 <= i < j < |q|
      ensures b[i].order < b[j].order
    {
      assert !KeyLess(rows[q[j]], rows[q[i]]);
      assert b[i] in b && b[j] in b;
      assert b[i] == rows[q[i]] && b[j] == rows[q[j]];
      MembersOrdered(a, b[i], b[j]);
    }
  }

  /** In begin order and in query order a parent's rows are the same list. */
  lemma SameSiblings(table: seq<Row>, rows: seq<Row>, parent: Option<int>)
    requires TableOk(table) && QueryResult(table, rows)
    ensures RowsAt(rows, Positions(rows, parent, 0)) == RowsAt(table, Positions(table, parent, 0))
  {
    var a := RowsAt(table, Positions(table, parent, 0));
    TableIsReadable(table, rows);
    BeginOrderAscends(table, parent);
    SiblingRowsMatch(table, rows, parent);
    QueryOrderAscends(table, rows, parent, a);
    AscendingUnique(a, RowsAt(rows, Positions(rows, parent, 0)));
  }

  lemma SiblingRowsMatch(table: seq<Row>, rows: seq<Row>, parent: Option<int>)
    requires multiset(rows) == multiset(table)
    ensures var a, b := RowsAt(table, Positions(table, parent, 0)), RowsAt(rows, Positions(rows, parent, 0));
      forall r :: r in a <==> r in b
  {
    forall r
      ensures r in RowsAt(table, Positions(table, parent, 0)) <==> r in table && r.parent == parent
      ensures r in RowsAt(rows, Positions(rows, parent, 0)) <==> r in rows && r.parent == parent
    {
      SiblingMember(table, parent, r);
      SiblingMember(rows, parent, r);
    }
    forall r
      ensures r in table <==> r in rows
    {
      assert r in table <==> r in multiset(table);
      assert r in rows <==> r in multiset(rows);
    }
  }

  lemma SiblingMember(rows: seq<Row>, parent: Option<int>, r: Row)
    ensures r in RowsAt(rows, Positions(rows, parent, 0)) <==> r in rows && r.parent == parent
  {
    var p := Positions(rows, parent, 0);
    if r in rows && r.parent == parent {
      var k :| 0 <= k < |rows| && rows[k] == r;
      var i :| 0 <= i < |p| && p[i] == k;
      assert RowsAt(rows, p)[i] == r;
    }
  }

  lemma {:induction false} PositionsSkip(rows: seq<Row>, parent: Option<int>, from: nat)
    requires from <= |rows| && forall k :: 0 <= k < from ==> rows[k].parent != parent
    ensures Positions(rows, parent, from) == Positions(rows, parent, 0)
  {
    if from > 0 {
      PositionsSkip(rows, parent, from - 1);
    }
  }

  lemma ChildrenComeLater(rows: seq<Row>, k: nat)
    requires k < |rows| && Reader.DistinctIds(rows) && ParentsFirst(rows)
    ensures Positions(rows, Some(rows[k].id), k + 1) == Positions(rows, Some(rows[k].id), 0)
  {
    forall j | 0 <= j < k + 1
      ensures rows[j].parent != Some(rows[k].id)
    {
      assert ParentBefore(rows, j);
    }
    PositionsSkip(rows, Some(rows[k].id), k + 1);
  }

  /** The node of a row does not depend on which of the two orders it is built from. */
  lemma {:induction false} SameNode(table: seq<Row>, rows: seq<Row>, k: nat, j: nat)
    requires TableOk(table) && QueryResult(table, rows) && k < |table| && j < |rows| && table[k] == rows[j]
    ensures Build(table, k) == Build(rows, j)
    decreases |table| - k
  {
    var parent := Some(table[k].id);
    TableIsReadable(table, rows);
    ChildrenComeLater(table, k);
    ChildrenComeLater(rows, j);
    SameSiblings(table, rows, parent);
    var p, q := Positions(table, parent, k + 1), Positions(rows, parent, j + 1);
    var a, b := Group(table, parent, k + 1), Group(rows, parent, j + 1);
    GroupIsPositions(table, parent, k + 1);
    GroupIsPositions(rows, parent, j + 1);
    forall i | 0 <= i < |p|
      ensures a[i] == b[i]
    {
      assert RowsAt(table, p)[i] == RowsAt(rows, q)[i];
      SameNode(table, rows, p[i], q[i]);
      GroupAt(table, parent, k + 1, i);
      GroupAt(rows, parent, j + 1, i);
    }
    assert a == b;
  }

  /** The pass tree of a table: rows under their parents, siblings in begin order. */
  function PassTree(table: seq<Row>): seq<PassNode> {
    Group(table, None, 0)
  }

  lemma SameForest(table: seq<Row>, rows: seq<Row>)
    requires TableOk(table) && QueryResult(table, rows)
    ensures Group(rows, None, 0) == PassTree(table)
  {
    SameSiblings(table, rows, None);
    var p, q := Positions(table, None, 0), Positions(rows, None, 0);
    var a, b := Group(table, None, 0), Group(rows, None, 0);
    GroupIsPositions(table, None, 0);
    GroupIsPositions(rows, None, 0);
    forall i | 0 <= i < |p|
      ensures a[i] == b[i]
    {
      assert RowsAt(table, p)[i] == RowsAt(rows, q)[i];
      SameNode(table, rows, p[i], q[i]);
      GroupAt(table, None, 0, i);
      GroupAt(rows, None, 0, i);
    }
    assert a == b;
  }

  lemma {:induction false} NoMoreRoots(rows: seq<Row>, from: nat)
    requires from <= |rows| && forall k :: from <= k < |rows| ==> rows[k].parent.Some?
    ensures Positions(rows, None, from) == []
    decreases |rows| - from
  {
    if from < |rows| {
      NoMoreRoots(rows, from + 1);
    }
  }

  lemma OneRoot(table: seq<Row>)
    requires TableOk(table)
    ensures |PassTree(table)| == if table == [] then 0 else 1
    ensures table != [] ==> PassTree(table)[0] == Build(table, 0)
  {
    if table != [] {
      forall k | 1 <= k < |table|
        ensures table[k].parent.Some?
      {
        assert RowOk(table, k);
      }
      NoMoreRoots(table, 1);
      GroupIsPositions(table, None, 1);
      assert RowOk(table, 0);
      GroupUnfolds(table, None, 0);
    }
  }

  /**
   * End to end: after any run, under any interleaving, nesting or storage failure, whatever order
   * the query breaks no tie in, the reader succeeds and answers the recorded pass tree, which has
   * a single root once anything was recorded.
   */
  lemma RecordedRunsReadBack(fidelity: Fidelity, callbacks: seq<Callback>, rows: seq<Row>)
    requires QueryResult(Run(fidelity, callbacks).tables.passes, rows)
    ensures var table := Run(fidelity, callbacks).tables.passes;
      && Reader.DistinctIds(rows) && ParentsFirst(rows)
      && Group(rows, None, 0) == PassTree(table)
      && |PassTree(table)| == if table == [] then 0 else 1
  {
    var table := Run(fidelity, callbacks).tables.passes;
    RunKeepsInv(fidelity, callbacks);
    TableIsReadable(table, rows);
    SameForest(table, rows);
    OneRoot(table);
  }

  /** The reader itself, on the table a run left behind. */
  method ReadTrace(ghost fidelity: Fidelity, ghost callbacks: seq<Callback>, rows: seq<Row>)
      returns (r: Outcome<seq<PassNode>>)
    requires QueryResult(Run(fidelity, callbacks).tables.passes, rows)
    ensures r == Ok(PassTree(Run(fidelity, callbacks).tables.passes))
  {
    RecordedRunsReadBack(fidelity, callbacks, rows);
    r := Passes(rows);
  }
}
