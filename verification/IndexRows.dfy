// What the operation index of a recorded trace says: on a well-nested run at
// full fidelity, every operation of every snapshot under its place in the walk.
module IndexRows {
  import opened Model
  import opened Reader
  import opened Recorder
  import opened Nesting
  import opened RowLaws
  import Replay

  /** The row of the operation met as number `o` on a walk. */
  function RowFor(pass: int, side: SnapshotSide, walk: seq<WalkedOp>, o: nat): IndexRow
    requires o < |walk|
  {
    IndexRow(pass, side, walk[o].token, o, walk[o].name)
  }

  /** The key the row of the pass begun at `i` has. */
  function PassOf(cs: seq<Callback>, i: nat): int
    requires i <= |cs|
  {
    RowOf(cs, i) + 1
  }

  predicate FromBegin(cs: seq<Callback>, i: nat, row: IndexRow) {
    && i < |cs| && cs[i].BeforePass? && row.ordinal < |cs[i].walk|
    && row == RowFor(PassOf(cs, i), Before, cs[i].walk, row.ordinal)
  }

  predicate FromEnd(cs: seq<Callback>, i: nat, j: nat, row: IndexRow) {
    && Ends(cs, i, j) && !cs[j].failed && row.ordinal < |cs[j].walk|
    && row == RowFor(PassOf(cs, i), After, cs[j].walk, row.ordinal)
  }

  ghost predicate FromSome(cs: seq<Callback>, row: IndexRow) {
    (exists i: nat :: FromBegin(cs, i, row)) || (exists i: nat, j: nat :: FromEnd(cs, i, j, row))
  }

  /** How many operations all walks met. */
  function WalkLength(c: Callback): nat {
    match c
    case BeforePass(_, _, _, _, walk, _) => |walk|
    case AfterPass(_, _, failed, _, walk, _) => if failed then 0 else |walk|
    case _ => 0
  }

  function WalkedTotal(cs: seq<Callback>): nat {
    if cs == [] then 0 else WalkedTotal(cs[..|cs| - 1]) + WalkLength(cs[|cs| - 1])
  }

  /**
   * Every row is some walk's, every walk's operations have their row, and there are as many rows as operations
   * walked.
   */
  ghost predicate IndexTells(cs: seq<Callback>, index: seq<IndexRow>) {
    && (forall row :: row in index ==> FromSome(cs, row))
    && (forall row, i: nat :: FromBegin(cs, i, row) ==> row in index)
    && (forall row, i: nat, j: nat :: FromEnd(cs, i, j, row) ==> row in index)
    && |index| == WalkedTotal(cs)
  }

  // ------------------------------------------------------------ what a step adds

  /** The rows of one walk. */
  predicate Walks(rows: seq<IndexRow>, pass: int, side: SnapshotSide, walk: seq<WalkedOp>) {
    |rows| == |walk| && forall o :: 0 <= o < |walk| ==> rows[o] == RowFor(pass, side, walk, o)
  }

  lemma WalkAdds(s: State, pass: int, side: SnapshotSide, walk: seq<WalkedOp>, stored: nat)
      returns (rows: seq<IndexRow>)
    requires s.fidelity == Full && s.firstError.None? && |walk| <= stored
    ensures Walks(rows, pass, side, walk) && IndexWritten(s, pass, side, walk, stored).tables.index == s.tables.index
      + rows
  {
    rows := Indexed(pass, side, walk, |walk|);
  }

  lemma RootIndex(s: State, blob: Option<int>, now: int, parent: int, name: string)
    ensures WithRow(WithRoot(s, blob, now), parent, name, blob, now).tables.index == s.tables.index
    ensures WithRow(WithRoot(s, blob, now), parent, name, blob, now).fidelity == s.fidelity
    ensures WithRow(WithRoot(s, blob, now), parent, name, blob, now).firstError == s.firstError
    ensures WithRow(WithRoot(s, blob, now), parent, name, blob, now).activePasses == s.activePasses
  {
  }

  lemma RegisterAdds(s: State, t: Thread, pass: PassPtr, a: ActivePass, walk: seq<WalkedOp>, reply: StorageReply)
    returns (rows: seq<IndexRow>)
    requires s.fidelity == Full && s.firstError.None? && |walk| <= reply.indexStored && (t, pass) !in s.activePasses
    ensures Walks(rows, a.id, Before, walk)
    ensures Registered(s, t, pass, a, walk, reply).tables.index == s.tables.index + rows
  {
    var mid := s.(activePasses := s.activePasses[(t, pass) := a], activePassIds := Pushed(s.activePassIds, t, a.id));
    rows := WalkAdds(mid, a.id, Before, walk, reply.indexStored);
  }

  lemma BeginAdds(story: Story, s: State, c: Callback) returns (rows: seq<IndexRow>)
    requires Refines(story, s) && c.BeforePass? && Fits(story, c) && s.fidelity == Full
    ensures Step(s, c).tables.index == s.tables.index + rows
    ensures Walks(rows, |s.tables.passes| + (if s.tables.passes == [] then 2 else 1), Before, c.walk)
  {
    var blob := BlobAt(s.fidelity, c);
    var r := WithRoot(s, blob, c.now);
    BeginIsRegistered(story, s, c);
    RootBooks(s, blob, c.now);
    var parent := ParentFor(r, c.thread);
    RootIndex(s, blob, c.now, parent, c.name);
    rows := RegisterAdds(WithRow(r, parent, c.name, blob, c.now), c.thread, c.pass,
      ActivePass(|r.tables.passes| + 1, parent, blob), c.walk, c.reply);
  }

  /** No operation is written. */
  predicate SameOps(s: State, t: State) {
    t.tables.index == s.tables.index && t.tables.events == s.tables.events
  }

  lemma RowEndWritesNoOps(s: State, id: int, after: Option<int>, now: int, changed: bool, stored: bool)
    ensures SameOps(s, RowEnded(s, id, after, now, changed, stored))
  {
  }

  lemma NoteWritesNoOps(s: State, failed: bool, reply: StorageReply)
    ensures SameOps(s, FailureNoted(s, failed, reply))
  {
  }

  lemma WithEndWritesNoOps(s: State, x: ActivePass, failed: bool, after: Option<int>, now: int, reply: StorageReply)
    ensures SameOps(s, WithEnd(s, x, failed, after, now, reply))
  {
    var changed := failed || Differ(x.before, after);
    var ended := RowEnded(s, x.id, after, now, changed, reply.passStored);
    RowEndWritesNoOps(s, x.id, after, now, changed, reply.passStored);
    RootEndWritesNoOps(ended, x, failed, after, now, reply);
    NoteWritesNoOps(RootEnded(ended, x, failed, after, now, reply), failed, reply);
  }

  lemma RootEndWritesNoOps(s: State, x: ActivePass, failed: bool, after: Option<int>, now: int, reply: StorageReply)
    ensures SameOps(s, RootEnded(s, x, failed, after, now, reply))
  {
    RowEndWritesNoOps(s, x.parent, after, now, failed || Differ(s.rootBefore, after), reply.rootEnded);
  }

  lemma EndWritesNoOps(s: State, x: ActivePass, failed: bool, after: Option<int>, now: int, reply: StorageReply,
      t: Thread, pass: PassPtr)
    ensures SameOps(s, Closed(WithEnd(s, x, failed, after, now, reply), t, pass))
  {
    WithEndWritesNoOps(s, x, failed, after, now, reply);
    ClosingWritesNoOps(WithEnd(s, x, failed, after, now, reply), t, pass);
  }

  lemma ClosingWritesNoOps(s: State, t: Thread, pass: PassPtr)
    ensures SameOps(s, Closed(s, t, pass))
  {
  }

  lemma EndWalkAdds(s: State, x: ActivePass, c: Callback) returns (rows: seq<IndexRow>, indexed: State)
    requires c.AfterPass? && s.fidelity == Full && s.firstError.None? && |c.walk| <= c.reply.indexStored
    ensures indexed == if c.failed then s else IndexWritten(s, x.id, After, c.walk, c.reply.indexStored)
    ensures indexed.tables.index == s.tables.index + rows
    ensures if c.failed then rows == [] else Walks(rows, x.id, After, c.walk)
  {
    rows, indexed := [], s;
    if !c.failed {
      rows := WalkAdds(s, x.id, After, c.walk, c.reply.indexStored);
      indexed := IndexWritten(s, x.id, After, c.walk, c.reply.indexStored);
    }
  }

  lemma EndAdds(story: Story, s: State, c: Callback) returns (rows: seq<IndexRow>)
    requires Refines(story, s) && Replay.Inv(s) && c.AfterPass? && Fits(story, c) && s.fidelity == Full
    ensures (c.thread, c.pass) in s.activePasses && Step(s, c).tables.index == s.tables.index + rows
    ensures if c.failed then rows == [] else Walks(rows, s.activePasses[(c.thread, c.pass)].id, After, c.walk)
  {
    EndFits(story, s, c);
    var x := s.activePasses[(c.thread, c.pass)];
    var indexed: State;
    rows, indexed := EndWalkAdds(s, x, c);
    EndIsClosed(story, s, c, x, indexed);
    EndWritesNoOps(indexed, x, c.failed, BlobAt(s.fidelity, c), c.now, c.reply, c.thread, c.pass);
  }

  lemma QuietIndex(s: State, c: Callback)
    requires !c.BeforePass? && !c.AfterPass?
    ensures Step(s, c).tables.index == s.tables.index
  {
    match c
    case Identity(t, kind, token, newToken, reply) =>
      if s.fidelity == Full && !Gated(s) && Top(s.activePassIds, t).Some? {
      }
    case _ =>
  }

  // ------------------------------------------------------- the index keeps telling

  lemma FromGrown(cs: seq<Callback>, c: Callback, row: IndexRow)
    ensures forall i: nat :: i < |cs| ==> (FromBegin(cs + [c], i, row) <==> FromBegin(cs, i, row))
    ensures forall i: nat, j: nat :: j < |cs| ==> (FromEnd(cs + [c], i, j, row) <==> FromEnd(cs, i, j, row))
  {
    forall i: nat | i < |cs|
      ensures FromBegin(cs + [c], i, row) <==> FromBegin(cs, i, row)
    {
      RowOfGrown(cs, c, i);
      assert (cs + [c])[i] == cs[i];
    }
    forall i: nat, j: nat | j < |cs|
      ensures FromEnd(cs + [c], i, j, row) <==> FromEnd(cs, i, j, row)
    {
      EndsGrown(cs, c, i, j);
      if i < |cs| {
        RowOfGrown(cs, c, i);
      }
      assert (cs + [c])[j] == cs[j];
    }
  }

  /** The rows the new callback brings. */
  ghost predicate Brings(cs: seq<Callback>, c: Callback, rows: seq<IndexRow>) {
    && |rows| == WalkLength(c)
    && (forall row :: row in rows <==>
         FromBegin(cs + [c], |cs|, row) || exists i: nat :: FromEnd(cs + [c], i, |cs|, row))
  }

  lemma IndexGrows(cs: seq<Callback>, c: Callback, index: seq<IndexRow>, rows: seq<IndexRow>)
    requires IndexTells(cs, index) && Brings(cs, c, rows)
    ensures IndexTells(cs + [c], index + rows)
  {
    var all := cs + [c];
    assert all[..|cs|] == cs;
    forall row | row in index + rows
      ensures FromSome(all, row)
    {
      FromGrown(cs, c, row);
      if row in index {
        FromSomeStays(cs, c, row);
      }
    }
    forall row, i: nat | FromBegin(all, i, row)
      ensures row in index + rows
    {
      FromGrown(cs, c, row);
    }
    forall row, i: nat, j: nat | FromEnd(all, i, j, row)
      ensures row in index + rows
    {
      FromGrown(cs, c, row);
    }
  }

  lemma FromSomeStays(cs: seq<Callback>, c: Callback, row: IndexRow)
    requires FromSome(cs, row)
    ensures FromSome(cs + [c], row)
  {
    FromGrown(cs, c, row);
    if exists i: nat :: FromBegin(cs, i, row) {
      var i: nat :| FromBegin(cs, i, row);
      assert FromBegin(cs + [c], i, row);
    } else {
      var i: nat, j: nat :| FromEnd(cs, i, j, row);
      assert FromEnd(cs + [c], i, j, row);
    }
  }

  lemma BeginBrings(cs: seq<Callback>, c: Callback, rows: seq<IndexRow>)
    requires c.BeforePass? && Walks(rows, Begins(cs) + 2, Before, c.walk)
    ensures Brings(cs, c, rows)
  {
    var all := cs + [c];
    assert all[|cs|] == c && all[..|cs|] == cs;
    forall row
      ensures row in rows <==> FromBegin(all, |cs|, row)
    {
      if row in rows {
        var o :| 0 <= o < |rows| && rows[o] == row;
      }
      if FromBegin(all, |cs|, row) {
        assert rows[row.ordinal] == row;
      }
    }
  }

  lemma EndBrings(cs: seq<Callback>, c: Callback, rows: seq<IndexRow>, i0: nat, a: Books)
    requires Closes(cs, a, c, i0)
    requires if c.failed then rows == [] else Walks(rows, PassOf(cs, i0), After, c.walk)
    ensures Brings(cs, c, rows)
  {
    var all := cs + [c];
    assert all[|cs|] == c;
    RowOfGrown(cs, c, i0);
    EndsGrown(cs, c, i0, |cs|);
    forall row
      ensures row in rows <==> exists i: nat :: FromEnd(all, i, |cs|, row)
    {
      if row in rows {
        var o :| 0 <= o < |rows| && rows[o] == row;
        assert FromEnd(all, i0, |cs|, row);
      }
      if exists i: nat :: FromEnd(all, i, |cs|, row) {
        var i: nat :| FromEnd(all, i, |cs|, row);
        EndsGrown(cs, c, i, |cs|);
        assert i == i0;
        assert rows[row.ordinal] == row;
      }
    }
  }

  lemma QuietBrings(cs: seq<Callback>, c: Callback)
    requires !c.BeforePass? && !c.AfterPass?
    ensures Brings(cs, c, [])
  {
    assert (cs + [c])[|cs|] == c;
  }

  lemma StepTellsIndex(cs: seq<Callback>, story: Story, s: State, c: Callback)
    requires Kept(Full, cs, BooksOf(s)) && Refines(story, s) && Replay.Inv(s) && Fits(story, c) && s.fidelity == Full
    requires IndexTells(cs, s.tables.index)
    ensures IndexTells(cs + [c], Step(s, c).tables.index)
  {
    if c.BeforePass? {
      var rows := BeginAdds(story, s, c);
      BeginBrings(cs, c, rows);
      IndexGrows(cs, c, s.tables.index, rows);
    } else if c.AfterPass? {
      var rows := EndAdds(story, s, c);
      var i0 := OpenerCloses(Full, cs, BooksOf(s), c);
      assert Remembered(Full, cs, s.tables.passes, i0, s.activePasses[(c.thread, c.pass)]);
      EndBrings(cs, c, rows, i0, BooksOf(s));
      IndexGrows(cs, c, s.tables.index, rows);
    } else {
      QuietIndex(s, c);
      QuietBrings(cs, c);
      IndexGrows(cs, c, s.tables.index, []);
      assert s.tables.index + [] == s.tables.index;
    }
  }

  /** On every well-nested run at full fidelity the index holds every snapshot's operations, and nothing else. */
  lemma {:induction false} RecordedIndexTells(cs: seq<Callback>)
    requires WellNested(Full, cs)
    ensures IndexTells(cs, Run(Full, cs).tables.index)
  {
    if cs != [] {
      var front, c := NestingSplits(Full, cs);
      RecordedIndexTells(front);
      OneMoreTold(front, c, cs);
    }
  }

  lemma OneMoreTold(front: seq<Callback>, c: Callback, cs: seq<Callback>)
    requires WellNested(Full, front) && Fits(Told(Full, front), c) && cs == front + [c]
    requires IndexTells(front, Run(Full, front).tables.index)
    ensures IndexTells(cs, Run(Full, cs).tables.index)
  {
    RunKeeps(Full, front);
    WellNestedRunsTellTheStory(Full, front);
    RunKeepsFidelity(Full, front);
    Replay.RunKeepsInv(Full, front);
    RunGrows(Full, front, c);
    StepTellsIndex(front, Told(Full, front), Run(Full, front), c);
  }

  lemma BeginWritesNoOps(s: State, t: Thread, pass: PassPtr, parent: int, name: string, now: int, walk: seq<WalkedOp>,
      reply: StorageReply)
    requires s.fidelity != Full
    ensures SameOps(s, Registered(WithRow(s, parent, name, Snapshot(s, reply), now), t, pass,
      ActivePass(|s.tables.passes| + 1, parent, Snapshot(s, reply)), walk, reply))
  {
  }

  lemma BeginStepWritesNoOps(s: State, t: Thread, p: PassPtr, name: string, now: int, walk: seq<WalkedOp>,
      reply: StorageReply)
    requires s.fidelity != Full
    ensures SameOps(s, AfterBeforePass(s, t, p, name, now, walk, reply))
  {
    if Gated(s) {
    } else if SnapshotFailed(s, reply) || (s.rootPass.None? && !reply.rootStored) {
    } else {
      RootWritesNoOps(s, Snapshot(s, reply), now);
      PassWritesNoOps(WithRoot(s, Snapshot(s, reply), now), t, p, name, now, walk, reply);
    }
  }

  lemma RootWritesNoOps(s: State, blob: Option<int>, now: int)
    ensures SameOps(s, WithRoot(s, blob, now)) && WithRoot(s, blob, now).fidelity == s.fidelity
    ensures WithRoot(s, blob, now).rootPass.Some?
  {
    if s.rootPass.None? {
      var t := s.tables.(passes := Inserted(s.tables.passes, None, 0, "Pipeline", blob, now));
      assert t.index == s.tables.index && t.events == s.tables.events;
      assert WithRoot(s, blob, now).tables == t;
    }
  }

  lemma PassWritesNoOps(s: State, t: Thread, p: PassPtr, name: string, now: int, walk: seq<WalkedOp>,
      reply: StorageReply)
    requires s.fidelity != Full && s.rootPass.Some?
    ensures SameOps(s, WithPass(s, t, p, name, now, walk, reply))
  {
    Replay.WithPassIs(s, t, p, name, now, walk, reply);
    if reply.passStored {
      BeginWritesNoOps(s, t, p, ParentFor(s, t), name, now, walk, reply);
    }
  }

  lemma EndStepWritesNoOps(s: State, t: Thread, p: PassPtr, failed: bool, now: int, walk: seq<WalkedOp>,
      reply: StorageReply)
    requires s.fidelity != Full
    ensures SameOps(s, AfterAfterPass(s, t, p, failed, now, walk, reply))
  {
    if Gated(s) {
    } else if (t, p) !in s.activePasses {
    } else if !failed && SnapshotFailed(s, reply) {
    } else {
      var x := s.activePasses[(t, p)];
      EndWritesNoOps(s, x, failed, if failed then None else Snapshot(s, reply), now, reply, t, p);
    }
  }

  lemma StepWritesNoOps(s: State, c: Callback)
    requires s.fidelity != Full
    ensures SameOps(s, Step(s, c))
  {
    match c
    case BeforePass(t, p, name, now, walk, reply) => BeginStepWritesNoOps(s, t, p, name, now, walk, reply);
    case AfterPass(t, p, failed, now, walk, reply) => EndStepWritesNoOps(s, t, p, failed, now, walk, reply);
    case _ =>
  }

  /** Below full fidelity no run, however nested, writes index rows or events. */
  lemma {:induction false} OnlyFullRecordsOps(fidelity: Fidelity, cs: seq<Callback>)
    requires fidelity != Full
    ensures Run(fidelity, cs).tables.index == [] && Run(fidelity, cs).tables.events == []
  {
    if cs != [] {
      OnlyFullRecordsOps(fidelity, cs[..|cs| - 1]);
      RunKeepsFidelity(fidelity, cs[..|cs| - 1]);
      StepWritesNoOps(Run(fidelity, cs[..|cs| - 1]), cs[|cs| - 1]);
    }
  }
}
