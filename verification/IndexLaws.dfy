// What the recorder writes into the operation index: no snapshot taken before a
// pass numbers two operations alike.
module IndexLaws {
  import opened Model
  import opened Recorder
  import Replay
  import Reader

  /** Two rows of one pass, both from before it, have different ordinals. */
  predicate RowsApart(a: IndexRow, b: IndexRow) {
    a.side == Before && b.side == Before && a.pass == b.pass ==> a.ordinal != b.ordinal
  }

  ghost predicate BeforeOnce(rows: seq<IndexRow>) {
    forall i, j :: 0 <= i < j < |rows| ==> RowsApart(rows[i], rows[j])
  }

  ghost predicate RowsUpTo(rows: seq<IndexRow>, n: nat) {
    forall i :: 0 <= i < |rows| ==> rows[i].pass <= n
  }

  ghost predicate IndexOk(t: Tables) {
    BeforeOnce(t.index) && RowsUpTo(t.index, |t.passes|)
  }

  /** Rows one callback adds: those from before a pass are of a pass begun by it. */
  ghost predicate Fresh(rows: seq<IndexRow>, prior: nat, now: nat) {
    && BeforeOnce(rows) && RowsUpTo(rows, now)
    && forall i :: 0 <= i < |rows| && rows[i].side == Before ==> rows[i].pass > prior
  }

  ghost predicate Grows(a: Tables, b: Tables, rows: seq<IndexRow>) {
    |a.passes| <= |b.passes| && b.index == a.index + rows && Fresh(rows, |a.passes|, |b.passes|)
  }

  predicate SameIndex(a: Tables, b: Tables) {
    |a.passes| <= |b.passes| && b.index == a.index
  }

  lemma GrowthKeepsIndex(a: Tables, b: Tables, rows: seq<IndexRow>)
    requires IndexOk(a) && Grows(a, b, rows)
    ensures IndexOk(b)
  {
    var n := |a.index|;
    forall i, j | 0 <= i < j < |b.index|
      ensures RowsApart(b.index[i], b.index[j])
    {
      if j < n {
        assert RowsApart(a.index[i], a.index[j]);
      } else if i < n {
        assert a.index[i].pass <= |a.passes|;
        assert rows[j - n].side == Before ==> rows[j - n].pass > |a.passes|;
      } else {
        assert RowsApart(rows[i - n], rows[j - n]);
      }
    }
    forall i | 0 <= i < |b.index|
      ensures b.index[i].pass <= |b.passes|
    {
      assert if i < n then a.index[i].pass <= |a.passes| else rows[i - n].pass <= |b.passes|;
    }
  }

  lemma SameKeepsIndex(a: Tables, b: Tables)
    requires IndexOk(a) && SameIndex(a, b)
    ensures IndexOk(b)
  {
    GrowthKeepsIndex(a, b, []);
  }

  lemma IndexedIsFresh(pass: int, side: SnapshotSide, walk: seq<WalkedOp>, n: nat, prior: nat, now: nat)
    requires n <= |walk| && pass <= now && (side == Before ==> pass > prior)
    ensures Fresh(Indexed(pass, side, walk, n), prior, now)
  {
  }

  lemma WrittenTables(s: State, rows: seq<IndexRow>)
    ensures WithIndex(s, rows).tables.index == s.tables.index + rows && WithIndex(s, rows).tables.passes
      == s.tables.passes
    ensures StorageFailed(WithIndex(s, rows)).tables == WithIndex(s, rows).tables
  {
  }

  /** How many rows of a walk are written. */
  function Written(s: State, walk: seq<WalkedOp>, stored: nat): (n: nat)
    ensures n <= |walk|
  {
    if s.fidelity != Full || s.firstError.Some? then 0 else if stored < |walk| then stored else |walk|
  }

  lemma WalkTables(s: State, pass: int, side: SnapshotSide, walk: seq<WalkedOp>, stored: nat)
    ensures var t := IndexWritten(s, pass, side, walk, stored).tables;
      && t.index == s.tables.index + Indexed(pass, side, walk, Written(s, walk, stored))
      && t.passes == s.tables.passes
  {
    var rows := Indexed(pass, side, walk, Written(s, walk, stored));
    if s.fidelity != Full || s.firstError.Some? {
      assert rows == [];
    } else {
      WrittenTables(s, rows);
    }
  }

  lemma WalkKeepsIndex(s: State, pass: int, side: SnapshotSide, walk: seq<WalkedOp>, stored: nat, prior: Tables)
    requires IndexOk(prior) && |prior.passes| <= |s.tables.passes| && s.tables.index == prior.index
    requires pass <= |s.tables.passes| && (side == Before ==> pass > |prior.passes|)
    ensures IndexOk(IndexWritten(s, pass, side, walk, stored).tables)
  {
    var n := Written(s, walk, stored);
    WalkTables(s, pass, side, walk, stored);
    IndexedIsFresh(pass, side, walk, n, |prior.passes|, |s.tables.passes|);
    GrowthKeepsIndex(prior, IndexWritten(s, pass, side, walk, stored).tables, Indexed(pass, side, walk, n));
  }

  // ---------------------------------------------------------- callback by callback

  lemma RegisterKeepsIndex(s: State, t: Thread, pass: PassPtr, active: ActivePass, walk: seq<WalkedOp>,
      reply: StorageReply, prior: Tables)
    requires IndexOk(prior) && |prior.passes| <= |s.tables.passes| && s.tables.index == prior.index
    requires |prior.passes| < active.id <= |s.tables.passes|
    ensures IndexOk(Registered(s, t, pass, active, walk, reply).tables)
  {
    if (t, pass) in s.activePasses {
      SameKeepsIndex(prior, s.tables);
    } else {
      WalkKeepsIndex(Replay.Activated(s, t, pass, active), active.id, Before, walk, reply.indexStored, prior);
    }
  }

  lemma RowTables(s: State, parent: int, name: string, before: Option<int>, now: int)
    ensures |WithRow(s, parent, name, before, now).tables.passes| == |s.tables.passes| + 1
    ensures WithRow(s, parent, name, before, now).tables.index == s.tables.index
  {
  }

  lemma RootTables(s: State, before: Option<int>, now: int)
    ensures SameIndex(s.tables, WithRoot(s, before, now).tables)
  {
  }

  lemma StoredPassKeepsIndex(s: State, t: Thread, pass: PassPtr, parent: int, name: string, now: int,
      walk: seq<WalkedOp>, reply: StorageReply)
    requires IndexOk(s.tables)
    ensures IndexOk(Registered(WithRow(s, parent, name, Snapshot(s, reply), now), t, pass,
                               ActivePass(|s.tables.passes| + 1, parent, Snapshot(s, reply)), walk, reply).tables)
  {
    RowTables(s, parent, name, Snapshot(s, reply), now);
    RegisterKeepsIndex(WithRow(s, parent, name, Snapshot(s, reply), now), t, pass,
                       ActivePass(|s.tables.passes| + 1, parent, Snapshot(s, reply)), walk, reply, s.tables);
  }

  lemma PassKeepsIndex(s: State, t: Thread, pass: PassPtr, name: string, now: int, walk: seq<WalkedOp>,
      reply: StorageReply)
    requires IndexOk(s.tables) && s.rootPass.Some?
    ensures IndexOk(WithPass(s, t, pass, name, now, walk, reply).tables)
  {
    Replay.WithPassIs(s, t, pass, name, now, walk, reply);
    if reply.passStored {
      StoredPassKeepsIndex(s, t, pass, ParentFor(s, t), name, now, walk, reply);
    }
  }

  lemma BeforePassKeepsIndex(s: State, t: Thread, pass: PassPtr, name: string, now: int, walk: seq<WalkedOp>,
      reply: StorageReply)
    requires IndexOk(s.tables)
    ensures IndexOk(AfterBeforePass(s, t, pass, name, now, walk, reply).tables)
  {
    if Gated(s) {
    } else if SnapshotFailed(s, reply) || (s.rootPass.None? && !reply.rootStored) {
    } else {
      RootTables(s, Snapshot(s, reply), now);
      SameKeepsIndex(s.tables, WithRoot(s, Snapshot(s, reply), now).tables);
      PassKeepsIndex(WithRoot(s, Snapshot(s, reply), now), t, pass, name, now, walk, reply);
    }
  }

  lemma RowEndTables(s: State, id: int, after: Option<int>, now: int, changed: bool, stored: bool)
    ensures SameIndex(s.tables, RowEnded(s, id, after, now, changed, stored).tables)
  {
  }

  lemma EndTables(s: State, active: ActivePass, failed: bool, after: Option<int>, now: int, reply: StorageReply)
    ensures SameIndex(s.tables, WithEnd(s, active, failed, after, now, reply).tables)
  {
    var ended := RowEnded(s, active.id, after, now, failed || Differ(active.before, after), reply.passStored);
    RowEndTables(s, active.id, after, now, failed || Differ(active.before, after), reply.passStored);
    RowEndTables(ended, active.parent, after, now, failed || Differ(ended.rootBefore, after), reply.rootEnded);
    NoteTables(RootEnded(ended, active, failed, after, now, reply), failed, reply);
  }

  lemma NoteTables(s: State, failed: bool, reply: StorageReply)
    ensures SameIndex(s.tables, FailureNoted(s, failed, reply).tables)
  {
  }

  lemma CompletedKeepsIndex(s: State, t: Thread, pass: PassPtr, active: ActivePass, failed: bool, after: Option<int>,
      now: int, reply: StorageReply)
    requires IndexOk(s.tables)
    ensures IndexOk(Closed(WithEnd(s, active, failed, after, now, reply), t, pass).tables)
  {
    EndTables(s, active, failed, after, now, reply);
    SameKeepsIndex(s.tables, WithEnd(s, active, failed, after, now, reply).tables);
  }

  lemma AfterPassKeepsIndex(s: State, t: Thread, pass: PassPtr, failed: bool, now: int, walk: seq<WalkedOp>,
      reply: StorageReply)
    requires IndexOk(s.tables) && Replay.ActiveKnown(s.activePasses, |s.tables.passes|)
    ensures IndexOk(AfterAfterPass(s, t, pass, failed, now, walk, reply).tables)
  {
    if Gated(s) {
    } else if (t, pass) !in s.activePasses {
    } else if !failed && SnapshotFailed(s, reply) {
    } else {
      var active := s.activePasses[(t, pass)];
      if failed {
        CompletedKeepsIndex(s, t, pass, active, failed, None, now, reply);
      } else {
        WalkKeepsIndex(s, active.id, After, walk, reply.indexStored, s.tables);
        CompletedKeepsIndex(IndexWritten(s, active.id, After, walk, reply.indexStored), t, pass, active, failed,
          Snapshot(s, reply), now, reply);
      }
    }
  }

  lemma IdentityTables(s: State, t: Thread, kind: EventKind, token: int, newToken: Option<int>, reply: StorageReply)
    ensures SameIndex(s.tables, AfterIdentity(s, t, kind, token, newToken, reply).tables)
  {
  }

  lemma StepKeepsIndex(s: State, c: Callback)
    requires Replay.Inv(s) && IndexOk(s.tables)
    ensures IndexOk(Step(s, c).tables)
  {
    match c
    case BeforePass(t, p, name, now, walk, reply) => BeforePassKeepsIndex(s, t, p, name, now, walk, reply);
    case AfterPass(t, p, failed, now, walk, reply) => AfterPassKeepsIndex(s, t, p, failed, now, walk, reply);
    case Identity(t, kind, token, newToken, reply) =>
      IdentityTables(s, t, kind, token, newToken, reply);
      SameKeepsIndex(s.tables, AfterIdentity(s, t, kind, token, newToken, reply).tables);
    case _ =>
  }

  /**
   * Over every run, whatever the threads do and the storage refuses, no before snapshot numbers two operations alike.
   */
  lemma {:induction false} RunKeepsIndex(fidelity: Fidelity, callbacks: seq<Callback>)
    ensures IndexOk(Run(fidelity, callbacks).tables)
  {
    if callbacks != [] {
      var earlier := callbacks[..|callbacks| - 1];
      RunKeepsIndex(fidelity, earlier);
      Replay.RunKeepsInv(fidelity, earlier);
      StepKeepsIndex(Run(fidelity, earlier), callbacks[|callbacks| - 1]);
    }
  }
}
