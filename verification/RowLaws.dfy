// What the rows of a recorded trace say, told from the callbacks alone: on a
// well-nested run each row has the name, times and snapshots of the callbacks
// that began and ended its pass.
module RowLaws {
  import opened Model
  import opened Reader
  import opened Recorder
  import opened Nesting
  import Replay

  // --------------------------------------------------------- told from callbacks

  function Begins(cs: seq<Callback>): nat {
    if cs == [] then 0 else Begins(cs[..|cs| - 1]) + if cs[|cs| - 1].BeforePass? then 1 else 0
  }

  /** Where the row of the pass begun at `i` stands: behind the root's and those begun earlier. */
  function RowOf(cs: seq<Callback>, i: nat): nat
    requires i <= |cs|
  {
    1 + Begins(cs[..i])
  }

  predicate SamePass(b: Callback, c: Callback) {
    (b.BeforePass? || b.AfterPass?) && (c.BeforePass? || c.AfterPass?) && b.thread == c.thread && b.pass == c.pass
  }

  /** The callback at `j` ends the pass begun at `i`. */
  predicate Ends(cs: seq<Callback>, i: nat, j: nat) {
    && i < j < |cs| && cs[i].BeforePass? && cs[j].AfterPass? && SamePass(cs[i], cs[j])
    && forall k :: i < k < j && cs[k].AfterPass? ==> !SamePass(cs[i], cs[k])
  }

  predicate StillOpen(cs: seq<Callback>, i: nat) {
    && i < |cs| && cs[i].BeforePass?
    && forall k :: i < k < |cs| && cs[k].AfterPass? ==> !SamePass(cs[i], cs[k])
  }

  /** The snapshot a callback took; none at timeline fidelity, and none of a pass that failed. */
  function BlobAt(fidelity: Fidelity, c: Callback): Option<int> {
    match c
    case BeforePass(_, _, _, _, _, reply) => if fidelity == Timeline then None else reply.blob
    case AfterPass(_, _, failed, _, _, reply) => if fidelity == Timeline || failed then None else reply.blob
    case _ => None
  }

  predicate BegunBy(fidelity: Fidelity, c: Callback, info: PassInfo) {
    c.BeforePass? && info.startNs == c.now && info.irBefore == BlobAt(fidelity, c)
  }

  predicate NotEnded(info: PassInfo) {
    info.irAfter == None && info.endNs == info.startNs && !info.irChanged
  }

  /** The row of an ended pass changed exactly when the pass failed or both snapshots are known and differ. */
  predicate EndedBy(fidelity: Fidelity, c: Callback, info: PassInfo) {
    && c.AfterPass? && info.endNs == c.now && info.irAfter == BlobAt(fidelity, c)
    && (info.irChanged <==>
         c.failed || (info.irBefore.Some? && info.irAfter.Some? && info.irBefore.value != info.irAfter.value))
  }

  ghost predicate RowTells(fidelity: Fidelity, cs: seq<Callback>, i: nat, info: PassInfo) {
    && i < |cs| && BegunBy(fidelity, cs[i], info) && info.name == cs[i].name
    && (StillOpen(cs, i) ==> NotEnded(info))
    && forall j: nat :: Ends(cs, i, j) ==> EndedBy(fidelity, cs[j], info)
  }

  /** The callback at `j` ends a pass that hangs directly under the root. */
  ghost predicate EndsChild(cs: seq<Callback>, passes: seq<Row>, j: nat) {
    exists i: nat :: Ends(cs, i, j) && RowOf(cs, i) < |passes| && passes[RowOf(cs, i)].parent == Some(1)
  }

  ghost predicate LastChildEnd(cs: seq<Callback>, passes: seq<Row>, j: nat) {
    EndsChild(cs, passes, j) && forall k: nat :: j < k < |cs| ==> !EndsChild(cs, passes, k)
  }

  predicate FirstBegin(cs: seq<Callback>, i: nat) {
    i < |cs| && cs[i].BeforePass? && forall k :: 0 <= k < i ==> !cs[k].BeforePass?
  }

  /** The root's row begins with the first pass and ends with the last of its direct children to end. */
  ghost predicate RootTells(fidelity: Fidelity, cs: seq<Callback>, passes: seq<Row>) {
    passes != [] ==>
      && passes[0].info.name == "Pipeline"
      && (forall i: nat :: FirstBegin(cs, i) ==> BegunBy(fidelity, cs[i], passes[0].info))
      && (forall j: nat :: LastChildEnd(cs, passes, j) ==> EndedBy(fidelity, cs[j], passes[0].info))
      && ((forall j: nat :: j < |cs| ==> !EndsChild(cs, passes, j)) ==> NotEnded(passes[0].info))
  }

  ghost predicate RowsTell(fidelity: Fidelity, cs: seq<Callback>, passes: seq<Row>) {
    && |passes| == (if Begins(cs) == 0 then 0 else 1 + Begins(cs))
    && (forall i :: 0 <= i < |cs| && cs[i].BeforePass? ==>
         RowOf(cs, i) < |passes| && RowTells(fidelity, cs, i, passes[RowOf(cs, i)].info))
    && RootTells(fidelity, cs, passes)
  }

  ghost predicate SomeFailed(cs: seq<Callback>) {
    exists j :: 0 <= j < |cs| && cs[j].AfterPass? && cs[j].failed
  }

  // ------------------------------------------------------- what the maps remember

  /** The recorder remembers of each open pass its row, its parent and its snapshot. */
  predicate Remembered(fidelity: Fidelity, cs: seq<Callback>, passes: seq<Row>, i: nat, a: ActivePass)
    requires i < |cs| && cs[i].BeforePass?
  {
    && a.id == RowOf(cs, i) + 1 && a.before == BlobAt(fidelity, cs[i])
    && RowOf(cs, i) < |passes| && passes[RowOf(cs, i)].parent == Some(a.parent)
  }

  ghost predicate ActiveTells(fidelity: Fidelity, cs: seq<Callback>, passes: seq<Row>,
      active: map<Execution, ActivePass>) {
    && (forall i: nat :: StillOpen(cs, i) ==>
         (cs[i].thread, cs[i].pass) in active
           && Remembered(fidelity, cs, passes, i, active[(cs[i].thread, cs[i].pass)]))
    && (forall key :: key in active ==> Opener(cs, key))
  }

  ghost predicate Opener(cs: seq<Callback>, key: Execution) {
    exists i: nat :: StillOpen(cs, i) && key == (cs[i].thread, cs[i].pass)
  }

  /** The rows, the open passes, and what is remembered of the root. */
  datatype Books = Books(passes: seq<Row>, active: map<Execution, ActivePass>, rootBefore: Option<int>, failed: bool)

  function BooksOf(s: State): Books {
    Books(s.tables.passes, s.activePasses, s.rootBefore, s.tables.passFailed)
  }

  ghost predicate Kept(fidelity: Fidelity, cs: seq<Callback>, b: Books) {
    && RowsTell(fidelity, cs, b.passes)
    && ActiveTells(fidelity, cs, b.passes, b.active)
    && (b.passes != [] ==> b.rootBefore == b.passes[0].info.irBefore)
    && (b.failed <==> SomeFailed(cs))
  }

  // ------------------------------------------------------------- one callback more

  lemma RowOfGrown(cs: seq<Callback>, c: Callback, i: nat)
    requires i <= |cs|
    ensures RowOf(cs + [c], i) == RowOf(cs, i)
  {
    assert (cs + [c])[..i] == cs[..i];
  }

  lemma {:induction false} BeginsCount(cs: seq<Callback>, i: nat)
    requires i < |cs| && cs[i].BeforePass?
    ensures Begins(cs[..i]) < Begins(cs)
  {
    if i < |cs| - 1 {
      BeginsCount(cs[..|cs| - 1], i);
      assert cs[..|cs| - 1][..i] == cs[..i];
    }
  }

  lemma RowsDiffer(cs: seq<Callback>, i: nat, k: nat)
    requires i < k < |cs| && cs[i].BeforePass?
    ensures RowOf(cs, i) < RowOf(cs, k)
  {
    BeginsCount(cs[..k], i);
    assert cs[..k][..i] == cs[..i];
  }

  lemma EndsGrown(cs: seq<Callback>, c: Callback, i: nat, j: nat)
    ensures j < |cs| ==> (Ends(cs + [c], i, j) <==> Ends(cs, i, j))
    ensures Ends(cs + [c], i, |cs|) <==> c.AfterPass? && StillOpen(cs, i) && SamePass(cs[i], c)
    ensures i < |cs| ==> (StillOpen(cs + [c], i) <==> StillOpen(cs, i) && !(c.AfterPass? && SamePass(cs[i], c)))
  {
    var all := cs + [c];
    assert forall k :: 0 <= k < |cs| ==> all[k] == cs[k];
    if i < |cs| && StillOpen(cs, i) && !(c.AfterPass? && SamePass(cs[i], c)) {
      forall k | i < k < |all| && all[k].AfterPass?
        ensures !SamePass(all[i], all[k])
      {
        assert k < |cs| ==> all[k] == cs[k];
      }
    }
    if i < |cs| && StillOpen(all, i) {
      forall k | i < k < |cs| && cs[k].AfterPass?
        ensures !SamePass(cs[i], cs[k])
      {
        assert all[k] == cs[k];
      }
      assert c.AfterPass? ==> !SamePass(all[i], all[|cs|]);
    }
  }

  // ---------------------------------------------------- what a step does to the rows

  lemma IndexFrame(s: State, pass: int, side: SnapshotSide, walk: seq<WalkedOp>, stored: nat)
    ensures var t := IndexWritten(s, pass, side, walk, stored);
      && t.tables.passes == s.tables.passes && t.tables.passFailed == s.tables.passFailed
      && t.activePasses == s.activePasses && t.rootBefore == s.rootBefore && t.rootPass == s.rootPass
      && t.fidelity == s.fidelity
  {
    if s.fidelity != Full || s.firstError.Some? {
    } else {
      WithIndexFrame(s, Indexed(pass, side, walk, if stored < |walk| then stored else |walk|));
    }
  }

  lemma WithIndexFrame(s: State, rows: seq<IndexRow>)
    ensures var t := WithIndex(s, rows);
      && t.tables.passes == s.tables.passes && t.tables.passFailed == s.tables.passFailed
      && t.activePasses == s.activePasses && t.rootBefore == s.rootBefore && t.rootPass == s.rootPass
      && t.fidelity == s.fidelity
      && StorageFailed(t) == t.(firstError := Some(Storage))
  {
  }

  function NewInfo(name: string, blob: Option<int>, now: int): PassInfo {
    PassInfo(name, blob, None, now, now, false)
  }

  /** The root's row, if this is the first pass, and one more row for the pass. */
  predicate BeginDoes(a: Books, b: Books, c: Callback, blob: Option<int>) {
    c.BeforePass? &&
    var n := |a.passes| + (if a.passes == [] then 2 else 1);
    && |b.passes| == n && (forall k :: 0 <= k < |a.passes| ==> b.passes[k] == a.passes[k])
    && (a.passes == [] ==> b.passes[0].info == NewInfo("Pipeline", blob, c.now))
    && b.passes[n - 1].info == NewInfo(c.name, blob, c.now)
    && b.rootBefore == (if a.passes == [] then blob else a.rootBefore) && b.failed == a.failed
    && b.passes[n - 1].parent.Some?
    && b.active == a.active[(c.thread, c.pass) := ActivePass(n, b.passes[n - 1].parent.value, blob)]
  }

  lemma RootBooks(s: State, blob: Option<int>, now: int)
    ensures var r := WithRoot(s, blob, now);
      && r.activePasses == s.activePasses && r.tables.passFailed == s.tables.passFailed && r.fidelity == s.fidelity
      && (s.rootPass.Some? ==> r.tables.passes == s.tables.passes && r.rootBefore == s.rootBefore)
      && (s.rootPass.None? ==>
           && r.rootBefore == blob && |r.tables.passes| == |s.tables.passes| + 1
           && r.tables.passes[..|s.tables.passes|] == s.tables.passes
           && r.tables.passes[|s.tables.passes|].info == NewInfo("Pipeline", blob, now))
  {
  }

  lemma RowBooks(r: State, parent: int, name: string, blob: Option<int>, now: int)
    ensures var w := WithRow(r, parent, name, blob, now);
      && w.activePasses == r.activePasses && w.tables.passFailed == r.tables.passFailed
      && w.rootBefore == r.rootBefore && |w.tables.passes| == |r.tables.passes| + 1
      && w.tables.passes[..|r.tables.passes|] == r.tables.passes
      && w.tables.passes[|r.tables.passes|].info == NewInfo(name, blob, now)
      && w.tables.passes[|r.tables.passes|].parent == Some(parent)
  {
  }

  lemma RegisteredBooks(s: State, t: Thread, pass: PassPtr, a: ActivePass, walk: seq<WalkedOp>, reply: StorageReply)
    requires (t, pass) !in s.activePasses
    ensures var r := Registered(s, t, pass, a, walk, reply);
      BooksOf(r) == BooksOf(s).(active := s.activePasses[(t, pass) := a])
  {
    var mid := s.(activePasses := s.activePasses[(t, pass) := a], activePassIds := Pushed(s.activePassIds, t, a.id));
    IndexFrame(mid, a.id, Before, walk, reply.indexStored);
  }

  /** From the rows with the root's row to those with the pass's too. */
  lemma BeginBooks(a: Books, r: Books, w: Books, c: Callback, blob: Option<int>, parent: int)
    requires c.BeforePass? && |r.passes| == |a.passes| + (if a.passes == [] then 1 else 0)
    requires r.passes[..|a.passes|] == a.passes && r.active == a.active && r.failed == a.failed
    requires r.rootBefore == if a.passes == [] then blob else a.rootBefore
    requires a.passes == [] ==> r.passes[0].info == NewInfo("Pipeline", blob, c.now)
    requires |w.passes| == |r.passes| + 1 && w.passes[..|r.passes|] == r.passes && w.failed == r.failed
    requires w.rootBefore == r.rootBefore && w.active == r.active
    requires w.passes[|r.passes|].info == NewInfo(c.name, blob, c.now) && w.passes[|r.passes|].parent == Some(parent)
    ensures BeginDoes(a, w.(active := a.active[(c.thread, c.pass) := ActivePass(|r.passes| + 1, parent, blob)]), c,
      blob)
  {
    forall k | 0 <= k < |a.passes|
      ensures w.passes[k] == a.passes[k]
    {
      assert w.passes[k] == w.passes[..|r.passes|][k] == r.passes[k] == r.passes[..|a.passes|][k];
    }
    if a.passes == [] {
      assert w.passes[0] == w.passes[..|r.passes|][0];
    }
  }

  lemma BeginIsRegistered(story: Story, s: State, c: Callback)
    requires Refines(story, s) && c.BeforePass? && Fits(story, c)
    ensures var blob := BlobAt(s.fidelity, c);
      var r := WithRoot(s, blob, c.now);
      var parent := ParentFor(r, c.thread);
      && Step(s, c) == Registered(WithRow(r, parent, c.name, blob, c.now), c.thread, c.pass,
           ActivePass(|r.tables.passes| + 1, parent, blob), c.walk, c.reply)
      && (c.thread, c.pass) !in s.activePasses
      && (s.rootPass.None? <==> s.tables.passes == [])
  {
    StoredPassIs(s, c.thread, c.pass, c.name, c.now, c.walk, c.reply);
    RootBooks(s, BlobAt(s.fidelity, c), c.now);
    assert ActiveId(s.activePasses, c.thread, c.pass) == OpenId(StackOf(story.stacks, c.thread), c.pass);
    assert |story.parents| == |s.tables.passes|;
  }

  lemma BeginStep(story: Story, s: State, c: Callback)
    requires Refines(story, s) && c.BeforePass? && Fits(story, c)
    ensures BeginDoes(BooksOf(s), BooksOf(Step(s, c)), c, BlobAt(s.fidelity, c))
  {
    var blob := BlobAt(s.fidelity, c);
    var r := WithRoot(s, blob, c.now);
    BeginIsRegistered(story, s, c);
    RootBooks(s, blob, c.now);
    var parent := ParentFor(r, c.thread);
    RowBooks(r, parent, c.name, blob, c.now);
    var row := WithRow(r, parent, c.name, blob, c.now);
    BeginBooks(BooksOf(s), BooksOf(r), BooksOf(row), c, blob, parent);
    RegisteredBooks(row, c.thread, c.pass, ActivePass(|r.tables.passes| + 1, parent, blob), c.walk, c.reply);
  }

  /** Only the three columns an end writes. */
  predicate Rewritten(old_: Row, now: Row, after: Option<int>, end: int, changed: bool) {
    now == old_.(info := old_.info.(irAfter := after, endNs := end, irChanged := changed))
  }

  predicate Differs(before: Option<int>, after: Option<int>) {
    before.Some? && after.Some? && before.value != after.value
  }

  /** The pass's own row, the root's for its direct children, and no other. */
  predicate EndDoes(a: Books, b: Books, c: Callback, after: Option<int>) {
    c.AfterPass? && (c.thread, c.pass) in a.active &&
    var x := a.active[(c.thread, c.pass)];
    && |b.passes| == |a.passes|
    && (forall k :: 0 <= k < |a.passes| && k != x.id - 1 && !(k == 0 && x.parent == 1) ==> b.passes[k] == a.passes[k])
    && (2 <= x.id <= |a.passes| ==>
         Rewritten(a.passes[x.id - 1], b.passes[x.id - 1], after, c.now, c.failed || Differs(x.before, after)))
    && (2 <= x.id <= |a.passes| && x.parent == 1 ==>
         Rewritten(a.passes[0], b.passes[0], after, c.now, c.failed || Differs(a.rootBefore, after)))
    && b.active == a.active - {(c.thread, c.pass)}
    && b.rootBefore == a.rootBefore && (b.failed <==> a.failed || c.failed)
  }

  lemma EndedRows(passes: seq<Row>, id: int, after: Option<int>, now: int, changed: bool)
    ensures |Ended(passes, id, after, now, changed)| == |passes|
    ensures forall k :: 0 <= k < |passes| && k != id - 1 ==> Ended(passes, id, after, now, changed)[k] == passes[k]
    ensures 1 <= id <= |passes| ==>
      Rewritten(passes[id - 1], Ended(passes, id, after, now, changed)[id - 1], after, now, changed)
  {
  }

  lemma RowEndBooks(s: State, id: int, after: Option<int>, now: int, changed: bool)
    ensures BooksOf(RowEnded(s, id, after, now, changed, true))
      == BooksOf(s).(passes := Ended(s.tables.passes, id, after, now, changed))
    ensures RowEnded(s, id, after, now, changed, true).firstError == s.firstError
    ensures RowEnded(s, id, after, now, changed, true).rootPass == s.rootPass
  {
  }

  lemma NoteBooks(s: State, failed: bool, reply: StorageReply)
    requires s.firstError.None? && reply.metaStored
    ensures BooksOf(FailureNoted(s, failed, reply)) == BooksOf(s).(failed := s.tables.passFailed || failed)
  {
  }

  /** The books once a pass's end is written. */
  function EndBooks(a: Books, x: ActivePass, failed: bool, after: Option<int>, now: int): Books {
    var own := Ended(a.passes, x.id, after, now, failed || Differ(x.before, after));
    Books(if x.parent == 1 then Ended(own, 1, after, now, failed || Differ(a.rootBefore, after)) else own,
          a.active, a.rootBefore, a.failed || failed)
  }

  lemma EndIsWritten(s: State, x: ActivePass, failed: bool, after: Option<int>, now: int, reply: StorageReply)
    requires s.firstError.None? && s.rootPass == Some(1) && reply.passStored && reply.rootEnded && reply.metaStored
    ensures BooksOf(WithEnd(s, x, failed, after, now, reply)) == EndBooks(BooksOf(s), x, failed, after, now)
  {
    var changed := failed || Differ(x.before, after);
    RowEndBooks(s, x.id, after, now, changed);
    var own := RowEnded(s, x.id, after, now, changed, true);
    RowEndBooks(own, 1, after, now, failed || Differ(s.rootBefore, after));
    var rooted := RootEnded(own, x, failed, after, now, reply);
    assert rooted == if x.parent == 1 then RowEnded(own, 1, after, now, failed || Differ(s.rootBefore, after), true)
      else own;
    NoteBooks(rooted, failed, reply);
  }

  lemma EndBooksDo(a: Books, c: Callback, after: Option<int>)
    requires c.AfterPass? && (c.thread, c.pass) in a.active
    ensures var x := a.active[(c.thread, c.pass)];
      EndDoes(a, EndBooks(a, x, c.failed, after, c.now).(active := a.active - {(c.thread, c.pass)}), c, after)
  {
    var x := a.active[(c.thread, c.pass)];
    var own := Ended(a.passes, x.id, after, c.now, c.failed || Differ(x.before, after));
    EndedRows(a.passes, x.id, after, c.now, c.failed || Differ(x.before, after));
    EndedRows(own, 1, after, c.now, c.failed || Differ(a.rootBefore, after));
  }

  lemma EndStep(story: Story, s: State, c: Callback)
    requires Refines(story, s) && Replay.Inv(s) && c.AfterPass? && Fits(story, c)
    ensures EndDoes(BooksOf(s), BooksOf(Step(s, c)), c, BlobAt(s.fidelity, c))
  {
    var t, pass, after := c.thread, c.pass, BlobAt(s.fidelity, c);
    EndFits(story, s, c);
    var x := s.activePasses[(t, pass)];
    IndexFrame(s, x.id, After, c.walk, c.reply.indexStored);
    var indexed := if c.failed then s else IndexWritten(s, x.id, After, c.walk, c.reply.indexStored);
    IndexRefines(story, s, x.id, After, c.walk, c.reply.indexStored);
    EndIsWritten(indexed, x, c.failed, after, c.now, c.reply);
    EndBooksDo(BooksOf(s), c, after);
    EndIsClosed(story, s, c, x, indexed);
  }

  lemma EndFits(story: Story, s: State, c: Callback)
    requires Refines(story, s) && Replay.Inv(s) && c.AfterPass? && Fits(story, c)
    ensures (c.thread, c.pass) in s.activePasses && !Gated(s) && s.rootPass == Some(1)
  {
    assert ActiveId(s.activePasses, c.thread, c.pass) == OpenId(StackOf(story.stacks, c.thread), c.pass);
    assert 1 <= s.activePasses[(c.thread, c.pass)].id <= |s.tables.passes|;
  }

  lemma EndIsClosed(story: Story, s: State, c: Callback, x: ActivePass, indexed: State)
    requires Refines(story, s) && c.AfterPass? && Fits(story, c) && (c.thread, c.pass) in s.activePasses
    requires x == s.activePasses[(c.thread, c.pass)]
    requires indexed == if c.failed then s else IndexWritten(s, x.id, After, c.walk, c.reply.indexStored)
    ensures var w := WithEnd(indexed, x, c.failed, BlobAt(s.fidelity, c), c.now, c.reply);
      && Step(s, c) == Closed(w, c.thread, c.pass)
      && BooksOf(Closed(w, c.thread, c.pass)) == BooksOf(w).(active := w.activePasses - {(c.thread, c.pass)})
  {
  }

  // ---------------------------------------------------------- the rows keep telling

  /** No row's place or parent moves. */
  predicate SameRows(passes: seq<Row>, more: seq<Row>) {
    |passes| <= |more| && forall k :: 0 <= k < |passes| ==> more[k].parent == passes[k].parent
  }

  ghost predicate RowsThere(cs: seq<Callback>, passes: seq<Row>) {
    forall i: nat :: i < |cs| && cs[i].BeforePass? ==> 1 <= RowOf(cs, i) < |passes|
  }

  lemma ChildEndsStay(cs: seq<Callback>, c: Callback, passes: seq<Row>, more: seq<Row>, j: nat)
    requires SameRows(passes, more) && RowsThere(cs, passes) && j < |cs|
    ensures EndsChild(cs + [c], more, j) <==> EndsChild(cs, passes, j)
  {
    if EndsChild(cs + [c], more, j) {
      var i: nat :| Ends(cs + [c], i, j) && RowOf(cs + [c], i) < |more| && more[RowOf(cs + [c], i)].parent == Some(1);
      EndsGrown(cs, c, i, j);
      RowOfGrown(cs, c, i);
      assert Ends(cs, i, j) && cs[i].BeforePass?;
    }
    if EndsChild(cs, passes, j) {
      var i: nat :| Ends(cs, i, j) && RowOf(cs, i) < |passes| && passes[RowOf(cs, i)].parent == Some(1);
      EndsGrown(cs, c, i, j);
      RowOfGrown(cs, c, i);
    }
  }

  lemma LastEndStays(cs: seq<Callback>, c: Callback, passes: seq<Row>, more: seq<Row>)
    requires SameRows(passes, more) && RowsThere(cs, passes) && !EndsChild(cs + [c], more, |cs|)
    ensures forall j: nat :: LastChildEnd(cs + [c], more, j) ==> LastChildEnd(cs, passes, j)
    ensures (forall j: nat :: j < |cs + [c]| ==> !EndsChild(cs + [c], more, j)) ==>
      forall j: nat :: j < |cs| ==> !EndsChild(cs, passes, j)
  {
    forall j: nat | j < |cs|
      ensures EndsChild(cs + [c], more, j) <==> EndsChild(cs, passes, j)
    {
      ChildEndsStay(cs, c, passes, more, j);
    }
    forall j: nat | LastChildEnd(cs + [c], more, j)
      ensures LastChildEnd(cs, passes, j)
    {
      var i: nat :| Ends(cs + [c], i, j);
      assert j != |cs|;
    }
  }

  /** A begin of an earlier pass tells the same as long as its row does and it is not the one that ends. */
  lemma RowStays(fidelity: Fidelity, cs: seq<Callback>, c: Callback, i: nat, info: PassInfo)
    requires RowTells(fidelity, cs, i, info) && !(c.AfterPass? && StillOpen(cs, i) && SamePass(cs[i], c))
    ensures RowTells(fidelity, cs + [c], i, info)
  {
    assert (cs + [c])[i] == cs[i];
    EndsGrown(cs, c, i, |cs|);
    forall j: nat | Ends(cs + [c], i, j)
      ensures EndedBy(fidelity, (cs + [c])[j], info)
    {
      EndsGrown(cs, c, i, j);
    }
  }

  lemma FailedGrown(cs: seq<Callback>, c: Callback)
    ensures SomeFailed(cs + [c]) <==> SomeFailed(cs) || (c.AfterPass? && c.failed)
  {
    if SomeFailed(cs) {
      var j :| 0 <= j < |cs| && cs[j].AfterPass? && cs[j].failed;
      assert (cs + [c])[j] == cs[j];
    }
    if c.AfterPass? && c.failed {
      assert (cs + [c])[|cs|] == c;
    }
  }

  lemma FirstBeginStays(cs: seq<Callback>, c: Callback, i: nat)
    requires FirstBegin(cs + [c], i)
    ensures FirstBegin(cs, i) || (i == |cs| && Begins(cs) == 0)
  {
    if i < |cs| {
      assert forall k :: 0 <= k < i ==> (cs + [c])[k] == cs[k];
    } else {
      assert forall k :: 0 <= k < |cs| ==> (cs + [c])[k] == cs[k];
      NoBegins(cs);
    }
  }

  lemma {:induction false} NoBegins(cs: seq<Callback>)
    requires forall k :: 0 <= k < |cs| ==> !cs[k].BeforePass?
    ensures Begins(cs) == 0
  {
    if cs != [] {
      NoBegins(cs[..|cs| - 1]);
    }
  }

  lemma BeginsGrown(cs: seq<Callback>, c: Callback)
    ensures Begins(cs + [c]) == Begins(cs) + if c.BeforePass? then 1 else 0
  {
    assert (cs + [c])[..|cs|] == cs;
  }

  lemma {:induction false} BeginsThere(cs: seq<Callback>, i: nat)
    requires i < |cs| && cs[i].BeforePass?
    ensures Begins(cs) > 0
  {
    if i < |cs| - 1 {
      BeginsThere(cs[..|cs| - 1], i);
    }
  }

  lemma KeptQuietly(fidelity: Fidelity, cs: seq<Callback>, b: Books, c: Callback)
    requires Kept(fidelity, cs, b) && !c.BeforePass? && !c.AfterPass?
    ensures Kept(fidelity, cs + [c], b)
  {
    BeginsGrown(cs, c);
    FailedGrown(cs, c);
    forall i: nat | i < |cs + [c]| && (cs + [c])[i].BeforePass?
      ensures RowOf(cs + [c], i) < |b.passes| && RowTells(fidelity, cs + [c], i, b.passes[RowOf(cs + [c], i)].info)
    {
      RowOfGrown(cs, c, i);
      RowStays(fidelity, cs, c, i, b.passes[RowOf(cs, i)].info);
    }
    EndsChildNever(cs, c, b.passes);
    LastEndStays(cs, c, b.passes, b.passes);
    forall i: nat | FirstBegin(cs + [c], i)
      ensures FirstBegin(cs, i)
    {
      FirstBeginStays(cs, c, i);
    }
    forall j: nat | LastChildEnd(cs + [c], b.passes, j)
      ensures LastChildEnd(cs, b.passes, j) && (cs + [c])[j] == cs[j]
    {
    }
    OpenStays(fidelity, cs, c, b.passes, b.passes, b.active);
  }

  lemma EndsChildNever(cs: seq<Callback>, c: Callback, more: seq<Row>)
    requires !c.AfterPass?
    ensures !EndsChild(cs + [c], more, |cs|)
  {
    assert (cs + [c])[|cs|] == c;
  }

  lemma OpenStays(fidelity: Fidelity, cs: seq<Callback>, c: Callback, passes: seq<Row>, more: seq<Row>,
      active: map<Execution, ActivePass>)
    requires ActiveTells(fidelity, cs, passes, active) && SameRows(passes, more) && !c.BeforePass? && !c.AfterPass?
    ensures ActiveTells(fidelity, cs + [c], more, active)
  {
    forall i: nat | StillOpen(cs + [c], i)
      ensures var key := ((cs + [c])[i].thread, (cs + [c])[i].pass);
        key in active && Remembered(fidelity, cs + [c], more, i, active[key])
    {
      EndsGrown(cs, c, i, |cs|);
      RowOfGrown(cs, c, i);
      assert (cs + [c])[i] == cs[i];
    }
    forall key | key in active
      ensures Opener(cs + [c], key)
    {
      var i: nat :| StillOpen(cs, i) && key == (cs[i].thread, cs[i].pass);
      EndsGrown(cs, c, i, |cs|);
      assert (cs + [c])[i] == cs[i];
    }
  }

  lemma RowsAreThere(fidelity: Fidelity, cs: seq<Callback>, passes: seq<Row>)
    requires RowsTell(fidelity, cs, passes)
    ensures RowsThere(cs, passes)
  {
  }

  // A pass begins.

  lemma BeginKeepsRow(fidelity: Fidelity, cs: seq<Callback>, a: Books, b: Books, c: Callback, i: nat)
    requires Kept(fidelity, cs, a) && BeginDoes(a, b, c, BlobAt(fidelity, c))
    requires i < |cs + [c]| && (cs + [c])[i].BeforePass?
    ensures RowOf(cs + [c], i) < |b.passes| && RowTells(fidelity, cs + [c], i, b.passes[RowOf(cs + [c], i)].info)
  {
    RowOfGrown(cs, c, i);
    if i < |cs| {
      assert (cs + [c])[i] == cs[i];
      RowStays(fidelity, cs, c, i, a.passes[RowOf(cs, i)].info);
    } else {
      assert cs[..|cs|] == cs;
      assert (cs + [c])[i] == c;
    }
  }

  lemma BeginKeepsRoot(fidelity: Fidelity, cs: seq<Callback>, a: Books, b: Books, c: Callback)
    requires Kept(fidelity, cs, a) && BeginDoes(a, b, c, BlobAt(fidelity, c))
    ensures RootTells(fidelity, cs + [c], b.passes)
  {
    RowsAreThere(fidelity, cs, a.passes);
    EndsChildNever(cs, c, b.passes);
    LastEndStays(cs, c, a.passes, b.passes);
    forall i: nat | FirstBegin(cs + [c], i)
      ensures BegunBy(fidelity, (cs + [c])[i], b.passes[0].info)
    {
      FirstBeginStays(cs, c, i);
      if i < |cs| {
        BeginsThere(cs, i);
      }
    }
    if a.passes == [] {
      NoChildEnds(cs, a.passes);
    }
    forall j: nat | LastChildEnd(cs + [c], b.passes, j)
      ensures EndedBy(fidelity, (cs + [c])[j], b.passes[0].info)
    {
      assert LastChildEnd(cs, a.passes, j);
      assert (cs + [c])[j] == cs[j];
    }
  }

  lemma NoChildEnds(cs: seq<Callback>, passes: seq<Row>)
    requires passes == []
    ensures forall j: nat :: !EndsChild(cs, passes, j)
  {
  }

  lemma BeginKeepsActive(fidelity: Fidelity, cs: seq<Callback>, a: Books, b: Books, c: Callback)
    requires Kept(fidelity, cs, a) && BeginDoes(a, b, c, BlobAt(fidelity, c)) && (c.thread, c.pass) !in a.active
    ensures ActiveTells(fidelity, cs + [c], b.passes, b.active)
  {
    var all := cs + [c];
    assert all[|cs|] == c && all[..|cs|] == cs;
    forall i: nat | StillOpen(all, i)
      ensures var key := (all[i].thread, all[i].pass); key in b.active && Remembered(fidelity, all, b.passes, i,
        b.active[key])
    {
      RowOfGrown(cs, c, i);
      if i < |cs| {
        EndsGrown(cs, c, i, |cs|);
        assert all[i] == cs[i];
      }
    }
    forall key | key in b.active
      ensures Opener(all, key)
    {
      if key == (c.thread, c.pass) {
        assert StillOpen(all, |cs|);
      } else {
        var i: nat :| StillOpen(cs, i) && key == (cs[i].thread, cs[i].pass);
        EndsGrown(cs, c, i, |cs|);
        assert all[i] == cs[i];
      }
    }
  }

  lemma KeptByBegin(fidelity: Fidelity, cs: seq<Callback>, a: Books, b: Books, c: Callback)
    requires Kept(fidelity, cs, a) && BeginDoes(a, b, c, BlobAt(fidelity, c)) && (c.thread, c.pass) !in a.active
    ensures Kept(fidelity, cs + [c], b)
  {
    BeginsGrown(cs, c);
    FailedGrown(cs, c);
    forall i: nat | i < |cs + [c]| && (cs + [c])[i].BeforePass?
      ensures RowOf(cs + [c], i) < |b.passes| && RowTells(fidelity, cs + [c], i, b.passes[RowOf(cs + [c], i)].info)
    {
      BeginKeepsRow(fidelity, cs, a, b, c, i);
    }
    BeginKeepsRoot(fidelity, cs, a, b, c);
    BeginKeepsActive(fidelity, cs, a, b, c);
  }

  // A pass ends.

  /** The begin whose pass the callback ends is the one open pass of that name. */
  ghost predicate Closes(cs: seq<Callback>, a: Books, c: Callback, i0: nat) {
    && c.AfterPass? && StillOpen(cs, i0) && SamePass(cs[i0], c) && (c.thread, c.pass) in a.active
    && forall i: nat :: StillOpen(cs, i) && SamePass(cs[i], c) ==> i == i0
  }

  lemma OpenerCloses(fidelity: Fidelity, cs: seq<Callback>, a: Books, c: Callback) returns (i0: nat)
    requires Kept(fidelity, cs, a) && c.AfterPass? && (c.thread, c.pass) in a.active
    ensures Closes(cs, a, c, i0)
  {
    assert Opener(cs, (c.thread, c.pass));
    i0 :| StillOpen(cs, i0) && (c.thread, c.pass) == (cs[i0].thread, cs[i0].pass);
    forall i: nat | StillOpen(cs, i) && SamePass(cs[i], c)
      ensures i == i0
    {
      if i < i0 {
        RowsDiffer(cs, i, i0);
      } else if i0 < i {
        RowsDiffer(cs, i0, i);
      }
    }
  }

  lemma EndKeepsRow(fidelity: Fidelity, cs: seq<Callback>, a: Books, b: Books, c: Callback, i0: nat, i: nat)
    requires Kept(fidelity, cs, a) && EndDoes(a, b, c, BlobAt(fidelity, c)) && Closes(cs, a, c, i0)
    requires i < |cs + [c]| && (cs + [c])[i].BeforePass?
    ensures RowOf(cs + [c], i) < |b.passes| && RowTells(fidelity, cs + [c], i, b.passes[RowOf(cs + [c], i)].info)
  {
    RowOfGrown(cs, c, i);
    assert (cs + [c])[i] == cs[i];
    assert Remembered(fidelity, cs, a.passes, i0, a.active[(c.thread, c.pass)]);
    if i == i0 {
      EndedRowTells(fidelity, cs, c, i0, a.passes[RowOf(cs, i0)].info, b.passes[RowOf(cs, i0)].info);
    } else {
      if i < i0 {
        RowsDiffer(cs, i, i0);
      } else {
        RowsDiffer(cs, i0, i);
      }
      RowStays(fidelity, cs, c, i, a.passes[RowOf(cs, i)].info);
    }
  }

  lemma EndedRowTells(fidelity: Fidelity, cs: seq<Callback>, c: Callback, i0: nat, info: PassInfo, now: PassInfo)
    requires RowTells(fidelity, cs, i0, info) && StillOpen(cs, i0) && c.AfterPass? && SamePass(cs[i0], c)
    requires var after := BlobAt(fidelity, c);
      now == info.(irAfter := after, endNs := c.now, irChanged := c.failed || Differs(BlobAt(fidelity, cs[i0]), after))
    ensures RowTells(fidelity, cs + [c], i0, now)
  {
    assert (cs + [c])[i0] == cs[i0] && (cs + [c])[|cs|] == c;
    EndsGrown(cs, c, i0, |cs|);
    forall j: nat | Ends(cs + [c], i0, j)
      ensures EndedBy(fidelity, (cs + [c])[j], now)
    {
      EndsGrown(cs, c, i0, j);
      OpenIsNotEnded(cs, i0, j);
    }
  }

  lemma OpenIsNotEnded(cs: seq<Callback>, i: nat, j: nat)
    requires StillOpen(cs, i)
    ensures !Ends(cs, i, j)
  {
  }

  lemma LastIsLast(cs: seq<Callback>, passes: seq<Row>, last: nat, j: nat)
    requires |cs| == last + 1 && EndsChild(cs, passes, last) && LastChildEnd(cs, passes, j)
    ensures j == last
  {
    var i: nat :| Ends(cs, i, j);
  }

  lemma EndKeepsRoot(fidelity: Fidelity, cs: seq<Callback>, a: Books, b: Books, c: Callback, i0: nat)
    requires Kept(fidelity, cs, a) && EndDoes(a, b, c, BlobAt(fidelity, c)) && Closes(cs, a, c, i0)
    ensures RootTells(fidelity, cs + [c], b.passes)
  {
    var all, x := cs + [c], a.active[(c.thread, c.pass)];
    assert Remembered(fidelity, cs, a.passes, i0, x);
    RowsAreThere(fidelity, cs, a.passes);
    EndKeepsParents(a, b, c, BlobAt(fidelity, c));
    EndsChildNow(cs, a, b, c, i0);
    forall i: nat | FirstBegin(all, i)
      ensures BegunBy(fidelity, all[i], b.passes[0].info)
    {
      FirstBeginStays(cs, c, i);
      assert all[|cs|] == c;
    }
    if x.parent == 1 {
      forall j: nat | LastChildEnd(all, b.passes, j)
        ensures j == |cs|
      {
        LastIsLast(all, b.passes, |cs|, j);
      }
      assert all[|cs|] == c;
    } else {
      LastEndStays(cs, c, a.passes, b.passes);
      assert b.passes[0] == a.passes[0];
      forall j: nat | LastChildEnd(all, b.passes, j)
        ensures EndedBy(fidelity, all[j], b.passes[0].info)
      {
        assert LastChildEnd(cs, a.passes, j);
        assert all[j] == cs[j];
      }
    }
  }

  lemma EndKeepsParents(a: Books, b: Books, c: Callback, after: Option<int>)
    requires EndDoes(a, b, c, after) && 2 <= a.active[(c.thread, c.pass)].id <= |a.passes|
    ensures SameRows(a.passes, b.passes)
    ensures a.passes != [] ==>
      b.passes[0].info.name == a.passes[0].info.name && b.passes[0].info.startNs == a.passes[0].info.startNs
      && b.passes[0].info.irBefore == a.passes[0].info.irBefore
  {
    var x := a.active[(c.thread, c.pass)];
    forall k | 0 <= k < |a.passes|
      ensures b.passes[k].parent == a.passes[k].parent
    {
      if k == x.id - 1 || (k == 0 && x.parent == 1) {
      } else {
        assert b.passes[k] == a.passes[k];
      }
    }
  }

  lemma EndsChildNow(cs: seq<Callback>, a: Books, b: Books, c: Callback, i0: nat)
    requires Closes(cs, a, c, i0) && RowsThere(cs, a.passes) && SameRows(a.passes, b.passes)
    requires a.passes[RowOf(cs, i0)].parent == Some(a.active[(c.thread, c.pass)].parent)
    ensures EndsChild(cs + [c], b.passes, |cs|) <==> a.active[(c.thread, c.pass)].parent == 1
  {
    EndsGrown(cs, c, i0, |cs|);
    RowOfGrown(cs, c, i0);
    assert Ends(cs + [c], i0, |cs|);
    forall i: nat | Ends(cs + [c], i, |cs|)
      ensures i == i0
    {
      EndsGrown(cs, c, i, |cs|);
    }
  }

  lemma EndKeepsActive(fidelity: Fidelity, cs: seq<Callback>, a: Books, b: Books, c: Callback, i0: nat)
    requires Kept(fidelity, cs, a) && EndDoes(a, b, c, BlobAt(fidelity, c)) && Closes(cs, a, c, i0)
    ensures ActiveTells(fidelity, cs + [c], b.passes, b.active)
  {
    var all := cs + [c];
    assert Remembered(fidelity, cs, a.passes, i0, a.active[(c.thread, c.pass)]);
    EndKeepsParents(a, b, c, BlobAt(fidelity, c));
    assert all[|cs|] == c;
    forall i: nat | StillOpen(all, i)
      ensures var key := (all[i].thread, all[i].pass); key in b.active && Remembered(fidelity, all, b.passes, i,
        b.active[key])
    {
      RowOfGrown(cs, c, i);
      EndsGrown(cs, c, i, |cs|);
      assert all[i] == cs[i];
    }
    forall key | key in b.active
      ensures Opener(all, key)
    {
      var i: nat :| StillOpen(cs, i) && key == (cs[i].thread, cs[i].pass);
      EndsGrown(cs, c, i, |cs|);
      assert all[i] == cs[i];
    }
  }

  lemma KeptByEnd(fidelity: Fidelity, cs: seq<Callback>, a: Books, b: Books, c: Callback)
    requires Kept(fidelity, cs, a) && EndDoes(a, b, c, BlobAt(fidelity, c))
    ensures Kept(fidelity, cs + [c], b)
  {
    var i0 := OpenerCloses(fidelity, cs, a, c);
    BeginsGrown(cs, c);
    FailedGrown(cs, c);
    forall i: nat | i < |cs + [c]| && (cs + [c])[i].BeforePass?
      ensures RowOf(cs + [c], i) < |b.passes| && RowTells(fidelity, cs + [c], i, b.passes[RowOf(cs + [c], i)].info)
    {
      EndKeepsRow(fidelity, cs, a, b, c, i0, i);
    }
    EndKeepsRoot(fidelity, cs, a, b, c, i0);
    EndKeepsActive(fidelity, cs, a, b, c, i0);
    assert Remembered(fidelity, cs, a.passes, i0, a.active[(c.thread, c.pass)]);
    EndKeepsParents(a, b, c, BlobAt(fidelity, c));
  }

  // ------------------------------------------------------------------- every run

  lemma QuietStep(s: State, c: Callback)
    requires !c.BeforePass? && !c.AfterPass?
    ensures BooksOf(Step(s, c)) == BooksOf(s)
  {
    match c
    case Identity(t, kind, token, newToken, reply) =>
      if s.fidelity == Full && !Gated(s) && Top(s.activePassIds, t).Some? {
      }
    case _ =>
  }

  /** On every well-nested run the rows tell what the callbacks said. */
  lemma {:induction false} RunKeeps(fidelity: Fidelity, cs: seq<Callback>)
    requires WellNested(fidelity, cs)
    ensures Kept(fidelity, cs, BooksOf(Run(fidelity, cs)))
  {
    if cs == [] {
      NothingKept(fidelity);
    } else {
      var front, c := NestingSplits(fidelity, cs);
      RunKeeps(fidelity, front);
      OneMoreKept(fidelity, front, c, cs);
    }
  }

  lemma NestingSplits(fidelity: Fidelity, cs: seq<Callback>) returns (front: seq<Callback>, c: Callback)
    requires WellNested(fidelity, cs) && cs != []
    ensures cs == front + [c] && WellNested(fidelity, front) && Fits(Told(fidelity, front), c)
  {
    front, c := cs[..|cs| - 1], cs[|cs| - 1];
  }

  lemma OneMoreKept(fidelity: Fidelity, front: seq<Callback>, c: Callback, cs: seq<Callback>)
    requires WellNested(fidelity, front) && Fits(Told(fidelity, front), c) && cs == front + [c]
    requires Kept(fidelity, front, BooksOf(Run(fidelity, front)))
    ensures Kept(fidelity, cs, BooksOf(Run(fidelity, cs)))
  {
    WellNestedRunsTellTheStory(fidelity, front);
    RunKeepsFidelity(fidelity, front);
    Replay.RunKeepsInv(fidelity, front);
    RunGrows(fidelity, front, c);
    StepKeeps(fidelity, front, Told(fidelity, front), Run(fidelity, front), c);
  }

  lemma NothingKept(fidelity: Fidelity)
    ensures Kept(fidelity, [], BooksOf(Run(fidelity, [])))
  {
  }

  lemma StepKeeps(fidelity: Fidelity, cs: seq<Callback>, story: Story, s: State, c: Callback)
    requires Kept(fidelity, cs, BooksOf(s)) && Refines(story, s) && Replay.Inv(s) && Fits(story, c)
      && s.fidelity == fidelity
    ensures Kept(fidelity, cs + [c], BooksOf(Step(s, c)))
  {
    if c.BeforePass? {
      BeginStep(story, s, c);
      BeginIsRegistered(story, s, c);
      KeptByBegin(fidelity, cs, BooksOf(s), BooksOf(Step(s, c)), c);
    } else if c.AfterPass? {
      EndStep(story, s, c);
      KeptByEnd(fidelity, cs, BooksOf(s), BooksOf(Step(s, c)), c);
    } else {
      QuietStep(s, c);
      KeptQuietly(fidelity, cs, BooksOf(s), c);
    }
  }

  /**
   * On every well-nested run: each pass has one row, with the name, start and before snapshot of the
   * callback that began it and, once ended, the time, after snapshot and changed flag of the one that
   * ended it; the root's row begins with the first pass and ends with its last direct child to end; and
   * the trace is marked failed exactly when some pass failed.
   */
  lemma RecordedRowsTell(fidelity: Fidelity, cs: seq<Callback>)
    requires WellNested(fidelity, cs)
    ensures RowsTell(fidelity, cs, Run(fidelity, cs).tables.passes)
    ensures Run(fidelity, cs).tables.passFailed <==> SomeFailed(cs)
  {
    RunKeeps(fidelity, cs);
  }
}
