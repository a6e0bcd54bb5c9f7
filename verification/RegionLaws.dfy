// How regions are numbered and nested, told without the counters: a region is
// numbered by how many its parent had before it, and closing leads back out.
module RegionLaws {
  import opened Model
  import opened Parser

  /** The path is that of a region directly inside `parent`. */
  predicate ChildOf(q: Path, parent: Path) {
    |q| == |parent| + 1 && q[..|parent|] == parent
  }

  /** How many of the first `n` regions lie directly inside `parent`. */
  function Children(paths: seq<Path>, n: nat, parent: Path): nat
    requires n <= |paths|
  {
    if n == 0 then 0 else Children(paths, n - 1, parent) + if ChildOf(paths[n - 1], parent) then 1 else 0
  }

  /** The k-th region lies in another and is numbered by the ones that lay there before it. */
  predicate NumberedBySiblings(paths: seq<Path>, k: nat)
    requires k < |paths|
  {
    var q := paths[k];
    q != [] && q[|q| - 1] == Children(paths, k, q[..|q| - 1])
  }

  lemma {:induction false} ChildrenOfPrefix(paths: seq<Path>, p: Path, n: nat, parent: Path)
    requires n <= |paths|
    ensures Children(paths + [p], n, parent) == Children(paths, n, parent)
  {
    if n > 0 {
      ChildrenOfPrefix(paths, p, n - 1, parent);
    }
  }

  lemma OneMoreChild(paths: seq<Path>, p: Path, parent: Path)
    ensures Children(paths + [p], |paths| + 1, parent)
      == Children(paths, |paths|, parent) + if ChildOf(p, parent) then 1 else 0
  {
    ChildrenOfPrefix(paths, p, |paths|, parent);
  }

  /** The counter of a level counts the regions inside the one that is open there. */
  predicate Counts(o: Opened, i: nat)
    requires i <= |o.regions.path| && 0 <= i - Missing(o.regions) < |o.regions.counters|
  {
    o.regions.counters[i - Missing(o.regions)] == Children(o.paths, |o.paths|, o.regions.path[..i])
  }

  predicate AllCount(o: Opened)
    requires 0 <= Missing(o.regions) <= 1
  {
    forall i :: Missing(o.regions) <= i <= |o.regions.path| ==> Counts(o, i)
  }

  predicate AllNumbered(paths: seq<Path>) {
    forall k :: 0 <= k < |paths| ==> NumberedBySiblings(paths, k)
  }

  ghost predicate CountOk(o: Opened) {
    OpenedOk(o) && (!o.blind ==> AllCount(o) && AllNumbered(o.paths))
  }

  lemma {:induction false} NoChildren(paths: seq<Path>, n: nat, parent: Path)
    requires n <= |paths| && forall k :: 0 <= k < n ==> !ChildOf(paths[k], parent)
    ensures Children(paths, n, parent) == 0
  {
    if n > 0 {
      NoChildren(paths, n - 1, parent);
    }
  }

  lemma ChildPasses(q: Path, p: Path, n: nat)
    requires ChildOf(q, p) && n < |p|
    ensures |q| > n && q[..n] == p[..n] && q[n] == p[n]
  {
    assert q[n] == q[..|p|][n];
    assert q[..n] == q[..|p|][..n];
  }

  lemma NewRegionIsEmpty(o: Opened, p: Path)
    requires OpenedOk(o) && !o.blind && o.regions.counters != [] && p == OpenOne(o.regions).path
    ensures Children(o.paths, |o.paths|, p) == 0
  {
    var r := o.regions;
    forall k | 0 <= k < |o.paths|
      ensures !ChildOf(o.paths[k], p)
    {
      assert Numbered(o.paths[k], r, |r.path|);
      if ChildOf(o.paths[k], p) {
        ChildPasses(o.paths[k], p, |r.path|);
      }
    }
    NoChildren(o.paths, |o.paths|, p);
  }

  lemma NumbersStay(paths: seq<Path>, p: Path, k: nat)
    requires k < |paths| && NumberedBySiblings(paths, k)
    ensures NumberedBySiblings(paths + [p], k)
  {
    var q := paths[k];
    ChildrenOfPrefix(paths, p, k, q[..|q| - 1]);
  }

  lemma OpenCounts(o: Opened)
    requires CountOk(o) && !o.blind && o.regions.counters != []
    ensures CountOk(RecordOpen(o))
  {
    var r, next := o.regions, RecordOpen(o);
    var p := next.regions.path;
    OpenKeepsRecord(o);
    NewPathIsNumbered(r);
    assert r.path[..|r.path|] == r.path == p[..|r.path|];
    assert Counts(o, |r.path|);
    forall i | Missing(next.regions) <= i <= |p|
      ensures Counts(next, i)
    {
      OneMoreChild(o.paths, p, p[..i]);
      if i == |p| {
        NewRegionIsEmpty(o, p);
        assert p[..i] == p;
      } else {
        assert p[..i] == r.path[..i];
        assert Counts(o, i);
      }
    }
    forall k | 0 <= k < |next.paths|
      ensures NumberedBySiblings(next.paths, k)
    {
      if k < |o.paths| {
        NumbersStay(o.paths, p, k);
      } else {
        ChildrenOfPrefix(o.paths, p, k, r.path);
      }
    }
  }

  /** The first region of all, opened when surplus braces have already emptied the counters. */
  lemma FirstOpenCounts(o: Opened)
    requires CountOk(o) && !RecordOpen(o).blind && o.regions.counters == []
    ensures CountOk(RecordOpen(o))
  {
    OpenKeepsRecord(o);
    var next := RecordOpen(o);
    assert next == Opened(Regions([0], [0]), [[0]], false);
    OnlyRegionCounts();
  }

  lemma OnlyRegionCounts()
    ensures var o := Opened(Regions([0], [0]), [[0]],
      false); Missing(o.regions) == 1 && AllCount(o) && AllNumbered(o.paths)
  {
    var paths: seq<Path> := [[0]];
    assert Children(paths, 0, [0]) == 0 == Children(paths, 0, []);
    assert Children(paths, 1, [0]) == 0;
    assert paths[0][..0] == [] && [0][..1] == [0];
  }

  lemma CloseCounts(o: Opened)
    requires CountOk(o)
    ensures CountOk(o.(regions := CloseOne(o.regions)))
  {
    CloseKeepsRecord(o);
    var next := o.(regions := CloseOne(o.regions));
    if !o.blind && o.regions.path != [] {
      forall i | Missing(next.regions) <= i <= |next.regions.path|
        ensures Counts(next, i)
      {
        assert Counts(o, i);
        assert next.regions.path[..i] == o.regions.path[..i];
      }
    }
  }

  lemma {:induction false} OpensCount(o: Opened, n: nat)
    requires CountOk(o)
    ensures CountOk(RecordOpens(o, n))
  {
    if n > 0 {
      OpensCount(o, n - 1);
      var earlier := RecordOpens(o, n - 1);
      OpenKeepsRecord(earlier);
      if !RecordOpen(earlier).blind {
        if earlier.regions.counters == [] {
          FirstOpenCounts(earlier);
        } else {
          OpenCounts(earlier);
        }
      }
    }
  }

  lemma {:induction false} ClosesCount(o: Opened, n: nat)
    requires CountOk(o)
    ensures CountOk(RecordCloses(o, n))
  {
    if n > 0 {
      ClosesCount(o, n - 1);
      CloseCounts(RecordCloses(o, n - 1));
    }
  }

  lemma {:induction false} RecordCounts(statements: seq<Statement>, n: nat)
    requires n <= |statements|
    ensures CountOk(Recorded(statements, n))
  {
    if n > 0 {
      RecordCounts(statements, n - 1);
      var o, s := Recorded(statements, n - 1), statements[n - 1];
      var delta := Delta(Trim(s.text));
      if delta < 0 {
        ClosesCount(o, -delta);
      } else {
        OpensCount(o, delta);
      }
    }
  }

  /** Unless one was numbered blindly, each region is numbered by how many its parent had before it. */
  lemma RegionsCountSiblings(lex: Lexer, text: string)
    ensures !RegionsOf(lex, text).blind ==> AllNumbered(RegionsOf(lex, text).paths)
  {
    RecordCounts(Statements(lex, text), |Statements(lex, text)|);
  }

  lemma {:induction false} OpensNest(o: Opened, n: nat)
    ensures var r := RecordOpens(o, n);
      && |r.regions.path| == |o.regions.path| + n && r.regions.path[..|o.regions.path|] == o.regions.path
      && |r.paths| == |o.paths| + n && r.paths[..|o.paths|] == o.paths
      && forall m :: |o.paths| <= m < |r.paths| ==> r.paths[m] == r.regions.path[..|o.regions.path| + m - |o.paths| + 1]
  {
    if n > 0 {
      OpensNest(o, n - 1);
      var e, r := RecordOpens(o, n - 1), RecordOpens(o, n);
      assert r.regions.path[..|e.regions.path|] == e.regions.path;
      forall m | |o.paths| <= m < |r.paths|
        ensures r.paths[m] == r.regions.path[..|o.regions.path| + m - |o.paths| + 1]
      {
        var length := |o.regions.path| + m - |o.paths| + 1;
        if m < |e.paths| {
          assert r.paths[m] == e.paths[m] == e.regions.path[..length] == r.regions.path[..length];
        } else {
          assert r.regions.path[..length] == r.regions.path;
        }
      }
    }
  }

  lemma {:induction false} ClosesLeadOut(o: Opened, n: nat)
    ensures var r := RecordCloses(o, n);
      r.regions.path == o.regions.path[..if n <= |o.regions.path| then |o.regions.path| - n else 0]
        && r.paths == o.paths
  {
    if n > 0 {
      ClosesLeadOut(o, n - 1);
    } else {
      assert o.regions.path[..|o.regions.path|] == o.regions.path;
    }
  }

  /**
   * The region stack moves only by braces: a line of more closing than opening braces that begins with
   * a closing one leads that many regions out, any other line leads as many in as it opens, each a new
   * region inside the last.
   */
  lemma StackFollowsBraces(ss: seq<Statement>, k: nat)
    requires k < |ss|
    ensures var t, before, after := Trim(ss[k].text), Recorded(ss, k), Recorded(ss, k + 1);
      var d := Delta(t);
      if d < 0 && t[0] == '}' then
        after.paths == before.paths
        && after.regions.path == before.regions.path[..if -d <= |before.regions.path| then |before.regions.path| + d
             else 0]
      else if d > 0 then
        && |after.regions.path| == |before.regions.path| + d
        && after.regions.path[..|before.regions.path|] == before.regions.path
        && |after.paths| == |before.paths| + d && after.paths[..|before.paths|] == before.paths
        && forall m :: |before.paths| <= m < |after.paths| ==>
             after.paths[m] == after.regions.path[..|before.regions.path| + m - |before.paths| + 1]
      else after.regions.path == before.regions.path && after.paths == before.paths
  {
    var d := Delta(Trim(ss[k].text));
    CloseIsTrimmed();
    if d < 0 {
      ClosesLeadOut(Recorded(ss, k), -d);
    } else if d > 0 {
      OpensNest(Recorded(ss, k), d);
    }
  }
}
