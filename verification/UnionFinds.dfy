// Path-compressing union-find over an array, and the proof that folding a list
// of links into it computes exactly graph connectivity.
module UnionFinds {

  // ---------------------------------------------------------------- forests

  /** `rank` witnesses that following `parent` always descends, so it ends. */
  ghost predicate Forest(parent: seq<nat>, rank: seq<nat>) {
    && |parent| == |rank|
    && forall i :: 0 <= i < |parent| ==>
         parent[i] < |parent| && (parent[i] != i ==> rank[parent[i]] < rank[i])
  }

  ghost function Root(parent: seq<nat>, rank: seq<nat>, i: nat): (r: nat)
    requires Forest(parent, rank) && i < |parent|
    ensures r < |parent| && parent[r] == r && rank[r] <= rank[i]
    ensures r == i || rank[r] < rank[i]
    decreases rank[i]
  {
    if parent[i] == i then i else Root(parent, rank, parent[i])
  }

  /** Pointing a node straight at its root changes nobody's root. */
  lemma {:induction false} CompressionKeepsRoots(parent: seq<nat>, rank: seq<nat>, v: nat, i: nat)
    requires Forest(parent, rank) && v < |parent| && i < |parent|
    ensures Forest(parent[v := Root(parent, rank, v)], rank)
    ensures Root(parent[v := Root(parent, rank, v)], rank, i) == Root(parent, rank, i)
    decreases rank[i]
  {
    if parent[i] != i {
      CompressionKeepsRoots(parent, rank, v, Root(parent, rank, i));
      CompressionKeepsRoots(parent, rank, v, parent[i]);
    }
  }

  /** Hanging root `b` below root `a`: the ranks of `b`'s tree are lifted above `a`. */
  ghost function Lifted(parent: seq<nat>, rank: seq<nat>, a: nat, b: nat): (r: seq<nat>)
    requires Forest(parent, rank) && a < |parent| && b < |parent|
    ensures |r| == |rank|
  {
    seq(|rank|, i requires 0 <= i < |rank| =>
      if Root(parent, rank, i) == b then rank[i] + rank[a] + 1 else rank[i])
  }

  lemma LinkKeepsForest(parent: seq<nat>, rank: seq<nat>, a: nat, b: nat)
    requires Forest(parent, rank) && a < |parent| && b < |parent| && a != b
    requires parent[a] == a && parent[b] == b
    ensures Forest(parent[b := a], Lifted(parent, rank, a, b))
  {
  }

  lemma {:induction false} LinkMergesRoots(parent: seq<nat>, rank: seq<nat>, a: nat, b: nat, i: nat)
    requires Forest(parent, rank) && a < |parent| && b < |parent| && a != b
    requires parent[a] == a && parent[b] == b && i < |parent|
    ensures Forest(parent[b := a], Lifted(parent, rank, a, b))
    ensures Root(parent[b := a], Lifted(parent, rank, a, b), i)
         == if Root(parent, rank, i) == b then a else Root(parent, rank, i)
    decreases rank[i]
  {
    LinkKeepsForest(parent, rank, a, b);
    if parent[i] != i {
      LinkMergesRoots(parent, rank, a, b, parent[i]);
    }
  }

  // -------------------------------------------------------------- structure

  class UnionFind {
    const parent: array<nat>
    ghost var rank: seq<nat>

    ghost predicate Valid()
      reads this, parent
    {
      Forest(parent[..], rank)
    }

    ghost function RootOf(i: nat): (r: nat)
      requires Valid() && i < parent.Length
      reads this, parent
      ensures r < parent.Length
    {
      Root(parent[..], rank, i)
    }

    constructor (size: nat)
      ensures Valid() && fresh(parent) && parent.Length == size
      ensures forall i :: 0 <= i < size ==> RootOf(i) == i
    {
      parent := new nat[size](i => i);
      rank := seq(size, i => 0);
    }

    /** Compression terminates, answers the root, and moves no root. */
    method Find(value: nat) returns (root: nat)
      requires Valid() && value < parent.Length
      modifies parent
      ensures Valid() && root == old(RootOf(value)) && parent[value] == root
      ensures forall i :: 0 <= i < parent.Length ==> RootOf(i) == old(RootOf(i))
      decreases rank[value]
    {
      if parent[value] != value {
        var top := Find(parent[value]);
        assert RootOf(value) == top;
        ghost var before: seq<nat> := parent[..];
        forall i | 0 <= i < parent.Length
          ensures Forest(before[value := top], rank)
          ensures Root(before[value := top], rank, i) == Root(before, rank, i)
        {
          CompressionKeepsRoots(before, rank, value, i);
        }
        parent[value] := top;
        assert parent[..] == before[value := top];
      }
      root := parent[value];
    }

    /** Everything under `right`'s root is now under `left`'s; nothing else moves. */
    method Union(left: nat, right: nat)
      requires Valid() && left < parent.Length && right < parent.Length
      modifies this`rank, parent
      ensures Valid()
      ensures forall i :: 0 <= i < parent.Length ==>
        RootOf(i) == if old(RootOf(i)) == old(RootOf(right)) then old(RootOf(left)) else old(RootOf(i))
    {
      var a: nat := Find(left);
      var b: nat := Find(right);
      if a != b {
        ghost var p: seq<nat>, r := parent[..], rank;
        forall i | 0 <= i < parent.Length
          ensures Forest(p[b := a], Lifted(p, r, a, b))
          ensures Root(p[b := a], Lifted(p, r, a, b), i) == if Root(p, r, i) == b then a else Root(p, r, i)
        {
          LinkMergesRoots(p, r, a, b, i);
        }
        parent[b] := a;
        rank := Lifted(p, r, a, b);
        assert parent[..] == p[b := a];
      }
    }
  }

  // ----------------------------------------------------------- connectivity

  type Link = (nat, nat)

  predicate Joined(links: seq<Link>, x: nat, y: nat) {
    (x, y) in links || (y, x) in links
  }

  /** A walk along links, each taken in either direction. */
  predicate IsChain(links: seq<Link>, chain: seq<nat>) {
    |chain| > 0 && forall k :: 0 <= k < |chain| - 1 ==> Joined(links, chain[k], chain[k + 1])
  }

  /** The reflexive-symmetric-transitive closure of the links. */
  ghost predicate Connected(links: seq<Link>, x: nat, y: nat) {
    exists chain :: IsChain(links, chain) && chain[0] == x && chain[|chain| - 1] == y
  }

  lemma ConnectedReflexive(links: seq<Link>, x: nat)
    ensures Connected(links, x, x)
  {
    assert IsChain(links, [x]);
  }

  lemma ConnectedTransitive(links: seq<Link>, x: nat, y: nat, z: nat)
    requires Connected(links, x, y) && Connected(links, y, z)
    ensures Connected(links, x, z)
  {
    var c :| IsChain(links, c) && c[0] == x && c[|c| - 1] == y;
    var d :| IsChain(links, d) && d[0] == y && d[|d| - 1] == z;
    var e := c + d[1..];
    assert forall k :: |c| <= k < |e| ==> e[k] == d[k - |c| + 1];
    assert e[|c| - 1] == d[0];
    forall k | 0 <= k < |e| - 1
      ensures Joined(links, e[k], e[k + 1])
    {
      if k >= |c| - 1 {
        assert e[k] == d[k - |c| + 1] && e[k + 1] == d[k - |c| + 2];
      }
    }
    assert IsChain(links, e);
  }

  function Reversed(chain: seq<nat>): (r: seq<nat>)
    ensures |r| == |chain| && forall k :: 0 <= k < |r| ==> r[k] == chain[|chain| - 1 - k]
  {
    seq(|chain|, k requires 0 <= k < |chain| => chain[|chain| - 1 - k])
  }

  lemma ConnectedSymmetric(links: seq<Link>, x: nat, y: nat)
    requires Connected(links, x, y)
    ensures Connected(links, y, x)
  {
    var c :| IsChain(links, c) && c[0] == x && c[|c| - 1] == y;
    var r := Reversed(c);
    forall k | 0 <= k < |r| - 1
      ensures Joined(links, r[k], r[k + 1])
    {
      assert Joined(links, c[|c| - 2 - k], c[|c| - 2 - k + 1]);
    }
    assert IsChain(links, r);
  }

  lemma ConnectedMonotone(links: seq<Link>, link: Link, x: nat, y: nat)
    requires Connected(links, x, y)
    ensures Connected(links + [link], x, y)
  {
    var c :| IsChain(links, c) && c[0] == x && c[|c| - 1] == y;
    assert IsChain(links + [link], c);
  }

  /** What one more link adds to the closure. */
  ghost predicate Bridged(links: seq<Link>, link: Link, x: nat, y: nat) {
    || Connected(links, x, y)
    || (Connected(links, x, link.0) && Connected(links, link.1, y))
    || (Connected(links, x, link.1) && Connected(links, link.0, y))
  }

  lemma {:induction false} ChainBridged(links: seq<Link>, link: Link, chain: seq<nat>)
    requires IsChain(links + [link], chain)
    ensures Bridged(links, link, chain[0], chain[|chain| - 1])
    decreases |chain|
  {
    var x, y := chain[0], chain[|chain| - 1];
    if |chain| == 1 {
      ConnectedReflexive(links, x);
    } else {
      var rest := chain[1..];
      var z := rest[0];
      forall k | 0 <= k < |rest| - 1
        ensures Joined(links + [link], rest[k], rest[k + 1])
      {
        assert Joined(links + [link], chain[k + 1], chain[k + 2]);
      }
      ChainBridged(links, link, rest);
      assert Joined(links + [link], chain[0], chain[1]);
      StepBridged(links, link, x, z, y);
    }
  }

  lemma StepBridged(links: seq<Link>, link: Link, x: nat, z: nat, y: nat)
    requires Joined(links + [link], x, z) && Bridged(links, link, z, y)
    ensures Bridged(links, link, x, y)
  {
    ConnectedReflexive(links, link.0);
    ConnectedReflexive(links, link.1);
    if Joined(links, x, z) {
      assert IsChain(links, [x, z]);
      assert [x, z][|[x, z]| - 1] == z;
      assert Connected(links, x, z);
      if Connected(links, z, y) {
        ConnectedTransitive(links, x, z, y);
      } else if Connected(links, z, link.0) && Connected(links, link.1, y) {
        ConnectedTransitive(links, x, z, link.0);
      } else {
        ConnectedTransitive(links, x, z, link.1);
      }
    }
  }

  lemma ConnectedExtended(links: seq<Link>, link: Link, x: nat, y: nat)
    ensures Connected(links + [link], x, y) <==> Bridged(links, link, x, y)
  {
    var more := links + [link];
    if Connected(more, x, y) {
      var c :| IsChain(more, c) && c[0] == x && c[|c| - 1] == y;
      ChainBridged(links, link, c);
    }
    if Bridged(links, link, x, y) {
      assert IsChain(more, [link.0, link.1]) && IsChain(more, [link.1, link.0]);
      assert [link.0, link.1][1] == link.1 && [link.1, link.0][1] == link.0;
      assert Connected(more, link.0, link.1) && Connected(more, link.1, link.0);
      if Connected(links, x, y) {
        ConnectedMonotone(links, link, x, y);
      } else if Connected(links, x, link.0) && Connected(links, link.1, y) {
        ConnectedMonotone(links, link, x, link.0);
        ConnectedMonotone(links, link, link.1, y);
        ConnectedTransitive(more, x, link.0, link.1);
        ConnectedTransitive(more, x, link.1, y);
      } else {
        ConnectedMonotone(links, link, x, link.1);
        ConnectedMonotone(links, link, link.0, y);
        ConnectedTransitive(more, x, link.1, link.0);
        ConnectedTransitive(more, x, link.0, y);
      }
    }
  }

  lemma ConnectedByNothing(x: nat, y: nat)
    ensures Connected([], x, y) <==> x == y
  {
    ConnectedReflexive([], x);
    if Connected([], x, y) {
      var c :| IsChain([], c) && c[0] == x && c[|c| - 1] == y;
      assert |c| > 1 ==> !Joined([], c[0], c[0 + 1]);
    }
  }

  /** `root` names each element's class under the closure of `links`. */
  ghost predicate Represents(root: seq<nat>, links: seq<Link>) {
    forall i, j :: 0 <= i < |root| && 0 <= j < |root| ==> (root[i] == root[j] <==> Connected(links, i, j))
  }

  /** Uniting two classes is closing under one more link. */
  lemma UniteRepresents(root: seq<nat>, links: seq<Link>, a: nat, b: nat, united: seq<nat>)
    requires Represents(root, links) && a < |root| && b < |root| && |united| == |root|
    requires forall i :: 0 <= i < |root| ==> united[i] == if root[i] == root[b] then root[a] else root[i]
    ensures Represents(united, links + [(a, b)])
  {
    forall i, j | 0 <= i < |root| && 0 <= j < |root|
      ensures united[i] == united[j] <==> Connected(links + [(a, b)], i, j)
    {
      ConnectedExtended(links, (a, b), i, j);
    }
  }

  /** Folding the links in, in any order, computes connectivity. */
  method MergeLinks(size: nat, links: seq<Link>) returns (uf: UnionFind)
    requires forall k :: 0 <= k < |links| ==> links[k].0 < size && links[k].1 < size
    ensures fresh(uf) && fresh(uf.parent) && uf.Valid() && uf.parent.Length == size
    ensures forall i, j :: 0 <= i < size && 0 <= j < size ==>
      (uf.RootOf(i) == uf.RootOf(j) <==> Connected(links, i, j))
  {
    uf := new UnionFind(size);
    ghost var root := seq(size, i => i);
    forall i, j | 0 <= i < size && 0 <= j < size
      ensures root[i] == root[j] <==> Connected([], i, j)
    {
      ConnectedByNothing(i, j);
    }
    for k := 0 to |links|
      invariant uf.Valid() && |root| == size && fresh(uf) && fresh(uf.parent) && uf.parent.Length == size
      invariant forall i :: 0 <= i < size ==> root[i] == uf.RootOf(i)
      invariant Represents(root, links[..k])
    {
      uf.Union(links[k].0, links[k].1);
      ghost var united := seq(size, i requires 0 <= i < size =>
        if root[i] == root[links[k].1] then root[links[k].0] else root[i]);
      UniteRepresents(root, links[..k], links[k].0, links[k].1, united);
      assert links[..k + 1] == links[..k] + [links[k]];
      root := united;
    }
    assert links[..|links|] == links;
  }
}
