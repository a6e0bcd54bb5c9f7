// The stable sort by key that the resolver leans on, and what fixes its result:
// the keys ascend, and elements of equal key keep their order.
module Sorting {
  import opened Model

  /** Keys compare lexicographically. */
  type Key = (int, int, int)

  predicate Less(a: Key, b: Key) {
    a.0 < b.0 || (a.0 == b.0 && (a.1 < b.1 || (a.1 == b.1 && a.2 < b.2)))
  }

  function Insert<T>(s: seq<T>, x: T, key: T -> Key): (r: seq<T>)
    ensures |r| == |s| + 1
  {
    if s == [] then [x]
    else if Less(key(x), key(s[|s| - 1])) then Insert(s[..|s| - 1], x, key) + [s[|s| - 1]]
    else s + [x]
  }

  function SortBy<T>(s: seq<T>, key: T -> Key): (r: seq<T>)
    ensures |r| == |s|
  {
    if s == [] then [] else Insert(SortBy(s[..|s| - 1], key), s[|s| - 1], key)
  }

  predicate Sorted<T>(s: seq<T>, key: T -> Key) {
    forall i, j :: 0 <= i < j < |s| ==> !Less(key(s[j]), key(s[i]))
  }

  /** The elements of one key, in order. */
  function Having<T>(s: seq<T>, key: T -> Key, k: Key): (r: seq<T>) {
    if s == [] then [] else Having(s[..|s| - 1], key, k) + if key(s[|s| - 1]) == k then [s[|s| - 1]] else []
  }

  lemma {:induction false} HavingConcat<T>(a: seq<T>, b: seq<T>, key: T -> Key, k: Key)
    ensures Having(a + b, key, k) == Having(a, key, k) + Having(b, key, k)
  {
    if b == [] {
      assert a + b == a;
    } else {
      HavingConcat(a, b[..|b| - 1], key, k);
      assert (a + b)[..|a + b| - 1] == a + b[..|b| - 1];
    }
  }

  lemma {:induction false} HavingMember<T>(s: seq<T>, key: T -> Key, k: Key, x: T)
    ensures x in Having(s, key, k) <==> x in s && key(x) == k
  {
    if s != [] {
      HavingMember(s[..|s| - 1], key, k, x);
      assert s == s[..|s| - 1] + [s[|s| - 1]];
    }
  }

  lemma {:induction false} InsertMember<T>(s: seq<T>, x: T, key: T -> Key, y: T)
    ensures y in Insert(s, x, key) <==> y in s || y == x
  {
    if s != [] && Less(key(x), key(s[|s| - 1])) {
      InsertMember(s[..|s| - 1], x, key, y);
      assert s == s[..|s| - 1] + [s[|s| - 1]];
    }
  }

  lemma {:induction false} InsertSorted<T>(s: seq<T>, x: T, key: T -> Key)
    requires Sorted(s, key)
    ensures Sorted(Insert(s, x, key), key)
  {
    if s != [] && Less(key(x), key(s[|s| - 1])) {
      var front, last := s[..|s| - 1], s[|s| - 1];
      InsertSorted(front, x, key);
      var r := Insert(front, x, key);
      assert s == front + [last];
      forall i | 0 <= i < |r|
        ensures !Less(key(last), key(r[i]))
      {
        InsertMember(front, x, key, r[i]);
        if r[i] in front {
          var j :| 0 <= j < |front| && front[j] == r[i];
          assert s[j] == r[i];
        }
      }
    }
  }

  lemma {:induction false} InsertKeepsClass<T>(s: seq<T>, x: T, key: T -> Key, k: Key)
    requires Sorted(s, key)
    ensures Having(Insert(s, x, key), key, k) == Having(s + [x], key, k)
  {
    HavingConcat(s, [x], key, k);
    assert [x][..0] == [];
    if s != [] && Less(key(x), key(s[|s| - 1])) {
      var front, last := s[..|s| - 1], s[|s| - 1];
      InsertKeepsClass(front, x, key, k);
      HavingConcat(front, [x], key, k);
      HavingConcat(Insert(front, x, key), [last], key, k);
      assert [last][..0] == [];
    }
  }

  /** Sorting sorts, and within a key changes nothing. */
  lemma {:induction false} SortByIsStable<T>(s: seq<T>, key: T -> Key)
    ensures Sorted(SortBy(s, key), key)
    ensures forall x :: x in SortBy(s, key) <==> x in s
    ensures forall k :: Having(SortBy(s, key), key, k) == Having(s, key, k)
  {
    if s != [] {
      var front, last := s[..|s| - 1], s[|s| - 1];
      SortByIsStable(front, key);
      InsertSorted(SortBy(front, key), last, key);
      forall x
        ensures x in SortBy(s, key) <==> x in s
      {
        InsertMember(SortBy(front, key), last, key, x);
        assert s == front + [last];
      }
      assert s == front + [last];
      forall k
        ensures Having(SortBy(s, key), key, k) == Having(s, key, k)
      {
        InsertKeepsClass(SortBy(front, key), last, key, k);
        HavingConcat(SortBy(front, key), [last], key, k);
        HavingConcat(front, [last], key, k);
      }
    }
  }

  /** Order within keys decides a sorted list. */
  lemma {:induction false} SortedUnique<T>(a: seq<T>, b: seq<T>, key: T -> Key)
    requires Sorted(a, key) && Sorted(b, key)
    requires forall k :: Having(a, key, k) == Having(b, key, k)
    ensures a == b
  {
    if a == [] {
      if b != [] {
        var k := key(b[0]);
        assert Having(a, key, k) == Having(b, key, k);
        HavingMember(b, key, k, b[0]);
      }
    } else {
      var last := a[|a| - 1];
      LastAgrees(a, b, key);
      forall k: Key {:trigger Having(a[..|a| - 1], key, k)}
        ensures Having(a[..|a| - 1], key, k) == Having(b[..|b| - 1], key, k)
      {
        SameButLast(a, b, key, k);
      }
      SortedUnique(a[..|a| - 1], b[..|b| - 1], key);
      assert a == a[..|a| - 1] + [last] && b == b[..|b| - 1] + [last];
    }
  }

  lemma SameButLast<T>(a: seq<T>, b: seq<T>, key: T -> Key, k: Key)
    requires a != [] && b != [] && a[|a| - 1] == b[|b| - 1] && Having(a, key, k) == Having(b, key, k)
    ensures Having(a[..|a| - 1], key, k) == Having(b[..|b| - 1], key, k)
  {
    var x, y := Having(a[..|a| - 1], key, k), Having(b[..|b| - 1], key, k);
    var last := if key(a[|a| - 1]) == k then [a[|a| - 1]] else [];
    assert x + last == y + last;
    assert x == (x + last)[..|x|];
    assert y == (y + last)[..|y|];
  }

  lemma {:induction false} LastAgrees<T>(a: seq<T>, b: seq<T>, key: T -> Key)
    requires Sorted(a, key) && Sorted(b, key) && a != []
    requires forall k :: Having(a, key, k) == Having(b, key, k)
    ensures b != [] && a[|a| - 1] == b[|b| - 1]
  {
    var x := a[|a| - 1];
    HavingMember(a, key, key(x), x);
    HavingMember(b, key, key(x), x);
    assert x in b;
    var y := b[|b| - 1];
    HavingMember(b, key, key(y), y);
    HavingMember(a, key, key(y), y);
    assert y in a;
    var i :| 0 <= i < |a| && a[i] == y;
    var j :| 0 <= j < |b| && b[j] == x;
    assert !Less(key(x), key(y)) && !Less(key(y), key(x));
    assert key(x) == key(y);
    var k := key(x);
    assert Having(a, key, k)[|Having(a, key, k)| - 1] == x;
    assert Having(b, key, k)[|Having(b, key, k)| - 1] == y;
  }

  /** Sorting a list whose keys already ascend changes nothing. */
  lemma SortKeepsSorted<T>(s: seq<T>, key: T -> Key)
    requires Sorted(s, key)
    ensures SortBy(s, key) == s
  {
    SortByIsStable(s, key);
    SortedUnique(SortBy(s, key), s, key);
  }

  lemma {:induction false} InsertPermutes<T>(s: seq<T>, x: T, key: T -> Key)
    ensures multiset(Insert(s, x, key)) == multiset(s) + multiset{x}
  {
    if s != [] {
      assert s == s[..|s| - 1] + [s[|s| - 1]];
      InsertPermutes(s[..|s| - 1], x, key);
    }
  }

  lemma {:induction false} SortByPermutes<T>(s: seq<T>, key: T -> Key)
    ensures multiset(SortBy(s, key)) == multiset(s)
  {
    if s != [] {
      assert s == s[..|s| - 1] + [s[|s| - 1]];
      SortByPermutes(s[..|s| - 1], key);
      InsertPermutes(SortBy(s[..|s| - 1], key), s[|s| - 1], key);
    }
  }

  // ------------------------------------------------- first of a kind in order

  function First<T>(s: seq<T>, p: T -> bool): (r: Option<T>)
    ensures r.Some? ==> r.value in s && p(r.value)
    ensures r.None? ==> forall x :: x in s ==> !p(x)
  {
    if s == [] then None else if p(s[0]) then Some(s[0]) else First(s[1..], p)
  }

  /** The element of the kind with the least key, the earliest on ties. */
  function Least<T>(s: seq<T>, p: T -> bool, key: T -> Key): (r: Option<T>)
    ensures r.Some? ==> r.value in s && p(r.value)
    ensures r.None? ==> forall x :: x in s ==> !p(x)
    ensures r.Some? ==> forall x :: x in s && p(x) ==> !Less(key(x), key(r.value))
  {
    if s == [] then None
    else
      var best, last := Least(s[..|s| - 1], p, key), s[|s| - 1];
      assert forall x :: x in s ==> x in s[..|s| - 1] || x == last;
      if p(last) && (best.None? || Less(key(last), key(best.value))) then Some(last) else best
  }

  lemma {:induction false} FirstConcat<T>(a: seq<T>, b: seq<T>, p: T -> bool)
    ensures First(a + b, p) == if First(a, p).Some? then First(a, p) else First(b, p)
  {
    if a == [] {
      assert a + b == b;
    } else {
      FirstConcat(a[1..], b, p);
      assert (a + b)[1..] == a[1..] + b;
    }
  }

  lemma {:induction false} FirstAfterInsert<T>(s: seq<T>, x: T, p: T -> bool, key: T -> Key)
    requires Sorted(s, key)
    ensures First(Insert(s, x, key), p)
      == if p(x) && (First(s, p).None? || Less(key(x), key(First(s, p).value))) then Some(x) else First(s, p)
  {
    if s != [] && Less(key(x), key(s[|s| - 1])) {
      var front, last := s[..|s| - 1], s[|s| - 1];
      FirstAfterInsert(front, x, p, key);
      FirstConcat(Insert(front, x, key), [last], p);
      FirstConcat(front, [last], p);
      assert s == front + [last];
    } else {
      FirstConcat(s, [x], p);
      if First(s, p).Some? {
        var f := First(s, p).value;
        var i :| 0 <= i < |s| && s[i] == f;
        assert !Less(key(s[|s| - 1]), key(f));
      }
    }
  }

  /** Walking a sorted list meets the least of a kind first. */
  lemma {:induction false} FirstIsLeast<T>(s: seq<T>, p: T -> bool, key: T -> Key)
    ensures First(SortBy(s, key), p) == Least(s, p, key)
  {
    if s != [] {
      FirstIsLeast(s[..|s| - 1], p, key);
      SortByIsStable(s[..|s| - 1], key);
      FirstAfterInsert(SortBy(s[..|s| - 1], key), s[|s| - 1], p, key);
    }
  }
}
