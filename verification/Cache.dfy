// The two least-recently-used caches in front of provenance: one bounded by
// entries, one by the summed number of histories.
module Cache {
  import opened Model

  // ----------------------------------------------------------- use order

  function Retain<K(==)>(order: seq<K>, key: K): (r: seq<K>) {
    if order == [] then [] else (if order[0] == key then [] else [order[0]]) + Retain(order[1..], key)
  }

  /** `touch`: the key moves to the recent end. */
  function Touched<K(==)>(order: seq<K>, key: K): (r: seq<K>)
    ensures r != [] && r[|r| - 1] == key
  {
    Retain(order, key) + [key]
  }

  /** The keys of a use log by last use, oldest first. */
  function Recent<K(==)>(uses: seq<K>): seq<K> {
    if uses == [] then [] else Touched(Recent(uses[..|uses| - 1]), uses[|uses| - 1])
  }

  function KeySet<K>(order: seq<K>): set<K> {
    if order == [] then {} else {order[0]} + KeySet(order[1..])
  }

  predicate Distinct<K(==)>(order: seq<K>) {
    order == [] || (order[0] !in KeySet(order[1..]) && Distinct(order[1..]))
  }

  /** The queue holds every stored key exactly once. */
  predicate ListsKeys<K(==), V>(order: seq<K>, entries: map<K, V>) {
    Distinct(order) && KeySet(order) == entries.Keys
  }

  /** The last `n` elements, or all of them. */
  function LastOf<K>(s: seq<K>, n: nat): seq<K> {
    if n <= |s| then s[|s| - n..] else s
  }

  lemma {:induction false} KeySetConcat<K>(a: seq<K>, b: seq<K>)
    ensures KeySet(a + b) == KeySet(a) + KeySet(b)
  {
    if a == [] {
      assert a + b == b;
    } else {
      assert (a + b)[1..] == a[1..] + b;
      KeySetConcat(a[1..], b);
    }
  }

  lemma {:induction false} DistinctConcat<K>(a: seq<K>, b: seq<K>)
    ensures Distinct(a + b) <==> Distinct(a) && Distinct(b) && KeySet(a) !! KeySet(b)
  {
    if a == [] {
      assert a + b == b;
    } else {
      assert (a + b)[1..] == a[1..] + b;
      DistinctConcat(a[1..], b);
      KeySetConcat(a[1..], b);
    }
  }

  lemma {:induction false} RetainRemoves<K>(order: seq<K>, key: K)
    ensures KeySet(Retain(order, key)) == KeySet(order) - {key}
  {
    if order != [] {
      RetainRemoves(order[1..], key);
      KeySetConcat(if order[0] == key then [] else [order[0]], Retain(order[1..], key));
    }
  }

  lemma {:induction false} RetainStaysDistinct<K>(order: seq<K>, key: K)
    requires Distinct(order)
    ensures Distinct(Retain(order, key))
    ensures |Retain(order, key)| == |order| - if key in KeySet(order) then 1 else 0
  {
    if order != [] {
      RetainStaysDistinct(order[1..], key);
      RetainRemoves(order[1..], key);
      if order[0] == key {
        assert Retain(order, key) == Retain(order[1..], key);
      } else {
        assert Retain(order, key)[1..] == Retain(order[1..], key);
      }
    }
  }

  lemma TouchedAdds<K>(order: seq<K>, key: K)
    requires Distinct(order)
    ensures KeySet(Touched(order, key)) == KeySet(order) + {key} && Distinct(Touched(order, key))
    ensures |Touched(order, key)| == |order| + if key in KeySet(order) then 0 else 1
  {
    RetainRemoves(order, key);
    RetainStaysDistinct(order, key);
    KeySetConcat(Retain(order, key), [key]);
    DistinctConcat(Retain(order, key), [key]);
  }

  lemma {:induction false} RetainConcat<K>(a: seq<K>, b: seq<K>, key: K)
    ensures Retain(a + b, key) == Retain(a, key) + Retain(b, key)
  {
    if a == [] {
      assert a + b == b;
    } else {
      RetainConcat(a[1..], b, key);
      var head := if a[0] == key then [] else [a[0]];
      assert (a + b)[1..] == a[1..] + b;
      Associate(head, Retain(a[1..], key), Retain(b, key));
    }
  }

  lemma {:induction false} RecentIsDistinct<K>(uses: seq<K>)
    ensures Distinct(Recent(uses))
  {
    if uses != [] {
      RecentIsDistinct(uses[..|uses| - 1]);
      TouchedAdds(Recent(uses[..|uses| - 1]), uses[|uses| - 1]);
    }
  }

  lemma RecentGrows<K>(uses: seq<K>, key: K)
    ensures Recent(uses + [key]) == Touched(Recent(uses), key)
  {
    assert (uses + [key])[..|uses|] == uses;
  }

  /** The stored order is the recent end of the whole use order. */
  predicate IsRecentEnd<K(==)>(order: seq<K>, all: seq<K>) {
    |order| <= |all| && order == all[|all| - |order|..]
  }

  lemma TailOfEnd<K>(order: seq<K>, all: seq<K>)
    requires IsRecentEnd(order, all) && order != []
    ensures IsRecentEnd(order[1..], all)
  {
  }

  /** Touching keeps a recent end a recent end. */
  lemma TouchKeepsEnd<K>(order: seq<K>, all: seq<K>, key: K)
    requires IsRecentEnd(order, all)
    ensures IsRecentEnd(Touched(order, key), Touched(all, key))
  {
    var older := all[..|all| - |order|];
    assert all == older + order;
    RetainConcat(older, order, key);
    assert Touched(all, key) == Retain(older, key) + Touched(order, key);
  }

  lemma EndIsLast<K>(order: seq<K>, all: seq<K>, n: nat)
    ensures IsRecentEnd(order, all) && (|order| == n || (|order| == |all| && |all| <= n)) ==> order == LastOf(all, n)
    ensures order == LastOf(all, n) ==> IsRecentEnd(order, all) && (|order| == n || (|order| == |all| && |all| <= n))
  {
  }

  lemma {:induction false} DistinctCount<K>(order: seq<K>)
    requires Distinct(order)
    ensures |KeySet(order)| == |order|
  {
    if order != [] {
      DistinctCount(order[1..]);
    }
  }

  lemma OrderCountsKeys<K, V>(order: seq<K>, entries: map<K, V>)
    requires ListsKeys(order, entries)
    ensures |entries| == |order|
  {
    DistinctCount(order);
    assert |entries| == |entries.Keys|;
  }

  lemma LastIsKey<K>(order: seq<K>)
    requires order != []
    ensures order[|order| - 1] in KeySet(order)
  {
    KeySetConcat(order[..|order| - 1], [order[|order| - 1]]);
    assert order == order[..|order| - 1] + [order[|order| - 1]];
  }

  /** Popping the front of the queue forgets exactly the oldest key. */
  lemma DropOldest<K, V>(order: seq<K>, entries: map<K, V>)
    requires ListsKeys(order, entries) && order != []
    ensures order[0] in entries && ListsKeys(order[1..], entries - {order[0]})
  {
    assert (entries - {order[0]}).Keys == entries.Keys - {order[0]};
  }

  lemma PutListsKeys<K, V>(order: seq<K>, entries: map<K, V>, key: K, value: V)
    requires ListsKeys(order, entries)
    ensures ListsKeys(Touched(order, key), entries[key := value])
  {
    TouchedAdds(order, key);
  }

  // -------------------------------------------------------- timeline cache

  /** What a bounded cache of `capacity` entries must hold after a history of uses. */
  predicate HoldsRecent<K(==), V>(order: seq<K>, entries: map<K, V>, uses: seq<K>, capacity: nat) {
    ListsKeys(order, entries) && order == LastOf(Recent(uses), capacity)
  }

  /** While trimming: too many entries, or already exactly the recent ones. */
  predicate Trimming<K(==), V>(order: seq<K>, entries: map<K, V>, all: seq<K>, capacity: nat) {
    ListsKeys(order, entries) && IsRecentEnd(order, all) && (|order| >= capacity || order == all)
  }

  lemma PutStartsTrimming<K, V>(order: seq<K>, entries: map<K, V>, uses: seq<K>, capacity: nat, key: K, value: V)
    requires HoldsRecent(order, entries, uses, capacity)
    ensures Trimming(Touched(order, key), entries[key := value], Recent(uses + [key]), capacity)
  {
    var all := Recent(uses);
    EndIsLast(order, all, capacity);
    TouchKeepsEnd(order, all, key);
    RecentGrows(uses, key);
    PutListsKeys(order, entries, key, value);
    TouchedAdds(order, key);
  }

  lemma TrimStep<K, V>(order: seq<K>, entries: map<K, V>, all: seq<K>, capacity: nat)
    requires Trimming(order, entries, all, capacity) && |order| > capacity
    ensures order[0] in entries && Trimming(order[1..], entries - {order[0]}, all, capacity)
  {
    DropOldest(order, entries);
    TailOfEnd(order, all);
  }

  lemma TrimEnds<K, V>(order: seq<K>, entries: map<K, V>, all: seq<K>, capacity: nat)
    requires Trimming(order, entries, all, capacity) && |order| <= capacity
    ensures order == LastOf(all, capacity)
  {
    EndIsLast(order, all, capacity);
  }

  lemma HitHoldsRecent<K, V>(order: seq<K>, entries: map<K, V>, uses: seq<K>, capacity: nat, key: K)
    requires HoldsRecent(order, entries, uses, capacity) && key in entries
    ensures HoldsRecent(Touched(order, key), entries, uses + [key], capacity)
  {
    var all := Recent(uses);
    EndIsLast(order, all, capacity);
    TouchKeepsEnd(order, all, key);
    RecentGrows(uses, key);
    TouchedAdds(order, key);
    RecentIsDistinct(uses);
    TouchedAdds(all, key);
    EndKeys(order, all);
    assert entries.Keys + {key} == entries.Keys;
    EndIsLast(Touched(order, key), Touched(all, key), capacity);
  }

  lemma EndKeys<K>(order: seq<K>, all: seq<K>)
    requires IsRecentEnd(order, all)
    ensures KeySet(order) <= KeySet(all)
  {
    KeySetConcat(all[..|all| - |order|], order);
    assert all == all[..|all| - |order|] + order;
  }

  class TimelineCache<K(==), V> {
    var entries: map<K, V>
    var order: seq<K>
    const capacity: nat
    /** Every put and every hit, in time order. */
    ghost var uses: seq<K>

    /** The queue is the `capacity` most recently used keys, and they are the ones stored. */
    ghost predicate Valid()
      reads this
    {
      HoldsRecent(order, entries, uses, capacity)
    }

    constructor (capacity: nat)
      ensures Valid() && this.capacity == capacity && entries == map[] && uses == []
    {
      entries, order, uses := map[], [], [];
      this.capacity := capacity;
    }

    /** A hit counts as a use; a miss changes nothing. */
    method Timeline(key: K) returns (value: Option<V>)
      requires Valid()
      modifies this`order, this`uses
      ensures Valid() && value == if key in entries then Some(entries[key]) else None
      ensures uses == if key in entries then old(uses) + [key] else old(uses)
    {
      value := if key in entries then Some(entries[key]) else None;
      if value.Some? {
        HitHoldsRecent(order, entries, uses, capacity, key);
        order := Touched(order, key);
        uses := uses + [key];
      }
    }

    /** Afterwards the new entry is stored and so is everything recent enough; nothing else is. */
    method Put(key: K, value: V)
      requires Valid()
      modifies this
      ensures Valid()
      ensures uses == if capacity == 0 then old(uses) else old(uses) + [key]
      ensures capacity > 0 ==> key in entries && entries[key] == value
      ensures capacity == 0 ==> entries == old(entries)
      ensures forall k :: k in entries && k != key ==> k in old(entries) && entries[k] == old(entries)[k]
    {
      if capacity == 0 {
        return;
      }
      PutStartsTrimming(order, entries, uses, capacity, key, value);
      entries := entries[key := value];
      order := Touched(order, key);
      uses := uses + [key];
      Trim(key);
    }

    method EvictOldest()
      requires Trimming(order, entries, Recent(uses), capacity) && |order| > capacity > 0
      modifies this`entries, this`order
      ensures Trimming(order, entries, Recent(uses), capacity) && |entries| == |order|
      ensures order == old(order)[1..] && order != [] && entries == old(entries) - {old(order)[0]}
    {
      TrimStep(order, entries, Recent(uses), capacity);
      var evicted := order[0];
      order := order[1..];
      entries := entries - {evicted};
      OrderCountsKeys(order, entries);
    }

    method Trim(key: K)
      requires capacity > 0 && Trimming(order, entries, Recent(uses), capacity)
      requires order != [] && order[|order| - 1] == key
      modifies this`entries, this`order
      ensures Valid() && key in entries
      ensures forall k :: k in entries ==> k in old(entries) && entries[k] == old(entries)[k]
    {
      OrderCountsKeys(order, entries);
      while |entries| > capacity
        invariant Trimming(order, entries, Recent(uses), capacity) && |entries| == |order|
        invariant order != [] && order[|order| - 1] == key
        invariant forall k :: k in entries ==> k in old(entries) && entries[k] == old(entries)[k]
        decreases |entries|
      {
        EvictOldest();
      }
      TrimEnds(order, entries, Recent(uses), capacity);
      LastIsKey(order);
    }
  }

  // --------------------------------------------------------- history cache

  function TotalWeight<K(==), V>(order: seq<K>, entries: map<K, V>, weigh: V -> nat): nat
    requires KeySet(order) <= entries.Keys
  {
    if order == [] then 0 else weigh(entries[order[0]]) + TotalWeight(order[1..], entries, weigh)
  }

  /** What is left once oldest entries went until the rest fits or is alone. */
  function Fitting<K(==), V>(order: seq<K>, entries: map<K, V>, weigh: V -> nat, bound: nat): (r: seq<K>)
    requires KeySet(order) <= entries.Keys
    ensures |r| <= |order| && (order != [] ==> r != [])
  {
    if TotalWeight(order, entries, weigh) > bound && |order| > 1 then Fitting(order[1..], entries, weigh, bound)
      else order
  }

  /** Eviction takes no more than it must: the kept entries fit, one more would not. */
  lemma {:induction false} FittingIsTight<K, V>(order: seq<K>, entries: map<K, V>, weigh: V -> nat, bound: nat, n: nat)
    requires KeySet(order) <= entries.Keys
    requires n == |order| - |Fitting(order, entries, weigh, bound)|
    ensures n <= |order| && Fitting(order, entries, weigh, bound) == order[n..]
    ensures KeySet(order[n..]) <= entries.Keys
    ensures TotalWeight(order[n..], entries, weigh) <= bound || |order| - n <= 1
    ensures n > 0 ==> KeySet(order[n - 1..]) <= entries.Keys && TotalWeight(order[n - 1..], entries, weigh) > bound
  {
    if TotalWeight(order, entries, weigh) > bound && |order| > 1 {
      FittingIsTight(order[1..], entries, weigh, bound, n - 1);
      assert order[1..][n - 1..] == order[n..];
      if n > 1 {
        assert order[1..][n - 2..] == order[n - 1..];
      } else {
        assert order[n - 1..] == order;
      }
    } else {
      assert order[0..] == order;
    }
  }

  function SaturatingSub(a: nat, b: nat): nat { if a >= b then a - b else 0 }

  lemma {:induction false} WeightUnchanged<K, V>(order: seq<K>, a: map<K, V>, b: map<K, V>, weigh: V -> nat)
    requires KeySet(order) <= a.Keys && KeySet(order) <= b.Keys
    requires forall k :: k in KeySet(order) ==> a[k] == b[k]
    ensures TotalWeight(order, a, weigh) == TotalWeight(order, b, weigh)
  {
    if order != [] {
      WeightUnchanged(order[1..], a, b, weigh);
    }
  }

  lemma {:induction false} WeightConcat<K, V>(a: seq<K>, b: seq<K>, entries: map<K, V>, weigh: V -> nat)
    requires KeySet(a) <= entries.Keys && KeySet(b) <= entries.Keys
    ensures KeySet(a + b) <= entries.Keys
    ensures TotalWeight(a + b, entries, weigh) == TotalWeight(a, entries, weigh) + TotalWeight(b, entries, weigh)
  {
    KeySetConcat(a, b);
    if a == [] {
      assert a + b == b;
    } else {
      assert (a + b)[1..] == a[1..] + b;
      WeightConcat(a[1..], b, entries, weigh);
    }
  }

  lemma {:induction false} WeightWithout<K, V>(order: seq<K>, key: K, entries: map<K, V>, weigh: V -> nat)
    requires Distinct(order) && KeySet(order) <= entries.Keys
    ensures KeySet(Retain(order, key)) <= entries.Keys
    ensures TotalWeight(order, entries, weigh)
      == TotalWeight(Retain(order, key), entries, weigh) + if key in KeySet(order) then weigh(entries[key]) else 0
  {
    RetainRemoves(order, key);
    if order != [] {
      WeightWithout(order[1..], key, entries, weigh);
      if order[0] != key {
        assert Retain(order, key)[1..] == Retain(order[1..], key);
      } else {
        assert Retain(order, key) == Retain(order[1..], key);
      }
    }
  }

  /** A put changes the total by exactly the entry it replaces and the one it adds. */
  lemma WeightAfterPut<K, V>(order: seq<K>, key: K, value: V, entries: map<K, V>, weigh: V -> nat)
    requires ListsKeys(order, entries)
    ensures KeySet(Touched(order, key)) <= entries[key := value].Keys
    ensures TotalWeight(Touched(order, key), entries[key := value], weigh)
      == TotalWeight(order, entries, weigh) - (if key in entries then weigh(entries[key]) else 0) + weigh(value)
    ensures key in entries ==> TotalWeight(order, entries, weigh) >= weigh(entries[key])
  {
    var rest, next := Retain(order, key), entries[key := value];
    RetainRemoves(order, key);
    WeightConcat(rest, [key], next, weigh);
    assert TotalWeight([key], next, weigh) == weigh(value) + TotalWeight([key][1..], next, weigh);
    WeightUnchanged(rest, next, entries, weigh);
    WeightWithout(order, key, entries, weigh);
  }

  lemma DropWeight<K, V>(order: seq<K>, entries: map<K, V>, weigh: V -> nat)
    requires ListsKeys(order, entries) && order != []
    ensures order[0] in entries && KeySet(order[1..]) <= (entries - {order[0]}).Keys
    ensures TotalWeight(order, entries, weigh) == weigh(entries[order[0]]) + TotalWeight(order[1..],
      entries - {order[0]}, weigh)
  {
    DropOldest(order, entries);
    WeightUnchanged(order[1..], entries, entries - {order[0]}, weigh);
  }

  /** The queue is recent, and the counter is the true total of what it lists. */
  predicate Accounted<K(==), V>(order: seq<K>, entries: map<K, V>, uses: seq<K>, count: nat, weigh: V -> nat) {
    ListsKeys(order, entries) && IsRecentEnd(order, Recent(uses)) && count == TotalWeight(order, entries, weigh)
  }

  lemma PutAccounts<K, V>(order: seq<K>, entries: map<K, V>, uses: seq<K>, count: nat, weigh: V -> nat, key: K,
      value: V)
    requires Accounted(order, entries, uses, count, weigh)
    ensures key in entries ==> weigh(entries[key]) <= count
    ensures Accounted(Touched(order, key), entries[key := value], uses + [key],
                      (if key in entries then SaturatingSub(count, weigh(entries[key])) else count) + weigh(value),
                        weigh)
  {
    TouchKeepsEnd(order, Recent(uses), key);
    RecentGrows(uses, key);
    PutListsKeys(order, entries, key, value);
    WeightAfterPut(order, key, value, entries, weigh);
  }

  lemma DropAccounts<K, V>(order: seq<K>, entries: map<K, V>, uses: seq<K>, count: nat, weigh: V -> nat)
    requires Accounted(order, entries, uses, count, weigh) && order != []
    ensures order[0] in entries
    ensures Accounted(order[1..], entries - {order[0]}, uses, SaturatingSub(count, weigh(entries[order[0]])), weigh)
  {
    DropOldest(order, entries);
    TailOfEnd(order, Recent(uses));
    DropWeight(order, entries, weigh);
  }

  ghost predicate PartOf<K, V>(part: map<K, V>, whole: map<K, V>) {
    part.Keys <= whole.Keys && forall k :: k in part ==> part[k] == whole[k]
  }

  lemma ShrinkStep<K, V>(order: seq<K>, entries: map<K, V>, uses: seq<K>, count: nat, weigh: V -> nat, bound: nat,
      whole: map<K, V>)
    requires Accounted(order, entries, uses, count, weigh) && |order| > 1 && count > bound && PartOf(entries, whole)
    ensures order[0] in entries && KeySet(order) <= whole.Keys && KeySet(order[1..]) <= whole.Keys
    ensures Accounted(order[1..], entries - {order[0]}, uses, SaturatingSub(count, weigh(entries[order[0]])), weigh)
    ensures PartOf(entries - {order[0]}, whole) && |entries - {order[0]}| == |order| - 1
    ensures Fitting(order, whole, weigh, bound) == Fitting(order[1..], whole, weigh, bound)
  {
    WeightUnchanged(order, entries, whole, weigh);
    DropAccounts(order, entries, uses, count, weigh);
    OrderCountsKeys(order[1..], entries - {order[0]});
  }

  class HistoryCache<K(==), V> {
    var entries: map<K, V>
    var order: seq<K>
    var chainCount: nat
    const chainCapacity: nat
    const weigh: V -> nat
    ghost var uses: seq<K>

    /** The counter is the true total, within bound unless a single entry exceeds it alone. */
    ghost predicate Valid()
      reads this
    {
      Accounted(order, entries, uses, chainCount, weigh) && (chainCount <= chainCapacity || |entries| <= 1)
    }

    constructor (chainCapacity: nat, weigh: V -> nat)
      ensures Valid() && this.chainCapacity == chainCapacity && this.weigh == weigh && entries == map[] && uses == []
    {
      entries, order, chainCount, uses := map[], [], 0, [];
      this.chainCapacity, this.weigh := chainCapacity, weigh;
    }

    method Resolved(key: K) returns (value: Option<V>)
      requires Valid()
      modifies this`order, this`uses
      ensures Valid() && value == if key in entries then Some(entries[key]) else None
      ensures order == if key in entries then Touched(old(order), key) else old(order)
      ensures uses == if key in entries then old(uses) + [key] else old(uses)
    {
      value := if key in entries then Some(entries[key]) else None;
      if value.Some? {
        PutAccounts(order, entries, uses, chainCount, weigh, key, value.value);
        assert entries[key := value.value] == entries;
        order := Touched(order, key);
        uses := uses + [key];
      }
    }

    /** Oldest entries go until the rest fits or only the new one is left. */
    method Put(key: K, value: V)
      requires Valid()
      modifies this
      ensures Valid()
      ensures uses == if chainCapacity == 0 then old(uses) else old(uses) + [key]
      ensures chainCapacity == 0 ==> entries == old(entries) && order == old(order)
      ensures chainCapacity > 0 ==> key in entries && entries[key] == value
      ensures chainCapacity > 0 ==> EvictedDownTo(old(order), old(entries), key, value, order)
      ensures forall k :: k in entries && k != key ==> k in old(entries) && entries[k] == old(entries)[k]
    {
      if chainCapacity == 0 {
        return;
      }
      PutAccounts(order, entries, uses, chainCount, weigh, key, value);
      if key in entries {
        chainCount := SaturatingSub(chainCount, weigh(entries[key]));
      }
      entries := entries[key := value];
      chainCount := chainCount + weigh(value);
      order := Touched(order, key);
      uses := uses + [key];
      Shrink(key);
    }

    predicate EvictedDownTo(before: seq<K>, stored: map<K, V>, key: K, value: V, after: seq<K>) {
      KeySet(Touched(before, key)) <= stored[key := value].Keys
      && after == Fitting(Touched(before, key), stored[key := value], weigh, chainCapacity)
    }

    method EvictOldest(ghost whole: map<K, V>)
      requires Accounted(order, entries, uses, chainCount, weigh) && |order| > 1 && chainCount > chainCapacity
      requires PartOf(entries, whole) && KeySet(order) <= whole.Keys
      modifies this`entries, this`order, this`chainCount
      ensures Accounted(order, entries, uses, chainCount, weigh) && |entries| == |order|
      ensures order == old(order)[1..] && PartOf(entries, whole) && KeySet(order) <= whole.Keys
      ensures Fitting(order, whole, weigh, chainCapacity) == Fitting(old(order), whole, weigh, chainCapacity)
    {
      ShrinkStep(order, entries, uses, chainCount, weigh, chainCapacity, whole);
      var evicted := order[0];
      var removed := entries[evicted];
      order := order[1..];
      entries := entries - {evicted};
      chainCount := SaturatingSub(chainCount, weigh(removed));
    }

    method Shrink(key: K)
      requires Accounted(order, entries, uses, chainCount, weigh) && order != [] && order[|order| - 1] == key
      modifies this`entries, this`order, this`chainCount
      ensures Valid() && key in entries && order == Fitting(old(order), old(entries), weigh, chainCapacity)
      ensures forall k :: k in entries ==> k in old(entries) && entries[k] == old(entries)[k]
    {
      OrderCountsKeys(order, entries);
      while chainCount > chainCapacity && |entries| > 1
        invariant Accounted(order, entries, uses, chainCount, weigh) && |entries| == |order|
        invariant order != [] && order[|order| - 1] == key
        invariant PartOf(entries, old(entries)) && KeySet(order) <= old(entries).Keys
        invariant Fitting(order, old(entries), weigh, chainCapacity) == Fitting(old(order), old(entries), weigh,
          chainCapacity)
        decreases |entries|
      {
        EvictOldest(old(entries));
      }
      WeightUnchanged(order, entries, old(entries), weigh);
      LastIsKey(order);
    }
  }
}
