// The greedy fingerprint matcher. A matching is kept by position: entry i says
// which position of the after list the i-th before operation went to.
module Matcher {
  import opened Model

  type Matching = seq<Option<nat>>
  type Pair = (Option<OpIdx>, Option<OpIdx>)

  // ---------------------------------------------------------------- scoring

  function FingerprintScore(before: OpFingerprint, after: OpFingerprint): (r: Option<nat>)
    ensures r.Some? <==> before.opName == after.opName
    ensures r.Some? ==> 50 <= r.value <= 100
  {
    if before.opName != after.opName then None
    else Some(50
              + (if before.resultTypes == after.resultTypes then 25 else 0)
              + (if before.operandCount == after.operandCount then 15 else 0)
              + (if before.location.Some? && before.location == after.location then 10 else 0))
  }

  const MATCH_THRESHOLD: int := 50

  /** `unwrap_or(0)`: operations of different names never reach the threshold. */
  function ScoreOrZero(before: OpFingerprint, after: OpFingerprint): (r: nat)
    ensures r >= MATCH_THRESHOLD <==> before.opName == after.opName
  {
    match FingerprintScore(before, after)
    case Some(score) => score
    case None => 0
  }

  function Worth(agree: bool, points: nat): nat { if agree then points else 0 }

  /** 50 for the name, 25 more for equal types, 15 for as many operands, 10 for one known location. */
  predicate ScoreTells(before: ParsedOp, after: ParsedOp, score: nat) {
    score == 50 + Worth(before.resultTypes == after.resultTypes, 25)
             + Worth(|before.operands| == |after.operands|, 15)
             + Worth(before.location.Some? && before.location == after.location, 10)
  }

  /** Two operations of one name score what they agree on; others score nothing. */
  lemma ScoreWeighs(before: ParsedOp, after: ParsedOp)
    ensures FingerprintScore(Fingerprint(before), Fingerprint(after)).Some? <==> before.name == after.name
    ensures var score := ScoreOrZero(Fingerprint(before), Fingerprint(after));
      if before.name == after.name then ScoreTells(before, after, score) else score == 0
  {
  }

  // ------------------------------------------------------------ exact phase

  /** How often `x` occurs among the first `n` elements. */
  function Seen<T(==)>(s: seq<T>, n: nat, x: T): nat
    requires n <= |s|
  {
    if n == 0 then 0 else Seen(s, n - 1, x) + if s[n - 1] == x then 1 else 0
  }

  lemma {:induction false} SeenMonotone<T>(s: seq<T>, m: nat, n: nat, x: T)
    requires m <= n <= |s|
    ensures Seen(s, m, x) <= Seen(s, n, x)
    ensures m < n && s[m] == x ==> Seen(s, m, x) < Seen(s, n, x)
    decreases n
  {
    if m < n {
      SeenMonotone(s, m, n - 1, x);
    }
  }

  /** Counting up to `n` passes every smaller count at an occurrence. */
  lemma {:induction false} SeenHits<T>(s: seq<T>, n: nat, x: T, k: nat) returns (j: nat)
    requires n <= |s| && k < Seen(s, n, x)
    ensures j < n && s[j] == x && Seen(s, j, x) == k
  {
    if Seen(s, n - 1, x) > k {
      j := SeenHits(s, n - 1, x, k);
    } else {
      j := n - 1;
    }
  }

  /** Both are the k-th occurrence of one fingerprint in their lists. */
  predicate Twins<T(==)>(bf: seq<T>, af: seq<T>, i: nat, j: nat)
    requires i < |bf| && j < |af|
  {
    bf[i] == af[j] && Seen(bf, i, bf[i]) == Seen(af, j, af[j])
  }

  lemma TwinsUnique<T>(bf: seq<T>, af: seq<T>, i: nat, i': nat, j: nat, j': nat)
    requires i < |bf| && i' < |bf| && j < |af| && j' < |af|
    requires Twins(bf, af, i, j) && Twins(bf, af, i', j')
    ensures i == i' <==> j == j'
  {
    if i < i' { SeenMonotone(bf, i, i', bf[i]); }
    if i' < i { SeenMonotone(bf, i', i, bf[i']); }
    if j < j' { SeenMonotone(af, j, j', af[j]); }
    if j' < j { SeenMonotone(af, j', j, af[j']); }
  }

  /** The position of the k-th occurrence of `x` among the first `n` elements. */
  function Nth<T(==)>(s: seq<T>, n: nat, x: T, k: nat): (r: Option<nat>)
    requires n <= |s|
    ensures r.Some? <==> k < Seen(s, n, x)
    ensures r.Some? ==> r.value < n && s[r.value] == x && Seen(s, r.value, x) == k
  {
    if n == 0 then None
    else if s[n - 1] == x && Seen(s, n - 1, x) == k then Some(n - 1)
    else Nth(s, n - 1, x, k)
  }

  function ExactMatching<T(==)>(bf: seq<T>, af: seq<T>): (m: Matching)
    ensures |m| == |bf|
  {
    seq(|bf|, i requires 0 <= i < |bf| => Nth(af, |af|, bf[i], Seen(bf, i, bf[i])))
  }

  /** The exact phase pairs the k-th occurrence with the k-th occurrence, and nothing else. */
  lemma ExactPairsTwins<T>(bf: seq<T>, af: seq<T>, i: nat, j: nat)
    requires i < |bf| && j < |af|
    ensures ExactMatching(bf, af)[i] == Some(j) <==> Twins(bf, af, i, j)
  {
    var r := ExactMatching(bf, af)[i];
    if Twins(bf, af, i, j) {
      SeenMonotone(af, j, |af|, af[j]);
      TwinsUnique(bf, af, i, i, j, r.value);
    }
  }

  // ---------------------------------------------------------- scoring phase

  /** Positions are untaken until some before operation was sent there. */
  predicate Free(m: Matching, j: nat) {
    Some(j) !in m
  }

  /** The earliest free position of the highest score among the first `n`. */
  function BestFree(f: OpFingerprint, af: seq<OpFingerprint>, m: Matching, n: nat): (r: Option<nat>)
    requires n <= |af|
    ensures r.Some? ==> r.value < n && Free(m, r.value) && af[r.value].opName == f.opName
    ensures forall j :: 0 <= j < n && Free(m, j) && af[j].opName == f.opName ==>
      && r.Some?
      && ScoreOrZero(f, af[j]) <= ScoreOrZero(f, af[r.value])
      && (ScoreOrZero(f, af[j]) == ScoreOrZero(f, af[r.value]) ==> r.value <= j)
  {
    if n == 0 then None
    else
      var best := BestFree(f, af, m, n - 1);
      if && Free(m, n - 1)
         && ScoreOrZero(f, af[n - 1]) >= MATCH_THRESHOLD
         && (best.Some? ==> ScoreOrZero(f, af[n - 1]) > ScoreOrZero(f, af[best.value]))
      then Some(n - 1)
      else best
  }

  /** Second phase from before position `i` on: each unmatched operation takes its best. */
  function Fill(bf: seq<OpFingerprint>, af: seq<OpFingerprint>, m: Matching, i: nat): (r: Matching)
    requires |m| == |bf| && i <= |bf|
    ensures |r| == |m|
    decreases |bf| - i
  {
    if i == |bf| then m
    else if m[i].Some? then Fill(bf, af, m, i + 1)
    else Fill(bf, af, m[i := BestFree(bf[i], af, m, |af|)], i + 1)
  }

  function Greedy(bf: seq<OpFingerprint>, af: seq<OpFingerprint>): (m: Matching)
    ensures |m| == |bf|
  {
    Fill(bf, af, ExactMatching(bf, af), 0)
  }

  // -------------------------------------------------- what a matching is for

  /** One-to-one, inside both lists, and never across operation names. */
  predicate Sound(bf: seq<OpFingerprint>, af: seq<OpFingerprint>, m: Matching) {
    && |m| == |bf|
    && (forall i :: 0 <= i < |m| && m[i].Some? ==> m[i].value < |af| && bf[i].opName == af[m[i].value].opName)
    && (forall i, j :: 0 <= i < j < |m| && m[i].Some? ==> m[i] != m[j])
  }

  /** No before operation is left over while a free after operation shares its name. */
  predicate Saturated(bf: seq<OpFingerprint>, af: seq<OpFingerprint>, m: Matching, n: nat)
    requires |m| == |bf| && n <= |bf|
  {
    forall i, j :: 0 <= i < n && m[i].None? && 0 <= j < |af| && Free(m, j) ==> bf[i].opName != af[j].opName
  }

  lemma ExactIsSound(bf: seq<OpFingerprint>, af: seq<OpFingerprint>)
    ensures Sound(bf, af, ExactMatching(bf, af))
  {
    var m := ExactMatching(bf, af);
    forall i, j | 0 <= i < j < |m| && m[i].Some?
      ensures m[i] != m[j]
    {
      if m[i] == m[j] {
        ExactPairsTwins(bf, af, i, m[i].value);
        ExactPairsTwins(bf, af, j, m[i].value);
        TwinsUnique(bf, af, i, j, m[i].value, m[i].value);
      }
    }
  }

  /** What was decided stays: the pairs there are, and the first `i` operations. */
  predicate Keeps(m: Matching, r: Matching, i: nat)
    requires |m| == |r|
  {
    forall k :: 0 <= k < |m| && (m[k].Some? || k < i) ==> r[k] == m[k]
  }

  lemma KeepsOn(m: Matching, i: nat, best: Option<nat>, r: Matching)
    requires i < |m| == |r| && m[i].None? && Keeps(m[i := best], r, i + 1)
    ensures Keeps(m, r, i)
  {
    assert forall k :: 0 <= k < |m| && (m[k].Some? || k < i) ==> m[i := best][k] == m[k];
  }

  lemma KeepsLess(m: Matching, r: Matching, i: nat)
    requires |m| == |r| && Keeps(m, r, i + 1)
    ensures Keeps(m, r, i)
  {
  }

  lemma {:induction false} FillKeeps(bf: seq<OpFingerprint>, af: seq<OpFingerprint>, m: Matching, i: nat)
    requires Sound(bf, af, m) && i <= |bf| && Saturated(bf, af, m, i)
    ensures Sound(bf, af, Fill(bf, af, m, i)) && Saturated(bf, af, Fill(bf, af, m, i), |bf|)
    ensures Keeps(m, Fill(bf, af, m, i), i)
    decreases |bf| - i
  {
    if i < |bf| {
      if m[i].Some? {
        FillKeeps(bf, af, m, i + 1);
        KeepsLess(m, Fill(bf, af, m, i + 1), i);
      } else {
        var best := BestFree(bf[i], af, m, |af|);
        BestKeepsOrder(bf, af, m, i, best);
        FillKeeps(bf, af, m[i := best], i + 1);
        KeepsOn(m, i, best, Fill(bf, af, m[i := best], i + 1));
      }
    }
  }

  /** Sending one more operation to its best free target keeps the matching in order. */
  lemma BestKeepsOrder(bf: seq<OpFingerprint>, af: seq<OpFingerprint>, m: Matching, i: nat, best: Option<nat>)
    requires i < |bf| && Sound(bf, af, m) && Saturated(bf, af, m, i) && m[i].None?
    requires best == BestFree(bf[i], af, m, |af|)
    ensures Sound(bf, af, m[i := best]) && Saturated(bf, af, m[i := best], i + 1)
  {
    FreeShrinks(m, i, best);
    BestKeepsSound(bf, af, m, i, best);
  }

  lemma BestKeepsSound(bf: seq<OpFingerprint>, af: seq<OpFingerprint>, m: Matching, i: nat, best: Option<nat>)
    requires i < |bf| && Sound(bf, af, m) && m[i].None?
    requires best.Some? ==> best.value < |af| && bf[i].opName == af[best.value].opName && Free(m, best.value)
    ensures Sound(bf, af, m[i := best])
  {
  }

  lemma FreeShrinks(m: Matching, i: nat, j: Option<nat>)
    requires i < |m| && m[i].None?
    ensures forall k: nat :: Free(m[i := j], k) <==> Free(m, k) && j != Some(k)
  {
    var next := m[i := j];
    forall k: nat
      ensures Free(next, k) <==> Free(m, k) && j != Some(k)
    {
      assert next[i] == j;
      if !Free(m, k) {
        var p :| 0 <= p < |m| && m[p] == Some(k);
        assert next[p] == Some(k);
      }
    }
  }

  /** The greedy result is a matching, extends the exact phase and leaves nothing matchable. */
  lemma GreedySound(bf: seq<OpFingerprint>, af: seq<OpFingerprint>)
    ensures Sound(bf, af, Greedy(bf, af)) && Saturated(bf, af, Greedy(bf, af), |bf|)
    ensures forall i, j :: 0 <= i < |bf| && 0 <= j < |af| && Twins(bf, af, i, j) ==> Greedy(bf, af)[i] == Some(j)
  {
    ExactIsSound(bf, af);
    FillKeeps(bf, af, ExactMatching(bf, af), 0);
    forall i, j | 0 <= i < |bf| && 0 <= j < |af| && Twins(bf, af, i, j)
      ensures Greedy(bf, af)[i] == Some(j)
    {
      ExactPairsTwins(bf, af, i, j);
    }
  }

  /** Matched against itself, every operation is paired with itself. */
  lemma GreedyOnItself(f: seq<OpFingerprint>, i: nat)
    requires i < |f|
    ensures Greedy(f, f)[i] == Some(i)
  {
    GreedySound(f, f);
    assert Twins(f, f, i, i);
  }

  /** The k-th before operation went somewhere at least as good as `j`, and no later on equal scores. */
  predicate AtLeastAsGood(bf: seq<OpFingerprint>, af: seq<OpFingerprint>, r: Matching, k: nat, j: nat)
    requires k < |bf| == |r| && j < |af|
  {
    && r[k].Some? && r[k].value < |af|
    && ScoreOrZero(bf[k], af[j]) <= ScoreOrZero(bf[k], af[r[k].value])
    && (ScoreOrZero(bf[k], af[j]) == ScoreOrZero(bf[k], af[r[k].value]) ==> r[k].value <= j)
  }

  /** Somebody from `from` on but before the k-th took `j`. */
  predicate TakenEarlier(r: Matching, from: nat, k: nat, j: nat)
    requires k <= |r|
  {
    exists e :: from <= e < k && r[e] == Some(j)
  }

  lemma FillTakesBest(bf: seq<OpFingerprint>, af: seq<OpFingerprint>, m: Matching, k: nat, j: nat)
    requires k < |bf| && j < |af| && Sound(bf, af, m) && Saturated(bf, af, m, k) && m[k].None?
    requires bf[k].opName == af[j].opName && Free(m, j)
    ensures AtLeastAsGood(bf, af, Fill(bf, af, m, k), k, j)
  {
    var best := BestFree(bf[k], af, m, |af|);
    FillAfter(bf, af, m, k, best);
  }

  /** One more operation sent away, the filling goes on with what it was sent to in place. */
  lemma FillAfter(bf: seq<OpFingerprint>, af: seq<OpFingerprint>, m: Matching, i: nat, best: Option<nat>)
    requires i < |bf| && Sound(bf, af, m) && Saturated(bf, af, m, i) && m[i].None?
      && best == BestFree(bf[i], af, m, |af|)
    ensures Sound(bf, af, m[i := best]) && Saturated(bf, af, m[i := best], i + 1)
    ensures Fill(bf, af, m, i) == Fill(bf, af, m[i := best], i + 1) && Fill(bf, af, m, i)[i] == best
  {
    BestKeepsOrder(bf, af, m, i, best);
    FillKeeps(bf, af, m[i := best], i + 1);
  }

  /** Inferred pairs are locally best: a better or equal earlier target was already gone. */
  lemma {:induction false} FillChoosesBest(bf: seq<OpFingerprint>, af: seq<OpFingerprint>, m: Matching, i: nat, k: nat,
      j: nat)
    requires i <= k < |bf| && j < |af| && Sound(bf, af, m) && Saturated(bf, af, m, i) && m[k].None?
    requires bf[k].opName == af[j].opName && Free(m, j)
    ensures var r := Fill(bf, af, m, i); TakenEarlier(r, i, k, j) || AtLeastAsGood(bf, af, r, k, j)
    decreases |bf| - i
  {
    var r := Fill(bf, af, m, i);
    if i == k {
      FillTakesBest(bf, af, m, k, j);
    } else if m[i].Some? {
      FillChoosesBest(bf, af, m, i + 1, k, j);
      TakenSooner(r, i, k, j);
    } else {
      var best := BestFree(bf[i], af, m, |af|);
      FillAfter(bf, af, m, i, best);
      if best == Some(j) {
        assert TakenEarlier(r, i, k, j);
      } else {
        StaysFree(m, i, best, j);
        FillChoosesBest(bf, af, m[i := best], i + 1, k, j);
        TakenSooner(r, i, k, j);
      }
    }
  }

  lemma TakenSooner(r: Matching, from: nat, k: nat, j: nat)
    requires from < k <= |r|
    ensures TakenEarlier(r, from + 1, k, j) ==> TakenEarlier(r, from, k, j)
  {
  }

  lemma StaysFree(m: Matching, i: nat, best: Option<nat>, j: nat)
    requires i < |m| && m[i].None? && Free(m, j) && best != Some(j)
    ensures Free(m[i := best], j)
  {
    FreeShrinks(m, i, best);
  }

  /** An inferred pair has the best score, the earliest position on ties, among what earlier pairs left. */
  lemma GreedyChoosesBest(bf: seq<OpFingerprint>, af: seq<OpFingerprint>, k: nat, j: nat)
    requires k < |bf| && j < |af| && bf[k].opName == af[j].opName && ExactMatching(bf, af)[k].None?
    ensures var m := Greedy(bf, af);
      || (exists e :: 0 <= e < |bf| && (ExactMatching(bf, af)[e].Some? || e < k) && m[e] == Some(j))
      || AtLeastAsGood(bf, af, m, k, j)
  {
    var x := ExactMatching(bf, af);
    ExactIsSound(bf, af);
    FillKeeps(bf, af, x, 0);
    if Free(x, j) {
      FillChoosesBest(bf, af, x, 0, k, j);
    } else {
      var e :| 0 <= e < |x| && x[e] == Some(j);
      assert Greedy(bf, af)[e] == Some(j);
    }
  }

  // ------------------------------------------------------------ cardinality

  function Named(f: seq<OpFingerprint>, name: string): (r: set<nat>) {
    set i: nat | i < |f| && f[i].opName == name
  }

  /** Before positions of one name that the matching pairs. */
  function Paired(bf: seq<OpFingerprint>, m: Matching, name: string): (r: set<nat>)
    requires |m| == |bf|
  {
    set i: nat | i < |bf| && bf[i].opName == name && m[i].Some?
  }

  function Targets(m: Matching, from: set<nat>): (r: set<nat>)
    requires forall i :: i in from ==> i < |m| && m[i].Some?
  {
    set i | i in from :: m[i].value
  }

  lemma {:induction false} InjectiveImageSize(m: Matching, from: set<nat>)
    requires forall i :: i in from ==> i < |m| && m[i].Some?
    requires forall i, j :: 0 <= i < j < |m| && m[i].Some? ==> m[i] != m[j]
    ensures |Targets(m, from)| == |from|
    decreases from
  {
    if from != {} {
      var x :| x in from;
      InjectiveImageSize(m, from - {x});
      assert Targets(m, from) == Targets(m, from - {x}) + {m[x].value};
    }
  }

  lemma SubsetSize(a: set<nat>, b: set<nat>)
    requires a <= b
    ensures |a| <= |b|
  {
    assert b == a + (b - a);
  }

  function Min(a: nat, b: nat): nat { if a <= b then a else b }

  /** No one-to-one name-respecting pairing has more pairs of a name than either side has operations. */
  lemma SoundBound(bf: seq<OpFingerprint>, af: seq<OpFingerprint>, m: Matching, name: string)
    requires Sound(bf, af, m)
    ensures |Paired(bf, m, name)| <= Min(|Named(bf, name)|, |Named(af, name)|)
  {
    var p := Paired(bf, m, name);
    SubsetSize(p, Named(bf, name));
    InjectiveImageSize(m, p);
    SubsetSize(Targets(m, p), Named(af, name));
  }

  /** Greedy reaches that bound for every name. */
  lemma GreedyMaximal(bf: seq<OpFingerprint>, af: seq<OpFingerprint>, name: string)
    ensures |Paired(bf, Greedy(bf, af), name)| == Min(|Named(bf, name)|, |Named(af, name)|)
  {
    var m := Greedy(bf, af);
    GreedySound(bf, af);
    SoundBound(bf, af, m, name);
    var p := Paired(bf, m, name);
    InjectiveImageSize(m, p);
    if p != Named(bf, name) {
      var i :| i in Named(bf, name) && i !in p;
      forall j | j in Named(af, name)
        ensures j in Targets(m, p)
      {
        assert !Free(m, j);
        var k :| 0 <= k < |m| && m[k] == Some(j);
        assert k in p;
      }
      SubsetSize(Named(af, name), Targets(m, p));
    }
  }

  function PairedAny(bf: seq<OpFingerprint>, m: Matching, names: set<string>): (r: set<nat>)
    requires |m| == |bf|
  {
    set i: nat | i < |bf| && bf[i].opName in names && m[i].Some?
  }

  lemma PairedSplits(bf: seq<OpFingerprint>, m: Matching, names: set<string>, n: string)
    requires |m| == |bf| && n in names
    ensures |PairedAny(bf, m, names)| == |PairedAny(bf, m, names - {n})| + |Paired(bf, m, n)|
  {
    assert PairedAny(bf, m, names) == PairedAny(bf, m, names - {n}) + Paired(bf, m, n);
    assert PairedAny(bf, m, names - {n}) !! Paired(bf, m, n);
  }

  lemma {:induction false} GreedyBeatsOn(bf: seq<OpFingerprint>, af: seq<OpFingerprint>, other: Matching,
      names: set<string>)
    requires Sound(bf, af, other)
    ensures |PairedAny(bf, other, names)| <= |PairedAny(bf, Greedy(bf, af), names)|
    decreases names
  {
    if names == {} {
      assert PairedAny(bf, other, names) == {};
    } else {
      var n :| n in names;
      GreedyBeatsOn(bf, af, other, names - {n});
      SoundBound(bf, af, other, n);
      GreedyMaximal(bf, af, n);
      PairedSplits(bf, other, names, n);
      PairedSplits(bf, Greedy(bf, af), names, n);
    }
  }

  function Matched(m: Matching): (r: set<nat>) {
    set i: nat | i < |m| && m[i].Some?
  }

  /** Maximum cardinality: no one-to-one name-respecting pairing has more pairs in all. */
  lemma GreedyMaximum(bf: seq<OpFingerprint>, af: seq<OpFingerprint>, other: Matching)
    requires Sound(bf, af, other)
    ensures |Matched(other)| <= |Matched(Greedy(bf, af))|
  {
    var names := set i | 0 <= i < |bf| :: bf[i].opName;
    GreedyBeatsOn(bf, af, other, names);
    assert PairedAny(bf, other, names) == Matched(other);
    assert PairedAny(bf, Greedy(bf, af), names) == Matched(Greedy(bf, af));
  }

  // ----------------------------------------------------- pairs of operations

  function Lift(ops: seq<OpIdx>, position: Option<nat>): Option<OpIdx> {
    if position.Some? && position.value < |ops| then Some(ops[position.value]) else None
  }

  /** The first `n` after operations without those somebody was sent to. */
  function Leftover(afterOps: seq<OpIdx>, m: Matching, n: nat): (r: seq<Pair>)
    requires n <= |afterOps|
  {
    if n == 0 then []
    else Leftover(afterOps, m, n - 1) + if Free(m, n - 1) then [(None, Some(afterOps[n - 1]))] else []
  }

  function Assigned(beforeOps: seq<OpIdx>, afterOps: seq<OpIdx>, m: Matching): (r: seq<Pair>)
    requires |m| == |beforeOps|
    ensures |r| == |beforeOps|
  {
    seq(|beforeOps|, i requires 0 <= i < |beforeOps| => (Some(beforeOps[i]), Lift(afterOps, m[i])))
  }

  function Assemble(beforeOps: seq<OpIdx>, afterOps: seq<OpIdx>, m: Matching): (r: seq<Pair>)
    requires |m| == |beforeOps|
  {
    Assigned(beforeOps, afterOps, m) + Leftover(afterOps, m, |afterOps|)
  }

  function Fingerprints(module_: ParsedModule, ops: seq<OpIdx>): (r: seq<OpFingerprint>)
    requires InBounds(ops, |module_.ops|)
    ensures |r| == |ops|
  {
    seq(|ops|, i requires 0 <= i < |ops| => Fingerprint(module_.ops[ops[i]]))
  }

  function MatchedPairs(before: ParsedModule, beforeOps: seq<OpIdx>, after: ParsedModule,
      afterOps: seq<OpIdx>): (r: seq<Pair>)
    requires InBounds(beforeOps, |before.ops|) && InBounds(afterOps, |after.ops|)
  {
    Assemble(beforeOps, afterOps, Greedy(Fingerprints(before, beforeOps), Fingerprints(after, afterOps)))
  }

  /** The matcher as the engine runs it: flags per after position, one pass per phase. */
  method MatchOps(before: ParsedModule, beforeOps: seq<OpIdx>, after: ParsedModule, afterOps: seq<OpIdx>)
    returns (pairs: seq<Pair>)
    requires InBounds(beforeOps, |before.ops|) && InBounds(afterOps, |after.ops|)
    ensures pairs == MatchedPairs(before, beforeOps, after, afterOps)
  {
    var bf := Fingerprints(before, beforeOps);
    var af := Fingerprints(after, afterOps);
    var afterTaken := new bool[|afterOps|](_ => false);
    pairs := ExactPhase(bf, af, beforeOps, afterOps, afterTaken);
    pairs := ScorePhase(before, bf, af, beforeOps, afterOps, afterTaken, pairs);

    pairs := AppendAdded(afterOps, afterTaken, pairs, Greedy(bf, af));
  }

  /** The flags say exactly which after positions `m` uses. */
  predicate FlagsMatch(taken: seq<bool>, m: Matching) {
    forall j :: 0 <= j < |taken| ==> (taken[j] <==> !Free(m, j))
  }

  method ExactPhase(bf: seq<OpFingerprint>, af: seq<OpFingerprint>, beforeOps: seq<OpIdx>, afterOps: seq<OpIdx>,
      afterTaken: array<bool>) returns (pairs: seq<Pair>)
    requires |bf| == |beforeOps| && |af| == |afterOps| == afterTaken.Length
    requires forall j :: 0 <= j < |af| ==> !afterTaken[j]
    modifies afterTaken
    ensures pairs == Assigned(beforeOps, afterOps, ExactMatching(bf, af))
    ensures FlagsMatch(afterTaken[..], ExactMatching(bf, af))
  {
    pairs := [];
    ghost var goal := Assigned(beforeOps, afterOps, ExactMatching(bf, af));
    for i := 0 to |beforeOps|
      invariant pairs == goal[..i]
      invariant DueFlags(bf, af, i, afterTaken[..])
    {
      var pair := ExactOne(bf, af, beforeOps, afterOps, afterTaken, i);
      pairs := pairs + [pair];
      assert goal[..i + 1] == goal[..i] + [goal[i]];
    }
    ExactTakes(bf, af, afterTaken[..]);
  }

  method ExactOne(bf: seq<OpFingerprint>, af: seq<OpFingerprint>, beforeOps: seq<OpIdx>, afterOps: seq<OpIdx>,
      afterTaken: array<bool>, i: nat) returns (pair: Pair)
    requires |bf| == |beforeOps| && |af| == |afterOps| == afterTaken.Length && i < |bf|
    requires DueFlags(bf, af, i, afterTaken[..])
    modifies afterTaken
    ensures DueFlags(bf, af, i + 1, afterTaken[..])
    ensures pair == (Some(beforeOps[i]), Lift(afterOps, ExactMatching(bf, af)[i]))
  {
    var j := FindUntaken(bf[i], af, afterTaken);
    FirstUntakenIsNth(bf, af, i, j, afterTaken[..]);
    ghost var flags := afterTaken[..];
    pair := (Some(beforeOps[i]), None);
    if j < |afterOps| {
      afterTaken[j] := true;
      assert afterTaken[..] == flags[j := true];
      pair := (Some(beforeOps[i]), Some(afterOps[j]));
    }
  }

  method AppendAdded(afterOps: seq<OpIdx>, afterTaken: array<bool>, matched: seq<Pair>, ghost m: Matching)
    returns (pairs: seq<Pair>)
    requires afterTaken.Length == |afterOps| && FlagsMatch(afterTaken[..], m)
    ensures pairs == matched + Leftover(afterOps, m, |afterOps|)
  {
    pairs := matched;
    for j := 0 to |afterOps|
      invariant pairs == matched + Leftover(afterOps, m, j)
    {
      assert afterTaken[j] == afterTaken[..][j];
      if !afterTaken[j] {
        pairs := pairs + [(None, Some(afterOps[j]))];
      }
    }
  }

  method FindUntaken(f: OpFingerprint, af: seq<OpFingerprint>, afterTaken: array<bool>) returns (j: nat)
    requires afterTaken.Length == |af|
    ensures j <= |af| && (j < |af| ==> !afterTaken[j] && af[j] == f)
    ensures forall k :: 0 <= k < j ==> afterTaken[k] || af[k] != f
  {
    j := 0;
    while j < |af| && !(!afterTaken[j] && af[j] == f)
      invariant 0 <= j <= |af|
      invariant forall k :: 0 <= k < j ==> afterTaken[k] || af[k] != f
    {
      j := j + 1;
    }
  }

  method PositionOf(ops: seq<OpIdx>, op: OpIdx) returns (i: nat)
    requires op in ops
    ensures i < |ops| && ops[i] == op && op !in ops[..i]
  {
    i := 0;
    while ops[i] != op
      invariant 0 <= i < |ops| && op !in ops[..i]
      decreases |ops| - i
    {
      i := i + 1;
    }
  }

  method ScorePhase(ghost before: ParsedModule, bf: seq<OpFingerprint>, af: seq<OpFingerprint>, beforeOps: seq<OpIdx>,
      afterOps: seq<OpIdx>, afterTaken: array<bool>, exact: seq<Pair>)
    returns (pairs: seq<Pair>)
    requires InBounds(beforeOps, |before.ops|) && bf == Fingerprints(before, beforeOps)
    requires |af| == |afterOps| == afterTaken.Length
    requires exact == Assigned(beforeOps, afterOps, ExactMatching(bf, af))
    requires FlagsMatch(afterTaken[..], ExactMatching(bf, af))
    modifies afterTaken
    ensures pairs == Assigned(beforeOps, afterOps, Greedy(bf, af))
    ensures FlagsMatch(afterTaken[..], Greedy(bf, af))
  {
    pairs := exact;
    ghost var m := ExactMatching(bf, af);
    for i := 0 to |beforeOps|
      invariant Progress(beforeOps, afterOps, m, pairs, afterTaken[..])
      invariant Fill(bf, af, m, i) == Greedy(bf, af)
    {
      PairShowsMatch(beforeOps, afterOps, m, pairs, afterTaken[..], i);
      if pairs[i].1.None? {
        pairs := ScoreOne(before, bf, af, beforeOps, afterOps, afterTaken, pairs, i, m);
        m := m[i := BestFree(bf[i], af, m, |af|)];
      }
    }
  }

  lemma PairShowsMatch(beforeOps: seq<OpIdx>, afterOps: seq<OpIdx>, m: Matching, pairs: seq<Pair>, taken: seq<bool>,
      i: nat)
    requires Progress(beforeOps, afterOps, m, pairs, taken) && i < |m|
    ensures |pairs| == |m| && (pairs[i].1.None? <==> m[i].None?)
  {
  }

  method ScoreOne(ghost before: ParsedModule, bf: seq<OpFingerprint>, af: seq<OpFingerprint>, beforeOps: seq<OpIdx>,
      afterOps: seq<OpIdx>, afterTaken: array<bool>, pairs: seq<Pair>, i: nat, ghost m: Matching)
    returns (next: seq<Pair>)
    requires InBounds(beforeOps, |before.ops|) && bf == Fingerprints(before, beforeOps)
    requires |af| == |afterOps| == afterTaken.Length && i < |beforeOps|
    requires Progress(beforeOps, afterOps, m, pairs, afterTaken[..]) && pairs[i].1.None?
    modifies afterTaken
    ensures Progress(beforeOps, afterOps, m[i := BestFree(bf[i], af, m, |af|)], next, afterTaken[..])
  {
    next := pairs;
    var beforePosition := PositionOf(beforeOps, beforeOps[i]);
    var best := FindBest(bf[beforePosition], af, afterTaken, m);
    SendTo(beforeOps, afterOps, m, i, best, pairs, afterTaken[..]);
    ghost var flags := afterTaken[..];
    if best.Some? {
      afterTaken[best.value] := true;
      assert afterTaken[..] == flags[best.value := true];
      next := pairs[i := (pairs[i].0, Some(afterOps[best.value]))];
    }
  }

  /** Pairs and flags both record the matching `m`. */
  predicate Progress(beforeOps: seq<OpIdx>, afterOps: seq<OpIdx>, m: Matching, pairs: seq<Pair>, taken: seq<bool>) {
    && |m| == |beforeOps| && |taken| == |afterOps|
    && (forall k :: 0 <= k < |m| && m[k].Some? ==> m[k].value < |afterOps|)
    && pairs == Assigned(beforeOps, afterOps, m)
    && FlagsMatch(taken, m)
  }

  /** Sending one more before operation away updates flags and pairs alike. */
  lemma SendTo(beforeOps: seq<OpIdx>, afterOps: seq<OpIdx>, m: Matching, i: nat, best: Option<nat>, pairs: seq<Pair>,
      taken: seq<bool>)
    requires Progress(beforeOps, afterOps, m, pairs, taken) && i < |m| && m[i].None?
    requires best.Some? ==> best.value < |afterOps|
    ensures if best.None? then m[i := best] == m
      else Progress(beforeOps, afterOps, m[i := best], pairs[i := (Some(beforeOps[i]), Some(afterOps[best.value]))],
        taken[best.value := true])
  {
    FreeShrinks(m, i, best);
  }

  method FindBest(f: OpFingerprint, af: seq<OpFingerprint>, afterTaken: array<bool>, ghost m: Matching)
    returns (best: Option<nat>)
    requires afterTaken.Length == |af| && FlagsMatch(afterTaken[..], m)
    ensures best == BestFree(f, af, m, |af|)
  {
    best := None;
    for j := 0 to |af|
      invariant best == BestFree(f, af, m, j)
    {
      assert afterTaken[j] == afterTaken[..][j];
      if !afterTaken[j] {
        var candidate := ScoreOrZero(f, af[j]);
        if candidate >= MATCH_THRESHOLD && (best.None? || candidate > ScoreOrZero(f, af[best.value])) {
          best := Some(j);
        }
      }
    }
  }

  /** A position is flagged once as many equal fingerprints as precede it were served. */
  predicate DueFlags(bf: seq<OpFingerprint>, af: seq<OpFingerprint>, i: nat, taken: seq<bool>)
    requires i <= |bf|
  {
    |taken| == |af| && forall k :: 0 <= k < |af| ==> (taken[k] <==> Seen(af, k, af[k]) < Seen(bf, i, af[k]))
  }

  /** The first untaken equal fingerprint is the occurrence whose number is due. */
  lemma FirstUntakenIsNth(bf: seq<OpFingerprint>, af: seq<OpFingerprint>, i: nat, j: nat, taken: seq<bool>)
    requires i < |bf| && j <= |af| && DueFlags(bf, af, i, taken)
    requires forall k :: 0 <= k < j ==> taken[k] || af[k] != bf[i]
    requires j < |af| ==> !taken[j] && af[j] == bf[i]
    ensures ExactMatching(bf, af)[i] == if j < |af| then Some(j) else None
    ensures DueFlags(bf, af, i + 1, if j < |af| then taken[j := true] else taken)
  {
    var due := Seen(bf, i, bf[i]);
    if due < Seen(af, j, bf[i]) {
      var k := SeenHits(af, j, bf[i], due);
      assert false;
    }
    if j < |af| {
      ExactPairsTwins(bf, af, i, j);
    }
    var flags := if j < |af| then taken[j := true] else taken;
    forall k | 0 <= k < |af|
      ensures flags[k] <==> Seen(af, k, af[k]) < Seen(bf, i + 1, af[k])
    {
      SeenMonotone(af, k, |af|, af[k]);
      if k < j { SeenMonotone(af, k, j, af[k]); }
      if j < k { SeenMonotone(af, j, k, af[j]); }
    }
  }

  /** After the exact phase the flags are exactly the positions the matching uses. */
  lemma ExactTakes(bf: seq<OpFingerprint>, af: seq<OpFingerprint>, taken: seq<bool>)
    requires DueFlags(bf, af, |bf|, taken)
    ensures FlagsMatch(taken, ExactMatching(bf, af))
  {
    var m := ExactMatching(bf, af);
    forall k | 0 <= k < |af|
      ensures taken[k] <==> !Free(m, k)
    {
      if taken[k] {
        var i := SeenHits(bf, |bf|, af[k], Seen(af, k, af[k]));
        ExactPairsTwins(bf, af, i, k);
        assert m[i] == Some(k);
      }
      if !Free(m, k) {
        var i :| 0 <= i < |m| && m[i] == Some(k);
        ExactPairsTwins(bf, af, i, k);
        SeenMonotone(bf, i, |bf|, af[k]);
      }
    }
  }

  // ----------------------------------------------------------- conservation

  function Befores(pairs: seq<Pair>): (r: seq<Option<OpIdx>>)
    ensures |r| == |pairs|
  {
    seq(|pairs|, k requires 0 <= k < |pairs| => pairs[k].0)
  }

  function Afters(pairs: seq<Pair>): (r: seq<Option<OpIdx>>)
    ensures |r| == |pairs|
  {
    seq(|pairs|, k requires 0 <= k < |pairs| => pairs[k].1)
  }

  /** The list mentions exactly the given operations, each at one place. */
  ghost predicate ListsOnce(list: seq<Option<OpIdx>>, ops: seq<OpIdx>) {
    && (forall op :: op in ops <==> Some(op) in list)
    && (forall k, l :: 0 <= k < l < |list| && list[k].Some? ==> list[k] != list[l])
  }

  ghost predicate IsLeftover(afterOps: seq<OpIdx>, m: Matching, n: nat, p: Pair)
    requires n <= |afterOps|
  {
    exists j :: 0 <= j < n && Free(m, j) && p == (None, Some(afterOps[j]))
  }

  /** The unmatched after operations, in list order. */
  lemma {:induction false} LeftoverListsFree(afterOps: seq<OpIdx>, m: Matching, n: nat)
    requires n <= |afterOps| && StrictlyIncreasing(afterOps)
    ensures var l := Leftover(afterOps, m, n);
      && (forall k :: 0 <= k < |l| ==> l[k].0.None? && l[k].1.Some? && (n < |afterOps| ==> l[k].1.value < afterOps[n]))
      && (forall k, k' :: 0 <= k < k' < |l| ==> l[k].1.value < l[k'].1.value)
      && (forall j :: 0 <= j < n && Free(m, j) ==> (None, Some(afterOps[j])) in l)
      && (forall p :: p in l ==> IsLeftover(afterOps, m, n, p))
  {
    if n > 0 {
      LeftoverListsFree(afterOps, m, n - 1);
      var rest := Leftover(afterOps, m, n - 1);
      var last: seq<Pair> := if Free(m, n - 1) then [(None, Some(afterOps[n - 1]))] else [];
      assert Leftover(afterOps, m, n) == rest + last;
      forall j | 0 <= j < n && Free(m, j)
        ensures (None, Some(afterOps[j])) in rest + last
      {
        if j < n - 1 {
          assert (None, Some(afterOps[j])) in rest;
        } else {
          assert (None, Some(afterOps[j])) in last;
        }
      }
      forall p | p in Leftover(afterOps, m, n)
        ensures IsLeftover(afterOps, m, n, p)
      {
        if p in Leftover(afterOps, m, n - 1) {
          assert IsLeftover(afterOps, m, n - 1, p);
        } else {
          assert Free(m, n - 1);
        }
      }
    }
  }

  lemma BeforesOnce(beforeOps: seq<OpIdx>, afterOps: seq<OpIdx>, m: Matching)
    requires |m| == |beforeOps| && StrictlyIncreasing(beforeOps)
    ensures ListsOnce(Befores(Assemble(beforeOps, afterOps, m)), beforeOps)
  {
    var pairs := Assemble(beforeOps, afterOps, m);
    LeftoverHasNoBefore(afterOps, m, |afterOps|);
    assert forall k :: |m| <= k < |pairs| ==> pairs[k] in Leftover(afterOps, m, |afterOps|);
    assert forall k :: 0 <= k < |m| ==> Befores(pairs)[k] == Some(beforeOps[k]);
    assert forall k :: |m| <= k < |pairs| ==> Befores(pairs)[k].None?;
  }

  lemma AfterOnlyOnce(beforeOps: seq<OpIdx>, afterOps: seq<OpIdx>, m: Matching, k: nat, l: nat)
    requires |m| == |beforeOps| && StrictlyIncreasing(afterOps)
    requires forall i :: 0 <= i < |m| && m[i].Some? ==> m[i].value < |afterOps|
    requires forall i, j :: 0 <= i < j < |m| && m[i].Some? ==> m[i] != m[j]
    requires k < l < |Assemble(beforeOps, afterOps, m)| && Assemble(beforeOps, afterOps, m)[k].1.Some?
    ensures Assemble(beforeOps, afterOps, m)[k].1 != Assemble(beforeOps, afterOps, m)[l].1
  {
    LeftoverListsFree(afterOps, m, |afterOps|);
    var pairs, rest := Assemble(beforeOps, afterOps, m), Leftover(afterOps, m, |afterOps|);
    if k < |m| <= l {
      assert pairs[l] == rest[l - |m|] && pairs[l] in rest;
      assert IsLeftover(afterOps, m, |afterOps|, pairs[l]);
      var j :| 0 <= j < |afterOps| && Free(m, j) && pairs[l] == (None, Some(afterOps[j]));
      assert !Free(m, m[k].value);
    } else if |m| <= k {
      assert pairs[k] == rest[k - |m|] && pairs[l] == rest[l - |m|];
    }
  }

  lemma AftersOnce(beforeOps: seq<OpIdx>, afterOps: seq<OpIdx>, m: Matching)
    requires |m| == |beforeOps| && StrictlyIncreasing(afterOps)
    requires forall i :: 0 <= i < |m| && m[i].Some? ==> m[i].value < |afterOps|
    requires forall i, j :: 0 <= i < j < |m| && m[i].Some? ==> m[i] != m[j]
    ensures ListsOnce(Afters(Assemble(beforeOps, afterOps, m)), afterOps)
  {
    var pairs := Assemble(beforeOps, afterOps, m);
    forall op
      ensures op in afterOps <==> Some(op) in Afters(pairs)
    {
      if op in afterOps {
        AfterIsListed(beforeOps, afterOps, m, op);
      }
      if Some(op) in Afters(pairs) {
        var k :| 0 <= k < |pairs| && Afters(pairs)[k] == Some(op);
        if k >= |m| {
          LeftoverListsFree(afterOps, m, |afterOps|);
          assert pairs[k] in Leftover(afterOps, m, |afterOps|);
        } else {
          assert pairs[k].1 == Lift(afterOps, m[k]);
        }
      }
    }
    forall k, l | 0 <= k < l < |pairs| && Afters(pairs)[k].Some?
      ensures Afters(pairs)[k] != Afters(pairs)[l]
    {
      AfterOnlyOnce(beforeOps, afterOps, m, k, l);
    }
  }

  lemma AfterIsListed(beforeOps: seq<OpIdx>, afterOps: seq<OpIdx>, m: Matching, op: OpIdx)
    requires |m| == |beforeOps| && op in afterOps && StrictlyIncreasing(afterOps)
    ensures Some(op) in Afters(Assemble(beforeOps, afterOps, m))
  {
    var pairs := Assemble(beforeOps, afterOps, m);
    var j :| 0 <= j < |afterOps| && afterOps[j] == op;
    if Free(m, j) {
      LeftoverListsFree(afterOps, m, |afterOps|);
      var l := Leftover(afterOps, m, |afterOps|);
      var k :| 0 <= k < |l| && l[k] == (None, Some(op));
      assert pairs[|beforeOps| + k] == l[k];
      assert Afters(pairs)[|beforeOps| + k] == Some(op);
    } else {
      var i :| 0 <= i < |m| && m[i] == Some(j);
      assert Afters(pairs)[i] == Some(op);
    }
  }

  /** Conservation for the pairs the matcher returns. */
  lemma MatchConserves(before: ParsedModule, beforeOps: seq<OpIdx>, after: ParsedModule, afterOps: seq<OpIdx>)
    requires InBounds(beforeOps, |before.ops|) && InBounds(afterOps, |after.ops|)
    requires StrictlyIncreasing(beforeOps) && StrictlyIncreasing(afterOps)
    ensures var pairs := MatchedPairs(before, beforeOps, after, afterOps);
      && ListsOnce(Befores(pairs), beforeOps) && ListsOnce(Afters(pairs), afterOps)
      && forall p :: p in pairs ==> p.0.Some? || p.1.Some?
  {
    var bf, af := Fingerprints(before, beforeOps), Fingerprints(after, afterOps);
    var m := Greedy(bf, af);
    GreedySound(bf, af);
    BeforesOnce(beforeOps, afterOps, m);
    AftersOnce(beforeOps, afterOps, m);
    LeftoverListsFree(afterOps, m, |afterOps|);
  }

  /** No pair joins operations of different names. */
  lemma MatchKeepsNames(before: ParsedModule, beforeOps: seq<OpIdx>, after: ParsedModule, afterOps: seq<OpIdx>, p: Pair)
    requires InBounds(beforeOps, |before.ops|) && InBounds(afterOps, |after.ops|)
    requires p in MatchedPairs(before, beforeOps, after, afterOps) && p.0.Some? && p.1.Some?
    ensures p.0.value in beforeOps && p.1.value in afterOps
    ensures before.ops[p.0.value].name == after.ops[p.1.value].name
  {
    var bf, af := Fingerprints(before, beforeOps), Fingerprints(after, afterOps);
    var m := Greedy(bf, af);
    GreedySound(bf, af);
    LeftoverHasNoBefore(afterOps, m, |afterOps|);
    var i :| 0 <= i < |beforeOps| && p == Assigned(beforeOps, afterOps, m)[i];
    assert bf[i].opName == af[m[i].value].opName;
  }

  /** Of two operations that share a name, the matcher pairs at least one. */
  lemma MatchLeavesNoNamesakes(before: ParsedModule, beforeOps: seq<OpIdx>, after: ParsedModule, afterOps: seq<OpIdx>,
      b: OpIdx, a: OpIdx) returns (p: Pair)
    requires InBounds(beforeOps, |before.ops|) && InBounds(afterOps, |after.ops|)
    requires b in beforeOps && a in afterOps && before.ops[b].name == after.ops[a].name
    ensures p in MatchedPairs(before, beforeOps, after, afterOps) && p.0.Some? && p.1.Some?
      && (p.0 == Some(b) || p.1 == Some(a))
  {
    var bf, af := Fingerprints(before, beforeOps), Fingerprints(after, afterOps);
    var m := Greedy(bf, af);
    GreedySound(bf, af);
    var i :| 0 <= i < |beforeOps| && beforeOps[i] == b;
    var j :| 0 <= j < |afterOps| && afterOps[j] == a;
    var k := i;
    if m[i].None? {
      assert bf[i].opName == af[j].opName;
      assert !Free(m, j);
      k :| 0 <= k < |m| && m[k] == Some(j);
    }
    p := Assigned(beforeOps, afterOps, m)[k];
    assert MatchedPairs(before, beforeOps, after, afterOps)[k] == p;
  }

  lemma {:induction false} LeftoverHasNoBefore(afterOps: seq<OpIdx>, m: Matching, n: nat)
    requires n <= |afterOps|
    ensures forall p :: p in Leftover(afterOps, m, n) ==> p.0.None?
  {
    if n > 0 {
      LeftoverHasNoBefore(afterOps, m, n - 1);
    }
  }

  /** A list matched against itself in one module pairs each operation with itself, in order. */
  lemma MatchWithItself(module_: ParsedModule, ops: seq<OpIdx>)
    requires InBounds(ops, |module_.ops|)
    ensures MatchedPairs(module_, ops, module_, ops)
      == seq(|ops|, i requires 0 <= i < |ops| => (Some(ops[i]), Some(ops[i])))
  {
    var f := Fingerprints(module_, ops);
    var m := Greedy(f, f);
    forall i | 0 <= i < |ops|
      ensures m[i] == Some(i)
    {
      GreedyOnItself(f, i);
    }
    NothingLeftOver(ops, m, |ops|);
  }

  lemma {:induction false} NothingLeftOver(ops: seq<OpIdx>, m: Matching, n: nat)
    requires n <= |ops| <= |m| && forall i :: 0 <= i < |ops| ==> m[i] == Some(i)
    ensures Leftover(ops, m, n) == []
  {
    if n > 0 {
      NothingLeftOver(ops, m, n - 1);
      assert m[n - 1] == Some(n - 1);
    }
  }
}
