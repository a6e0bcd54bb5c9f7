// The token maps are hash maps, walked in no particular order. The resolver's
// result does not depend on that order exactly when no operation is continued
// by two tokens into two different operations.
module TokenOrder {
  import opened Model
  import opened Timeline
  import opened Nodes
  import opened Relations
  import opened Links
  import opened StageLaws
  import opened Inference
  import opened RunLaws
  import opened Histories
  import opened Resolve
  import opened Sorting
  import opened UnionFinds
  import Matcher

  // ------------------------------------------------------------ tokens that link

  /** What token continuity would link once the events are handled. */
  predicate Candidate(at: Place, claims: Claims, token: int, from: nat, to: nat) {
    Continues(at, claims, token) && Carried(at, token) == Some((from, to))
  }

  /** No operation is continued into two. */
  ghost predicate Unambiguous(at: Place, claims: Claims, tokens: set<int>) {
    forall t, u, from: nat, to: nat, too: nat :: t in tokens && u in tokens
      ==> Candidate(at, claims, t, from, to) ==> Candidate(at, claims, u, from, too) ==> to == too
  }

  ghost predicate Leaves(at: Place, claims: Claims, tokens: seq<int>, from: nat) {
    exists t, to :: t in tokens && Candidate(at, claims, t, from, to)
  }

  ghost predicate Reaches(at: Place, claims: Claims, tokens: seq<int>, to: nat) {
    exists t, from :: t in tokens && Candidate(at, claims, t, from, to)
  }

  ghost predicate ClaimsAfter(at: Place, claims: Claims, tokens: seq<int>, c: Claims) {
    && c.inserted == claims.inserted && c.successors == claims.successors
    && (forall x :: x in c.usedBefore <==> x in claims.usedBefore || Leaves(at, claims, tokens, x))
    && (forall x :: x in c.usedAfter <==> x in claims.usedAfter || Reaches(at, claims, tokens, x))
  }

  lemma LeavesGrow(at: Place, claims: Claims, front: seq<int>, last: int, x: nat)
    ensures Leaves(at, claims, front + [last], x) <==> Leaves(at, claims, front, x) || exists to ::
      Candidate(at, claims, last, x, to)
    ensures Reaches(at, claims, front + [last], x) <==> Reaches(at, claims, front, x) || exists from ::
      Candidate(at, claims, last, from, x)
  {
    assert last in front + [last];
    assert forall t :: t in front ==> t in front + [last];
  }

  /** Walking the tokens claims the ends of every candidate, in whatever order. */
  lemma {:induction false} TokensClaim(at: Place, claims: Claims, tokens: seq<int>, all: set<int>)
    requires Unambiguous(at, claims, all) && forall t :: t in tokens ==> t in all
    ensures ClaimsAfter(at, claims, tokens, TokenClaims(at, claims, tokens))
  {
    if tokens != [] {
      var front, last := tokens[..|tokens| - 1], tokens[|tokens| - 1];
      assert tokens == front + [last];
      TokensClaim(at, claims, front, all);
      ClaimStep(at, claims, front, last, all, TokenClaims(at, claims, front));
    }
  }

  lemma ClaimStep(at: Place, claims: Claims, front: seq<int>, last: int, all: set<int>, c: Claims)
    requires Unambiguous(at, claims, all) && last in all && (forall t :: t in front ==> t in all)
    requires ClaimsAfter(at, claims, front, c)
    ensures ClaimsAfter(at, claims, front + [last],
      if Continues(at, c, last) then ClaimBoth(c, Carried(at, last).value.0, Carried(at, last).value.1) else c)
  {
    forall x
      ensures Leaves(at, claims, front + [last], x) <==> Leaves(at, claims, front, x) || exists to ::
        Candidate(at, claims, last, x, to)
      ensures Reaches(at, claims, front + [last], x) <==> Reaches(at, claims, front, x) || exists from ::
        Candidate(at, claims, last, from, x)
    {
      LeavesGrow(at, claims, front, last, x);
    }
    if Continues(at, claims, last) {
      var (from, to) := Carried(at, last).value;
      assert Candidate(at, claims, last, from, to);
      if !Continues(at, c, last) {
        assert Leaves(at, claims, front, from);
        var t, too :| t in front && Candidate(at, claims, t, from, too);
        assert Reaches(at, claims, front, too);
      }
    }
  }

  // ----------------------------------------------------- the block of token steps

  lemma {:induction false} BlockMember(at: Place, claims: Claims, tokens: seq<int>, r: Relation) returns (t: int)
    requires r in TokenBlock(at, claims, tokens)
    ensures t in tokens && Continues(at, claims, t) && r == TokenRelation(at, t)
    ensures r.from == Some(Carried(at, t).value.0) && r.from.value in TokenClaims(at, claims, tokens).usedBefore
  {
    var front, last := tokens[..|tokens| - 1], tokens[|tokens| - 1];
    ClaimsOnlyGrow(at, claims, front);
    if r in TokenBlock(at, claims, front) {
      t := BlockMember(at, claims, front, r);
    } else {
      t := last;
    }
  }

  lemma {:induction false} ClaimsOnlyGrow(at: Place, claims: Claims, tokens: seq<int>)
    ensures claims.usedBefore <= TokenClaims(at, claims, tokens).usedBefore
    ensures claims.inserted == TokenClaims(at, claims, tokens).inserted
  {
    if tokens != [] {
      ClaimsOnlyGrow(at, claims, tokens[..|tokens| - 1]);
    }
  }

  /** A walk leaves each operation at most once. */
  predicate OneFromEach(relations: seq<Relation>) {
    forall i, j :: 0 <= i < j < |relations| ==> relations[i].from != relations[j].from
  }

  lemma {:induction false} BlockLeavesOnce(at: Place, claims: Claims, tokens: seq<int>)
    ensures OneFromEach(TokenBlock(at, claims, tokens))
  {
    if tokens != [] {
      var front := tokens[..|tokens| - 1];
      BlockLeavesOnce(at, claims, front);
      var block := TokenBlock(at, claims, front);
      forall i | 0 <= i < |block|
        ensures block[i].from.Some? && block[i].from.value in TokenClaims(at, claims, front).usedBefore
      {
        var t := BlockMember(at, claims, front, block[i]);
      }
    }
  }

  /** Whatever a walk claims beyond what was claimed, a step of it left. */
  lemma {:induction false} ClaimedByStep(at: Place, claims: Claims, tokens: seq<int>, from: nat) returns (r: Relation)
    requires from in TokenClaims(at, claims, tokens).usedBefore && from !in claims.usedBefore
    ensures r in TokenBlock(at, claims, tokens) && r.from == Some(from)
  {
    var front, last := tokens[..|tokens| - 1], tokens[|tokens| - 1];
    if from in TokenClaims(at, claims, front).usedBefore {
      r := ClaimedByStep(at, claims, front, from);
    } else {
      r := TokenRelation(at, last);
    }
  }

  lemma {:induction false} CandidateHasStep(at: Place, claims: Claims, tokens: seq<int>, t: int) returns (r: Relation)
    requires t in tokens && Continues(at, claims, t)
    ensures r in TokenBlock(at, claims, tokens) && r.from == Some(Carried(at, t).value.0)
  {
    var front, last := tokens[..|tokens| - 1], tokens[|tokens| - 1];
    assert tokens == front + [last];
    ClaimsOnlyGrow(at, claims, front);
    if t in front {
      r := CandidateHasStep(at, claims, front, t);
    } else if Continues(at, TokenClaims(at, claims, front), t) {
      r := TokenRelation(at, t);
    } else {
      r := ClaimedByStep(at, claims, front, Carried(at, t).value.0);
    }
  }

  /** Two walks over the same tokens take the same steps. */
  lemma SameBlock(at: Place, claims: Claims, o1: seq<int>, o2: seq<int>, all: set<int>, r: Relation)
    requires Unambiguous(at, claims, all) && Enumerates(o1, all) && Enumerates(o2, all)
    requires r in TokenBlock(at, claims, o1)
    ensures r in TokenBlock(at, claims, o2)
  {
    var t := BlockMember(at, claims, o1, r);
    var q := CandidateHasStep(at, claims, o2, t);
    var u := BlockMember(at, claims, o2, q);
    var (from, to) := Carried(at, t).value;
    var too := Carried(at, u).value.1;
    assert Candidate(at, claims, t, from, to) && Candidate(at, claims, u, from, too);
  }

  // --------------------------------------------------------- equal but for order

  /** The same relations in the same order wherever the sort looks at their order. */
  ghost predicate SameByKey(nodes: seq<Node>, a: seq<Relation>, b: seq<Relation>) {
    forall k :: Having(a, StepKeyer(nodes), k) == Having(b, StepKeyer(nodes), k)
  }

  lemma SameByKeyConcat(nodes: seq<Node>, a: seq<Relation>, b: seq<Relation>, c: seq<Relation>, d: seq<Relation>)
    requires SameByKey(nodes, a, c) && SameByKey(nodes, b, d)
    ensures SameByKey(nodes, a + b, c + d)
  {
    forall k
      ensures Having(a + b, StepKeyer(nodes), k) == Having(c + d, StepKeyer(nodes), k)
    {
      HavingConcat(a, b, StepKeyer(nodes), k);
      HavingConcat(c, d, StepKeyer(nodes), k);
    }
  }

  lemma SameByKeyMembers(nodes: seq<Node>, a: seq<Relation>, b: seq<Relation>, r: Relation)
    requires SameByKey(nodes, a, b)
    ensures r in a <==> r in b
  {
    var k := StepKey(nodes, r);
    assert Having(a, StepKeyer(nodes), k) == Having(b, StepKeyer(nodes), k);
    HavingMember(a, StepKeyer(nodes), k, r);
    HavingMember(b, StepKeyer(nodes), k, r);
  }

  predicate DistinctKeys<T>(s: seq<T>, key: T -> Key) {
    forall i, j :: 0 <= i < j < |s| ==> key(s[i]) != key(s[j])
  }

  lemma {:induction false} HavingNone<T>(s: seq<T>, key: T -> Key, k: Key)
    requires forall i :: 0 <= i < |s| ==> key(s[i]) != k
    ensures Having(s, key, k) == []
  {
    if s != [] {
      HavingNone(s[..|s| - 1], key, k);
    }
  }

  lemma {:induction false} HavingAtMostOne<T>(s: seq<T>, key: T -> Key, k: Key)
    requires DistinctKeys(s, key)
    ensures |Having(s, key, k)| <= 1
  {
    if s != [] {
      var front := s[..|s| - 1];
      HavingAtMostOne(front, key, k);
      if key(s[|s| - 1]) == k {
        HavingNone(front, key, k);
      }
    }
  }

  lemma DistinctSameMembers<T>(a: seq<T>, b: seq<T>, key: T -> Key, k: Key)
    requires DistinctKeys(a, key) && DistinctKeys(b, key) && forall x :: x in a <==> x in b
    ensures Having(a, key, k) == Having(b, key, k)
  {
    HavingAtMostOne(a, key, k);
    HavingAtMostOne(b, key, k);
    var x, y := Having(a, key, k), Having(b, key, k);
    if x != [] {
      HavingMember(a, key, k, x[0]);
      HavingMember(b, key, k, x[0]);
    }
    if y != [] {
      HavingMember(a, key, k, y[0]);
      HavingMember(b, key, k, y[0]);
    }
  }

  lemma BlockKeysDistinct(at: Place, claims: Claims, tokens: seq<int>)
    requires PlaceOk(at)
    ensures DistinctKeys(TokenBlock(at, claims, tokens), StepKeyer(at.nodes))
  {
    var block := TokenBlock(at, claims, tokens);
    BlockLeavesOnce(at, claims, tokens);
    forall i, j | 0 <= i < j < |block|
      ensures StepKey(at.nodes, block[i]) != StepKey(at.nodes, block[j])
    {
      var t := BlockMember(at, claims, tokens, block[i]);
      var u := BlockMember(at, claims, tokens, block[j]);
      CarriedIsNodes(at, t);
      CarriedIsNodes(at, u);
      KeysDiffer(at, block[i], block[j]);
    }
  }

  lemma KeysDiffer(at: Place, r: Relation, q: Relation)
    requires PlaceOk(at) && r.from.Some? && q.from.Some? && r.from != q.from
    requires IsNode(at, Before, r.from.value) && IsNode(at, Before, q.from.value)
    ensures StepKey(at.nodes, r) != StepKey(at.nodes, q)
  {
    var x, y := r.from.value, q.from.value;
    assert x < y ==> Precedes(at.nodes[x], at.nodes[y]);
    assert y < x ==> Precedes(at.nodes[y], at.nodes[x]);
  }

  lemma BlocksAgree(at: Place, claims: Claims, o1: seq<int>, o2: seq<int>, all: set<int>)
    requires PlaceOk(at) && Unambiguous(at, claims, all) && Enumerates(o1, all) && Enumerates(o2, all)
    ensures SameByKey(at.nodes, TokenBlock(at, claims, o1), TokenBlock(at, claims, o2))
  {
    var a, b := TokenBlock(at, claims, o1), TokenBlock(at, claims, o2);
    BlockKeysDistinct(at, claims, o1);
    BlockKeysDistinct(at, claims, o2);
    forall r
      ensures r in a <==> r in b
    {
      if r in a { SameBlock(at, claims, o1, o2, all, r); }
      if r in b { SameBlock(at, claims, o2, o1, all, r); }
    }
    forall k
      ensures Having(a, StepKeyer(at.nodes), k) == Having(b, StepKeyer(at.nodes), k)
    {
      DistinctSameMembers(a, b, StepKeyer(at.nodes), k);
    }
  }

  lemma ClaimsAgree(at: Place, claims: Claims, o1: seq<int>, o2: seq<int>, all: set<int>)
    requires Unambiguous(at, claims, all) && Enumerates(o1, all) && Enumerates(o2, all)
    ensures TokenClaims(at, claims, o1) == TokenClaims(at, claims, o2)
  {
    TokensClaim(at, claims, o1, all);
    TokensClaim(at, claims, o2, all);
    var c, d := TokenClaims(at, claims, o1), TokenClaims(at, claims, o2);
    assert c.usedBefore == d.usedBefore;
    assert c.usedAfter == d.usedAfter;
  }

  // ------------------------------------------------------------------- one stage

  /** In the stage, no unclaimed operation is continued by two tokens into two operations. */
  ghost predicate StageUnambiguous(at: Place) {
    Unambiguous(at, AfterEvents(at).claims, TokensOf(at.stage))
  }

  /** Whatever the order, the stage takes the same steps. */
  ghost predicate OrderIndependent(at: Place)
    requires BothSides(at)
  {
    forall o1, o2 :: Enumerates(o1, TokensOf(at.stage)) && Enumerates(o2, TokensOf(at.stage)) ==>
      SameByKey(at.nodes, StageSteps(at, o1), StageSteps(at, o2))
  }

  lemma UnambiguousIsIndependent(at: Place, o1: seq<int>, o2: seq<int>)
    requires PlaceOk(at) && BothSides(at) && StageUnambiguous(at)
    requires Enumerates(o1, TokensOf(at.stage)) && Enumerates(o2, TokensOf(at.stage))
    ensures SameByKey(at.nodes, StageSteps(at, o1), StageSteps(at, o2))
  {
    var p := AfterEvents(at);
    StageHasThreeParts(at, o1);
    StageHasThreeParts(at, o2);
    ClaimsAgree(at, p.claims, o1, o2, TokensOf(at.stage));
    BlocksAgree(at, p.claims, o1, o2, TokensOf(at.stage));
    var pairs := FallbackPairs(at, FallbackClaims(at, o1));
    assert SameByKey(at.nodes, p.relations, p.relations);
    assert SameByKey(at.nodes, PairBlock(at, pairs), PairBlock(at, pairs));
    SameByKeyConcat(at.nodes, p.relations, TokenBlock(at, p.claims, o1), p.relations, TokenBlock(at, p.claims, o2));
    SameByKeyConcat(at.nodes, p.relations + TokenBlock(at, p.claims, o1), PairBlock(at, pairs),
                    p.relations + TokenBlock(at, p.claims, o2), PairBlock(at, pairs));
  }

  lemma InjectiveIsUnambiguous(at: Place)
    requires PlaceOk(at) && at.stage.before.Some?
    requires var tokens := at.stage.before.value.tokens; forall t,
      u :: t in tokens && u in tokens && tokens[t] == tokens[u] ==> t == u
    ensures StageUnambiguous(at)
  {
    var claims := AfterEvents(at).claims;
    forall t, u, from: nat, to: nat, too: nat | t in TokensOf(at.stage) && u in TokensOf(at.stage)
      && Candidate(at, claims, t, from, to) && Candidate(at, claims, u, from, too)
      ensures to == too
    {
      assert SideOf(at.stage, Before) == at.stage.before;
      assert at.nodes[from].key.opIdx == at.stage.before.value.tokens[t] == at.stage.before.value.tokens[u];
    }
  }

  // ------------------------------------------------ ambiguity shows in some order

  lemma {:induction false} BlockOfConcat(at: Place, claims: Claims, a: seq<int>, b: seq<int>)
    ensures TokenClaims(at, claims, a + b) == TokenClaims(at, TokenClaims(at, claims, a), b)
    ensures TokenBlock(at, claims, a + b) == TokenBlock(at, claims, a) + TokenBlock(at, TokenClaims(at, claims, a), b)
  {
    if b == [] {
      assert a + b == a;
    } else {
      var front, last := b[..|b| - 1], b[|b| - 1];
      BlockOfConcat(at, claims, a, front);
      BlockGrows(at, claims, a + front, last);
      BlockGrows(at, TokenClaims(at, claims, a), front, last);
      assert a + b == (a + front) + [last] && b == front + [last];
      Associate(TokenBlock(at, claims, a), TokenBlock(at, TokenClaims(at, claims, a), front),
        TokenStep(at, TokenClaims(at, claims, a + front), last));
    }
  }

  /** The step one more token leaves, if any. */
  function TokenStep(at: Place, claims: Claims, t: int): seq<Relation> {
    if Continues(at, claims, t) then [TokenRelation(at, t)] else []
  }

  lemma BlockGrows(at: Place, claims: Claims, front: seq<int>, last: int)
    ensures TokenBlock(at, claims, front + [last])
      == TokenBlock(at, claims, front) + TokenStep(at, TokenClaims(at, claims, front), last)
    ensures TokenClaims(at, claims, front + [last])
      == TokenClaims(at, TokenClaims(at, claims, front), [last])
  {
    assert (front + [last])[..|front|] == front && [last][..0] == [];
  }

  /** The token met first has its way. */
  lemma FirstTokenWins(at: Place, claims: Claims, t: int, rest: seq<int>)
    requires Continues(at, claims, t)
    ensures TokenRelation(at, t) in TokenBlock(at, claims, [t] + rest)
  {
    BlockOfConcat(at, claims, [t], rest);
    assert [t][..0] == [];
    assert TokenBlock(at, claims, [t]) == [TokenRelation(at, t)];
  }

  function Without(order: seq<int>, t: int): (r: seq<int>)
    ensures forall u :: u in r <==> u in order && u != t
  {
    if order == [] then []
    else
      assert forall u :: u in order <==> u in order[..|order| - 1] || u == order[|order| - 1];
      Without(order[..|order| - 1], t) + if order[|order| - 1] != t then [order[|order| - 1]] else []
  }

  predicate NoneTwice(order: seq<int>) {
    forall i, j :: 0 <= i < j < |order| ==> order[i] != order[j]
  }

  lemma {:induction false} WithoutKeepsDistinct(order: seq<int>, t: int)
    requires NoneTwice(order)
    ensures NoneTwice(Without(order, t))
  {
    if order != [] {
      var front, last := order[..|order| - 1], order[|order| - 1];
      WithoutKeepsDistinct(front, t);
      var rest := Without(front, t);
      assert forall i :: 0 <= i < |rest| ==> rest[i] in rest;
      assert last !in front;
    }
  }

  lemma SomeElement<T>(s: set<T>) returns (x: T)
    requires s != {}
    ensures x in s
  {
    x :| x in s;
  }

  lemma {:induction false} SomeOrder(keys: set<int>) returns (order: seq<int>)
    ensures Enumerates(order, keys)
    decreases keys
  {
    order := [];
    if keys != {} {
      var t := SomeElement(keys);
      var rest := SomeOrder(keys - {t});
      order := rest + [t];
    }
  }

  /** An order that starts with the token. */
  lemma OrderFrom(keys: set<int>, t: int) returns (rest: seq<int>)
    requires t in keys
    ensures Enumerates([t] + rest, keys)
  {
    var order := SomeOrder(keys);
    rest := Without(order, t);
    WithoutKeepsDistinct(order, t);
    var all := [t] + rest;
    assert forall u :: u in all <==> u == t || u in rest;
    forall i, j | 0 <= i < j < |all|
      ensures all[i] != all[j]
    {
      assert rest[j - 1] in rest;
    }
  }

  lemma {:induction false} LosingStepIsAbsent(at: Place, t: int, u: int, from: nat, to: nat, too: nat, order: seq<int>)
    requires PlaceOk(at) && BothSides(at) && to != too
    requires Candidate(at, AfterEvents(at).claims, t, from, to) && Candidate(at, AfterEvents(at).claims, u, from, too)
    requires TokenRelation(at, u) in TokenBlock(at, AfterEvents(at).claims, order)
    ensures TokenRelation(at, t) !in StageSteps(at, order)
  {
    var p := AfterEvents(at);
    var lost, won := TokenRelation(at, t), TokenRelation(at, u);
    AfterEventsOk(at);
    assert lost in p.relations ==> StepOk(at, p.claims, lost);
    StageHasThreeParts(at, order);
    BlockLeavesOnce(at, p.claims, order);
    assert lost !in TokenBlock(at, p.claims, order);
    FallbackIsFresh(at, FallbackClaims(at, order));
    PairBlockInfers(at, FallbackClaims(at, order), FallbackPairs(at, FallbackClaims(at, order)));
  }

  /** Some order begins with the token and so takes its step. */
  lemma StepTaken(at: Place, t: int) returns (order: seq<int>)
    requires PlaceOk(at) && BothSides(at) && t in TokensOf(at.stage) && Continues(at, AfterEvents(at).claims, t)
    ensures Enumerates(order, TokensOf(at.stage)) && TokenRelation(at, t) in TokenBlock(at, AfterEvents(at).claims,
      order)
    ensures TokenRelation(at, t) in StageSteps(at, order)
  {
    var rest := OrderFrom(TokensOf(at.stage), t);
    order := [t] + rest;
    FirstTokenWins(at, AfterEvents(at).claims, t, rest);
    StageHasThreeParts(at, order);
  }

  lemma AmbiguityShows(at: Place, t: int, u: int, from: nat, to: nat, too: nat)
    requires PlaceOk(at) && BothSides(at) && to != too && t in TokensOf(at.stage) && u in TokensOf(at.stage)
    requires Candidate(at, AfterEvents(at).claims, t, from, to) && Candidate(at, AfterEvents(at).claims, u, from, too)
    ensures !OrderIndependent(at)
  {
    var o1 := StepTaken(at, t);
    var o2 := StepTaken(at, u);
    LosingStepIsAbsent(at, t, u, from, to, too, o2);
    StepsDiffer(at, o1, o2, TokenRelation(at, t));
  }

  lemma StepsDiffer(at: Place, o1: seq<int>, o2: seq<int>, r: Relation)
    requires BothSides(at) && Enumerates(o1, TokensOf(at.stage)) && Enumerates(o2, TokensOf(at.stage))
    requires r in StageSteps(at, o1) && r !in StageSteps(at, o2)
    ensures !OrderIndependent(at)
  {
    if SameByKey(at.nodes, StageSteps(at, o1), StageSteps(at, o2)) {
      SameByKeyMembers(at.nodes, StageSteps(at, o1), StageSteps(at, o2), r);
    }
  }

  /** A stage's steps are the same for every order of its token map exactly when it is unambiguous. */
  lemma OrderIndependentIffUnambiguous(at: Place)
    requires PlaceOk(at) && BothSides(at)
    ensures OrderIndependent(at) <==> StageUnambiguous(at)
  {
    if StageUnambiguous(at) {
      forall o1, o2 | Enumerates(o1, TokensOf(at.stage)) && Enumerates(o2, TokensOf(at.stage))
        ensures SameByKey(at.nodes, StageSteps(at, o1), StageSteps(at, o2))
      {
        UnambiguousIsIndependent(at, o1, o2);
      }
    } else {
      var claims := AfterEvents(at).claims;
      var t, u, from: nat, to: nat, too: nat :| t in TokensOf(at.stage) && u in TokensOf(at.stage)
        && Candidate(at, claims, t, from, to) && Candidate(at, claims, u, from, too) && to != too;
      AmbiguityShows(at, t, u, from, to, too);
    }
  }

  // --------------------------------------------------------------- the whole run

  ghost predicate RunUnambiguous(run: Run) {
    forall s :: 0 <= s < |run.stages| && BothSnapshots(run, s) ==> StageUnambiguous(run.At(s))
  }

  lemma StepsAgree(run: Run, o1: Orders, o2: Orders, s: nat)
    requires run.Ok() && RunUnambiguous(run) && OrdersOk(run, o1, |run.stages|) && OrdersOk(run, o2, |run.stages|)
    requires s < |run.stages|
    ensures SameByKey(run.nodes, StepsAt(run, o1, s), StepsAt(run, o2, s))
  {
    PlaceIsOk(run, s);
    if BothSnapshots(run, s) {
      UnambiguousIsIndependent(run.At(s), o1[s], o2[s]);
    }
  }

  lemma {:induction false} FlatAgree(nodes: seq<Node>, a: seq<seq<Relation>>, b: seq<seq<Relation>>)
    requires |a| == |b| && forall s :: 0 <= s < |a| ==> SameByKey(nodes, a[s], b[s])
    ensures SameByKey(nodes, Flat(a), Flat(b))
  {
    if a != [] {
      var n := |a| - 1;
      FlatAgree(nodes, a[..n], b[..n]);
      SameByKeyConcat(nodes, Flat(a[..n]), a[n], Flat(b[..n]), b[n]);
    }
  }

  lemma StagesAgree(run: Run, o1: Orders, o2: Orders)
    requires run.Ok() && RunUnambiguous(run) && OrdersOk(run, o1, |run.stages|) && OrdersOk(run, o2, |run.stages|)
    ensures SameByKey(run.nodes, StagesTo(run, o1, |run.stages|), StagesTo(run, o2, |run.stages|))
  {
    var n := |run.stages|;
    StagesAreBlocks(run, o1, n);
    StagesAreBlocks(run, o2, n);
    forall s: nat | s < n
      ensures SameByKey(run.nodes, Blocks(run, o1, n)[s], Blocks(run, o2, n)[s])
    {
      StepsAgree(run, o1, o2, s);
    }
    FlatAgree(run.nodes, Blocks(run, o1, n), Blocks(run, o2, n));
  }

  lemma RelationsAgree(run: Run, o1: Orders, o2: Orders)
    requires run.Ok() && RunUnambiguous(run) && OrdersOk(run, o1, |run.stages|) && OrdersOk(run, o2, |run.stages|)
    ensures SameByKey(run.nodes, AllRelations(run, o1), AllRelations(run, o2))
  {
    StagesAgree(run, o1, o2);
    var seams := SeamsTo(run, |run.stages|);
    assert SameByKey(run.nodes, seams, seams);
    SameByKeyConcat(run.nodes, StagesTo(run, o1, |run.stages|), seams, StagesTo(run, o2, |run.stages|), seams);
  }

  lemma ConnectedByMembers(a: seq<Link>, b: seq<Link>, x: nat, y: nat)
    requires (forall l :: l in a ==> l in b) && Connected(a, x, y)
    ensures Connected(b, x, y)
  {
    var c :| IsChain(a, c) && c[0] == x && c[|c| - 1] == y;
    forall k | 0 <= k < |c| - 1
      ensures Joined(b, c[k], c[k + 1])
    {
      assert Joined(a, c[k], c[k + 1]);
    }
    assert IsChain(b, c);
  }

  lemma LinksAgree(nodes: seq<Node>, a: seq<Relation>, b: seq<Relation>, l: Link)
    requires SameByKey(nodes, a, b) && l in LinksOf(a)
    ensures l in LinksOf(b)
  {
    LinkMember(a, l);
    LinkMember(b, l);
    var r :| r in a && r.from == Some(l.0) && r.to == Some(l.1);
    SameByKeyMembers(nodes, a, b, r);
  }

  lemma ConnectedAgrees(nodes: seq<Node>, a: seq<Relation>, b: seq<Relation>, x: nat, y: nat)
    requires SameByKey(nodes, a, b)
    ensures Connected(LinksOf(a), x, y) <==> Connected(LinksOf(b), x, y)
  {
    forall l
      ensures l in LinksOf(a) <==> l in LinksOf(b)
    {
      if l in LinksOf(a) { LinksAgree(nodes, a, b, l); }
      if l in LinksOf(b) { LinksAgree(nodes, b, a, l); }
    }
    if Connected(LinksOf(a), x, y) { ConnectedByMembers(LinksOf(a), LinksOf(b), x, y); }
    if Connected(LinksOf(b), x, y) { ConnectedByMembers(LinksOf(b), LinksOf(a), x, y); }
  }

  lemma {:induction false} MembersAgree(a: seq<Link>, b: seq<Link>, n: nat, x: nat)
    requires forall y: nat :: Connected(a, x, y) <==> Connected(b, x, y)
    ensures Members(a, n, x) == Members(b, n, x)
  {
    if n > 0 {
      MembersAgree(a, b, n - 1, x);
    }
  }

  lemma {:induction false} OwnStepsByKey(relations: seq<Relation>, ids: set<nat>, key: Relation -> Key, k: Key)
    ensures Having(OwnSteps(relations, ids), key, k) == OwnSteps(Having(relations, key, k), ids)
  {
    if relations != [] {
      var front, last := relations[..|relations| - 1], relations[|relations| - 1];
      OwnStepsByKey(front, ids, key, k);
      var own := if last.recordStep && Subject(last).Some? && Subject(last).value in ids then [last] else [];
      var has := if key(last) == k then [last] else [];
      assert [last][..0] == [];
      HavingConcat(OwnSteps(front, ids), own, key, k);
      OwnStepsConcat(Having(front, key, k), has, ids);
    }
  }

  lemma OwnStepsConcat(a: seq<Relation>, b: seq<Relation>, ids: set<nat>)
    requires |b| <= 1
    ensures OwnSteps(a + b, ids) == OwnSteps(a, ids) + OwnSteps(b, ids)
  {
    if b == [] {
      assert a + b == a;
    } else {
      assert (a + b)[..|a|] == a && b[..0] == [];
    }
  }

  lemma OrderedStepsAgree(run: Run, a: seq<Relation>, b: seq<Relation>, ids: set<nat>)
    requires SameByKey(run.nodes, a, b)
    ensures OrderedSteps(run, a, ids) == OrderedSteps(run, b, ids)
  {
    var key := StepKeyer(run.nodes);
    SortByIsStable(OwnSteps(a, ids), key);
    SortByIsStable(OwnSteps(b, ids), key);
    forall k
      ensures Having(OrderedSteps(run, a, ids), key, k) == Having(OrderedSteps(run, b, ids), key, k)
    {
      OwnStepsByKey(a, ids, key, k);
      OwnStepsByKey(b, ids, key, k);
      assert Having(a, key, k) == Having(b, key, k);
    }
    SortedUnique(OrderedSteps(run, a, ids), OrderedSteps(run, b, ids), key);
  }

  lemma HistoryAgrees(run: Run, a: seq<Relation>, b: seq<Relation>, x: nat)
    requires run.Ok() && x < |run.nodes| && AllInRun(run, a) && AllInRun(run, b) && SameByKey(run.nodes, a, b)
    ensures UidAt(run, LinksOf(a), x) == UidAt(run, LinksOf(b), x)
    ensures HistoryAt(run, a, x) == HistoryAt(run, b, x)
  {
    forall y: nat
      ensures Connected(LinksOf(a), x, y) <==> Connected(LinksOf(b), x, y)
    {
      ConnectedAgrees(run.nodes, a, b, x, y);
    }
    MembersAgree(LinksOf(a), LinksOf(b), |run.nodes|, x);
    var chain := Chain(run, LinksOf(a), x);
    assert chain == Chain(run, LinksOf(b), x);
    OrderedStepsAgree(run, a, b, set i | i in chain);
  }

  lemma BooksAgree(run: Run, a: seq<Relation>, b: seq<Relation>)
    requires run.Ok() && AllInRun(run, a) && AllInRun(run, b) && SameByKey(run.nodes, a, b)
    ensures BookOf(run, a) == BookOf(run, b)
  {
    forall x: nat | x < |run.nodes|
      ensures BookOf(run, a).uids[x] == BookOf(run, b).uids[x]
      ensures BookOf(run, a).records[x] == BookOf(run, b).records[x]
    {
      HistoryAgrees(run, a, b, x);
    }
  }

  /** An unambiguous timeline has one resolution, whatever order its hash maps hand out. */
  lemma AnyOrderResolvesAlike(run: Run, o1: Orders, o2: Orders, r1: ResolvedFunction, r2: ResolvedFunction)
    requires run.Ok() && DistinctPasses(run.stages) && RunUnambiguous(run) && OrdersOk(run, o1, |run.stages|)
      && OrdersOk(run, o2, |run.stages|)
    requires AllInRun(run, AllRelations(run, o1)) && Resolves(run, AllRelations(run, o1), r1)
    requires AllInRun(run, AllRelations(run, o2)) && Resolves(run, AllRelations(run, o2), r2)
    ensures r1 == r2
  {
    RelationsAgree(run, o1, o2);
    BooksAgree(run, AllRelations(run, o1), AllRelations(run, o2));
    DistinctPassesKeepHistories(run, AllRelations(run, o1));
    BookFixesResult(BookOf(run, AllRelations(run, o1)), r1, r2);
  }
}
