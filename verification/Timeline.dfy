// The normalised trace the resolver reads: snapshots with their tokens, and
// per executed pass its two snapshots and its lifecycle events.
module Timeline {
  import opened Model

  datatype SnapshotOps = SnapshotOps(
    side: SnapshotSide,
    blobId: Option<int>,
    code: ParsedModule,
    functionOrdinals: map<OpIdx, nat>,
    tokens: map<int, OpIdx>)

  datatype EventKind = Inserted | Erased | Replaced | Modified

  datatype EvidenceSource = Listener | Action | FromFingerprint | SharedSnapshot

  datatype Event = Event(
    kind: EventKind,
    ptrToken: int,
    newToken: Option<int>,
    pattern: Option<string>,
    source: EvidenceSource,
    order: int)

  datatype Stage = Stage(
    passId: int,
    passName: string,
    before: Option<SnapshotOps>,
    after: Option<SnapshotOps>,
    events: seq<Event>)

  /** The snapshot is of that side, and its operations and ordinals are those of a parsed module. */
  ghost predicate SnapshotOk(s: SnapshotOps, side: SnapshotSide, func: string) {
    s.side == side && WellFormed(s.code) && OrdinalsCount(s, func)
  }

  /** Tokens name operations of the function, as normalisation promises. */
  ghost predicate TokensInScope(s: SnapshotOps, func: string) {
    forall t :: t in s.tokens ==> s.tokens[t] in s.code.ScopeOps(func)
  }

  /** Operations of the scope are numbered by their place in it, where they are numbered at all. */
  predicate OrdinalsCount(s: SnapshotOps, func: string) {
    var ops := s.code.ScopeOps(func);
    forall i :: 0 <= i < |ops| ==> ops[i] in s.functionOrdinals ==> s.functionOrdinals[ops[i]] == i
  }

  /** A token both snapshots know must lie in both scopes: the resolver looks such tokens up unchecked. */
  ghost predicate SharedTokensOk(before: SnapshotOps, after: SnapshotOps, func: string) {
    forall t :: t in before.tokens && t in after.tokens ==>
      before.tokens[t] in before.code.ScopeOps(func) && after.tokens[t] in after.code.ScopeOps(func)
  }

  ghost predicate StageOk(stage: Stage, func: string) {
    && (stage.before.Some? ==> SnapshotOk(stage.before.value, Before, func))
    && (stage.after.Some? ==> SnapshotOk(stage.after.value, After, func))
    && (stage.before.Some? && stage.after.Some? ==> SharedTokensOk(stage.before.value, stage.after.value, func))
  }

  ghost predicate StagesOk(stages: seq<Stage>, func: string) {
    forall i :: 0 <= i < |stages| ==> StageOk(stages[i], func)
  }

  ghost predicate DistinctPasses(stages: seq<Stage>) {
    forall i, j :: 0 <= i < j < |stages| ==> stages[i].passId != stages[j].passId
  }

  ghost predicate StageInScope(stage: Stage, func: string) {
    && (stage.before.Some? ==> TokensInScope(stage.before.value, func))
    && (stage.after.Some? ==> TokensInScope(stage.after.value, func))
  }

  /** Every token of every snapshot names an operation of the function. */
  ghost predicate AllTokensInScope(stages: seq<Stage>, func: string) {
    forall i :: 0 <= i < |stages| ==> StageInScope(stages[i], func)
  }

  /** What normalisation promises of a timeline. */
  ghost predicate TimelineOk(stages: seq<Stage>, func: string) {
    StagesOk(stages, func) && DistinctPasses(stages) && AllTokensInScope(stages, func)
  }

  function SideOf(stage: Stage, side: SnapshotSide): Option<SnapshotOps> {
    if side == Before then stage.before else stage.after
  }

  predicate SharesBlob(left: SnapshotOps, right: SnapshotOps) {
    left.blobId.Some? && left.blobId == right.blobId
  }

  predicate SameCode(a: Option<SnapshotOps>, b: Option<SnapshotOps>) {
    a.Some? && b.Some? && SharesBlob(a.value, b.value) ==> a.value.code == b.value.code
  }

  /** Snapshots that print one blob hold one module. */
  ghost predicate BlobsAgree(stages: seq<Stage>) {
    forall i, j, a, b :: 0 <= i < |stages| && 0 <= j < |stages| ==> SameCode(SideOf(stages[i], a), SideOf(stages[j], b))
  }
}
