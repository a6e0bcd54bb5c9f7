// The values the engine works on: operations recovered from printed IR, the
// function scopes that group them, and the fingerprint two operations are
// compared by. Names, types, attributes and locations are only ever compared.
module Model {

  datatype Option<+T> = None | Some(value: T)

  /** Index of an operation in `ParsedModule.ops`. */
  type OpIdx = nat

  datatype ParsedOp = ParsedOp(
    idx: OpIdx,
    name: string,
    results: seq<string>,
    operands: seq<string>,
    resultTypes: seq<string>,
    attrSummary: string,
    location: Option<string>,
    regionPath: seq<nat>,
    depth: nat,
    lineStart: nat,
    lineEnd: nat,
    isOpaque: bool)

  datatype FunctionScope = FunctionScope(name: string, ops: seq<OpIdx>, lineStart: nat, lineEnd: nat)

  datatype ParsedModule = ParsedModule(ops: seq<ParsedOp>, functions: seq<FunctionScope>) {
    /** The first scope carrying the name, as the linear search finds it. */
    function Scope(func: string): Option<FunctionScope> {
      FirstNamed(functions, func)
    }

    /** The operations of a function, none when the module does not have it. */
    function ScopeOps(func: string): seq<OpIdx> {
      match Scope(func)
      case Some(scope) => scope.ops
      case None => []
    }
  }

  /** The k-th scope carries the name and none before it does. */
  predicate FirstIs(functions: seq<FunctionScope>, k: nat, func: string)
    requires k < |functions|
  {
    functions[k].name == func && forall j :: 0 <= j < k ==> functions[j].name != func
  }

  function FirstNamed(functions: seq<FunctionScope>, func: string): (r: Option<FunctionScope>)
    ensures r.Some? ==> exists k :: 0 <= k < |functions| && r.value == functions[k] && FirstIs(functions, k, func)
    ensures r.None? ==> forall k :: 0 <= k < |functions| ==> functions[k].name != func
  {
    if functions == [] then None
    else if functions[0].name == func then Some(functions[0])
    else FirstNamed(functions[1..], func)
  }

  datatype SnapshotSide = Before | After

  datatype OpFingerprint = OpFingerprint(
    opName: string,
    resultTypes: seq<string>,
    operandCount: nat,
    location: Option<string>)

  function Fingerprint(op: ParsedOp): OpFingerprint {
    OpFingerprint(op.name, op.resultTypes, |op.operands|, op.location)
  }

  /** What every scope produced by the parser satisfies. */
  predicate StrictlyIncreasing(s: seq<nat>) {
    forall i, j :: 0 <= i < j < |s| ==> s[i] < s[j]
  }

  predicate InBounds(s: seq<OpIdx>, bound: nat) {
    forall i :: 0 <= i < |s| ==> s[i] < bound
  }

  /** A module whose operations know their own index and whose scopes stay inside it. */
  predicate WellFormed(m: ParsedModule) {
    && (forall i :: 0 <= i < |m.ops| ==> m.ops[i].idx == i)
    && (forall f :: f in m.functions ==> InBounds(f.ops, |m.ops|) && StrictlyIncreasing(f.ops))
  }

  // Two facts about sequences that proofs call on by name.

  lemma Associate<T>(a: seq<T>, b: seq<T>, c: seq<T>)
    ensures (a + b) + c == a + (b + c)
  {
  }

  lemma PrefixGrows<T>(s: seq<T>, k: nat)
    requires k < |s|
    ensures s[..k + 1] == s[..k] + [s[k]] && s[..k + 1][..k] == s[..k]
  {
  }
}
