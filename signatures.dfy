/** Algebraic signatures: sorts, operations and axioms; the shape fingerprint;
    the dictionary form used for JSON storage and its decoder; and the builders
    of the standard axiom equations. */
module Signatures {
  import opened Wrappers
  import opened Ast
  import Parser
  import Sorting

  /** The standard axiom kinds; each is stored under its upper-case name. */
  datatype AxiomKind =
    | Associativity | Commutativity | Identity | Inverse | Distributivity
    | Anticommutativity | Idempotence | Nilpotence | Jacobi | Positivity
    | Bilinearity | Homomorphism | Functoriality | Absorption | Modularity
    | SelfDistributivity | RightSelfDistributivity | Custom

  /** The enum's value string. */
  function KindName(k: AxiomKind): string {
    match k
    case Associativity => "ASSOCIATIVITY"
    case Commutativity => "COMMUTATIVITY"
    case Identity => "IDENTITY"
    case Inverse => "INVERSE"
    case Distributivity => "DISTRIBUTIVITY"
    case Anticommutativity => "ANTICOMMUTATIVITY"
    case Idempotence => "IDEMPOTENCE"
    case Nilpotence => "NILPOTENCE"
    case Jacobi => "JACOBI"
    case Positivity => "POSITIVITY"
    case Bilinearity => "BILINEARITY"
    case Homomorphism => "HOMOMORPHISM"
    case Functoriality => "FUNCTORIALITY"
    case Absorption => "ABSORPTION"
    case Modularity => "MODULARITY"
    case SelfDistributivity => "SELF_DISTRIBUTIVITY"
    case RightSelfDistributivity => "RIGHT_SELF_DISTRIBUTIVITY"
    case Custom => "CUSTOM"
  }

  /** All kinds in declaration order. */
  const AllKinds: seq<AxiomKind> := [
    Associativity, Commutativity, Identity, Inverse, Distributivity,
    Anticommutativity, Idempotence, Nilpotence, Jacobi, Positivity,
    Bilinearity, Homomorphism, Functoriality, Absorption, Modularity,
    SelfDistributivity, RightSelfDistributivity, Custom]

  /** `AxiomKind(value)`: the kind stored under `s`, or `None` where Python
      raises `ValueError`. */
  function KindFromName(s: string): (r: Option<AxiomKind>)
    ensures r.Some? ==> KindName(r.value) == s
  {
    if s == "ASSOCIATIVITY" then Some(Associativity)
    else if s == "COMMUTATIVITY" then Some(Commutativity)
    else if s == "IDENTITY" then Some(Identity)
    else if s == "INVERSE" then Some(Inverse)
    else if s == "DISTRIBUTIVITY" then Some(Distributivity)
    else if s == "ANTICOMMUTATIVITY" then Some(Anticommutativity)
    else if s == "IDEMPOTENCE" then Some(Idempotence)
    else if s == "NILPOTENCE" then Some(Nilpotence)
    else if s == "JACOBI" then Some(Jacobi)
    else if s == "POSITIVITY" then Some(Positivity)
    else if s == "BILINEARITY" then Some(Bilinearity)
    else if s == "HOMOMORPHISM" then Some(Homomorphism)
    else if s == "FUNCTORIALITY" then Some(Functoriality)
    else if s == "ABSORPTION" then Some(Absorption)
    else if s == "MODULARITY" then Some(Modularity)
    else if s == "SELF_DISTRIBUTIVITY" then Some(SelfDistributivity)
    else if s == "RIGHT_SELF_DISTRIBUTIVITY" then Some(RightSelfDistributivity)
    else if s == "CUSTOM" then Some(Custom)
    else None
  }

  /** Every kind is read back from its stored name, so distinct kinds have distinct names. */
  lemma KindNameRoundTrip(k: AxiomKind)
    ensures KindFromName(KindName(k)) == Some(k)
  {
    match k
    case Associativity | Commutativity | Identity | Inverse | Distributivity | Anticommutativity | Idempotence | Nilpotence | Jacobi =>
      KindNameRoundTripFirst(k);
    case Positivity | Bilinearity | Homomorphism =>
      KindNameRoundTripSecond(k);
    case Functoriality | Absorption | Modularity =>
      KindNameRoundTripThird(k);
    case SelfDistributivity | RightSelfDistributivity | Custom =>
      KindNameRoundTripFourth(k);
  }

  // The round trip for the kinds in the order `KindFromName` tries them, a few at a time.

  lemma KindNameRoundTripFirst(k: AxiomKind)
    requires k.Associativity? || k.Commutativity? || k.Identity? || k.Inverse? || k.Distributivity? || k.Anticommutativity? || k.Idempotence? || k.Nilpotence? || k.Jacobi?
    ensures KindFromName(KindName(k)) == Some(k)
  {
  }

  lemma KindNameRoundTripSecond(k: AxiomKind)
    requires k.Positivity? || k.Bilinearity? || k.Homomorphism?
    ensures KindFromName(KindName(k)) == Some(k)
  {
  }

  lemma KindNameRoundTripThird(k: AxiomKind)
    requires k.Functoriality? || k.Absorption? || k.Modularity?
    ensures KindFromName(KindName(k)) == Some(k)
  {
  }

  lemma KindNameRoundTripFourth(k: AxiomKind)
    requires k.SelfDistributivity? || k.RightSelfDistributivity? || k.Custom?
    ensures KindFromName(KindName(k)) == Some(k)
  {
  }

  lemma KindNameInjective(k1: AxiomKind, k2: AxiomKind)
    requires KindName(k1) == KindName(k2)
    ensures k1 == k2
  {
    KindNameRoundTrip(k1);
    KindNameRoundTrip(k2);
  }

  datatype Sort = Sort(name: string, description: string)

  datatype Operation = Operation(name: string, domain: seq<string>, codomain: string, description: string)
  {
    /** `arity`: the number of argument sorts. */
    function Arity(): nat { |domain| }
  }

  datatype Axiom = Axiom(kind: AxiomKind, equation: Equation, operations: seq<string>, description: string)

  /** `metadata` holds arbitrary JSON values in the source; here it maps keys to text. */
  datatype Signature = Signature(
    name: string,
    sorts: seq<Sort>,
    operations: seq<Operation>,
    axioms: seq<Axiom>,
    description: string,
    derivationChain: seq<string>,
    metadata: map<string, string>)

  /** Some axiom of `kind` names `op` among the operations it constrains. */
  predicate HasAxiomFor(axioms: seq<Axiom>, kind: AxiomKind, op: string) {
    exists a :: a in axioms && a.kind == kind && op in a.operations
  }

  function SortNames(sorts: seq<Sort>): (r: seq<string>)
    ensures |r| == |sorts| && forall i :: 0 <= i < |sorts| ==> r[i] == sorts[i].name
  {
    seq(|sorts|, i requires 0 <= i < |sorts| => sorts[i].name)
  }

  function OpNameList(ops: seq<Operation>): (r: seq<string>)
    ensures |r| == |ops| && forall i :: 0 <= i < |ops| ==> r[i] == ops[i].name
  {
    seq(|ops|, i requires 0 <= i < |ops| => ops[i].name)
  }

  /** `get_op(name)`: the first operation carrying `name`, if any. */
  function GetOp(ops: seq<Operation>, name: string): (r: Option<Operation>)
    ensures r.None? <==> forall i :: 0 <= i < |ops| ==> ops[i].name != name
    ensures r.Some? ==> exists i :: 0 <= i < |ops| && ops[i] == r.value && r.value.name == name
                           && forall j :: 0 <= j < i ==> ops[j].name != name
  {
    if ops == [] then None
    else if ops[0].name == name then Some(ops[0])
    else
      var r := GetOp(ops[1..], name);
      if r.Some? then
        var i :| 0 <= i < |ops[1..]| && ops[1..][i] == r.value && r.value.name == name
                 && forall j :: 0 <= j < i ==> ops[1..][j].name != name;
        assert ops[i + 1] == r.value;
        assert forall j :: 0 <= j < i + 1 ==> ops[j].name != name by {
          forall j | 0 <= j < i + 1 ensures ops[j].name != name {
            if j > 0 { assert ops[j] == ops[1..][j - 1]; }
          }
        }
        r
      else
        assert forall i :: 1 <= i < |ops| ==> ops[i] == ops[1..][i - 1];
        r
  }

  /** `get_ops_by_arity(k)`: the operations of arity `k`, in declaration order. */
  function OpsByArity(ops: seq<Operation>, k: nat): (r: seq<Operation>)
    ensures forall op :: op in r <==> op in ops && op.Arity() == k
    ensures |r| <= |ops|
  {
    if ops == [] then []
    else (if ops[0].Arity() == k then [ops[0]] else []) + OpsByArity(ops[1..], k)
  }

  /** Filtering splits over concatenation; with the singleton case this pins
      `OpsByArity` down as the order-preserving filter. */
  lemma {:induction false} OpsByArityAppend(a: seq<Operation>, b: seq<Operation>, k: nat)
    ensures OpsByArity(a + b, k) == OpsByArity(a, k) + OpsByArity(b, k)
  {
    if a != [] {
      assert (a + b)[1..] == a[1..] + b;
      OpsByArityAppend(a[1..], b, k);
    } else {
      assert a + b == b;
    }
  }

  function BinaryOps(sig: Signature): seq<Operation> {
    OpsByArity(sig.operations, 2)
  }

  function OpArity(op: Operation): int { |op.domain| }

  function AxiomKindName(a: Axiom): string { KindName(a.kind) }

  function Arities(ops: seq<Operation>): (r: seq<int>)
    ensures |r| == |ops| && forall i :: 0 <= i < |ops| ==> r[i] == ops[i].Arity()
  {
    MapSeq(ops, OpArity)
  }

  function KindNames(axioms: seq<Axiom>): (r: seq<string>)
    ensures |r| == |axioms| && forall i :: 0 <= i < |axioms| ==> r[i] == KindName(axioms[i].kind)
  {
    MapSeq(axioms, AxiomKindName)
  }

  /** The canonical shape of a signature that `fingerprint` hashes. */
  datatype Canon = Canon(sorts: nat, opArities: seq<int>, axiomKinds: seq<string>)

  /** `fingerprint()`, with the JSON encoding and SHA-256 step taken as injective:
      fingerprints are equal exactly when these canonical values are. */
  function Fingerprint(sig: Signature): Canon {
    Canon(|sig.sorts|,
          Sorting.SortBy(Arities(sig.operations), Sorting.IntLe),
          Sorting.SortBy(KindNames(sig.axioms), Sorting.StrLe))
  }

  /** Two signatures share a fingerprint exactly when they have the same number of
      sorts, the same multiset of operation arities and the same multiset of axiom
      kinds: names, descriptions and the order of operations and axioms do not matter. */
  lemma FingerprintShape(s1: Signature, s2: Signature)
    ensures Fingerprint(s1) == Fingerprint(s2) <==>
      && |s1.sorts| == |s2.sorts|
      && multiset(Arities(s1.operations)) == multiset(Arities(s2.operations))
      && multiset(KindNames(s1.axioms)) == multiset(KindNames(s2.axioms))
  {
    Sorting.IntLeIsTotal();
    Sorting.StrLeIsTotal();
    if multiset(Arities(s1.operations)) == multiset(Arities(s2.operations)) {
      Sorting.SortDependsOnlyOnMultiset(Arities(s1.operations), Arities(s2.operations), Sorting.IntLe);
    }
    if multiset(KindNames(s1.axioms)) == multiset(KindNames(s2.axioms)) {
      Sorting.SortDependsOnlyOnMultiset(KindNames(s1.axioms), KindNames(s2.axioms), Sorting.StrLe);
    }
  }

  /** Axiom kinds count with multiplicity: one more axiom, of any kind, always
      changes the fingerprint. */
  lemma ExtraAxiomChangesFingerprint(sig: Signature, ax: Axiom)
    ensures Fingerprint(sig.(axioms := sig.axioms + [ax])) != Fingerprint(sig)
  {
    assert |KindNames(sig.axioms + [ax])| != |KindNames(sig.axioms)|;
  }

  /** Renaming the signature, its sorts and its operations leaves the fingerprint alone. */
  lemma RenamingKeepsFingerprint(sig: Signature, name: string, sortNames: seq<string>, opNames: seq<string>)
    requires |sortNames| == |sig.sorts| && |opNames| == |sig.operations|
    ensures
      var renamed := sig.(
        name := name,
        sorts := seq(|sig.sorts|, i requires 0 <= i < |sig.sorts| => sig.sorts[i].(name := sortNames[i])),
        operations := seq(|sig.operations|, i requires 0 <= i < |sig.operations| => sig.operations[i].(name := opNames[i])));
      Fingerprint(renamed) == Fingerprint(sig)
  {
    var renamed := sig.(
      name := name,
      sorts := seq(|sig.sorts|, i requires 0 <= i < |sig.sorts| => sig.sorts[i].(name := sortNames[i])),
      operations := seq(|sig.operations|, i requires 0 <= i < |sig.operations| => sig.operations[i].(name := opNames[i])));
    assert Arities(renamed.operations) == Arities(sig.operations);
  }

  /** Permuting the operations and the axioms leaves the fingerprint alone. */
  lemma ReorderingKeepsFingerprint(sig: Signature, ops: seq<Operation>, axioms: seq<Axiom>)
    requires multiset(ops) == multiset(sig.operations) && multiset(axioms) == multiset(sig.axioms)
    ensures Fingerprint(sig.(operations := ops, axioms := axioms)) == Fingerprint(sig)
  {
    MapSeqPermutation(ops, sig.operations, OpArity);
    MapSeqPermutation(axioms, sig.axioms, AxiomKindName);
    FingerprintShape(sig.(operations := ops, axioms := axioms), sig);
  }

  function MapSeq<A, B>(s: seq<A>, f: A -> B): (r: seq<B>)
    ensures |r| == |s| && forall i :: 0 <= i < |s| ==> r[i] == f(s[i])
  {
    if s == [] then [] else [f(s[0])] + MapSeq(s[1..], f)
  }

  lemma {:induction false} MapSeqMultiset<A, B>(s: seq<A>, x: A, f: A -> B)
    requires x in s
    ensures multiset(MapSeq(s, f)) == multiset(MapSeq(RemoveOne(s, x), f)) + multiset{f(x)}
  {
    if s[0] != x {
      MapSeqMultiset(s[1..], x, f);
      assert MapSeq(s, f) == [f(s[0])] + MapSeq(s[1..], f);
      assert RemoveOne(s, x) == [s[0]] + RemoveOne(s[1..], x);
      assert MapSeq(RemoveOne(s, x), f) == [f(s[0])] + MapSeq(RemoveOne(s[1..], x), f);
    } else {
      assert MapSeq(s, f) == [f(s[0])] + MapSeq(s[1..], f);
    }
  }

  ghost function RemoveOne<A>(s: seq<A>, x: A): (r: seq<A>)
    requires x in s
    ensures multiset(r) == multiset(s) - multiset{x}
  {
    if s[0] == x then
      assert s == [s[0]] + s[1..];
      s[1..]
    else
      assert s == [s[0]] + s[1..];
      [s[0]] + RemoveOne(s[1..], x)
  }

  /** Mapping a function over two permutations of each other gives permutations. */
  lemma {:induction false} MapSeqPermutation<A, B>(s: seq<A>, t: seq<A>, f: A -> B)
    requires multiset(s) == multiset(t)
    ensures multiset(MapSeq(s, f)) == multiset(MapSeq(t, f))
    decreases |s|
  {
    if s != [] {
      var x := s[0];
      assert x in multiset(t);
      assert s == [x] + s[1..];
      assert multiset(s[1..]) == multiset(s) - multiset{x};
      assert multiset(RemoveOne(t, x)) == multiset(s[1..]);
      MapSeqPermutation(s[1..], RemoveOne(t, x), f);
      MapSeqMultiset(t, x, f);
      assert MapSeq(s, f) == [f(x)] + MapSeq(s[1..], f);
    } else {
      assert |t| == 0 by { assert |multiset(t)| == 0; }
    }
  }

  // ---- Dictionary form (`to_dict` / `from_dict`) ----

  /** Dictionaries as `from_dict` receives them: every key may be missing. */
  datatype SortDict = SortDict(name: Option<string>, description: Option<string>)
  datatype OpDict = OpDict(name: Option<string>, domain: Option<seq<string>>, codomain: Option<string>, description: Option<string>)
  datatype AxiomDict = AxiomDict(kind: Option<string>, equation: Option<string>, operations: Option<seq<string>>, description: Option<string>)
  datatype SigDict = SigDict(
    name: Option<string>,
    sorts: Option<seq<SortDict>>,
    operations: Option<seq<OpDict>>,
    axioms: Option<seq<AxiomDict>>,
    description: Option<string>,
    derivationChain: Option<seq<string>>,
    fingerprint: Option<Canon>)

  /** `d.get(key, default)`. */
  function GetOr<T>(o: Option<T>, default: T): T {
    if o.Some? then o.value else default
  }

  /** The text of the `KeyError` that `d[key]` raises for a missing key. */
  function MissingKey(key: string): string {
    "'" + key + "'"
  }

  function SortToDict(s: Sort): SortDict {
    SortDict(Some(s.name), Some(s.description))
  }

  function OperationToDict(op: Operation): OpDict {
    OpDict(Some(op.name), Some(op.domain), Some(op.codomain), Some(op.description))
  }

  function AxiomToDict(a: Axiom): AxiomDict {
    AxiomDict(Some(KindName(a.kind)), Some(EquationRepr(a.equation)), Some(a.operations), Some(a.description))
  }

  /** `to_dict()`: every key is written. */
  function ToDict(sig: Signature): (d: SigDict)
    ensures d.name == Some(sig.name) && d.description == Some(sig.description)
    ensures d.derivationChain == Some(sig.derivationChain)
    ensures d.fingerprint == Some(Fingerprint(sig))
    ensures d.sorts.Some? && |d.sorts.value| == |sig.sorts| && forall i :: 0 <= i < |sig.sorts| ==>
              d.sorts.value[i] == SortDict(Some(sig.sorts[i].name), Some(sig.sorts[i].description))
    ensures d.operations.Some? && |d.operations.value| == |sig.operations| && forall i :: 0 <= i < |sig.operations| ==>
              var op := sig.operations[i];
              d.operations.value[i] == OpDict(Some(op.name), Some(op.domain), Some(op.codomain), Some(op.description))
    ensures d.axioms.Some? && |d.axioms.value| == |sig.axioms| && forall i :: 0 <= i < |sig.axioms| ==>
              var a := sig.axioms[i];
              d.axioms.value[i] == AxiomDict(Some(KindName(a.kind)), Some(EquationRepr(a.equation)), Some(a.operations), Some(a.description))
  {
    SigDict(
      Some(sig.name),
      Some(MapSeq(sig.sorts, SortToDict)),
      Some(MapSeq(sig.operations, OperationToDict)),
      Some(MapSeq(sig.axioms, AxiomToDict)),
      Some(sig.description),
      Some(sig.derivationChain),
      Some(Fingerprint(sig)))
  }

  /** The names of the zero-arity operations: the constant symbols. */
  function ConstantNames(ops: seq<Operation>): set<string> {
    set i | 0 <= i < |ops| && ops[i].Arity() == 0 :: ops[i].name
  }

  /** `Sort(s["name"], s.get("description", ""))`. */
  function SortFromDict(d: SortDict): Result<Sort> {
    if d.name.None? then Failure(MissingKey("name"))
    else Success(Sort(d.name.value, GetOr(d.description, "")))
  }

  /** `Operation(op["name"], op["domain"], op["codomain"], op.get("description", ""))`:
      the required keys are read in that order. */
  function OpFromDict(d: OpDict): Result<Operation> {
    if d.name.None? then Failure(MissingKey("name"))
    else if d.domain.None? then Failure(MissingKey("domain"))
    else if d.codomain.None? then Failure(MissingKey("codomain"))
    else Success(Operation(d.name.value, d.domain.value, d.codomain.value, GetOr(d.description, "")))
  }

  /** A list comprehension over entries: each entry read in order, the first
      that raises ending the whole with its error. */
  function ReadAll<D, T>(ds: seq<D>, read: D -> Result<T>): (r: Result<seq<T>>)
    ensures r.Success? <==> forall i :: 0 <= i < |ds| ==> read(ds[i]).Success?
    ensures r.Success? ==> |r.value| == |ds| && forall i :: 0 <= i < |ds| ==> r.value[i] == read(ds[i]).value
    ensures r.Failure? ==> exists i :: 0 <= i < |ds| && read(ds[i]) == Failure(r.error) &&
                                       forall j :: 0 <= j < i ==> read(ds[j]).Success?
  {
    if ds == [] then Success([])
    else
      var m := |ds| - 1;
      var front := ReadAll(ds[..m], read);
      assert forall i :: 0 <= i < m ==> ds[..m][i] == ds[i];
      if front.Failure? then front
      else
        var x := read(ds[m]);
        if x.Failure? then Failure(x.error) else Success(front.value + [x.value])
  }

  /** `[Sort(...) for s in data.get("sorts", [])]`. */
  function SortsFromDicts(ds: seq<SortDict>): (r: Result<seq<Sort>>)
    ensures r.Success? <==> forall i :: 0 <= i < |ds| ==> ds[i].name.Some?
    ensures r.Success? ==> |r.value| == |ds| && forall i :: 0 <= i < |ds| ==>
              r.value[i] == Sort(ds[i].name.value, GetOr(ds[i].description, ""))
    ensures r.Failure? ==> r.error == MissingKey("name")
  {
    ReadAll(ds, SortFromDict)
  }

  /** `[Operation(...) for op in data.get("operations", [])]`. */
  function OpsFromDicts(ds: seq<OpDict>): (r: Result<seq<Operation>>)
    ensures r.Success? <==> forall i :: 0 <= i < |ds| ==> ds[i].name.Some? && ds[i].domain.Some? && ds[i].codomain.Some?
    ensures r.Success? ==> |r.value| == |ds| && forall i :: 0 <= i < |ds| ==>
              r.value[i] == Operation(ds[i].name.value, ds[i].domain.value, ds[i].codomain.value, GetOr(ds[i].description, ""))
    ensures r.Failure? ==> r.error in {MissingKey("name"), MissingKey("domain"), MissingKey("codomain")}
  {
    ReadAll(ds, OpFromDict)
  }

  /** One loop step of `from_dict`: the kind must be present and known, then
      the equation present and readable; the operations and the description
      default to empty. */
  function AxiomFromDict(d: AxiomDict, consts: set<string>): Result<Axiom> {
    if d.kind.None? then Failure(MissingKey("kind"))
    else
      var kind := KindFromName(d.kind.value);
      if kind.None? then Failure("'" + d.kind.value + "' is not a valid AxiomKind")
      else if d.equation.None? then Failure(MissingKey("equation"))
      else
        var eq := Parser.ParseEquation(d.equation.value, consts);
        if eq.None? then Failure("cannot parse equation: " + d.equation.value)
        else Success(Axiom(kind.value, eq.value, GetOr(d.operations, []), GetOr(d.description, "")))
  }

  /** The axiom list `from_dict` builds from the first `|ds|` entries, failing at
      the first unreadable one. */
  function AxiomsFromDicts(ds: seq<AxiomDict>, consts: set<string>): (r: Result<seq<Axiom>>)
    ensures r.Success? ==> |r.value| == |ds|
  {
    if ds == [] then Success([])
    else
      var front := AxiomsFromDicts(ds[..|ds| - 1], consts);
      if front.Failure? then front
      else
        var a := AxiomFromDict(ds[|ds| - 1], consts);
        if a.Failure? then Failure(a.error) else Success(front.value + [a.value])
  }

  /** The signature `from_dict(d)` returns, or the error it raises: the sorts,
      then the operations, then the axioms are read; missing top-level keys
      default to empty. */
  function SignatureFromDict(d: SigDict): Result<Signature> {
    var sorts := SortsFromDicts(GetOr(d.sorts, []));
    if sorts.Failure? then Failure(sorts.error)
    else
      var ops := OpsFromDicts(GetOr(d.operations, []));
      if ops.Failure? then Failure(ops.error)
      else
        var axioms := AxiomsFromDicts(GetOr(d.axioms, []), ConstantNames(ops.value));
        if axioms.Failure? then Failure(axioms.error)
        else Success(Signature(GetOr(d.name, ""), sorts.value, ops.value, axioms.value,
                               GetOr(d.description, ""), GetOr(d.derivationChain, []), map[]))
  }

  /** `from_dict(d)`: the sorts and operations are read, the axiom loop reads
      each kind and parses each equation with the zero-arity operations as the
      constants, and the metadata starts empty. */
  method FromDict(d: SigDict) returns (r: Result<Signature>)
    ensures r == SignatureFromDict(d)
  {
    var sorts := SortsFromDicts(GetOr(d.sorts, []));
    if sorts.Failure? {
      return Failure(sorts.error);
    }
    var operations := OpsFromDicts(GetOr(d.operations, []));
    if operations.Failure? {
      return Failure(operations.error);
    }
    var constants := ConstantNames(operations.value);
    var entries := GetOr(d.axioms, []);
    var axioms: seq<Axiom> := [];
    var i := 0;
    while i < |entries|
      invariant 0 <= i <= |entries|
      invariant AxiomsFromDicts(entries[..i], constants) == Success(axioms)
    {
      assert entries[..i + 1][..i] == entries[..i];
      var a := AxiomFromDict(entries[i], constants);
      if a.Failure? {
        r := Failure(a.error);
        PrefixFailure(entries, i + 1, constants);
        return;
      }
      axioms := axioms + [a.value];
      i := i + 1;
    }
    assert entries[..i] == entries;
    r := Success(Signature(GetOr(d.name, ""), sorts.value, operations.value, axioms,
                           GetOr(d.description, ""), GetOr(d.derivationChain, []), map[]));
  }

  /** Once a prefix of the axiom entries fails to read, the whole list fails with
      the same error. */
  lemma {:induction false} PrefixFailure(ds: seq<AxiomDict>, k: nat, consts: set<string>)
    requires 0 < k <= |ds| && AxiomsFromDicts(ds[..k], consts).Failure?
    ensures AxiomsFromDicts(ds, consts) == AxiomsFromDicts(ds[..k], consts)
    decreases |ds| - k
  {
    if k < |ds| {
      assert ds[..k + 1][..k] == ds[..k];
      PrefixFailure(ds, k + 1, consts);
    } else {
      assert ds[..k] == ds;
    }
  }

  /** The keys `from_dict` requires: a signature comes back only when every
      sort entry has its name, every operation entry its name, domain and
      codomain, and every axiom entry its kind and equation; a sort entry
      without a name raises `KeyError('name')`; a dictionary without any key
      gives the empty signature. */
  lemma {:induction false} FromDictKeys(d: SigDict)
    ensures SignatureFromDict(d).Success? ==>
      && (forall i :: 0 <= i < |GetOr(d.sorts, [])| ==> GetOr(d.sorts, [])[i].name.Some?)
      && (forall i :: 0 <= i < |GetOr(d.operations, [])| ==>
            var op := GetOr(d.operations, [])[i];
            op.name.Some? && op.domain.Some? && op.codomain.Some?)
      && (forall i :: 0 <= i < |GetOr(d.axioms, [])| ==>
            GetOr(d.axioms, [])[i].kind.Some? && GetOr(d.axioms, [])[i].equation.Some?)
    ensures (exists i :: 0 <= i < |GetOr(d.sorts, [])| && GetOr(d.sorts, [])[i].name.None?) ==>
      SignatureFromDict(d) == Failure(MissingKey("name"))
    ensures SignatureFromDict(SigDict(None, None, None, None, None, None, None)) ==
      Success(Signature("", [], [], [], "", [], map[]))
  {
    var ops := OpsFromDicts(GetOr(d.operations, []));
    if SignatureFromDict(d).Success? {
      AxiomsRead(GetOr(d.axioms, []), ConstantNames(ops.value));
    }
  }

  /** Axioms read back only when every entry has its kind and its equation. */
  lemma {:induction false} AxiomsRead(ds: seq<AxiomDict>, consts: set<string>)
    requires AxiomsFromDicts(ds, consts).Success?
    ensures forall i :: 0 <= i < |ds| ==> ds[i].kind.Some? && ds[i].equation.Some?
  {
    if ds != [] {
      var m := |ds| - 1;
      AxiomsRead(ds[..m], consts);
      assert forall i :: 0 <= i < m ==> ds[..m][i] == ds[i];
      assert AxiomFromDict(ds[m], consts).Success?;
    }
  }

  /** The signatures whose equations `from_dict` can read back: every equation is
      well formed with the zero-arity operations as its constants. */
  predicate Readable(sig: Signature) {
    forall i :: 0 <= i < |sig.axioms| ==>
      Parser.EquationWellFormed(sig.axioms[i].equation, ConstantNames(sig.operations))
  }

  lemma {:induction false} AxiomsRoundTrip(axioms: seq<Axiom>, consts: set<string>)
    requires forall i :: 0 <= i < |axioms| ==> Parser.EquationWellFormed(axioms[i].equation, consts)
    ensures AxiomsFromDicts(MapSeq(axioms, AxiomToDict), consts) == Success(axioms)
  {
    var ds := MapSeq(axioms, AxiomToDict);
    if axioms != [] {
      var n := |axioms| - 1;
      var front := axioms[..n];
      AxiomsRoundTrip(front, consts);
      assert ds[..n] == MapSeq(front, AxiomToDict);
      var a := axioms[n];
      assert AxiomFromDict(ds[n], consts) == Success(a) by {
        assert ds[n] == AxiomToDict(a);
        KindNameRoundTrip(a.kind);
        Parser.ParseEquationRepr(a.equation, consts);
      }
      SplitLast(axioms);
    }
  }

  lemma SplitLast<T>(s: seq<T>)
    requires |s| > 0
    ensures s[..|s| - 1] + [s[|s| - 1]] == s
  {
  }

  lemma ToDictOperationsBack(sig: Signature)
    ensures OpsFromDicts(ToDict(sig).operations.value) == Success(sig.operations)
  {
    var ds := ToDict(sig).operations.value;
    var r := OpsFromDicts(ds);
    assert forall i :: 0 <= i < |ds| ==> ds[i] == OperationToDict(sig.operations[i]);
    assert r.Success?;
    assert r.value == sig.operations;
  }

  lemma ToDictSortsBack(sig: Signature)
    ensures SortsFromDicts(ToDict(sig).sorts.value) == Success(sig.sorts)
  {
    var ds := ToDict(sig).sorts.value;
    var r := SortsFromDicts(ds);
    assert forall i :: 0 <= i < |ds| ==> ds[i] == SortToDict(sig.sorts[i]);
    assert r.Success?;
    assert r.value == sig.sorts;
  }

  lemma ToDictAxiomsBack(sig: Signature)
    requires Readable(sig)
    ensures AxiomsFromDicts(ToDict(sig).axioms.value, ConstantNames(sig.operations)) == Success(sig.axioms)
  {
    assert ToDict(sig).axioms.value == MapSeq(sig.axioms, AxiomToDict);
    AxiomsRoundTrip(sig.axioms, ConstantNames(sig.operations));
  }

  /** `from_dict(to_dict(s))` rebuilds `s` exactly, except that the metadata is dropped. */
  lemma DictRoundTrip(sig: Signature)
    requires Readable(sig)
    ensures SignatureFromDict(ToDict(sig)) == Success(sig.(metadata := map[]))
  {
    var d := ToDict(sig);
    ToDictOperationsBack(sig);
    ToDictSortsBack(sig);
    ToDictAxiomsBack(sig);
    assert GetOr(d.name, "") == sig.name && GetOr(d.description, "") == sig.description;
    assert GetOr(d.derivationChain, []) == sig.derivationChain;
  }

  /** Hence the round trip keeps the fingerprint, the names, the operation
      signatures, the axiom kinds and the printed equations. */
  lemma DictRoundTripKeepsShape(sig: Signature)
    requires Readable(sig)
    ensures SignatureFromDict(ToDict(sig)).Success?
    ensures var back := SignatureFromDict(ToDict(sig)).value;
      && Fingerprint(back) == Fingerprint(sig)
      && SortNames(back.sorts) == SortNames(sig.sorts)
      && back.operations == sig.operations
      && (forall i :: 0 <= i < |sig.axioms| ==>
            back.axioms[i].kind == sig.axioms[i].kind
            && EquationRepr(back.axioms[i].equation) == EquationRepr(sig.axioms[i].equation))
      && back.metadata == map[]
  {
    DictRoundTrip(sig);
  }

  // ---- Builders of the standard equations ----

  function MakeAssocEquation(op: string): Equation {
    Equation(App(op, [App(op, [Var("x"), Var("y")]), Var("z")]),
             App(op, [Var("x"), App(op, [Var("y"), Var("z")])]))
  }

  function MakeCommEquation(op: string): Equation {
    Equation(App(op, [Var("x"), Var("y")]), App(op, [Var("y"), Var("x")]))
  }

  function MakeIdentityEquation(op: string, id: string): Equation {
    Equation(App(op, [Var("x"), Const(id)]), Var("x"))
  }

  function MakeInverseEquation(op: string, inv: string, id: string): Equation {
    Equation(App(op, [Var("x"), App(inv, [Var("x")])]), Const(id))
  }

  function MakeIdempotentEquation(op: string): Equation {
    Equation(App(op, [Var("x"), Var("x")]), Var("x"))
  }

  function MakeAnticommEquation(op: string): Equation {
    Equation(App(op, [Var("x"), Var("y")]), App("neg", [App(op, [Var("y"), Var("x")])]))
  }

  function MakeDistribEquation(mul: string, add: string): Equation {
    Equation(App(mul, [Var("a"), App(add, [Var("b"), Var("c")])]),
             App(add, [App(mul, [Var("a"), Var("b")]), App(mul, [Var("a"), Var("c")])]))
  }

  function MakeSelfDistribEquation(op: string): Equation {
    Equation(App(op, [Var("a"), App(op, [Var("b"), Var("c")])]),
             App(op, [App(op, [Var("a"), Var("b")]), App(op, [Var("a"), Var("c")])]))
  }

  function MakeRightSelfDistribEquation(op: string): Equation {
    Equation(App(op, [App(op, [Var("a"), Var("b")]), Var("c")]),
             App(op, [App(op, [Var("a"), Var("c")]), App(op, [Var("b"), Var("c")])]))
  }

  function MakeJacobiEquation(br: string): Equation {
    Equation(App("add", [App(br, [Var("x"), App(br, [Var("y"), Var("z")])]),
                         App(br, [Var("y"), App(br, [Var("z"), Var("x")])])]),
             App("neg", [App(br, [Var("z"), App(br, [Var("x"), Var("y")])])]))
  }

  lemma VariablesOne(a: Expr)
    ensures VariablesList([a]) == Variables(a)
  {
    assert [a][1..] == [];
  }

  lemma VariablesTwo(a: Expr, b: Expr)
    ensures VariablesList([a, b]) == Variables(a) + Variables(b)
  {
    assert [a, b][1..] == [b];
    VariablesOne(b);
  }

  /** The variables of the builders' equations, for every operation name. */
  lemma BuilderVariables(op: string, id: string, inv: string)
    ensures EquationVariables(MakeAssocEquation(op)) == {"x", "y", "z"}
    ensures EquationVariables(MakeCommEquation(op)) == {"x", "y"}
    ensures EquationVariables(MakeIdentityEquation(op, id)) == {"x"}
    ensures EquationVariables(MakeInverseEquation(op, inv, id)) == {"x"}
    ensures EquationVariables(MakeIdempotentEquation(op)) == {"x"}
    ensures EquationVariables(MakeSelfDistribEquation(op)) == {"a", "b", "c"}
    ensures EquationVariables(MakeJacobiEquation(op)) == {"x", "y", "z"}
  {
    var x, y, z, a, b, c := Var("x"), Var("y"), Var("z"), Var("a"), Var("b"), Var("c");
    VariablesTwo(x, y); VariablesTwo(y, x); VariablesTwo(y, z); VariablesTwo(z, x);
    VariablesTwo(x, x); VariablesTwo(a, b); VariablesTwo(b, c); VariablesTwo(a, c);
    VariablesTwo(App(op, [x, y]), z); VariablesTwo(x, App(op, [y, z]));
    VariablesTwo(x, Const(id)); VariablesOne(x); VariablesTwo(x, App(inv, [x]));
    VariablesTwo(a, App(op, [b, c])); VariablesTwo(App(op, [a, b]), App(op, [a, c]));
    VariablesTwo(y, App(op, [z, x])); VariablesTwo(z, App(op, [x, y]));
    VariablesTwo(App(op, [x, App(op, [y, z])]), App(op, [y, App(op, [z, x])]));
    VariablesOne(App(op, [z, App(op, [x, y])]));
  }

  /** Commutativity relates an application to the one with its arguments swapped. */
  lemma CommSwapsArguments(op: string)
    ensures var eq := MakeCommEquation(op);
      && eq.lhs.App? && eq.rhs.App? && eq.lhs.opName == op == eq.rhs.opName
      && |eq.lhs.args| == 2 && eq.rhs.args == [eq.lhs.args[1], eq.lhs.args[0]]
      && eq.lhs.args[0] != eq.lhs.args[1]
  {
  }

  /** Left self-distributivity is left distributivity of an operation over itself. */
  lemma SelfDistribIsDistribOverItself(op: string)
    ensures MakeSelfDistribEquation(op) == MakeDistribEquation(op, op)
  {
  }

  /** The printed forms of the builders, as stored by `to_dict`. */
  lemma IdentityText()
    ensures EquationRepr(MakeIdentityEquation("mul", "e")) == "(x mul e) = x"
  {
  }

  lemma InverseText()
    ensures EquationRepr(MakeInverseEquation("mul", "inv", "e")) == "(x mul inv(x)) = e"
  {
  }
}
