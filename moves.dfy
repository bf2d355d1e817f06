/** The structural moves that turn one or two signatures into candidate
    signatures. A move never changes its parents: each candidate is a copy of a
    parent, renamed, with sorts, operations, axioms and derivation steps added. */
module Moves {
  import opened Wrappers
  import opened Ast
  import opened Signatures
  import Text
  import opened Grids

  datatype MoveKind =
    | Abstract | Dualize | Complete | Quotient | Internalize | Transfer | Deform | SelfDistrib

  /** One candidate: the new signature, the move that made it, the names of its
      parents and a human-readable description. */
  datatype MoveResult = MoveResult(signature: Signature, move: MoveKind, parents: seq<string>, description: string)

  /** `_deep_copy_sig`: the same signature under a new name. Lists are copied in
      the source; signatures are values here, so a copy is the value itself. */
  function CopyAs(sig: Signature, newName: string): Signature {
    sig.(name := newName)
  }

  /** The operations among `ops`, in order, that no axiom of `kind` names. */
  function Lacking(ops: seq<Operation>, axioms: seq<Axiom>, kind: AxiomKind): (r: seq<Operation>)
    ensures forall op :: op in r <==> op in ops && !HasAxiomFor(axioms, kind, op.name)
    ensures |r| <= |ops|
  {
    if ops == [] then []
    else
      var init, last := ops[..|ops| - 1], ops[|ops| - 1];
      assert ops == init + [last];
      Lacking(init, axioms, kind) + (if HasAxiomFor(axioms, kind, last.name) then [] else [last])
  }

  /** `child` is `parent` with exactly the axiom `ax` appended and one more
      derivation step; sorts and operations are unchanged. */
  predicate AddsOneAxiom(parent: Signature, child: Signature, ax: Axiom) {
    && child.sorts == parent.sorts
    && child.operations == parent.operations
    && child.axioms == parent.axioms + [ax]
    && ExtendsChain(parent, child)
  }

  /** The derivation chain of `child` is that of `parent` plus one step. */
  predicate ExtendsChain(parent: Signature, child: Signature) {
    |child.derivationChain| == |parent.derivationChain| + 1
    && child.derivationChain[..|parent.derivationChain|] == parent.derivationChain
  }

  lemma SplitLast<T>(s: seq<T>)
    requires s != []
    ensures s == s[..|s| - 1] + [s[|s| - 1]]
  {
  }

  // ---- DUALIZE ----

  function DualizeCandidate(sig: Signature, op: Operation): MoveResult {
    var newSig := CopyAs(sig, sig.name + "_dual(" + op.name + ")");
    var newSig := newSig.(derivationChain := newSig.derivationChain + ["Dualize(" + op.name + ")"]);
    var newSig := newSig.(axioms := newSig.axioms +
      [Axiom(Commutativity, MakeCommEquation(op.name), [op.name], "dualization of " + op.name)]);
    MoveResult(newSig, MoveKind.Dualize, [sig.name], "Dualize " + op.name + " in " + sig.name + " (add commutativity)")
  }

  /** The candidates `dualize` yields for the binary operations `ops`, in order. */
  function DualizeAll(sig: Signature, ops: seq<Operation>): seq<MoveResult> {
    if ops == [] then []
    else
      var op := ops[|ops| - 1];
      DualizeAll(sig, ops[..|ops| - 1])
        + (if HasAxiomFor(sig.axioms, Commutativity, op.name) then [] else [DualizeCandidate(sig, op)])
  }

  /** `dualize`: for each binary operation with no commutativity axiom yet, a copy
      of the signature with that axiom added. */
  method Dualize(sig: Signature) returns (results: seq<MoveResult>)
    ensures results == DualizeAll(sig, BinaryOps(sig))
  {
    results := [];
    var binaryOps := BinaryOps(sig);
    var i := 0;
    while i < |binaryOps|
      invariant 0 <= i <= |binaryOps|
      invariant results == DualizeAll(sig, binaryOps[..i])
    {
      var op := binaryOps[i];
      assert binaryOps[..i + 1][..i] == binaryOps[..i];
      assert DualizeAll(sig, binaryOps[..i + 1]) == DualizeAll(sig, binaryOps[..i])
        + (if HasAxiomFor(sig.axioms, Commutativity, op.name) then [] else [DualizeCandidate(sig, op)]);
      var newSig := CopyAs(sig, sig.name + "_dual(" + op.name + ")");
      newSig := newSig.(derivationChain := newSig.derivationChain + ["Dualize(" + op.name + ")"]);
      assert newSig.axioms == sig.axioms;
      var hasComm := HasAxiomFor(newSig.axioms, Commutativity, op.name);
      if !hasComm {
        newSig := newSig.(axioms := newSig.axioms +
          [Axiom(Commutativity, MakeCommEquation(op.name), [op.name], "dualization of " + op.name)]);
        var candidate := MoveResult(newSig, MoveKind.Dualize, [sig.name],
          "Dualize " + op.name + " in " + sig.name + " (add commutativity)");
        assert candidate == DualizeCandidate(sig, op);
        results := results + [candidate];
      }
      i := i + 1;
    }
    assert binaryOps[..i] == binaryOps;
  }

  /** Exactly one candidate per operation lacking commutativity, in order. */
  lemma {:induction false} DualizeExact(sig: Signature, ops: seq<Operation>)
    ensures var r, l := DualizeAll(sig, ops), Lacking(ops, sig.axioms, Commutativity);
      |r| == |l| && forall k :: 0 <= k < |r| ==> r[k] == DualizeCandidate(sig, l[k])
  {
    if ops != [] {
      DualizeExact(sig, ops[..|ops| - 1]);
    }
  }

  /** A dualize candidate is its parent plus one commutativity axiom on `op`;
      dualizing it again yields nothing for `op`, and its fingerprint differs. */
  lemma DualizeCandidateShape(sig: Signature, op: Operation)
    ensures var c := DualizeCandidate(sig, op);
      && AddsOneAxiom(sig, c.signature,
           Axiom(Commutativity, MakeCommEquation(op.name), [op.name], "dualization of " + op.name))
      && c.move == MoveKind.Dualize && c.parents == [sig.name]
      && HasAxiomFor(c.signature.axioms, Commutativity, op.name)
      && Fingerprint(c.signature) != Fingerprint(sig)
  {
    var c := DualizeCandidate(sig, op);
    var ax := Axiom(Commutativity, MakeCommEquation(op.name), [op.name], "dualization of " + op.name);
    assert c.signature.axioms[|sig.axioms|] == ax;
    ExtraAxiomChangesFingerprint(sig.(name := c.signature.name, derivationChain := c.signature.derivationChain), ax);
  }

  // ---- SELF_DISTRIB ----

  function SelfDistribCandidate(sig: Signature, op: Operation): MoveResult {
    var newSig := CopyAs(sig, sig.name + "_sd(" + op.name + ")");
    var newSig := newSig.(derivationChain := newSig.derivationChain + ["SelfDistrib(" + op.name + ")"]);
    var newSig := newSig.(axioms := newSig.axioms +
      [Axiom(SelfDistributivity, MakeSelfDistribEquation(op.name), [op.name], "")]);
    MoveResult(newSig, MoveKind.SelfDistrib, [sig.name], "Add self-distributivity to " + op.name + " in " + sig.name)
  }

  function SelfDistribAll(sig: Signature, ops: seq<Operation>): seq<MoveResult> {
    if ops == [] then []
    else
      var op := ops[|ops| - 1];
      SelfDistribAll(sig, ops[..|ops| - 1])
        + (if HasAxiomFor(sig.axioms, SelfDistributivity, op.name) then [] else [SelfDistribCandidate(sig, op)])
  }

  /** `self_distrib`: for each binary operation with no left self-distributivity
      axiom yet, a copy with `a*(b*c) = (a*b)*(a*c)` added. */
  method SelfDistrib(sig: Signature) returns (results: seq<MoveResult>)
    ensures results == SelfDistribAll(sig, BinaryOps(sig))
  {
    results := [];
    var binaryOps := BinaryOps(sig);
    var i := 0;
    while i < |binaryOps|
      invariant 0 <= i <= |binaryOps|
      invariant results == SelfDistribAll(sig, binaryOps[..i])
    {
      var op := binaryOps[i];
      var already := HasAxiomFor(sig.axioms, SelfDistributivity, op.name);
      if !already {
        var newSig := CopyAs(sig, sig.name + "_sd(" + op.name + ")");
        newSig := newSig.(derivationChain := newSig.derivationChain + ["SelfDistrib(" + op.name + ")"]);
        newSig := newSig.(axioms := newSig.axioms +
          [Axiom(SelfDistributivity, MakeSelfDistribEquation(op.name), [op.name], "")]);
        var candidate := MoveResult(newSig, MoveKind.SelfDistrib, [sig.name],
          "Add self-distributivity to " + op.name + " in " + sig.name);
        assert candidate == SelfDistribCandidate(sig, op);
        results := results + [candidate];
      }
      assert binaryOps[..i + 1][..i] == binaryOps[..i];
      i := i + 1;
    }
    assert binaryOps[..i] == binaryOps;
  }

  lemma {:induction false} SelfDistribExact(sig: Signature, ops: seq<Operation>)
    ensures var r, l := SelfDistribAll(sig, ops), Lacking(ops, sig.axioms, SelfDistributivity);
      |r| == |l| && forall k :: 0 <= k < |r| ==> r[k] == SelfDistribCandidate(sig, l[k])
  {
    if ops != [] {
      SelfDistribExact(sig, ops[..|ops| - 1]);
    }
  }

  lemma SelfDistribCandidateShape(sig: Signature, op: Operation)
    ensures var c := SelfDistribCandidate(sig, op);
      && AddsOneAxiom(sig, c.signature, Axiom(SelfDistributivity, MakeSelfDistribEquation(op.name), [op.name], ""))
      && c.move == MoveKind.SelfDistrib && c.parents == [sig.name]
      && HasAxiomFor(c.signature.axioms, SelfDistributivity, op.name)
  {
    var c := SelfDistribCandidate(sig, op);
    assert c.signature.axioms[|sig.axioms|].operations == [op.name];
  }

  // ---- QUOTIENT ----

  /** One row of `quotient_axioms`: the kind to force, its label text and its builder. */
  datatype QuotientRule = QuotientRule(kind: AxiomKind, labelText: string, equation: string -> Equation)

  const QuotientRules: seq<QuotientRule> := [
    QuotientRule(Commutativity, "COMM", MakeCommEquation),
    QuotientRule(Idempotence, "IDEM", MakeIdempotentEquation)]

  function QuotientCandidate(sig: Signature, op: Operation, rule: QuotientRule): MoveResult {
    var newSig := CopyAs(sig, sig.name + "_q(" + rule.labelText + "," + op.name + ")");
    var newSig := newSig.(derivationChain := newSig.derivationChain + ["Quotient(" + rule.labelText + " on " + op.name + ")"]);
    var newSig := newSig.(axioms := newSig.axioms + [Axiom(rule.kind, rule.equation(op.name), [op.name], "")]);
    MoveResult(newSig, MoveKind.Quotient, [sig.name], "Quotient " + sig.name + " by " + rule.labelText + " on " + op.name)
  }

  /** The candidates for one binary operation and the rules `rules`, in order. */
  function QuotientStep(sig: Signature, op: Operation, rules: seq<QuotientRule>): seq<MoveResult> {
    if rules == [] then []
    else
      var rule := rules[|rules| - 1];
      QuotientStep(sig, op, rules[..|rules| - 1])
        + (if HasAxiomFor(sig.axioms, rule.kind, op.name) then [] else [QuotientCandidate(sig, op, rule)])
  }

  function QuotientAll(sig: Signature, ops: seq<Operation>): seq<MoveResult> {
    if ops == [] then []
    else QuotientAll(sig, ops[..|ops| - 1]) + QuotientStep(sig, ops[|ops| - 1], QuotientRules)
  }

  /** `quotient`: for each binary operation and each of commutativity and
      idempotence it lacks, a copy with that axiom forced. */
  method Quotient(sig: Signature) returns (results: seq<MoveResult>)
    ensures results == QuotientAll(sig, BinaryOps(sig))
  {
    results := [];
    var binaryOps := BinaryOps(sig);
    var i := 0;
    while i < |binaryOps|
      invariant 0 <= i <= |binaryOps|
      invariant results == QuotientAll(sig, binaryOps[..i])
    {
      var forOp := QuotientOp(sig, binaryOps[i]);
      assert binaryOps[..i + 1][..i] == binaryOps[..i];
      assert QuotientAll(sig, binaryOps[..i + 1]) == QuotientAll(sig, binaryOps[..i]) + forOp;
      results := results + forOp;
      i := i + 1;
    }
    assert binaryOps[..i] == binaryOps;
  }

  /** The inner loop of `quotient`, over the rows of `quotient_axioms` for one operation. */
  method QuotientOp(sig: Signature, op: Operation) returns (results: seq<MoveResult>)
    ensures results == QuotientStep(sig, op, QuotientRules)
  {
    results := [];
    var quotientAxioms := QuotientRules;
    var j := 0;
    while j < |quotientAxioms|
      invariant 0 <= j <= |quotientAxioms|
      invariant results == QuotientStep(sig, op, quotientAxioms[..j])
    {
      var rule := quotientAxioms[j];
      var already := HasAxiomFor(sig.axioms, rule.kind, op.name);
      if !already {
        var newSig := CopyAs(sig, sig.name + "_q(" + rule.labelText + "," + op.name + ")");
        newSig := newSig.(derivationChain := newSig.derivationChain + ["Quotient(" + rule.labelText + " on " + op.name + ")"]);
        newSig := newSig.(axioms := newSig.axioms + [Axiom(rule.kind, rule.equation(op.name), [op.name], "")]);
        results := results + [MoveResult(newSig, MoveKind.Quotient, [sig.name],
          "Quotient " + sig.name + " by " + rule.labelText + " on " + op.name)];
      }
      assert quotientAxioms[..j + 1][..j] == quotientAxioms[..j];
      j := j + 1;
    }
    assert quotientAxioms[..j] == quotientAxioms;
  }

  /** The candidate for one rule, if the operation lacks that rule's kind. */
  function QuotientPart(sig: Signature, op: Operation, rule: QuotientRule): seq<MoveResult> {
    if HasAxiomFor(sig.axioms, rule.kind, op.name) then [] else [QuotientCandidate(sig, op, rule)]
  }

  lemma QuotientStepRules(sig: Signature, op: Operation)
    ensures QuotientStep(sig, op, QuotientRules)
      == QuotientPart(sig, op, QuotientRules[0]) + QuotientPart(sig, op, QuotientRules[1])
  {
    var rs := QuotientRules;
    assert rs[..1][..0] == [];
    assert QuotientStep(sig, op, rs[..1]) == QuotientStep(sig, op, []) + QuotientPart(sig, op, rs[0]);
    assert rs[..|rs|] == rs;
    assert rs[..|rs|][..|rs| - 1] == rs[..1];
  }

  /** One candidate per (operation, kind) pair not yet present: as many as the
      operations lacking commutativity plus those lacking idempotence, so at most
      two per binary operation. */
  lemma {:induction false} QuotientCount(sig: Signature, ops: seq<Operation>)
    ensures |QuotientAll(sig, ops)|
      == |Lacking(ops, sig.axioms, Commutativity)| + |Lacking(ops, sig.axioms, Idempotence)|
    ensures |QuotientAll(sig, ops)| <= 2 * |ops|
  {
    if ops != [] {
      QuotientCount(sig, ops[..|ops| - 1]);
      QuotientStepRules(sig, ops[|ops| - 1]);
    }
  }

  /** Every quotient candidate adds one axiom of a quotient kind to an operation
      of `ops` that lacked it, and each such pair yields one. */
  lemma {:induction false} QuotientMembers(sig: Signature, ops: seq<Operation>, c: MoveResult)
    ensures c in QuotientAll(sig, ops) <==>
      exists op, k :: op in ops && 0 <= k < |QuotientRules| && !HasAxiomFor(sig.axioms, QuotientRules[k].kind, op.name)
        && c == QuotientCandidate(sig, op, QuotientRules[k])
  {
    if ops != [] {
      var init, op := ops[..|ops| - 1], ops[|ops| - 1];
      QuotientMembers(sig, init, c);
      QuotientStepRules(sig, op);
      assert forall o :: o in ops <==> o in init || o == op by { SplitLast(ops); }
    }
  }

  lemma QuotientCandidateShape(sig: Signature, op: Operation, rule: QuotientRule)
    ensures var c := QuotientCandidate(sig, op, rule);
      && AddsOneAxiom(sig, c.signature, Axiom(rule.kind, rule.equation(op.name), [op.name], ""))
      && c.move == MoveKind.Quotient && c.parents == [sig.name]
      && HasAxiomFor(c.signature.axioms, rule.kind, op.name)
  {
    var c := QuotientCandidate(sig, op, rule);
    assert c.signature.axioms[|sig.axioms|].operations == [op.name];
  }

  // ---- INTERNALIZE ----

  function InternalizeCandidate(sig: Signature, op: Operation): MoveResult {
    var sort := op.codomain;
    var homSort := "Hom_" + op.name;
    var newSig := CopyAs(sig, sig.name + "_int(" + op.name + ")");
    var newSig := newSig.(derivationChain := newSig.derivationChain + ["Internalize(" + op.name + ")"]);
    var newSig := newSig.(sorts := newSig.sorts + [Sort(homSort, "internalized " + op.name)]);
    var newSig := newSig.(operations := newSig.operations
      + [Operation("eval_" + op.name, [homSort, sort], sort, "evaluate internalized " + op.name)]
      + [Operation("curry_" + op.name, [sort], homSort, "curry " + op.name + " to Hom")]);
    var newSig := newSig.(axioms := newSig.axioms + [CurryEvalAxiom(op.name)]);
    MoveResult(newSig, MoveKind.Internalize, [sig.name], "Internalize " + op.name + " as Hom-object in " + sig.name)
  }

  /** `eval_op(curry_op(a), b) = op(a, b)`. */
  function CurryEvalAxiom(op: string): Axiom {
    Axiom(Custom,
      Equation(App("eval_" + op, [App("curry_" + op, [Var("a")]), Var("b")]), App(op, [Var("a"), Var("b")])),
      ["eval_" + op, "curry_" + op, op],
      "curry-eval adjunction")
  }

  function InternalizeAll(sig: Signature, ops: seq<Operation>): seq<MoveResult> {
    if ops == [] then []
    else InternalizeAll(sig, ops[..|ops| - 1]) + [InternalizeCandidate(sig, ops[|ops| - 1])]
  }

  /** `internalize`: for every binary operation, a copy with a Hom sort, an
      evaluation and a currying map, and the axiom relating them. */
  method Internalize(sig: Signature) returns (results: seq<MoveResult>)
    ensures results == InternalizeAll(sig, BinaryOps(sig))
  {
    results := [];
    var binaryOps := BinaryOps(sig);
    var i := 0;
    while i < |binaryOps|
      invariant 0 <= i <= |binaryOps|
      invariant results == InternalizeAll(sig, binaryOps[..i])
    {
      var op := binaryOps[i];
      var newSig := CopyAs(sig, sig.name + "_int(" + op.name + ")");
      newSig := newSig.(derivationChain := newSig.derivationChain + ["Internalize(" + op.name + ")"]);
      var sort := op.codomain;
      var homSort := "Hom_" + op.name;
      newSig := newSig.(sorts := newSig.sorts + [Sort(homSort, "internalized " + op.name)]);
      newSig := newSig.(operations := newSig.operations
        + [Operation("eval_" + op.name, [homSort, sort], sort, "evaluate internalized " + op.name)]);
      newSig := newSig.(operations := newSig.operations
        + [Operation("curry_" + op.name, [sort], homSort, "curry " + op.name + " to Hom")]);
      newSig := newSig.(axioms := newSig.axioms + [CurryEvalAxiom(op.name)]);
      results := results + [MoveResult(newSig, MoveKind.Internalize, [sig.name],
        "Internalize " + op.name + " as Hom-object in " + sig.name)];
      assert binaryOps[..i + 1][..i] == binaryOps[..i];
      i := i + 1;
    }
    assert binaryOps[..i] == binaryOps;
  }

  /** One candidate per binary operation, in order. */
  lemma {:induction false} InternalizeExact(sig: Signature, ops: seq<Operation>)
    ensures var r := InternalizeAll(sig, ops);
      |r| == |ops| && forall k :: 0 <= k < |r| ==> r[k] == InternalizeCandidate(sig, ops[k])
  {
    if ops != [] {
      InternalizeExact(sig, ops[..|ops| - 1]);
    }
  }

  /** One more sort `Hom_op`, two more operations, one more custom axiom; what was
      there before is kept, in place. */
  lemma InternalizeCandidateShape(sig: Signature, op: Operation)
    ensures var s := InternalizeCandidate(sig, op).signature;
      && |s.sorts| == |sig.sorts| + 1 && s.sorts[..|sig.sorts|] == sig.sorts
      && s.sorts[|sig.sorts|].name == "Hom_" + op.name
      && |s.operations| == |sig.operations| + 2 && s.operations[..|sig.operations|] == sig.operations
      && s.operations[|sig.operations|].name == "eval_" + op.name
      && s.operations[|sig.operations| + 1].name == "curry_" + op.name
      && s.axioms == sig.axioms + [CurryEvalAxiom(op.name)] && CurryEvalAxiom(op.name).kind == Custom
      && ExtendsChain(sig, s)
  {
    var s := InternalizeCandidate(sig, op).signature;
    assert s.operations[..|sig.operations|] == sig.operations;
  }

  // ---- DEFORM ----

  /** Custom and positivity axioms are skipped: they are hard to deform generically. */
  predicate Deformable(kind: AxiomKind) {
    kind != Custom && kind != Positivity
  }

  /** The deformations of associativity and commutativity read the first sort. */
  predicate ReadsFirstSort(kind: AxiomKind) {
    kind == Associativity || kind == Commutativity
  }

  /** `deform` indexes `sorts[0]` when it meets an associativity or commutativity
      axiom; Python raises `IndexError` there when the signature has no sort. */
  predicate DeformSafe(sig: Signature) {
    (exists a :: a in sig.axioms && ReadsFirstSort(a.kind)) ==> |sig.sorts| >= 1
  }

  predicate HasSortNamed(sorts: seq<Sort>, name: string) {
    exists s :: s in sorts && s.name == name
  }

  function CountSortsNamed(sorts: seq<Sort>, name: string): (r: nat)
    ensures r == 0 <==> !HasSortNamed(sorts, name)
  {
    if sorts == [] then 0
    else
      assert sorts == sorts[..|sorts| - 1] + [sorts[|sorts| - 1]];
      CountSortsNamed(sorts[..|sorts| - 1], name) + (if sorts[|sorts| - 1].name == name then 1 else 0)
  }

  /** The list without its element at `i`. */
  function RemoveAt<T>(s: seq<T>, i: nat): (r: seq<T>)
    requires i < |s|
    ensures |r| == |s| - 1
    ensures forall j :: 0 <= j < |r| ==> r[j] == (if j < i then s[j] else s[j + 1])
  {
    s[..i] + s[i + 1..]
  }

  /** The operation an associativity or commutativity axiom deforms: its first
      listed operation, or `op` when it lists none. */
  function DeformedOpName(axiom: Axiom): string {
    if |axiom.operations| > 0 then axiom.operations[0] else "op"
  }

  /** The axiom that replaces a deformed one. */
  function DeformedAxiom(axiom: Axiom): Axiom {
    var opName := DeformedOpName(axiom);
    var q := Const("q");
    var x, y, z := Var("x"), Var("y"), Var("z");
    if axiom.kind == Associativity then
      Axiom(Custom,
        Equation(App(opName, [App(opName, [x, y]), z]), App("q_" + opName, [q, App(opName, [x, App(opName, [y, z])])])),
        [opName, "q_" + opName], "q-deformed " + KindName(axiom.kind))
    else if axiom.kind == Commutativity then
      Axiom(Custom,
        Equation(App(opName, [x, y]), App("q_" + opName, [q, App(opName, [y, x])])),
        [opName, "q_" + opName], "q-deformed " + KindName(axiom.kind))
    else
      Axiom(Custom, axiom.equation, axiom.operations, "deformed-" + KindName(axiom.kind))
  }

  function DeformCandidate(sig: Signature, i: nat): MoveResult
    requires i < |sig.axioms| && (ReadsFirstSort(sig.axioms[i].kind) ==> |sig.sorts| >= 1)
  {
    var axiom := sig.axioms[i];
    var newSig := CopyAs(sig, sig.name + "_deform(" + KindName(axiom.kind) + ")");
    var newSig := newSig.(derivationChain := newSig.derivationChain + ["Deform(" + KindName(axiom.kind) + ")"]);
    var newSig := if HasSortNamed(newSig.sorts, "Param") then newSig
                  else newSig.(sorts := newSig.sorts + [Sort("Param", "deformation parameter")]);
    var newSig := newSig.(axioms := RemoveAt(newSig.axioms, i));
    var deformOp := "q_" + DeformedOpName(axiom);
    var newSig :=
      if axiom.kind == Associativity || (axiom.kind == Commutativity && GetOp(newSig.operations, deformOp).None?) then
        newSig.(operations := newSig.operations
          + [Operation(deformOp, ["Param", sig.sorts[0].name], sig.sorts[0].name, "deformation scaling")])
      else newSig;
    var newSig := newSig.(axioms := newSig.axioms + [DeformedAxiom(axiom)]);
    MoveResult(newSig, MoveKind.Deform, [sig.name], "Deform " + KindName(axiom.kind) + " in " + sig.name)
  }

  /** The candidates `deform` yields for the first `n` axioms, in order. */
  function DeformAll(sig: Signature, n: nat): seq<MoveResult>
    requires n <= |sig.axioms| && DeformSafe(sig)
  {
    if n == 0 then []
    else
      DeformAll(sig, n - 1)
        + (if Deformable(sig.axioms[n - 1].kind) then [DeformCandidate(sig, n - 1)] else [])
  }

  /** The indices below `n` of the axioms `deform` works on, in order. */
  function DeformableIndices(axioms: seq<Axiom>, n: nat): (r: seq<nat>)
    requires n <= |axioms|
    ensures forall i: nat :: i in r <==> i < n && Deformable(axioms[i].kind)
    ensures forall k :: 0 <= k < |r| ==> r[k] < n
  {
    if n == 0 then []
    else DeformableIndices(axioms, n - 1) + (if Deformable(axioms[n - 1].kind) then [n - 1] else [])
  }

  /** `deform`: for each axiom other than a custom or positivity one, a copy with
      a `Param` sort in which that axiom is replaced by a weakened custom axiom;
      associativity and commutativity get a `q_op` scaling operation. */
  method Deform(sig: Signature) returns (results: seq<MoveResult>)
    requires DeformSafe(sig)
    ensures results == DeformAll(sig, |sig.axioms|)
  {
    results := [];
    var i := 0;
    while i < |sig.axioms|
      invariant 0 <= i <= |sig.axioms|
      invariant results == DeformAll(sig, i)
    {
      var axiom := sig.axioms[i];
      if Deformable(axiom.kind) {
        var newSig := CopyAs(sig, sig.name + "_deform(" + KindName(axiom.kind) + ")");
        newSig := newSig.(derivationChain := newSig.derivationChain + ["Deform(" + KindName(axiom.kind) + ")"]);
        if !HasSortNamed(newSig.sorts, "Param") {
          newSig := newSig.(sorts := newSig.sorts + [Sort("Param", "deformation parameter")]);
        }
        newSig := newSig.(axioms := RemoveAt(newSig.axioms, i));
        var deformOp := "q_" + DeformedOpName(axiom);
        if axiom.kind == Associativity {
          newSig := newSig.(operations := newSig.operations
            + [Operation(deformOp, ["Param", sig.sorts[0].name], sig.sorts[0].name, "deformation scaling")]);
        } else if axiom.kind == Commutativity {
          if GetOp(newSig.operations, deformOp).None? {
            newSig := newSig.(operations := newSig.operations
              + [Operation(deformOp, ["Param", sig.sorts[0].name], sig.sorts[0].name, "deformation scaling")]);
          }
        }
        newSig := newSig.(axioms := newSig.axioms + [DeformedAxiom(axiom)]);
        results := results + [MoveResult(newSig, MoveKind.Deform, [sig.name],
          "Deform " + KindName(axiom.kind) + " in " + sig.name)];
      }
      i := i + 1;
    }
  }

  /** Exactly one candidate per axiom that is neither custom nor positivity, in order. */
  lemma {:induction false} DeformExact(sig: Signature, n: nat)
    requires n <= |sig.axioms| && DeformSafe(sig)
    ensures var r, idx := DeformAll(sig, n), DeformableIndices(sig.axioms, n);
      |r| == |idx| && forall k :: 0 <= k < |r| ==> ReadsFirstSort(sig.axioms[idx[k]].kind) ==> |sig.sorts| >= 1
    ensures var r, idx := DeformAll(sig, n), DeformableIndices(sig.axioms, n);
      forall k :: 0 <= k < |r| ==> r[k] == DeformCandidate(sig, idx[k])
  {
    if n > 0 {
      DeformExact(sig, n - 1);
    }
  }

  /** A deformed candidate keeps the axiom count (one removed, one custom added
      at the end), keeps the other axioms in order, and holds exactly one more
      `Param` sort than its parent when the parent had none, else the same. */
  lemma DeformCandidateShape(sig: Signature, i: nat)
    requires i < |sig.axioms| && (ReadsFirstSort(sig.axioms[i].kind) ==> |sig.sorts| >= 1)
    ensures var s := DeformCandidate(sig, i).signature;
      && |s.axioms| == |sig.axioms|
      && s.axioms[..|sig.axioms| - 1] == RemoveAt(sig.axioms, i)
      && s.axioms[|sig.axioms| - 1] == DeformedAxiom(sig.axioms[i])
      && DeformedAxiom(sig.axioms[i]).kind == Custom
      && s.sorts[..|sig.sorts|] == sig.sorts
      && CountSortsNamed(s.sorts, "Param") == (if HasSortNamed(sig.sorts, "Param") then CountSortsNamed(sig.sorts, "Param") else 1)
      && s.operations[..|sig.operations|] == sig.operations
      && |s.operations| <= |sig.operations| + 1
      && ExtendsChain(sig, s)
  {
    var s := DeformCandidate(sig, i).signature;
    assert s.axioms[..|sig.axioms| - 1] == RemoveAt(sig.axioms, i);
    if !HasSortNamed(sig.sorts, "Param") {
      assert s.sorts == sig.sorts + [Sort("Param", "deformation parameter")];
      assert s.sorts[..|s.sorts| - 1] == sig.sorts;
    }
    assert s.operations[..|sig.operations|] == sig.operations;
  }

  /** A parent with at most one `Param` sort gives candidates with exactly one. */
  lemma DeformOneParam(sig: Signature, i: nat)
    requires i < |sig.axioms| && (ReadsFirstSort(sig.axioms[i].kind) ==> |sig.sorts| >= 1)
    requires CountSortsNamed(sig.sorts, "Param") <= 1
    ensures CountSortsNamed(DeformCandidate(sig, i).signature.sorts, "Param") == 1
  {
    DeformCandidateShape(sig, i);
  }

  // ---- COMPLETE ----

  predicate HasBinaryOp(ops: seq<Operation>) {
    exists op :: op in ops && op.Arity() == 2
  }

  /** `complete` indexes `sorts[0]` when the signature has a binary operation;
      Python raises `IndexError` there when it has no sort. */
  predicate CompleteSafe(sig: Signature) {
    HasBinaryOp(sig.operations) ==> |sig.sorts| >= 1
  }

  /** The first name in `names` other than `op`. */
  function FirstOther(names: seq<string>, op: string): (r: Option<string>)
    ensures r.Some? ==> r.value in names && r.value != op
    ensures r.None? <==> forall n :: n in names ==> n == op
  {
    if names == [] then None
    else if names[0] != op then Some(names[0])
    else
      assert forall n :: n in names <==> n == names[0] || n in names[1..];
      FirstOther(names[1..], op)
  }

  /** The identity constant the inverse completion uses: the first name other
      than `op` in the last identity axiom on `op` that lists one. */
  function IdentityConstant(axioms: seq<Axiom>, op: string): (r: Option<string>)
  {
    if axioms == [] then None
    else
      var ax := axioms[|axioms| - 1];
      if ax.kind == Identity && op in ax.operations && FirstOther(ax.operations, op).Some? then
        FirstOther(ax.operations, op)
      else IdentityConstant(axioms[..|axioms| - 1], op)
  }

  /** A constant is found exactly when some identity axiom on `op` lists another
      name, and what is found is such a name. */
  lemma {:induction false} IdentityConstantFound(axioms: seq<Axiom>, op: string)
    ensures var r := IdentityConstant(axioms, op);
      r.Some? <==> exists ax, n :: ax in axioms && ax.kind == Identity && op in ax.operations && n in ax.operations && n != op
    ensures var r := IdentityConstant(axioms, op);
      r.Some? ==> exists ax :: ax in axioms && ax.kind == Identity && op in ax.operations && r.value in ax.operations && r.value != op
  {
    if axioms != [] {
      var init, ax := axioms[..|axioms| - 1], axioms[|axioms| - 1];
      IdentityConstantFound(init, op);
      assert forall a :: a in axioms <==> a in init || a == ax by { SplitLast(axioms); }
      if ax.kind == Identity && op in ax.operations && FirstOther(ax.operations, op).None? {
        assert forall n :: n in ax.operations ==> n == op;
      }
    }
  }

  /** The search loop for the identity constant of `op` in `complete`: it keeps
      the first other name of each matching identity axiom, so the last wins. */
  method FindIdentityConstant(axioms: seq<Axiom>, op: string) returns (idConst: Option<string>)
    ensures idConst == IdentityConstant(axioms, op)
  {
    idConst := None;
    var i := 0;
    while i < |axioms|
      invariant 0 <= i <= |axioms|
      invariant idConst == IdentityConstant(axioms[..i], op)
    {
      var ax := axioms[i];
      if ax.kind == Identity && op in ax.operations {
        var other := FirstOtherName(ax.operations, op);
        if other.Some? {
          idConst := other;
        }
      }
      assert axioms[..i + 1][..i] == axioms[..i];
      i := i + 1;
    }
    assert axioms[..i] == axioms;
  }

  /** The inner loop of the search: the first of `names` that is not `op`. */
  method FirstOtherName(names: seq<string>, op: string) returns (r: Option<string>)
    ensures r == FirstOther(names, op)
  {
    r := None;
    var j := 0;
    while j < |names|
      invariant 0 <= j <= |names|
      invariant FirstOther(names, op) == FirstOther(names[j..], op)
    {
      if names[j] != op {
        r := Some(names[j]);
        break;
      }
      assert names[j..][1..] == names[j + 1..];
      j := j + 1;
    }
  }

  function IdentityCandidate(sig: Signature, op: Operation): MoveResult {
    var idName := "e_" + op.name;
    var newSig := CopyAs(sig, sig.name + "+id(" + op.name + ")");
    var newSig := newSig.(derivationChain := newSig.derivationChain + ["Complete(identity for " + op.name + ")"]);
    var newSig := newSig.(operations := newSig.operations + [Operation(idName, [], op.codomain, "identity for " + op.name)]);
    var newSig := newSig.(axioms := newSig.axioms +
      [Axiom(Identity, MakeIdentityEquation(op.name, idName), [op.name, idName], "")]);
    MoveResult(newSig, MoveKind.Complete, [sig.name], "Add identity element for " + op.name)
  }

  function InverseCandidate(sig: Signature, op: Operation, idConst: string): MoveResult {
    var invName := "inv_" + op.name;
    var newSig := CopyAs(sig, sig.name + "+inv(" + op.name + ")");
    var newSig := newSig.(derivationChain := newSig.derivationChain + ["Complete(inverse for " + op.name + ")"]);
    var newSig := newSig.(operations := newSig.operations + [Operation(invName, [op.codomain], op.codomain, "inverse for " + op.name)]);
    var newSig := newSig.(axioms := newSig.axioms +
      [Axiom(Inverse, MakeInverseEquation(op.name, invName, idConst), [op.name, invName, idConst], "")]);
    MoveResult(newSig, MoveKind.Complete, [sig.name], "Add inverse for " + op.name)
  }

  function SecondOpCandidate(sig: Signature, op: Operation): MoveResult {
    var sort := op.codomain;
    var newSig := CopyAs(sig, sig.name + "+op2");
    var newSig := newSig.(derivationChain := newSig.derivationChain + ["Complete(second operation)"]);
    var newSig := newSig.(operations := newSig.operations + [Operation("op2", [sort, sort], sort, "second binary operation")]);
    var newSig := newSig.(axioms := newSig.axioms +
      [Axiom(Distributivity, MakeDistribEquation("op2", op.name), ["op2", op.name], "op2 distributes over original op")]);
    MoveResult(newSig, MoveKind.Complete, [sig.name], "Add second operation distributing over " + op.name)
  }

  /** `norm(x) = norm(x)`, standing for `norm(x) \u2265 0`. */
  function PositivityAxiom(): Axiom {
    Axiom(Positivity, Equation(App("norm", [Var("x")]), App("norm", [Var("x")])), ["norm"],
          "norm(x) \U{2265} 0 (positivity)")
  }

  function NormCandidate(sig: Signature): MoveResult
    requires |sig.sorts| >= 1
  {
    var sort := sig.sorts[0].name;
    var scalarSort := if |sig.sorts| >= 2 then sig.sorts[1].name else sort;
    var newSig := CopyAs(sig, sig.name + "+norm");
    var newSig := newSig.(derivationChain := newSig.derivationChain + ["Complete(norm)"]);
    var newSig := newSig.(operations := newSig.operations + [Operation("norm", [sort], scalarSort, "norm function")]);
    var newSig := newSig.(axioms := newSig.axioms + [PositivityAxiom()]);
    MoveResult(newSig, MoveKind.Complete, [sig.name], "Add norm to " + sig.name)
  }

  /** The inverse completion applies: `op` has an identity axiom, no inverse
      axiom, and a non-empty identity constant is found. */
  predicate InverseReady(sig: Signature, op: Operation) {
    && HasAxiomFor(sig.axioms, Identity, op.name)
    && !HasAxiomFor(sig.axioms, Inverse, op.name)
    && var c := IdentityConstant(sig.axioms, op.name);
       c.Some? && c.value != ""
  }

  /** The norm completion applies: several sorts or some binary operation, and no
      operation named `norm` yet. */
  predicate NormReady(sig: Signature) {
    (|sig.sorts| >= 2 || HasBinaryOp(sig.operations)) && GetOp(sig.operations, "norm").None?
  }

  /** The identity and inverse candidates for one binary operation. */
  function CompleteStep(sig: Signature, op: Operation): seq<MoveResult> {
    (if HasAxiomFor(sig.axioms, Identity, op.name) then [] else [IdentityCandidate(sig, op)])
    + (if InverseReady(sig, op) then [InverseCandidate(sig, op, IdentityConstant(sig.axioms, op.name).value)] else [])
  }

  function CompletePerOp(sig: Signature, ops: seq<Operation>): seq<MoveResult> {
    if ops == [] then []
    else CompletePerOp(sig, ops[..|ops| - 1]) + CompleteStep(sig, ops[|ops| - 1])
  }

  /** All candidates of `complete`: identities and inverses per binary operation,
      then a second operation, then a norm. */
  function CompleteAll(sig: Signature): seq<MoveResult>
    requires CompleteSafe(sig)
  {
    CompletePerOp(sig, BinaryOps(sig)) + CompleteExtras(sig)
  }

  /** The candidates of `complete` after the loop: a second operation when there
      is exactly one binary operation, then a norm. */
  function CompleteExtras(sig: Signature): seq<MoveResult>
    requires CompleteSafe(sig)
  {
    var binaryOps := BinaryOps(sig);
    (if |binaryOps| == 1 then [SecondOpCandidate(sig, binaryOps[0])] else [])
      + (if NormReady(sig) then (assert |sig.sorts| >= 1 by { assert |sig.sorts| >= 2 || HasBinaryOp(sig.operations); }
                               [NormCandidate(sig)]) else [])
  }

  /** `complete`: add the missing identity, inverse, second operation and norm. */
  method Complete(sig: Signature) returns (results: seq<MoveResult>)
    requires CompleteSafe(sig)
    ensures results == CompleteAll(sig)
  {
    results := [];
    var binaryOps := BinaryOps(sig);
    var i := 0;
    while i < |binaryOps|
      invariant 0 <= i <= |binaryOps|
      invariant results == CompletePerOp(sig, binaryOps[..i])
    {
      var op := binaryOps[i];
      var forOp := CompleteOp(sig, op);
      results := results + forOp;
      assert binaryOps[..i + 1][..i] == binaryOps[..i];
      i := i + 1;
    }
    assert binaryOps[..i] == binaryOps;
    var extras := CompleteTail(sig, binaryOps);
    results := results + extras;
  }

  /** The part of `complete` after the loop over binary operations. */
  method CompleteTail(sig: Signature, binaryOps: seq<Operation>) returns (results: seq<MoveResult>)
    requires CompleteSafe(sig) && binaryOps == BinaryOps(sig)
    ensures results == CompleteExtras(sig)
  {
    var second: seq<MoveResult> := [];
    if |binaryOps| == 1 {
      second := [SecondOpCandidate(sig, binaryOps[0])];
    }
    var norm: seq<MoveResult> := [];
    var hasBinary := exists op :: op in sig.operations && op.Arity() == 2;
    if |sig.sorts| >= 2 || hasBinary {
      if GetOp(sig.operations, "norm").None? {
        norm := [NormCandidate(sig)];
      }
    }
    assert norm == (if NormReady(sig) then [NormCandidate(sig)] else []);
    results := second + norm;
  }

  /** The body of the loop over binary operations in `complete`. */
  method CompleteOp(sig: Signature, op: Operation) returns (results: seq<MoveResult>)
    ensures results == CompleteStep(sig, op)
  {
    var identity: seq<MoveResult> := [];
    var hasIdentity := HasAxiomFor(sig.axioms, Identity, op.name);
    if !hasIdentity {
      identity := [IdentityCandidate(sig, op)];
    }
    var inverse: seq<MoveResult> := [];
    var hasInverse := HasAxiomFor(sig.axioms, Inverse, op.name);
    if hasIdentity && !hasInverse {
      var idConst := FindIdentityConstant(sig.axioms, op.name);
      if idConst.Some? && idConst.value != "" {
        inverse := [InverseCandidate(sig, op, idConst.value)];
      }
    }
    results := identity + inverse;
  }

  /** The candidates of `complete`, exactly: an identity per binary operation
      lacking one, an inverse per binary operation ready for one, a second
      operation iff there is exactly one binary operation, and a norm iff the
      norm completion applies. */
  lemma CompleteMembers(sig: Signature, c: MoveResult)
    requires CompleteSafe(sig)
    ensures c in CompleteAll(sig) <==>
      || (exists op :: op in BinaryOps(sig) && !HasAxiomFor(sig.axioms, Identity, op.name) && c == IdentityCandidate(sig, op))
      || (exists op :: op in BinaryOps(sig) && InverseReady(sig, op)
            && c == InverseCandidate(sig, op, IdentityConstant(sig.axioms, op.name).value))
      || (|BinaryOps(sig)| == 1 && c == SecondOpCandidate(sig, BinaryOps(sig)[0]))
      || (NormReady(sig) && |sig.sorts| >= 1 && c == NormCandidate(sig))
  {
    CompletePerOpMembers(sig, BinaryOps(sig), c);
    CompleteExtrasMembers(sig, c);
  }

  lemma CompleteExtrasMembers(sig: Signature, c: MoveResult)
    requires CompleteSafe(sig)
    ensures c in CompleteExtras(sig) <==>
      || (|BinaryOps(sig)| == 1 && c == SecondOpCandidate(sig, BinaryOps(sig)[0]))
      || (NormReady(sig) && |sig.sorts| >= 1 && c == NormCandidate(sig))
  {
  }

  lemma {:induction false} CompletePerOpMembers(sig: Signature, ops: seq<Operation>, c: MoveResult)
    ensures c in CompletePerOp(sig, ops) <==>
      || (exists op :: op in ops && !HasAxiomFor(sig.axioms, Identity, op.name) && c == IdentityCandidate(sig, op))
      || (exists op :: op in ops && InverseReady(sig, op)
            && c == InverseCandidate(sig, op, IdentityConstant(sig.axioms, op.name).value))
  {
    if ops != [] {
      var init, op := ops[..|ops| - 1], ops[|ops| - 1];
      CompletePerOpMembers(sig, init, c);
      assert forall o :: o in ops <==> o in init || o == op by { SplitLast(ops); }
    }
  }

  /** How many candidates `complete` yields. */
  lemma CompleteCount(sig: Signature)
    requires CompleteSafe(sig)
    ensures |CompleteAll(sig)| ==
      |Lacking(BinaryOps(sig), sig.axioms, Identity)| + |InverseReadyOps(sig, BinaryOps(sig))|
      + (if |BinaryOps(sig)| == 1 then 1 else 0) + (if NormReady(sig) then 1 else 0)
  {
    CompletePerOpCount(sig, BinaryOps(sig));
  }

  /** The operations among `ops` ready for the inverse completion, in order. */
  function InverseReadyOps(sig: Signature, ops: seq<Operation>): (r: seq<Operation>)
    ensures forall op :: op in r <==> op in ops && InverseReady(sig, op)
  {
    if ops == [] then []
    else
      var init, last := ops[..|ops| - 1], ops[|ops| - 1];
      assert ops == init + [last];
      InverseReadyOps(sig, init) + (if InverseReady(sig, last) then [last] else [])
  }

  lemma {:induction false} CompletePerOpCount(sig: Signature, ops: seq<Operation>)
    ensures |CompletePerOp(sig, ops)| == |Lacking(ops, sig.axioms, Identity)| + |InverseReadyOps(sig, ops)|
  {
    if ops != [] {
      CompletePerOpCount(sig, ops[..|ops| - 1]);
    }
  }

  /** Every completion adds one operation and one axiom, and nothing else. */
  predicate AddsOneOpAndAxiom(parent: Signature, child: Signature, op: Operation, ax: Axiom) {
    && child.sorts == parent.sorts
    && child.operations == parent.operations + [op]
    && child.axioms == parent.axioms + [ax]
    && ExtendsChain(parent, child)
  }

  /** The identity completion adds the constant `e_op` (arity 0), and the right
      identity axiom `op(x, e_op) = x`; the inverse completion adds the unary
      `inv_op` with `op(x, inv_op(x)) = e`. */
  lemma CompletionShapes(sig: Signature, op: Operation, idConst: string)
    ensures AddsOneOpAndAxiom(sig, IdentityCandidate(sig, op).signature,
      Operation("e_" + op.name, [], op.codomain, "identity for " + op.name),
      Axiom(Identity, MakeIdentityEquation(op.name, "e_" + op.name), [op.name, "e_" + op.name], ""))
    ensures AddsOneOpAndAxiom(sig, InverseCandidate(sig, op, idConst).signature,
      Operation("inv_" + op.name, [op.codomain], op.codomain, "inverse for " + op.name),
      Axiom(Inverse, MakeInverseEquation(op.name, "inv_" + op.name, idConst), [op.name, "inv_" + op.name, idConst], ""))
    ensures AddsOneOpAndAxiom(sig, SecondOpCandidate(sig, op).signature,
      Operation("op2", [op.codomain, op.codomain], op.codomain, "second binary operation"),
      Axiom(Distributivity, MakeDistribEquation("op2", op.name), ["op2", op.name], "op2 distributes over original op"))
  {
  }

  lemma NormShape(sig: Signature)
    requires |sig.sorts| >= 1
    ensures var s := NormCandidate(sig).signature;
      && AddsOneOpAndAxiom(sig, s, s.operations[|sig.operations|], PositivityAxiom())
      && s.operations[|sig.operations|].name == "norm"
      && s.operations[|sig.operations|].domain == [sig.sorts[0].name]
      && s.operations[|sig.operations|].codomain == (if |sig.sorts| >= 2 then sig.sorts[1].name else sig.sorts[0].name)
  {
  }

  // ---- TRANSFER ----

  /** `transfer` reads the first sort of both parents; Python raises
      `IndexError` when either has none. */
  predicate TransferSafe(a: Signature, b: Signature) {
    |a.sorts| >= 1 && |b.sorts| >= 1
  }

  /** The second carrier sort: the first sort of `b`, renamed with `_2` when it
      clashes with that of `a`. */
  function SecondCarrier(a: Signature, b: Signature): (r: string)
    requires TransferSafe(a, b)
    ensures r != a.sorts[0].name
  {
    if a.sorts[0].name == b.sorts[0].name then
      var r := b.sorts[0].name + "_2";
      assert |r| != |a.sorts[0].name|;
      r
    else b.sorts[0].name
  }

  /** Every occurrence of `from` in `names` replaced by `to`. */
  function Rename(names: seq<string>, from: string, to: string): (r: seq<string>)
    ensures |r| == |names| && forall i :: 0 <= i < |names| ==> r[i] == (if names[i] == from then to else names[i])
  {
    seq(|names|, i requires 0 <= i < |names| => if names[i] == from then to else names[i])
  }

  /** Every name in `names` with `prefix` in front. */
  function Prefixed(names: seq<string>, prefix: string): (r: seq<string>)
    ensures |r| == |names| && forall i :: 0 <= i < |names| ==> r[i] == prefix + names[i]
  {
    seq(|names|, i requires 0 <= i < |names| => prefix + names[i])
  }

  /** An operation copied into a transfer: prefixed, with the parent's first
      sort `from` replaced by the carrier `to`. */
  function CopiedOp(op: Operation, prefix: string, from: string, to: string, parent: string): Operation {
    Operation(prefix + op.name, Rename(op.domain, from, to), if op.codomain == from then to else op.codomain,
              op.name + " from " + parent)
  }

  function CopiedOps(ops: seq<Operation>, prefix: string, from: string, to: string, parent: string): (r: seq<Operation>)
    ensures |r| == |ops| && forall i :: 0 <= i < |ops| ==> r[i] == CopiedOp(ops[i], prefix, from, to, parent)
  {
    if ops == [] then []
    else CopiedOps(ops[..|ops| - 1], prefix, from, to, parent) + [CopiedOp(ops[|ops| - 1], prefix, from, to, parent)]
  }

  /** An axiom copied into a transfer: its equation unchanged, its operation list prefixed. */
  function CopiedAxiom(ax: Axiom, prefix: string): Axiom {
    Axiom(ax.kind, ax.equation, Prefixed(ax.operations, prefix), ax.description)
  }

  function CopiedAxioms(axioms: seq<Axiom>, prefix: string): (r: seq<Axiom>)
    ensures |r| == |axioms| && forall i :: 0 <= i < |axioms| ==> r[i] == CopiedAxiom(axioms[i], prefix)
  {
    if axioms == [] then []
    else CopiedAxioms(axioms[..|axioms| - 1], prefix) + [CopiedAxiom(axioms[|axioms| - 1], prefix)]
  }

  /** `transfer(a_op(x, y)) = b_op(transfer(x), transfer(y))`. */
  function FunctorialityAxiom(opA: string, opB: string): Axiom {
    Axiom(Functoriality,
      Equation(App("transfer", [App("a_" + opA, [Var("x"), Var("y")])]),
               App("b_" + opB, [App("transfer", [Var("x")]), App("transfer", [Var("y")])])),
      ["transfer", "a_" + opA, "b_" + opB],
      "transfer is a homomorphism")
  }

  function TransferCandidate(a: Signature, b: Signature): MoveResult
    requires TransferSafe(a, b)
  {
    var sortA, sortB := a.sorts[0].name, SecondCarrier(a, b);
    var ops := CopiedOps(a.operations, "a_", a.sorts[0].name, sortA, a.name)
             + CopiedOps(b.operations, "b_", b.sorts[0].name, sortB, b.name)
             + [Operation("transfer", [sortA], sortB, "morphism from " + sortA + " to " + sortB)];
    var binA, binB := BinaryOps(a), BinaryOps(b);
    var axioms := CopiedAxioms(a.axioms, "a_") + CopiedAxioms(b.axioms, "b_")
                + (if binA != [] && binB != [] then [FunctorialityAxiom(binA[0].name, binB[0].name)] else []);
    var newSig := Signature("Transfer(" + a.name + "," + b.name + ")",
      [Sort(sortA, "from " + a.name), Sort(sortB, "from " + b.name)], ops, axioms, "",
      a.derivationChain + ["Transfer to " + b.name], map[]);
    MoveResult(newSig, MoveKind.Transfer, [a.name, b.name], "Transfer structure from " + a.name + " to " + b.name)
  }

  /** `transfer`: both structures side by side on two carriers, operations and
      axioms copied with `a_`/`b_` prefixes, a `transfer` map between the
      carriers, and a functoriality axiom when both have a binary operation. */
  method Transfer(a: Signature, b: Signature) returns (results: seq<MoveResult>)
    requires TransferSafe(a, b)
    ensures results == [TransferCandidate(a, b)]
  {
    var sortA := a.sorts[0].name;
    var sortB := b.sorts[0].name;
    if sortA == sortB {
      sortB := sortB + "_2";
    }
    assert sortB == SecondCarrier(a, b);
    var opsA := CopyOps(a.operations, "a_", a.sorts[0].name, sortA, a.name);
    var opsB := CopyOps(b.operations, "b_", b.sorts[0].name, sortB, b.name);
    var axiomsA := CopyAxioms(a.axioms, "a_");
    var axiomsB := CopyAxioms(b.axioms, "b_");
    var ops := opsA + opsB + [Operation("transfer", [sortA], sortB, "morphism from " + sortA + " to " + sortB)];
    var axioms := axiomsA + axiomsB;
    var binA := BinaryOps(a);
    var binB := BinaryOps(b);
    if binA != [] && binB != [] {
      axioms := axioms + [FunctorialityAxiom(binA[0].name, binB[0].name)];
    }
    var newSig := Signature("Transfer(" + a.name + "," + b.name + ")",
      [Sort(sortA, "from " + a.name), Sort(sortB, "from " + b.name)], ops, axioms, "",
      a.derivationChain + ["Transfer to " + b.name], map[]);
    assert newSig.operations == TransferCandidate(a, b).signature.operations;
    assert newSig.axioms == TransferCandidate(a, b).signature.axioms;
    assert newSig.sorts == TransferCandidate(a, b).signature.sorts;
    assert newSig == TransferCandidate(a, b).signature;
    results := [MoveResult(newSig, MoveKind.Transfer, [a.name, b.name],
      "Transfer structure from " + a.name + " to " + b.name)];
  }

  /** One of the copy loops of `transfer` over a parent's operations. */
  method CopyOps(ops: seq<Operation>, prefix: string, from: string, to: string, parent: string)
    returns (copied: seq<Operation>)
    ensures copied == CopiedOps(ops, prefix, from, to, parent)
  {
    copied := [];
    var i := 0;
    while i < |ops|
      invariant 0 <= i <= |ops|
      invariant copied == CopiedOps(ops[..i], prefix, from, to, parent)
    {
      var op := ops[i];
      copied := copied + [Operation(prefix + op.name, Rename(op.domain, from, to),
                                    if op.codomain == from then to else op.codomain,
                                    op.name + " from " + parent)];
      assert ops[..i + 1][..i] == ops[..i];
      i := i + 1;
    }
    assert ops[..i] == ops;
  }

  /** One of the copy loops of `transfer` over a parent's axioms. */
  method CopyAxioms(axioms: seq<Axiom>, prefix: string) returns (copied: seq<Axiom>)
    ensures copied == CopiedAxioms(axioms, prefix)
  {
    copied := [];
    var i := 0;
    while i < |axioms|
      invariant 0 <= i <= |axioms|
      invariant copied == CopiedAxioms(axioms[..i], prefix)
    {
      var ax := axioms[i];
      copied := copied + [Axiom(ax.kind, ax.equation, Prefixed(ax.operations, prefix), ax.description)];
      assert axioms[..i + 1][..i] == axioms[..i];
      i := i + 1;
    }
    assert axioms[..i] == axioms;
  }

  /** The transfer candidate has two distinct carriers, the first of each
      parent; |A.ops| + |B.ops| + 1 operations, prefixed `a_` and `b_`, then
      `transfer`; every axiom of both parents with its equation untouched, plus
      one functoriality axiom exactly when both parents have a binary operation. */
  lemma TransferShape(a: Signature, b: Signature)
    requires TransferSafe(a, b)
    ensures var s := TransferCandidate(a, b).signature;
      && |s.sorts| == 2 && s.sorts[0].name == a.sorts[0].name
      && s.sorts[1].name == (if a.sorts[0].name == b.sorts[0].name then b.sorts[0].name + "_2" else b.sorts[0].name)
      && s.sorts[0].name != s.sorts[1].name
    ensures var s := TransferCandidate(a, b).signature;
      && |s.operations| == |a.operations| + |b.operations| + 1
      && (forall i :: 0 <= i < |a.operations| ==> s.operations[i].name == "a_" + a.operations[i].name)
      && (forall i :: 0 <= i < |b.operations| ==> s.operations[|a.operations| + i].name == "b_" + b.operations[i].name)
      && s.operations[|s.operations| - 1] == Operation("transfer", [s.sorts[0].name], s.sorts[1].name,
           "morphism from " + s.sorts[0].name + " to " + s.sorts[1].name)
    ensures var s := TransferCandidate(a, b).signature;
      && |s.axioms| == |a.axioms| + |b.axioms| + (if HasBinaryOp(a.operations) && HasBinaryOp(b.operations) then 1 else 0)
      && (forall i :: 0 <= i < |a.axioms| ==> s.axioms[i].equation == a.axioms[i].equation && s.axioms[i].kind == a.axioms[i].kind)
      && (forall i :: 0 <= i < |b.axioms| ==>
            s.axioms[|a.axioms| + i].equation == b.axioms[i].equation && s.axioms[|a.axioms| + i].kind == b.axioms[i].kind)
      && ((HasBinaryOp(a.operations) && HasBinaryOp(b.operations)) ==> s.axioms[|s.axioms| - 1].kind == Functoriality)
  {
    TransferOps(a, b);
    TransferAxioms(a, b);
  }

  lemma TransferOps(a: Signature, b: Signature)
    requires TransferSafe(a, b)
    ensures var s := TransferCandidate(a, b).signature;
      && |s.operations| == |a.operations| + |b.operations| + 1
      && (forall i :: 0 <= i < |a.operations| ==> s.operations[i].name == "a_" + a.operations[i].name)
      && (forall i :: 0 <= i < |b.operations| ==> s.operations[|a.operations| + i].name == "b_" + b.operations[i].name)
      && s.operations[|s.operations| - 1] == Operation("transfer", [s.sorts[0].name], s.sorts[1].name,
           "morphism from " + s.sorts[0].name + " to " + s.sorts[1].name)
  {
    var s := TransferCandidate(a, b).signature;
    var opsA := CopiedOps(a.operations, "a_", a.sorts[0].name, a.sorts[0].name, a.name);
    var opsB := CopiedOps(b.operations, "b_", b.sorts[0].name, SecondCarrier(a, b), b.name);
    assert s.operations == opsA + opsB + [s.operations[|s.operations| - 1]];
  }

  lemma TransferAxioms(a: Signature, b: Signature)
    requires TransferSafe(a, b)
    ensures var s := TransferCandidate(a, b).signature;
      && |s.axioms| == |a.axioms| + |b.axioms| + (if HasBinaryOp(a.operations) && HasBinaryOp(b.operations) then 1 else 0)
      && (forall i :: 0 <= i < |a.axioms| ==> s.axioms[i].equation == a.axioms[i].equation && s.axioms[i].kind == a.axioms[i].kind)
      && (forall i :: 0 <= i < |b.axioms| ==>
            s.axioms[|a.axioms| + i].equation == b.axioms[i].equation && s.axioms[|a.axioms| + i].kind == b.axioms[i].kind)
      && ((HasBinaryOp(a.operations) && HasBinaryOp(b.operations)) ==> s.axioms[|s.axioms| - 1].kind == Functoriality)
  {
    var s := TransferCandidate(a, b).signature;
    var axA, axB := CopiedAxioms(a.axioms, "a_"), CopiedAxioms(b.axioms, "b_");
    assert s.axioms[..|axA| + |axB|] == axA + axB;
    forall i | 0 <= i < |b.axioms|
      ensures s.axioms[|a.axioms| + i].equation == b.axioms[i].equation
    {
      assert s.axioms[|a.axioms| + i] == (axA + axB)[|a.axioms| + i];
    }
    BinaryOpsNonEmpty(a);
    BinaryOpsNonEmpty(b);
  }

  lemma BinaryOpsNonEmpty(sig: Signature)
    ensures BinaryOps(sig) != [] <==> HasBinaryOp(sig.operations)
  {
    var bin := BinaryOps(sig);
    if bin != [] { assert bin[0] in bin; }
  }

  /** The copied operations of `a` keep their sorts: the first carrier is `a`'s own first sort. */
  lemma TransferKeepsFirstCarrier(a: Signature, b: Signature)
    requires TransferSafe(a, b)
    ensures var s := TransferCandidate(a, b).signature;
      forall i :: 0 <= i < |a.operations| ==>
        s.operations[i].domain == a.operations[i].domain && s.operations[i].codomain == a.operations[i].codomain
  {
    var s := TransferCandidate(a, b).signature;
    forall i | 0 <= i < |a.operations|
      ensures s.operations[i].domain == a.operations[i].domain
    {
      assert Rename(a.operations[i].domain, a.sorts[0].name, a.sorts[0].name) == a.operations[i].domain;
    }
  }

  // ---- ABSTRACT ----

  predicate HasKind(axioms: seq<Axiom>, kind: AxiomKind) {
    exists a :: a in axioms && a.kind == kind
  }

  /** The axiom kinds present in both parents. Python iterates a set here, in
      hash order; they are taken in declaration order. */
  function SharedKinds(a: Signature, b: Signature): (r: seq<AxiomKind>)
    ensures forall k :: k in r <==> HasKind(a.axioms, k) && HasKind(b.axioms, k)
  {
    FilterKinds(AllKinds, a.axioms, b.axioms)
  }

  function FilterKinds(kinds: seq<AxiomKind>, xs: seq<Axiom>, ys: seq<Axiom>): (r: seq<AxiomKind>)
    ensures forall k :: k in r <==> k in kinds && HasKind(xs, k) && HasKind(ys, k)
  {
    if kinds == [] then []
    else
      var init, last := kinds[..|kinds| - 1], kinds[|kinds| - 1];
      assert kinds == init + [last];
      FilterKinds(init, xs, ys) + (if HasKind(xs, last) && HasKind(ys, last) then [last] else [])
  }

  lemma AllKindsComplete(k: AxiomKind)
    ensures k in AllKinds
  {
  }

  /** `_axiom_for_kind`: the standard equation on `op` for the kinds that have a template. */
  function AxiomForKind(kind: AxiomKind, op: string): (r: Option<Equation>)
    ensures r.Some? <==> HasTemplate(kind)
  {
    match kind
    case Associativity => Some(MakeAssocEquation(op))
    case Commutativity => Some(MakeCommEquation(op))
    case Idempotence => Some(MakeIdempotentEquation(op))
    case SelfDistributivity => Some(MakeSelfDistribEquation(op))
    case _ => None
  }

  predicate HasTemplate(kind: AxiomKind) {
    kind == Associativity || kind == Commutativity || kind == Idempotence || kind == SelfDistributivity
  }

  /** The axioms on `op` built from the templated kinds among `kinds`, in order. */
  function TemplateAxioms(kinds: seq<AxiomKind>): (r: seq<Axiom>)
    ensures forall k :: HasKind(r, k) <==> k in kinds && HasTemplate(k)
    ensures forall i :: 0 <= i < |r| ==>
      r[i].operations == ["op"] && HasTemplate(r[i].kind) && r[i].equation == AxiomForKind(r[i].kind, "op").value
  {
    if kinds == [] then []
    else
      var init, last := kinds[..|kinds| - 1], kinds[|kinds| - 1];
      assert kinds == init + [last];
      var eq := AxiomForKind(last, "op");
      var r := TemplateAxioms(init) + (if eq.Some? then [Axiom(last, eq.value, ["op"], "")] else []);
      assert forall k :: HasKind(r, k) <==> HasKind(TemplateAxioms(init), k) || (eq.Some? && k == last) by {
        forall k ensures HasKind(r, k) <==> HasKind(TemplateAxioms(init), k) || (eq.Some? && k == last) {
          if eq.Some? && k == last { assert r[|r| - 1].kind == k; }
          if HasKind(r, k) {
            var a :| a in r && a.kind == k;
            if a !in TemplateAxioms(init) { assert eq.Some? && a == Axiom(last, eq.value, ["op"], ""); }
          }
        }
      }
      r
  }

  /** Python's `str` of a list of kind names: `['A', 'B']`. */
  function KindListText(kinds: seq<AxiomKind>): string {
    "[" + Text.Join(", ", seq(|kinds|, i requires 0 <= i < |kinds| => "'" + KindName(kinds[i]) + "'")) + "]"
  }

  function AbstractCandidate(a: Signature, b: Signature, axioms: seq<Axiom>): MoveResult {
    var newSig := Signature("Abstract(" + a.name + "," + b.name + ")",
      [Sort("S", "abstract carrier")], [Operation("op", ["S", "S"], "S", "abstract binary operation")],
      axioms, "", a.derivationChain + ["Abstract with " + b.name], map[]);
    MoveResult(newSig, MoveKind.Abstract, [a.name, b.name],
      "Shared structure of " + a.name + " and " + b.name + ": " + KindListText(SharedKinds(a, b)))
  }

  function AbstractAll(a: Signature, b: Signature): seq<MoveResult> {
    var shared := SharedKinds(a, b);
    if shared == [] then []
    else
      var axioms := TemplateAxioms(shared);
      if axioms == [] then [] else [AbstractCandidate(a, b, axioms)]
  }

  /** `abstract`: a one-sorted, one-operation signature carrying the standard
      axiom on `op` for every templated kind both parents have. */
  method Abstract(a: Signature, b: Signature) returns (results: seq<MoveResult>)
    ensures results == AbstractAll(a, b)
  {
    var shared := SharedKinds(a, b);
    if shared == [] {
      return [];
    }
    var axioms: seq<Axiom> := [];
    var i := 0;
    while i < |shared|
      invariant 0 <= i <= |shared|
      invariant axioms == TemplateAxioms(shared[..i])
    {
      var kind := shared[i];
      var eq := AxiomForKind(kind, "op");
      if eq.Some? {
        axioms := axioms + [Axiom(kind, eq.value, ["op"], "")];
      }
      assert shared[..i + 1][..i] == shared[..i];
      i := i + 1;
    }
    assert shared[..i] == shared;
    if axioms == [] {
      return [];
    }
    results := [AbstractCandidate(a, b, axioms)];
  }

  /** `abstract` yields nothing exactly when the parents share no templated kind;
      otherwise one candidate on sort `S` with the binary `op`, holding an axiom
      of kind `k` exactly when `k` is templated and in both parents. */
  lemma AbstractShape(a: Signature, b: Signature)
    ensures var r := AbstractAll(a, b);
      && (r == [] <==> forall k :: HasTemplate(k) ==> !(HasKind(a.axioms, k) && HasKind(b.axioms, k)))
      && (r != [] ==>
           && |r| == 1
           && r[0].signature.sorts == [Sort("S", "abstract carrier")]
           && r[0].signature.operations == [Operation("op", ["S", "S"], "S", "abstract binary operation")]
           && (forall k :: HasKind(r[0].signature.axioms, k) <==> HasTemplate(k) && HasKind(a.axioms, k) && HasKind(b.axioms, k))
           && (forall i :: 0 <= i < |r[0].signature.axioms| ==> r[0].signature.axioms[i].operations == ["op"]))
  {
    var shared := SharedKinds(a, b);
    var axioms := TemplateAxioms(shared);
    if axioms == [] {
      forall k | HasTemplate(k) ensures !(HasKind(a.axioms, k) && HasKind(b.axioms, k)) {
        if HasKind(a.axioms, k) && HasKind(b.axioms, k) {
          assert false;
        }
      }
    } else {
      var ax := axioms[0];
      assert HasKind(axioms, ax.kind);
    }
  }

  // ---- Iteration over a list of signatures ----

  predicate IsPairwise(m: MoveKind) {
    m == MoveKind.Abstract || m == MoveKind.Transfer
  }

  /** A single-signature move does not raise on `sig`. */
  predicate SingleSafe(m: MoveKind, sig: Signature) {
    && (m == MoveKind.Complete ==> CompleteSafe(sig))
    && (m == MoveKind.Deform ==> DeformSafe(sig))
  }

  /** What one single-signature move yields for `sig`. */
  function OnOne(m: MoveKind, sig: Signature): seq<MoveResult>
    requires !IsPairwise(m) && SingleSafe(m, sig)
  {
    match m
    case Dualize => DualizeAll(sig, BinaryOps(sig))
    case Complete => CompleteAll(sig)
    case Quotient => QuotientAll(sig, BinaryOps(sig))
    case Internalize => InternalizeAll(sig, BinaryOps(sig))
    case Deform => DeformAll(sig, |sig.axioms|)
    case SelfDistrib => SelfDistribAll(sig, BinaryOps(sig))
  }

  /** What one pairwise move yields for the ordered pair `a`, `b`. */
  function OnPair(m: MoveKind, a: Signature, b: Signature): seq<MoveResult>
    requires IsPairwise(m) && (m == MoveKind.Transfer ==> TransferSafe(a, b))
  {
    if m == MoveKind.Abstract then AbstractAll(a, b) else [TransferCandidate(a, b)]
  }

  /** What runs for each signature or pair: one given move (`apply_move`) or
      every move in the fixed order (`apply_all_moves`). */
  datatype Plan = One(kind: MoveKind) | Every

  /** The moves of `plan` on one signature go through without raising. */
  predicate SigSafe(plan: Plan, sig: Signature) {
    match plan
    case One(k) => !IsPairwise(k) && SingleSafe(k, sig)
    case Every => CompleteSafe(sig) && DeformSafe(sig)
  }

  predicate PairSafe(plan: Plan, a: Signature, b: Signature) {
    match plan
    case One(k) => IsPairwise(k) && (k == MoveKind.Transfer ==> TransferSafe(a, b))
    case Every => TransferSafe(a, b)
  }

  /** The single-signature moves of `plan` on `sig`; for every move, in the
      order dualize, complete, quotient, internalize, deform, self-distribute. */
  function OnSig(plan: Plan, sig: Signature): seq<MoveResult>
    requires SigSafe(plan, sig)
  {
    match plan
    case One(k) => OnOne(k, sig)
    case Every =>
      OnOne(MoveKind.Dualize, sig) + OnOne(MoveKind.Complete, sig) + OnOne(MoveKind.Quotient, sig)
      + OnOne(MoveKind.Internalize, sig) + OnOne(MoveKind.Deform, sig) + OnOne(MoveKind.SelfDistrib, sig)
  }

  /** The pairwise moves of `plan` on `a`, `b`; for every move, abstract then transfer. */
  function OnPairs(plan: Plan, a: Signature, b: Signature): seq<MoveResult>
    requires PairSafe(plan, a, b)
  {
    match plan
    case One(k) => OnPair(k, a, b)
    case Every => OnPair(MoveKind.Abstract, a, b) + OnPair(MoveKind.Transfer, a, b)
  }

  predicate SinglesSafe(plan: Plan, sigs: seq<Signature>) {
    forall i :: 0 <= i < |sigs| ==> SigSafe(plan, sigs[i])
  }

  predicate PairsSafe(plan: Plan, sigs: seq<Signature>) {
    forall i, j {:trigger PairSafe(plan, sigs[i], sigs[j])} :: 0 <= i < j < |sigs| ==> PairSafe(plan, sigs[i], sigs[j])
  }

  /** The moves of `plan` on signature `i`, as one block of a line. A
      signature on which a move would raise contributes nothing; the methods
      below exclude such signatures by their preconditions. */
  function SigBlock(plan: Plan, sigs: seq<Signature>): nat -> seq<MoveResult> {
    (i: nat) => if i < |sigs| && SigSafe(plan, sigs[i]) then OnSig(plan, sigs[i]) else []
  }

  /** The moves of `plan` on the pair `(i, j)` when `i < j`, as one block of a triangle. */
  function PairBlock(plan: Plan, sigs: seq<Signature>): (nat, nat) -> seq<MoveResult> {
    (i: nat, j: nat) => if i < j < |sigs| && PairSafe(plan, sigs[i], sigs[j]) then OnPairs(plan, sigs[i], sigs[j]) else []
  }

  /** The single moves of `plan` over the first `n` signatures, signature by signature. */
  function Singles(plan: Plan, sigs: seq<Signature>, n: nat): seq<MoveResult> {
    Line(SigBlock(plan, sigs), n)
  }

  /** The pairwise moves of `plan` for row `i` and the columns `j < n`, kept when `i < j`. */
  function PairRow(plan: Plan, sigs: seq<Signature>, i: nat, n: nat): seq<MoveResult> {
    Row(PairBlock(plan, sigs), i, n)
  }

  /** The pairwise moves of `plan` over the rows `i < n`. */
  function Pairs(plan: Plan, sigs: seq<Signature>, n: nat): seq<MoveResult> {
    Triangle(PairBlock(plan, sigs), |sigs|, n)
  }

  /** Every move `apply_all_moves` makes goes through: each signature can be
      completed and deformed, and any two signatures both have a sort. */
  predicate AllSafe(sigs: seq<Signature>) {
    SinglesSafe(Every, sigs) && PairsSafe(Every, sigs)
  }

  function AllMoves(sigs: seq<Signature>): seq<MoveResult> {
    Singles(Every, sigs, |sigs|) + Pairs(Every, sigs, |sigs|)
  }

  /** The move `kind` may be applied to all of `sigs`. */
  predicate KindSafe(kind: MoveKind, sigs: seq<Signature>) {
    if IsPairwise(kind) then PairsSafe(One(kind), sigs) else SinglesSafe(One(kind), sigs)
  }

  /** The kind-specific iteration of `apply_move`: `_pairwise` for abstract and
      transfer, `_single` for the rest. */
  function MoveAll(kind: MoveKind, sigs: seq<Signature>): seq<MoveResult> {
    if IsPairwise(kind) then Pairs(One(kind), sigs, |sigs|) else Singles(One(kind), sigs, |sigs|)
  }

  /** Runs one single-signature move. */
  method RunOne(m: MoveKind, sig: Signature) returns (results: seq<MoveResult>)
    requires !IsPairwise(m) && SingleSafe(m, sig)
    ensures results == OnOne(m, sig)
  {
    match m
    case Dualize => results := Dualize(sig);
    case Complete => results := Complete(sig);
    case Quotient => results := Quotient(sig);
    case Internalize => results := Internalize(sig);
    case Deform => results := Deform(sig);
    case SelfDistrib => results := SelfDistrib(sig);
  }

  /** Runs one pairwise move. */
  method RunPair(m: MoveKind, a: Signature, b: Signature) returns (results: seq<MoveResult>)
    requires IsPairwise(m) && (m == MoveKind.Transfer ==> TransferSafe(a, b))
    ensures results == OnPair(m, a, b)
  {
    if m == MoveKind.Abstract {
      results := Abstract(a, b);
    } else {
      results := Transfer(a, b);
    }
  }

  /** The body of the first loop of `apply_all_moves`: the six single moves
      on one signature, in order. */
  method RunEvery(sig: Signature) returns (results: seq<MoveResult>)
    requires SigSafe(Every, sig)
    ensures results == OnSig(Every, sig)
  {
    EverySig(sig);
    var r1 := RunOne(MoveKind.Dualize, sig);
    var r2 := RunOne(MoveKind.Complete, sig);
    var r3 := RunOne(MoveKind.Quotient, sig);
    var r4 := RunOne(MoveKind.Internalize, sig);
    var r5 := RunOne(MoveKind.Deform, sig);
    var r6 := RunOne(MoveKind.SelfDistrib, sig);
    results := r1 + r2 + r3 + r4 + r5 + r6;
  }

  /** `_single`: one move over every signature in order. */
  method Single(sigs: seq<Signature>, m: MoveKind) returns (results: seq<MoveResult>)
    requires SinglesSafe(One(m), sigs)
    ensures results == Singles(One(m), sigs, |sigs|)
  {
    results := RunSingles(One(m), sigs);
  }

  /** The loop over signatures, for one move or for all six. */
  method RunSingles(plan: Plan, sigs: seq<Signature>) returns (results: seq<MoveResult>)
    requires SinglesSafe(plan, sigs)
    ensures results == Singles(plan, sigs, |sigs|)
  {
    results := [];
    var i := 0;
    while i < |sigs|
      invariant 0 <= i <= |sigs|
      invariant results == Singles(plan, sigs, i)
    {
      results := SingleCell(plan, sigs, i, results);
      i := i + 1;
    }
  }

  /** One step of a loop over signatures: the moves of `plan` on `sigs[i]`
      appended to what came before. */
  method SingleCell(plan: Plan, sigs: seq<Signature>, i: nat, before: seq<MoveResult>)
    returns (results: seq<MoveResult>)
    requires i < |sigs| && SinglesSafe(plan, sigs)
    requires before == Singles(plan, sigs, i)
    ensures results == Singles(plan, sigs, i + 1)
  {
    var r;
    match plan {
      case One(k) => r := RunOne(k, sigs[i]);
      case Every => r := RunEvery(sigs[i]);
    }
    SigBlockIs(plan, sigs, i);
    results := before + r;
  }

  /** `_pairwise`: one move over every ordered pair `i < j`, row by row. */
  method Pairwise(sigs: seq<Signature>, m: MoveKind) returns (results: seq<MoveResult>)
    requires PairsSafe(One(m), sigs)
    ensures results == Pairs(One(m), sigs, |sigs|)
  {
    results := RunPairsAll(One(m), sigs);
  }

  /** The loop over rows `i`, for one pairwise move or for both. */
  method RunPairsAll(plan: Plan, sigs: seq<Signature>) returns (results: seq<MoveResult>)
    requires PairsSafe(plan, sigs)
    ensures results == Pairs(plan, sigs, |sigs|)
  {
    results := [];
    var i := 0;
    while i < |sigs|
      invariant 0 <= i <= |sigs|
      invariant results == Pairs(plan, sigs, i)
    {
      var row := PairsFrom(plan, sigs, i);
      PairsStep(plan, sigs, i);
      results := results + row;
      i := i + 1;
    }
  }

  /** The inner loop over `j` shared by `_pairwise` and `apply_all_moves`. */
  method PairsFrom(plan: Plan, sigs: seq<Signature>, i: nat) returns (results: seq<MoveResult>)
    requires i < |sigs| && PairsSafe(plan, sigs)
    ensures results == PairRow(plan, sigs, i, |sigs|)
  {
    results := [];
    var j := 0;
    while j < |sigs|
      invariant 0 <= j <= |sigs|
      invariant results == PairRow(plan, sigs, i, j)
    {
      results := PairCell(plan, sigs, i, j, results);
      j := j + 1;
    }
    assert j == |sigs|;
  }

  /** One step of the inner loop: the pair `(i, j)` is run when `i < j`. */
  method PairCell(plan: Plan, sigs: seq<Signature>, i: nat, j: nat, before: seq<MoveResult>)
    returns (results: seq<MoveResult>)
    requires i < |sigs| && j < |sigs| && PairsSafe(plan, sigs)
    requires before == PairRow(plan, sigs, i, j)
    ensures results == PairRow(plan, sigs, i, j + 1)
  {
    results := before;
    if i < j {
      PairBlockIs(plan, sigs, i, j);
      var r := RunPairs(plan, sigs[i], sigs[j]);
      results := results + r;
    }
  }

  /** The pairwise moves of `plan` for one pair. */
  method RunPairs(plan: Plan, a: Signature, b: Signature) returns (results: seq<MoveResult>)
    requires PairSafe(plan, a, b)
    ensures results == OnPairs(plan, a, b)
  {
    match plan
    case One(k) =>
      results := RunPair(k, a, b);
    case Every =>
      var ra := Abstract(a, b);
      var rt := Transfer(a, b);
      results := ra + rt;
  }

  /** `apply_move`: the iteration that fits `kind`. */
  method ApplyMove(kind: MoveKind, sigs: seq<Signature>) returns (results: seq<MoveResult>)
    requires KindSafe(kind, sigs)
    ensures results == MoveAll(kind, sigs)
  {
    if IsPairwise(kind) {
      results := Pairwise(sigs, kind);
    } else {
      results := Single(sigs, kind);
    }
  }

  /** `apply_all_moves`: the six single moves for each signature in turn, then
      abstract and transfer for every pair `i < j`. */
  method ApplyAllMoves(sigs: seq<Signature>) returns (results: seq<MoveResult>)
    requires AllSafe(sigs)
    ensures results == AllMoves(sigs)
  {
    var singles := RunSingles(Every, sigs);
    var pairs := RunPairsAll(Every, sigs);
    results := singles + pairs;
  }

  lemma PairsStep(plan: Plan, sigs: seq<Signature>, i: nat)
    requires i < |sigs| && PairsSafe(plan, sigs)
    ensures Pairs(plan, sigs, i + 1) == Pairs(plan, sigs, i) + PairRow(plan, sigs, i, |sigs|)
  {
  }

  // ---- apply_all_moves against apply_move ----

  /** When `apply_all_moves` goes through on `sigs`, so does `apply_move` for each single kind. */
  lemma EverySinglesSafe(sigs: seq<Signature>, k: MoveKind)
    requires SinglesSafe(Every, sigs) && !IsPairwise(k)
    ensures SinglesSafe(One(k), sigs)
  {
    forall i | 0 <= i < |sigs|
      ensures SigSafe(One(k), sigs[i])
    {
      assert SigSafe(Every, sigs[i]);
    }
  }

  /** When `apply_all_moves` goes through on `sigs`, so does `apply_move` for both pairwise kinds. */
  lemma EveryPairsSafe(sigs: seq<Signature>, k: MoveKind)
    requires PairsSafe(Every, sigs) && IsPairwise(k)
    ensures PairsSafe(One(k), sigs)
  {
    forall i, j | 0 <= i < j < |sigs|
      ensures PairSafe(One(k), sigs[i], sigs[j])
    {
      assert PairSafe(Every, sigs[i], sigs[j]);
    }
  }

  lemma SigBlockIs(plan: Plan, sigs: seq<Signature>, a: nat)
    requires a < |sigs|
    ensures SigBlock(plan, sigs)(a) == (if SigSafe(plan, sigs[a]) then OnSig(plan, sigs[a]) else [])
  {
  }

  lemma PairBlockIs(plan: Plan, sigs: seq<Signature>, a: nat, b: nat)
    requires a < b < |sigs|
    ensures PairBlock(plan, sigs)(a, b) == (if PairSafe(plan, sigs[a], sigs[b]) then OnPairs(plan, sigs[a], sigs[b]) else [])
  {
  }

  /** Each block of `apply_all_moves` on one signature is the six single moves in order. */
  lemma EverySigBlock(sigs: seq<Signature>)
    requires SinglesSafe(Every, sigs)
    ensures forall a :: (SigBlock(Every, sigs)(a)
      == SigBlock(One(MoveKind.Dualize), sigs)(a) + SigBlock(One(MoveKind.Complete), sigs)(a)
       + SigBlock(One(MoveKind.Quotient), sigs)(a) + SigBlock(One(MoveKind.Internalize), sigs)(a)
       + SigBlock(One(MoveKind.Deform), sigs)(a) + SigBlock(One(MoveKind.SelfDistrib), sigs)(a))
  {
    forall a: nat
      ensures SigBlock(Every, sigs)(a)
        == SigBlock(One(MoveKind.Dualize), sigs)(a) + SigBlock(One(MoveKind.Complete), sigs)(a)
         + SigBlock(One(MoveKind.Quotient), sigs)(a) + SigBlock(One(MoveKind.Internalize), sigs)(a)
         + SigBlock(One(MoveKind.Deform), sigs)(a) + SigBlock(One(MoveKind.SelfDistrib), sigs)(a)
    {
      if a < |sigs| {
        var sig := sigs[a];
        assert SigSafe(Every, sig);
        EverySig(sig);
        SigBlockAt(Every, sigs, a);
        SigBlockAt(One(MoveKind.Dualize), sigs, a);
        SigBlockAt(One(MoveKind.Complete), sigs, a);
        SigBlockAt(One(MoveKind.Quotient), sigs, a);
        SigBlockAt(One(MoveKind.Internalize), sigs, a);
        SigBlockAt(One(MoveKind.Deform), sigs, a);
        SigBlockAt(One(MoveKind.SelfDistrib), sigs, a);
      }
    }
  }

  lemma SigBlockAt(plan: Plan, sigs: seq<Signature>, a: nat)
    requires a < |sigs| && SigSafe(plan, sigs[a])
    ensures SigBlock(plan, sigs)(a) == OnSig(plan, sigs[a])
  {
  }

  /** For one signature, the six single moves in the fixed order. */
  lemma EverySig(sig: Signature)
    requires SigSafe(Every, sig)
    ensures forall k :: !IsPairwise(k) ==> SigSafe(One(k), sig)
    ensures OnSig(Every, sig)
      == OnSig(One(MoveKind.Dualize), sig) + OnSig(One(MoveKind.Complete), sig) + OnSig(One(MoveKind.Quotient), sig)
       + OnSig(One(MoveKind.Internalize), sig) + OnSig(One(MoveKind.Deform), sig) + OnSig(One(MoveKind.SelfDistrib), sig)
  {
  }

  /** Each block of `apply_all_moves` on a pair is abstract, then transfer. */
  lemma EveryPairBlock(sigs: seq<Signature>)
    requires PairsSafe(Every, sigs)
    ensures forall a, b :: (PairBlock(Every, sigs)(a, b)
      == PairBlock(One(MoveKind.Abstract), sigs)(a, b) + PairBlock(One(MoveKind.Transfer), sigs)(a, b))
  {
    forall a: nat, b: nat
      ensures PairBlock(Every, sigs)(a, b)
        == PairBlock(One(MoveKind.Abstract), sigs)(a, b) + PairBlock(One(MoveKind.Transfer), sigs)(a, b)
    {
      if a < b < |sigs| {
        EveryPairsSafe(sigs, MoveKind.Abstract);
        EveryPairsSafe(sigs, MoveKind.Transfer);
        PairBlockAt(Every, sigs, a, b);
        PairBlockAt(One(MoveKind.Abstract), sigs, a, b);
        PairBlockAt(One(MoveKind.Transfer), sigs, a, b);
      }
    }
  }

  lemma PairBlockAt(plan: Plan, sigs: seq<Signature>, a: nat, b: nat)
    requires a < b < |sigs| && PairsSafe(plan, sigs)
    ensures PairSafe(plan, sigs[a], sigs[b])
    ensures PairBlock(plan, sigs)(a, b) == OnPairs(plan, sigs[a], sigs[b])
  {
  }

  /** `apply_all_moves` makes the results of the eight `apply_move` runs: each
      kind goes through on its own, the total count is the sum of theirs, and a
      result appears in `apply_all_moves` iff it appears in some `apply_move`. */
  lemma AllMovesSplit(sigs: seq<Signature>)
    requires AllSafe(sigs)
    ensures forall k :: KindSafe(k, sigs)
    ensures |AllMoves(sigs)|
      == |MoveAll(MoveKind.Dualize, sigs)| + |MoveAll(MoveKind.Complete, sigs)|
       + |MoveAll(MoveKind.Quotient, sigs)| + |MoveAll(MoveKind.Internalize, sigs)|
       + |MoveAll(MoveKind.Deform, sigs)| + |MoveAll(MoveKind.SelfDistrib, sigs)|
       + |MoveAll(MoveKind.Abstract, sigs)| + |MoveAll(MoveKind.Transfer, sigs)|
    ensures forall r :: r in AllMoves(sigs) <==> exists k :: r in MoveAll(k, sigs)
  {
    forall k | !IsPairwise(k) {
      EverySinglesSafe(sigs, k);
    }
    forall k | IsPairwise(k) {
      EveryPairsSafe(sigs, k);
    }
    var n := |sigs|;
    EverySigBlock(sigs);
    LineSplit6(SigBlock(Every, sigs),
      SigBlock(One(MoveKind.Dualize), sigs), SigBlock(One(MoveKind.Complete), sigs),
      SigBlock(One(MoveKind.Quotient), sigs), SigBlock(One(MoveKind.Internalize), sigs),
      SigBlock(One(MoveKind.Deform), sigs), SigBlock(One(MoveKind.SelfDistrib), sigs), n);
    EveryPairBlock(sigs);
    TriangleSplit(PairBlock(Every, sigs), PairBlock(One(MoveKind.Abstract), sigs),
      PairBlock(One(MoveKind.Transfer), sigs), n, n);
    forall r | r in AllMoves(sigs)
      ensures exists k :: r in MoveAll(k, sigs)
    {
      if r in MoveAll(MoveKind.Dualize, sigs) {
      } else if r in MoveAll(MoveKind.Complete, sigs) {
      } else if r in MoveAll(MoveKind.Quotient, sigs) {
      } else if r in MoveAll(MoveKind.Internalize, sigs) {
      } else if r in MoveAll(MoveKind.Deform, sigs) {
      } else if r in MoveAll(MoveKind.SelfDistrib, sigs) {
      } else if r in MoveAll(MoveKind.Abstract, sigs) {
      } else {
        assert r in MoveAll(MoveKind.Transfer, sigs);
      }
    }
  }
}
