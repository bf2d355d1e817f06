/** `Prover9Solver` and `ConjectureGenerator` (src/solvers/prover9.py). The
    Prover9 program runs as a subprocess, an oracle `run` as for Mace4; what is
    modelled is how its exit code and output are read, how the proof is cut
    out of the output, and which conjectures are proposed for a signature. */
module Prover9 {
  import opened Wrappers
  import opened Ast
  import opened Signatures
  import Text
  import Fol
  import Mace4

  // ---- Proof status ----

  datatype ProofStatus = Proved | Disproved | Timeout | Error

  /** The enum's value string. */
  function StatusValue(s: ProofStatus): string {
    match s
    case Proved => "proved"
    case Disproved => "disproved"
    case Timeout => "timeout"
    case Error => "error"
  }

  /** `ProofResult`; `time_seconds` stays at its default and is left out. */
  datatype ProofResult = ProofResult(
    status: ProofStatus, conjecture: string, proofText: string, counterexample: string, rawOutput: string)

  datatype Prover9Solver = Prover9Solver(path: string, timeout: int)

  /** `Prover9Solver()`: the binary `prover9` with a 30 second timeout. */
  function DefaultSolver(): (s: Prover9Solver)
    ensures s.path == "prover9" && s.timeout == 30
  {
    Prover9Solver("prover9", 30)
  }

  /** `is_available`: `prover9 --version` (5 second timeout) exits with 0 or
      1; a timeout or a missing binary means not available. Only those two
      exceptions are caught: any other `OSError` propagates. */
  function IsAvailable(s: Prover9Solver, run: (seq<string>, string, int) -> Mace4.Run): Result<bool> {
    match run([s.path, "--version"], "", 5)
    case Exited(code, _, _) => Success(code == 0 || code == 1)
    case TimedOut => Success(false)
    case NotStarted(missing) => if missing then Success(false) else Failure("OSError")
  }

  /** The probe raises exactly on an `OSError` other than a missing binary;
      otherwise it answers yes exactly when the program ran and exited with 0
      or 1. */
  lemma AvailableIff(s: Prover9Solver, run: (seq<string>, string, int) -> Mace4.Run)
    ensures var o := run([s.path, "--version"], "", 5);
      && (IsAvailable(s, run).Failure? <==> o.NotStarted? && !o.missing)
      && (IsAvailable(s, run) == Success(true) <==> o.Exited? && o.code in {0, 1})
  {
  }

  /** The command line of `prove`: the prover's own time limit as `-t<seconds>`. */
  function Command(s: Prover9Solver): seq<string> {
    [s.path, "-t" + Text.IntToString(s.timeout)]
  }

  /** `prove` (lines 55-99): run the prover on the `to_prover9` text, allowing
      it five seconds beyond its own limit, and read the outcome. */
  function Prove(s: Prover9Solver, run: (seq<string>, string, int) -> Mace4.Run, sig: Signature, conjecture: Equation): Result<ProofResult> {
    var conj := EquationRepr(conjecture);
    match run(Command(s), Fol.Prover9Text(sig, conjecture), s.timeout + 5)
    case Exited(code, out, _) =>
      if code == 0 && Text.Contains(out, "THEOREM PROVED") then
        Success(ProofResult(Proved, conj, ExtractProofText(out), "", out))
      else if Text.Contains(out, "SEARCH FAILED") then
        Success(ProofResult(Disproved, conj, "", "", out))
      else
        Success(ProofResult(Timeout, conj, "", "", out))
    case TimedOut => Success(ProofResult(Timeout, conj, "", "", ""))
    case NotStarted(missing) =>
      if missing then Success(ProofResult(Error, conj, "", "", "Prover9 not found at " + s.path))
      else Failure("OSError")
  }

  /** How each status arises: a proof needs exit code 0 and "THEOREM PROVED";
      otherwise "SEARCH FAILED" means disproved; any other output or the
      subprocess timeout means timeout; a missing binary is an error. Any
      other `OSError` is not caught, and is the only way `prove` raises.
      Every result names the conjecture, and never carries a counterexample. */
  lemma ProveStatus(s: Prover9Solver, run: (seq<string>, string, int) -> Mace4.Run, sig: Signature, conjecture: Equation)
    ensures var p, o := Prove(s, run, sig, conjecture), run(Command(s), Fol.Prover9Text(sig, conjecture), s.timeout + 5);
      && (p.Failure? <==> o.NotStarted? && !o.missing)
      && (p.Success? ==> var r := p.value;
      && r.conjecture == EquationRepr(conjecture)
      && r.counterexample == ""
      && (r.status == Proved <==> o.Exited? && o.code == 0 && Text.Contains(o.stdout, "THEOREM PROVED"))
      && (r.status == Disproved <==>
            o.Exited? && !(o.code == 0 && Text.Contains(o.stdout, "THEOREM PROVED")) && Text.Contains(o.stdout, "SEARCH FAILED"))
      && (r.status == Timeout <==>
            o.TimedOut? || (o.Exited? && !(o.code == 0 && Text.Contains(o.stdout, "THEOREM PROVED"))
                                       && !Text.Contains(o.stdout, "SEARCH FAILED")))
      && (r.status == Error <==> o.NotStarted? && o.missing)
      && (r.status == Error ==> r.rawOutput == "Prover9 not found at " + s.path)
      && (o.Exited? ==> r.rawOutput == o.stdout)
      && (r.status != Proved ==> r.proofText == "")
      && (r.status == Proved ==> r.proofText == ExtractProofText(o.stdout)))
  {
  }

  // ---- _extract_proof ----

  /** A line that starts the proof section. */
  predicate Opens(line: string) {
    Text.Contains(line, "PROOF")
  }

  /** A line that ends the proof section, compared in lower case. */
  predicate Closes(line: string) {
    Text.Contains(Text.Lower(line), "end of proof")
  }

  /** The lines up to and including the first closing one, or all of them. */
  function ThroughClose(lines: seq<string>): seq<string> {
    if lines == [] then []
    else if Closes(lines[0]) then [lines[0]]
    else [lines[0]] + ThroughClose(lines[1..])
  }

  /** The proof section: from the first opening line on, through the first
      closing line at or after it; empty without an opening line. */
  function ProofSection(lines: seq<string>): seq<string> {
    if lines == [] then []
    else if Opens(lines[0]) then ThroughClose(lines)
    else ProofSection(lines[1..])
  }

  function ExtractProofText(output: string): string {
    Text.Join("\n", ProofSection(Text.Split(output, '\n')))
  }

  /** `_extract_proof` (lines 101-113): the loop with its `in_proof` flag and
      early exit. */
  method ExtractProof(output: string) returns (proof: string)
    ensures proof == ExtractProofText(output)
  {
    var lines := Text.Split(output, '\n');
    var proofLines: seq<string> := [];
    var inProof := false;
    var k := 0;
    while k < |lines|
      invariant 0 <= k <= |lines|
      invariant !inProof ==> proofLines == [] && ProofSection(lines[k..]) == ProofSection(lines)
      invariant inProof ==> proofLines + ThroughClose(lines[k..]) == ProofSection(lines)
    {
      var line := lines[k];
      assert lines[k..] == [line] + lines[k + 1..];
      if Opens(line) {
        if !inProof {
          assert ProofSection(lines[k..]) == ThroughClose(lines[k..]);
        }
        inProof := true;
      }
      if inProof {
        proofLines := proofLines + [line];
      }
      if inProof && Closes(line) {
        assert ThroughClose(lines[k..]) == [line];
        assert proofLines == ProofSection(lines);
        break;
      }
      k := k + 1;
    }
    if k == |lines| {
      assert lines[k..] == [];
      assert ThroughClose(lines[k..]) == [] && ProofSection(lines[k..]) == [];
    }
    assert proofLines == ProofSection(lines);
    proof := Text.Join("\n", proofLines);
  }

  /** `ThroughClose` keeps every line when none closes. */
  lemma {:induction false} ThroughCloseAll(lines: seq<string>)
    requires forall j :: 0 <= j < |lines| ==> !Closes(lines[j])
    ensures ThroughClose(lines) == lines
  {
    if lines != [] {
      assert !Closes(lines[0]);
      ThroughCloseAll(lines[1..]);
    }
  }

  /** `ThroughClose` stops at the first closing line `j`, keeping it. */
  lemma {:induction false} ThroughCloseAt(lines: seq<string>, j: int)
    requires 0 <= j < |lines| && Closes(lines[j])
    requires forall k :: 0 <= k < j ==> !Closes(lines[k])
    ensures ThroughClose(lines) == lines[..j + 1]
  {
    if j > 0 {
      assert !Closes(lines[0]);
      var rest := lines[1..];
      assert Closes(rest[j - 1]);
      ThroughCloseAt(rest, j - 1);
      assert lines[..j + 1] == [lines[0]] + rest[..j];
    }
  }

  /** Without an opening line there is no proof section. */
  lemma {:induction false} ProofSectionNone(lines: seq<string>)
    requires forall i :: 0 <= i < |lines| ==> !Opens(lines[i])
    ensures ProofSection(lines) == []
  {
    if lines != [] {
      assert !Opens(lines[0]);
      ProofSectionNone(lines[1..]);
    }
  }

  /** The proof section starts at the first opening line `i`. */
  lemma {:induction false} ProofSectionAt(lines: seq<string>, i: int)
    requires 0 <= i < |lines| && Opens(lines[i])
    requires forall k :: 0 <= k < i ==> !Opens(lines[k])
    ensures ProofSection(lines) == ThroughClose(lines[i..])
  {
    if i > 0 {
      assert !Opens(lines[0]);
      var rest := lines[1..];
      assert Opens(rest[i - 1]);
      ProofSectionAt(rest, i - 1);
      assert rest[i - 1..] == lines[i..];
    }
  }

  /** The extracted proof is empty exactly when no output line contains
      "PROOF". */
  lemma ExtractProofEmpty(output: string)
    ensures ExtractProofText(output) == "" <==> NoOpening(Text.Split(output, '\n'))
  {
    var lines := Text.Split(output, '\n');
    if exists i :: 0 <= i < |lines| && Opens(lines[i]) {
      var i := FirstOpening(lines);
      ProofSectionAt(lines, i);
      var section := ThroughClose(lines[i..]);
      assert section[0] == lines[i];
      OpensNotEmpty(lines[i]);
      JoinStartsWithFirst("\n", section);
      assert ExtractProofText(output) == Text.Join("\n", section);
      assert |Text.Join("\n", section)| >= |lines[i]| > 0;
      assert Opens(lines[i]);
      assert ExtractProofText(output) != "";
    } else {
      ProofSectionNone(lines);
    }
  }

  /** No line opens a proof section. */
  predicate NoOpening(lines: seq<string>) {
    forall i :: 0 <= i < |lines| ==> !Opens(lines[i])
  }

  /** The index of the first opening line. */
  function FirstOpening(lines: seq<string>): (i: int)
    requires exists i :: 0 <= i < |lines| && Opens(lines[i])
    ensures 0 <= i < |lines| && Opens(lines[i]) && forall k :: 0 <= k < i ==> !Opens(lines[k])
  {
    if Opens(lines[0]) then 0
    else
      var j :| 0 <= j < |lines| && Opens(lines[j]);
      assert Opens(lines[1..][j - 1]);
      var i := FirstOpening(lines[1..]);
      assert forall k :: 1 <= k < i + 1 ==> lines[k] == lines[1..][k - 1];
      i + 1
  }

  lemma OpensNotEmpty(line: string)
    requires Opens(line)
    ensures line != ""
  {
    ContainsLength(line, "PROOF");
  }

  /** A string contains only substrings no longer than itself. */
  lemma {:induction false} ContainsLength(s: string, sub: string)
    ensures Text.Contains(s, sub) ==> |sub| <= |s|
    decreases |s|
  {
    if s != [] {
      ContainsLength(s[1..], sub);
    }
  }

  /** `sep.join(parts)` begins with the first part. */
  lemma JoinStartsWithFirst(sep: string, parts: seq<string>)
    requires parts != []
    ensures |Text.Join(sep, parts)| >= |parts[0]|
  {
  }

  // ---- generate_conjectures ----

  /** The conjectures for one operation: for a binary one, commutativity,
      idempotence and associativity, in that order, each only when no axiom
      of that kind already names the operation. */
  function OpConjectures(axioms: seq<Axiom>, op: Operation): seq<Equation> {
    if op.Arity() != 2 then []
    else
      (if HasAxiomFor(axioms, Commutativity, op.name) then [] else [MakeCommEquation(op.name)])
      + (if HasAxiomFor(axioms, Idempotence, op.name) then [] else [MakeIdempotentEquation(op.name)])
      + (if HasAxiomFor(axioms, Associativity, op.name) then [] else [MakeAssocEquation(op.name)])
  }

  /** The conjectures for the operations in order. */
  function Conjectures(axioms: seq<Axiom>, ops: seq<Operation>): seq<Equation> {
    if ops == [] then []
    else Conjectures(axioms, ops[..|ops| - 1]) + OpConjectures(axioms, ops[|ops| - 1])
  }

  /** `generate_conjectures` (lines 122-166). */
  method GenerateConjectures(sig: Signature) returns (conjectures: seq<Equation>)
    ensures conjectures == Conjectures(sig.axioms, sig.operations)
  {
    var ops := sig.operations;
    conjectures := [];
    for k := 0 to |ops|
      invariant conjectures == Conjectures(sig.axioms, ops[..k])
    {
      assert ops[..k + 1][..k] == ops[..k];
      assert Conjectures(sig.axioms, ops[..k + 1]) == conjectures + OpConjectures(sig.axioms, ops[k]);
      conjectures := AppendOpConjectures(sig.axioms, ops[k], conjectures);
    }
    assert ops[..|ops|] == ops;
  }

  /** The body of the loop of `generate_conjectures` for one operation. */
  method AppendOpConjectures(axioms: seq<Axiom>, op: Operation, acc: seq<Equation>) returns (r: seq<Equation>)
    ensures r == acc + OpConjectures(axioms, op)
  {
    r := acc;
    if op.Arity() != 2 {
      return;
    }
    ghost var comm := if HasAxiomFor(axioms, Commutativity, op.name) then [] else [MakeCommEquation(op.name)];
    ghost var idem := if HasAxiomFor(axioms, Idempotence, op.name) then [] else [MakeIdempotentEquation(op.name)];
    ghost var assoc := if HasAxiomFor(axioms, Associativity, op.name) then [] else [MakeAssocEquation(op.name)];
    assert OpConjectures(axioms, op) == comm + idem + assoc;
    if !HasAxiomFor(axioms, Commutativity, op.name) {
      r := r + [MakeCommEquation(op.name)];
    }
    assert r == acc + comm;
    if !HasAxiomFor(axioms, Idempotence, op.name) {
      r := r + [MakeIdempotentEquation(op.name)];
    }
    assert r == acc + comm + idem;
    if !HasAxiomFor(axioms, Associativity, op.name) {
      r := r + [MakeAssocEquation(op.name)];
    }
    assert r == acc + comm + idem + assoc;
    AppendThree(acc, comm, idem, assoc);
  }

  lemma AppendThree<T>(a: seq<T>, b: seq<T>, c: seq<T>, d: seq<T>)
    ensures a + b + c + d == a + (b + c + d)
  {
  }

  /** `c` is one of the templates for the binary operation `op`, and no axiom
      of that template's kind names `op`. */
  predicate Proposes(axioms: seq<Axiom>, op: Operation, c: Equation) {
    op.Arity() == 2 &&
    ((c == MakeCommEquation(op.name) && !HasAxiomFor(axioms, Commutativity, op.name)) ||
     (c == MakeIdempotentEquation(op.name) && !HasAxiomFor(axioms, Idempotence, op.name)) ||
     (c == MakeAssocEquation(op.name) && !HasAxiomFor(axioms, Associativity, op.name)))
  }

  lemma OpConjecturesMembers(axioms: seq<Axiom>, op: Operation)
    ensures forall c :: c in OpConjectures(axioms, op) <==> Proposes(axioms, op, c)
    ensures |OpConjectures(axioms, op)| <= (if op.Arity() == 2 then 3 else 0)
  {
  }

  /** A conjecture is proposed exactly when it is a missing template of some
      binary operation of the signature. */
  lemma {:induction false} ConjecturesMembers(axioms: seq<Axiom>, ops: seq<Operation>)
    ensures forall c :: c in Conjectures(axioms, ops) <==> exists op :: op in ops && Proposes(axioms, op, c)
  {
    if ops != [] {
      var init, last := ops[..|ops| - 1], ops[|ops| - 1];
      ConjecturesMembers(axioms, init);
      OpConjecturesMembers(axioms, last);
      assert ops == init + [last];
      forall c ensures c in Conjectures(axioms, ops) <==> exists op :: op in ops && Proposes(axioms, op, c) {
        if exists op :: op in ops && Proposes(axioms, op, c) {
          var op :| op in ops && Proposes(axioms, op, c);
          if op != last {
            assert op in init;
          }
        }
      }
    }
  }

  /** At most three conjectures per binary operation, so none without one. */
  lemma {:induction false} ConjecturesBound(axioms: seq<Axiom>, ops: seq<Operation>)
    ensures |Conjectures(axioms, ops)| <= 3 * |OpsByArity(ops, 2)|
  {
    if ops != [] {
      var init, last := ops[..|ops| - 1], ops[|ops| - 1];
      ConjecturesBound(axioms, init);
      OpConjecturesMembers(axioms, last);
      assert Conjectures(axioms, ops) == Conjectures(axioms, init) + OpConjectures(axioms, last);
      assert ops == init + [last];
      OpsByArityAppend(init, [last], 2);
      assert OpsByArity([last], 2) == (if last.Arity() == 2 then [last] else []);
      assert |OpsByArity(ops, 2)| == |OpsByArity(init, 2)| + (if last.Arity() == 2 then 1 else 0);
    }
  }

  /** Every conjecture uses only the variables x, y and z. */
  lemma ConjectureVariables(axioms: seq<Axiom>, ops: seq<Operation>)
    ensures forall c :: c in Conjectures(axioms, ops) ==> EquationVariables(c) <= {"x", "y", "z"}
  {
    ConjecturesMembers(axioms, ops);
    forall c | c in Conjectures(axioms, ops) ensures EquationVariables(c) <= {"x", "y", "z"} {
      var op :| op in ops && Proposes(axioms, op, c);
      BuilderVariables(op.name, "", "");
    }
  }

  /** An operation with none of the three axioms receives all three
      conjectures, right after those of the operations before it. */
  lemma BareBinaryOp(axioms: seq<Axiom>, ops: seq<Operation>, op: Operation)
    requires op.Arity() == 2
    requires !HasAxiomFor(axioms, Commutativity, op.name) && !HasAxiomFor(axioms, Idempotence, op.name)
    requires !HasAxiomFor(axioms, Associativity, op.name)
    ensures Conjectures(axioms, ops + [op]) ==
      Conjectures(axioms, ops) + [MakeCommEquation(op.name), MakeIdempotentEquation(op.name), MakeAssocEquation(op.name)]
  {
    assert (ops + [op])[..|ops|] == ops;
  }
}
