/** `FOLTranslator` (src/solvers/fol_translator.py): the LADR input text that
    Mace4 and Prover9 read. Terms print in prefix form, an equation as
    `lhs = rhs`, and a file is a list of lines joined by newlines. */
module Fol {
  import opened Wrappers
  import opened Ast
  import Text
  import Signatures

  // ---- Terms and equations ----

  /** `_expr_to_mace4`: leaves print their name, a nullary application its
      operation name, any other application `op(a,b,...)`. */
  function ExprToMace4(e: Expr): Option<string>
    decreases e, 1
  {
    match e
    case Var(name) => Some(name)
    case Const(name) => Some(name)
    case App(op, args) =>
      if args == [] then Some(op)
      else
        match ArgsToMace4(args)
        case None => None
        case Some(parts) => Some(op + "(" + Text.Join(",", parts) + ")")
  }

  /** The argument loop of `_expr_to_mace4`: the printed arguments in order,
      or `None` as soon as one of them is `None`. */
  function ArgsToMace4(args: seq<Expr>): Option<seq<string>>
    decreases args, 0
  {
    if args == [] then Some([])
    else
      match ExprToMace4(args[0])
      case None => None
      case Some(first) =>
        match ArgsToMace4(args[1..])
        case None => None
        case Some(rest) => Some([first] + rest)
  }

  /** Every expression tree prints: `_expr_to_mace4` never returns `None`. */
  lemma {:induction false} ExprPrints(e: Expr)
    ensures ExprToMace4(e).Some?
    decreases e, 1
  {
    match e
    case Var(_) =>
    case Const(_) =>
    case App(_, args) => ArgsPrint(args);
  }

  /** Every argument list prints, one text per argument, in order. */
  lemma {:induction false} ArgsPrint(args: seq<Expr>)
    ensures ArgsToMace4(args).Some?
    ensures |ArgsToMace4(args).value| == |args|
    ensures forall i :: 0 <= i < |args| ==> ExprToMace4(args[i]).Some? && ArgsToMace4(args).value[i] == ExprToMace4(args[i]).value
    decreases args, 0
  {
    if args != [] {
      ExprPrints(args[0]);
      ArgsPrint(args[1..]);
      var rest := ArgsToMace4(args[1..]).value;
      forall i | 1 <= i < |args| ensures ExprToMace4(args[i]).Some? && ArgsToMace4(args).value[i] == ExprToMace4(args[i]).value {
        assert args[1..][i - 1] == args[i];
      }
    }
  }

  /** The printed term, which always exists. */
  function Term(e: Expr): (r: string)
    ensures ExprToMace4(e) == Some(r)
  {
    ExprPrints(e);
    ExprToMace4(e).value
  }

  /** No operation, constant or variable name of `e` contains `c`. */
  predicate NamesAvoid(e: Expr, c: char)
    decreases e
  {
    match e
    case Var(name) => c !in name
    case Const(name) => c !in name
    case App(op, args) => c !in op && forall i :: 0 <= i < |args| ==> NamesAvoid(args[i], c)
  }

  /** The printer adds only parentheses and commas: any other character in the
      text comes from a name. In particular a term over names without spaces
      prints without spaces, even for binary operations. */
  lemma {:induction false} TermAvoids(e: Expr, c: char)
    requires c != '(' && c != ')' && c != ','
    requires NamesAvoid(e, c)
    ensures c !in Term(e)
    decreases e
  {
    match e
    case Var(_) =>
    case Const(_) =>
    case App(op, args) =>
      if args != [] {
        ArgsPrint(args);
        var parts := ArgsToMace4(args).value;
        forall i | 0 <= i < |parts| ensures c !in parts[i] {
          TermAvoids(args[i], c);
        }
        Text.JoinAvoids(",", parts, c);
      }
  }

  /** `_equation_to_mace4`: `lhs = rhs`, or `None` when a side does not print. */
  function EquationToMace4(eq: Equation): Option<string> {
    match (ExprToMace4(eq.lhs), ExprToMace4(eq.rhs))
    case (Some(l), Some(r)) => Some(l + " = " + r)
    case _ => None
  }

  /** The printed equation, which always exists. */
  function Formula(eq: Equation): (r: string)
    ensures EquationToMace4(eq) == Some(r)
  {
    ExprPrints(eq.lhs);
    ExprPrints(eq.rhs);
    EquationToMace4(eq).value
  }

  /** When no name holds `=`, the formula has a single `=`, and splitting at it
      gives back both printed sides. */
  lemma FormulaSplits(eq: Equation)
    requires NamesAvoid(eq.lhs, '=') && NamesAvoid(eq.rhs, '=')
    ensures Text.Split(Formula(eq), '=') == [Term(eq.lhs) + " ", " " + Term(eq.rhs)]
  {
    TermAvoids(eq.lhs, '=');
    TermAvoids(eq.rhs, '=');
    var l, r := Term(eq.lhs), Term(eq.rhs);
    assert Formula(eq) == (l + " ") + ['='] + (" " + r);
    Text.SplitAfter(l + " ", " " + r, '=');
    Text.SplitWithout(" " + r, '=');
  }

  // ---- to_mace4 ----

  /** `axiom.description or axiom.kind.value`. */
  function Comment(ax: Signatures.Axiom): string {
    if ax.description != "" then ax.description else Signatures.KindName(ax.kind)
  }

  /** The lines written for one axiom. */
  function AxiomBlock(ax: Signatures.Axiom): seq<string> {
    match EquationToMace4(ax.equation)
    case None => []
    case Some(fol) => ["  % " + Comment(ax), "  " + fol + ".", ""]
  }

  function AxiomBlocks(axioms: seq<Signatures.Axiom>): seq<string> {
    if axioms == [] then []
    else AxiomBlocks(axioms[..|axioms| - 1]) + AxiomBlock(axioms[|axioms| - 1])
  }

  function Mace4Header(sig: Signatures.Signature, n: int): seq<string> {
    ["% Signature: " + sig.name, "% Domain size: " + Text.IntToString(n), "",
     "assign(domain_size, " + Text.IntToString(n) + ").", "", "formulas(assumptions).", ""]
  }

  /** The lines of `to_mace4`, before joining. */
  function Mace4Lines(sig: Signatures.Signature, n: int): seq<string> {
    Mace4Header(sig, n) + AxiomBlocks(sig.axioms) + ["end_of_list."]
  }

  /** The axiom loop of `to_mace4` (lines 34-40): appends each axiom's block. */
  method AppendAxiomBlocks(start: seq<string>, axioms: seq<Signatures.Axiom>) returns (lines: seq<string>)
    ensures lines == start + AxiomBlocks(axioms)
  {
    lines := start;
    var k := 0;
    while k < |axioms|
      invariant 0 <= k <= |axioms|
      invariant lines == start + AxiomBlocks(axioms[..k])
    {
      var fol := EquationToMace4(axioms[k].equation);
      if fol.Some? {
        var comment := if axioms[k].description != "" then axioms[k].description
                       else Signatures.KindName(axioms[k].kind);
        lines := lines + ["  % " + comment];
        lines := lines + ["  " + fol.value + "."];
        lines := lines + [""];
      }
      assert axioms[..k + 1][..k] == axioms[..k];
      k := k + 1;
    }
    assert axioms[..k] == axioms;
  }

  /** `to_mace4` (lines 18-43). */
  method ToMace4(sig: Signatures.Signature, n: int) returns (text: string)
    ensures text == Text.Join("\n", Mace4Lines(sig, n))
  {
    var lines := AppendAxiomBlocks(Mace4Header(sig, n), sig.axioms);
    lines := lines + ["end_of_list."];
    text := Text.Join("\n", lines);
  }

  /** `signature_to_mace4_input` and the string `to_mace4` returns. */
  function Mace4Text(sig: Signatures.Signature, n: int): string {
    Text.Join("\n", Mace4Lines(sig, n))
  }

  /** Every axiom, in order, contributes its comment, its formula with a
      final `.`, and a blank line. */
  lemma {:induction false} AxiomBlocksAt(axioms: seq<Signatures.Axiom>)
    ensures |AxiomBlocks(axioms)| == 3 * |axioms|
    ensures forall i :: 0 <= i < |axioms| ==>
      AxiomBlocks(axioms)[3 * i] == "  % " + Comment(axioms[i]) &&
      AxiomBlocks(axioms)[3 * i + 1] == "  " + Formula(axioms[i].equation) + "." &&
      AxiomBlocks(axioms)[3 * i + 2] == ""
  {
    if axioms != [] {
      var m := |axioms| - 1;
      var init, last := axioms[..m], axioms[m];
      AxiomBlocksAt(init);
      var front := AxiomBlocks(init);
      var block := ["  % " + Comment(last), "  " + Formula(last.equation) + ".", ""];
      assert AxiomBlock(last) == block;
      var all := front + block;
      assert AxiomBlocks(axioms) == all;
      forall i | 0 <= i < |axioms|
        ensures all[3 * i] == "  % " + Comment(axioms[i])
        ensures all[3 * i + 1] == "  " + Formula(axioms[i].equation) + "."
        ensures all[3 * i + 2] == ""
      {
        if i < m {
          assert init[i] == axioms[i];
          assert all[3 * i] == front[3 * i] && all[3 * i + 1] == front[3 * i + 1] && all[3 * i + 2] == front[3 * i + 2];
        } else {
          assert axioms[i] == last;
          assert all[3 * i] == block[0] && all[3 * i + 1] == block[1] && all[3 * i + 2] == block[2];
        }
      }
    }
  }

  /** The header names the signature and the size, holds the `assign` line and
      opens the assumptions; one three-line block per axiom follows; the file
      ends with `end_of_list.`, also when there are no axioms. */
  lemma Mace4Layout(sig: Signatures.Signature, n: int)
    ensures |Mace4Lines(sig, n)| == 8 + 3 * |sig.axioms|
    ensures Mace4Lines(sig, n)[3] == "assign(domain_size, " + Text.IntToString(n) + ")."
    ensures Mace4Lines(sig, n)[5] == "formulas(assumptions)."
    ensures Mace4Lines(sig, n)[|Mace4Lines(sig, n)| - 1] == "end_of_list."
    ensures Mace4Lines(sig, n)[7..7 + 3 * |sig.axioms|] == AxiomBlocks(sig.axioms)
  {
    AxiomBlocksAt(sig.axioms);
    assert Mace4Lines(sig, n)[7..7 + 3 * |sig.axioms|] == AxiomBlocks(sig.axioms);
  }

  /** The domain size appears only on the second line and the `assign` line;
      every other line, and so every formula, is the same for all sizes. */
  lemma Mace4SizeIndependent(sig: Signatures.Signature, n: int, m: int)
    ensures |Mace4Lines(sig, n)| == |Mace4Lines(sig, m)|
    ensures forall k :: 0 <= k < |Mace4Lines(sig, n)| && k != 1 && k != 3 ==> Mace4Lines(sig, n)[k] == Mace4Lines(sig, m)[k]
  {
  }

  // ---- Reading the lines back ----

  /** No name anywhere in the signature's axioms, no description and not the
      signature's name holds `c`. */
  predicate SignatureAvoids(sig: Signatures.Signature, c: char) {
    c !in sig.name &&
    forall i :: 0 <= i < |sig.axioms| ==>
      c !in sig.axioms[i].description && NamesAvoid(sig.axioms[i].equation.lhs, c) && NamesAvoid(sig.axioms[i].equation.rhs, c)
  }

  /** None of the lines holds a newline. */
  predicate OneLineEach(lines: seq<string>) {
    forall k :: 0 <= k < |lines| ==> '\n' !in lines[k]
  }

  lemma {:induction false} OneLineEachConcat(a: seq<string>, b: seq<string>)
    requires OneLineEach(a) && OneLineEach(b)
    ensures OneLineEach(a + b)
  {
    forall k | 0 <= k < |a + b| ensures '\n' !in (a + b)[k] {
      if k >= |a| {
        assert (a + b)[k] == b[k - |a|];
      }
    }
  }

  /** Kind names are upper-case words joined by underscores. */
  lemma KindNameOneLine(k: Signatures.AxiomKind)
    ensures '\n' !in Signatures.KindName(k)
  {
    match k
    case Associativity | Commutativity | Identity | Inverse | Distributivity | Anticommutativity | Idempotence | Nilpotence | Jacobi =>
      KindNameOneLineFirst(k);
    case Positivity | Bilinearity | Homomorphism | Functoriality | Absorption | Modularity | SelfDistributivity | RightSelfDistributivity | Custom =>
      KindNameOneLineSecond(k);
  }

  lemma KindNameOneLineFirst(k: Signatures.AxiomKind)
    requires k.Associativity? || k.Commutativity? || k.Identity? || k.Inverse? || k.Distributivity? || k.Anticommutativity? || k.Idempotence? || k.Nilpotence? || k.Jacobi?
    ensures '\n' !in Signatures.KindName(k)
  {
  }

  lemma KindNameOneLineSecond(k: Signatures.AxiomKind)
    requires k.Positivity? || k.Bilinearity? || k.Homomorphism? || k.Functoriality? || k.Absorption? || k.Modularity? || k.SelfDistributivity? || k.RightSelfDistributivity? || k.Custom?
    ensures '\n' !in Signatures.KindName(k)
  {
  }

  lemma HeaderOneLine(sig: Signatures.Signature, n: int)
    requires '\n' !in sig.name
    ensures OneLineEach(Mace4Header(sig, n))
  {
    assert '\n' !in Text.IntToString(n);
  }

  lemma BlockOneLine(ax: Signatures.Axiom)
    requires '\n' !in ax.description && NamesAvoid(ax.equation.lhs, '\n') && NamesAvoid(ax.equation.rhs, '\n')
    ensures OneLineEach(AxiomBlock(ax))
  {
    KindNameOneLine(ax.kind);
    TermAvoids(ax.equation.lhs, '\n');
    TermAvoids(ax.equation.rhs, '\n');
  }

  lemma {:induction false} BlocksOneLine(axioms: seq<Signatures.Axiom>)
    requires forall i :: 0 <= i < |axioms| ==>
      '\n' !in axioms[i].description && NamesAvoid(axioms[i].equation.lhs, '\n') && NamesAvoid(axioms[i].equation.rhs, '\n')
    ensures OneLineEach(AxiomBlocks(axioms))
  {
    if axioms != [] {
      var m := |axioms| - 1;
      var init := axioms[..m];
      assert forall i :: 0 <= i < m ==> init[i] == axioms[i];
      BlocksOneLine(init);
      BlockOneLine(axioms[m]);
      OneLineEachConcat(AxiomBlocks(init), AxiomBlock(axioms[m]));
    }
  }

  /** When no name or description holds a newline, splitting the text of
      `to_mace4` at newlines gives back exactly its lines. */
  lemma Mace4LinesRecovered(sig: Signatures.Signature, n: int)
    requires SignatureAvoids(sig, '\n')
    ensures Text.Split(Mace4Text(sig, n), '\n') == Mace4Lines(sig, n)
  {
    HeaderOneLine(sig, n);
    BlocksOneLine(sig.axioms);
    var end: seq<string> := ["end_of_list."];
    assert OneLineEach(end);
    OneLineEachConcat(Mace4Header(sig, n), AxiomBlocks(sig.axioms));
    OneLineEachConcat(Mace4Header(sig, n) + AxiomBlocks(sig.axioms), end);
    assert "\n" == ['\n'];
    Text.SplitJoin(Mace4Lines(sig, n), '\n');
  }

  // ---- to_prover9 ----

  function AssumptionLine(ax: Signatures.Axiom): seq<string> {
    match EquationToMace4(ax.equation)
    case None => []
    case Some(fol) => ["  " + fol + "."]
  }

  function AssumptionLines(axioms: seq<Signatures.Axiom>): seq<string> {
    if axioms == [] then []
    else AssumptionLines(axioms[..|axioms| - 1]) + AssumptionLine(axioms[|axioms| - 1])
  }

  function GoalLines(conjecture: Equation): seq<string> {
    match EquationToMace4(conjecture)
    case None => []
    case Some(goal) => ["  " + goal + "."]
  }

  function Prover9Head(sig: Signatures.Signature): seq<string> {
    ["% Signature: " + sig.name, "", "formulas(assumptions).", ""]
  }

  /** The end of the assumptions and the goals section. */
  function Prover9Goals(conjecture: Equation): seq<string> {
    ["", "end_of_list.", "", "formulas(goals).", ""] + GoalLines(conjecture) + ["", "end_of_list."]
  }

  /** The lines of `to_prover9`, before joining. */
  function Prover9Lines(sig: Signatures.Signature, conjecture: Equation): seq<string> {
    Prover9Head(sig) + AssumptionLines(sig.axioms) + Prover9Goals(conjecture)
  }

  /** The assumption loop of `to_prover9` (lines 54-57). */
  method AppendAssumptions(start: seq<string>, axioms: seq<Signatures.Axiom>) returns (lines: seq<string>)
    ensures lines == start + AssumptionLines(axioms)
  {
    lines := start;
    var k := 0;
    while k < |axioms|
      invariant 0 <= k <= |axioms|
      invariant lines == start + AssumptionLines(axioms[..k])
    {
      var fol := EquationToMace4(axioms[k].equation);
      if fol.Some? {
        lines := lines + ["  " + fol.value + "."];
      }
      assert axioms[..k + 1][..k] == axioms[..k];
      k := k + 1;
    }
    assert axioms[..k] == axioms;
  }

  /** `to_prover9` (lines 45-71). */
  method ToProver9(sig: Signatures.Signature, conjecture: Equation) returns (text: string)
    ensures text == Text.Join("\n", Prover9Lines(sig, conjecture))
  {
    var lines := AppendAssumptions(Prover9Head(sig), sig.axioms);
    ghost var body := lines;
    lines := lines + ["", "end_of_list.", "", "formulas(goals).", ""];
    var goal := EquationToMace4(conjecture);
    if goal.Some? {
      lines := lines + ["  " + goal.value + "."];
    }
    lines := lines + ["", "end_of_list."];
    assert lines == body + Prover9Goals(conjecture);
    text := Text.Join("\n", lines);
  }

  /** `signature_to_prover9_input` and the string `to_prover9` returns. */
  function Prover9Text(sig: Signatures.Signature, conjecture: Equation): string {
    Text.Join("\n", Prover9Lines(sig, conjecture))
  }

  /** One assumption line per axiom, in order. */
  lemma {:induction false} AssumptionLinesAt(axioms: seq<Signatures.Axiom>)
    ensures |AssumptionLines(axioms)| == |axioms|
    ensures forall i :: 0 <= i < |axioms| ==> AssumptionLines(axioms)[i] == "  " + Formula(axioms[i].equation) + "."
  {
    if axioms != [] {
      var init := axioms[..|axioms| - 1];
      AssumptionLinesAt(init);
      var last := axioms[|axioms| - 1];
      assert AssumptionLine(last) == ["  " + Formula(last.equation) + "."];
      forall i | 0 <= i < |init| ensures init[i] == axioms[i] {
      }
    }
  }

  /** After the assumptions come exactly the closing of that section and the
      goals section, whose only formula is the conjecture. */
  lemma GoalsAt(conjecture: Equation)
    ensures Prover9Goals(conjecture) ==
      ["", "end_of_list.", "", "formulas(goals).", "", "  " + Formula(conjecture) + ".", "", "end_of_list."]
  {
  }

  /** The assumptions section holds one formula per axiom, in order; it is
      followed by the goals section. */
  lemma Prover9Layout(sig: Signatures.Signature, conjecture: Equation)
    ensures |Prover9Lines(sig, conjecture)| == |sig.axioms| + 12
    ensures Prover9Lines(sig, conjecture)[2] == "formulas(assumptions)."
    ensures forall i :: 0 <= i < |sig.axioms| ==>
      Prover9Lines(sig, conjecture)[4 + i] == "  " + Formula(sig.axioms[i].equation) + "."
    ensures Prover9Lines(sig, conjecture)[4 + |sig.axioms|..] == Prover9Goals(conjecture)
  {
    AssumptionLinesAt(sig.axioms);
    GoalsAt(conjecture);
    var lines := Prover9Lines(sig, conjecture);
    var a := |sig.axioms|;
    assert lines[4..4 + a] == AssumptionLines(sig.axioms);
    forall i | 0 <= i < a ensures lines[4 + i] == "  " + Formula(sig.axioms[i].equation) + "." {
      assert lines[4 + i] == lines[4..4 + a][i];
    }
  }
}
