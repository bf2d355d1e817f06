/** Reading printed expressions and equations back into syntax trees: the
    inverse of `Ast.Repr`. Binary applications are written `(a op b)`, other
    applications `op(a, ...)`, and a bare name is a constant exactly when it is
    among the given constant names. */
module Parser {
  import opened Wrappers
  import opened Ast
  import Text

  predicate IdentChar(c: char) {
    ('a' <= c <= 'z') || ('A' <= c <= 'Z') || ('0' <= c <= '9') || c == '_'
  }

  predicate IsIdent(n: string) {
    |n| > 0 && forall i :: 0 <= i < |n| ==> IdentChar(n[i])
  }

  /** Splits off the longest prefix of identifier characters. */
  function TakeIdent(s: string): (r: (string, string))
    ensures r.0 + r.1 == s
    ensures forall i :: 0 <= i < |r.0| ==> IdentChar(r.0[i])
    ensures r.1 == [] || !IdentChar(r.1[0])
  {
    if s != [] && IdentChar(s[0]) then
      var t := TakeIdent(s[1..]);
      ([s[0]] + t.0, t.1)
    else
      ([], s)
  }

  /** An identifier followed by a non-identifier character is split off whole. */
  lemma {:induction false} TakeIdentOf(n: string, rest: string)
    requires forall i :: 0 <= i < |n| ==> IdentChar(n[i])
    requires rest == [] || !IdentChar(rest[0])
    ensures TakeIdent(n + rest) == (n, rest)
  {
    var s := n + rest;
    if n != [] {
      assert s[0] == n[0] && IdentChar(n[0]);
      assert s[1..] == n[1..] + rest;
      TakeIdentOf(n[1..], rest);
      var t := TakeIdent(s[1..]);
      assert t == (n[1..], rest);
      assert TakeIdent(s) == ([s[0]] + t.0, t.1);
      assert [n[0]] + n[1..] == n;
    } else {
      assert s == rest;
    }
  }

  /** `parse_expr(text, constants)`: one expression at the front of `s`, and
      the text after it. */
  function ParseExpr(s: string, consts: set<string>): (r: Option<(Expr, string)>)
    ensures r.Some? ==> |r.value.1| < |s|
    decreases |s|, 2
  {
    if s == [] then None
    else if s[0] == '(' then ParseInfix(s[1..], consts)
    else ParseNamed(s, consts)
  }

  /** The part of `(a op b)` after the opening parenthesis. */
  function ParseInfix(s: string, consts: set<string>): (r: Option<(Expr, string)>)
    ensures r.Some? ==> |r.value.1| < |s|
    decreases |s|, 3
  {
    var pa := ParseExpr(s, consts);
    if pa.None? then None
    else
      var r1 := pa.value.1;
      if !(|r1| > 0 && r1[0] == ' ') then None
      else
        var t := TakeIdent(r1[1..]);
        var op, r2 := t.0, t.1;
        if op == [] || !(|r2| > 0 && r2[0] == ' ') then None
        else
          var pb := ParseExpr(r2[1..], consts);
          if pb.None? then None
          else
            var r3 := pb.value.1;
            if |r3| > 0 && r3[0] == ')' then Some((App(op, [pa.value.0, pb.value.0]), r3[1..]))
            else None
  }

  /** A name, either alone (a variable or a constant) or applied as `op(...)`. */
  function ParseNamed(s: string, consts: set<string>): (r: Option<(Expr, string)>)
    ensures r.Some? ==> |r.value.1| < |s|
    decreases |s|, 1
  {
    var t := TakeIdent(s);
    var n, r := t.0, t.1;
    if n == [] then None
    else if |r| > 0 && r[0] == '(' then
      if |r| > 1 && r[1] == ')' then Some((App(n, []), r[2..]))
      else
        var pargs := ParseArgs(r[1..], consts);
        if pargs.None? then None
        else Some((App(n, pargs.value.0), pargs.value.1))
    else if n in consts then Some((Const(n), r))
    else Some((Var(n), r))
  }

  /** A non-empty argument list `a, b, ...)` up to and including the closing parenthesis. */
  function ParseArgs(s: string, consts: set<string>): (r: Option<(seq<Expr>, string)>)
    ensures r.Some? ==> |r.value.1| < |s|
    decreases |s|, 3
  {
    var pa := ParseExpr(s, consts);
    if pa.None? then None
    else
      var r1 := pa.value.1;
      if |r1| > 1 && r1[0] == ',' && r1[1] == ' ' then
        var prest := ParseArgs(r1[2..], consts);
        if prest.None? then None
        else Some(([pa.value.0] + prest.value.0, prest.value.1))
      else if |r1| > 0 && r1[0] == ')' then Some(([pa.value.0], r1[1..]))
      else None
  }

  /** `parse_equation(text, constants)`: `lhs = rhs` with nothing after it. */
  function ParseEquation(s: string, consts: set<string>): Option<Equation> {
    var pl := ParseExpr(s, consts);
    if pl.None? || !Text.StartsWith(pl.value.1, " = ") then None
    else
      var pr := ParseExpr(pl.value.1[3..], consts);
      if pr.None? || pr.value.1 != [] then None
      else Some(Equation(pl.value.0, pr.value.0))
  }

  /** Expressions the printer and the parser agree on: every name is an
      identifier, variables are not constant names and constants are. */
  predicate WellFormed(e: Expr, consts: set<string>)
    decreases e
  {
    match e
    case Var(n) => IsIdent(n) && n !in consts
    case Const(n) => IsIdent(n) && n in consts
    case App(op, args) => IsIdent(op) && forall i :: 0 <= i < |args| ==> WellFormed(args[i], consts)
  }

  predicate EquationWellFormed(eq: Equation, consts: set<string>) {
    WellFormed(eq.lhs, consts) && WellFormed(eq.rhs, consts)
  }

  /** Characters that may follow a printed expression inside a larger text. */
  predicate Stop(rest: string) {
    rest == [] || rest[0] == ' ' || rest[0] == ')' || rest[0] == ','
  }

  lemma {:induction false} ReprStart(e: Expr, consts: set<string>)
    requires WellFormed(e, consts)
    ensures |Repr(e)| > 0 && (Repr(e)[0] == '(' || IdentChar(Repr(e)[0]))
  {
    match e
    case Var(n) =>
    case Const(n) =>
    case App(op, args) =>
      if |args| != 2 {
        assert Repr(e) == op + ("(" + (if |args| == 1 then Repr(args[0]) else ReprList(args)) + ")");
        assert Repr(e)[0] == op[0];
      }
  }

  /** Printing and then parsing gives back the expression and leaves the rest
      of the text untouched. */
  lemma {:induction false} ParseRepr(e: Expr, rest: string, consts: set<string>)
    requires WellFormed(e, consts) && Stop(rest)
    ensures ParseExpr(Repr(e) + rest, consts) == Some((e, rest))
    decreases e, 1
  {
    match e
    case Var(n) =>
      TakeIdentOf(n, rest);
    case Const(n) =>
      TakeIdentOf(n, rest);
    case App(op, args) =>
      if |args| == 2 {
        assert WellFormed(args[0], consts) && WellFormed(args[1], consts);
        ParseReprInfix(e, op, args[0], args[1], rest, consts);
      } else {
        ParseReprCall(e, rest, consts);
      }
  }

  lemma {:induction false} ParseReprInfix(e: Expr, op: string, a: Expr, b: Expr, rest: string, consts: set<string>)
    requires e == App(op, [a, b])
    requires IsIdent(op) && WellFormed(a, consts) && WellFormed(b, consts) && Stop(rest)
    ensures ParseExpr(Repr(e) + rest, consts) == Some((e, rest))
    decreases e, 0
  {
    assert e.args[0] == a && e.args[1] == b;
    var close := ")" + rest;
    var tail := " " + (Repr(b) + close);
    var rest1 := " " + (op + tail);
    ParseRepr(a, rest1, consts);
    ParseRepr(b, close, consts);
    Unprefix(' ', op + tail);
    Unprefix(' ', Repr(b) + close);
    Unprefix(')', rest);
    TakeIdentOf(op, tail);
    ParseInfixSteps(Repr(a) + rest1, a, op, b, rest1, tail, close, consts);
    InfixText(e, op, a, b, rest);
    ParseOpen(Repr(a) + rest1, consts);
  }

  /** Dropping the first character of `[c] + s` leaves `s`. */
  lemma Unprefix(c: char, s: string)
    ensures ([c] + s)[0] == c && ([c] + s)[1..] == s
  {
  }

  /** The text of a binary application, regrouped around its left operand. */
  lemma InfixText(e: Expr, op: string, a: Expr, b: Expr, rest: string)
    requires e == App(op, [a, b])
    ensures Repr(e) + rest == "(" + (Repr(a) + (" " + (op + (" " + (Repr(b) + (")" + rest))))))
  {
    assert e.args[0] == a && e.args[1] == b;
    assert Repr(e) == "(" + Repr(a) + " " + op + " " + Repr(b) + ")";
    Regroup("(", Repr(a), " ", op, " ", Repr(b), ")", rest);
  }

  lemma Regroup<T>(p: seq<T>, x: seq<T>, q: seq<T>, o: seq<T>, r: seq<T>, y: seq<T>, t: seq<T>, u: seq<T>)
    ensures p + x + q + o + r + y + t + u == p + (x + (q + (o + (r + (y + (t + u))))))
  {
  }

  /** Text opening with a parenthesis is read as an infix application. */
  lemma ParseOpen(s: string, consts: set<string>)
    ensures ParseExpr("(" + s, consts) == ParseInfix(s, consts)
  {
    assert ("(" + s)[1..] == s;
  }

  /** One pass through `ParseInfix`, given what each of its steps reads. */
  lemma ParseInfixSteps(u: string, a: Expr, op: string, b: Expr, r1: string, r2: string, r3: string,
                        consts: set<string>)
    requires ParseExpr(u, consts) == Some((a, r1))
    requires |r1| > 0 && r1[0] == ' ' && TakeIdent(r1[1..]) == (op, r2) && op != []
    requires |r2| > 0 && r2[0] == ' ' && ParseExpr(r2[1..], consts) == Some((b, r3))
    requires |r3| > 0 && r3[0] == ')'
    ensures ParseInfix(u, consts) == Some((App(op, [a, b]), r3[1..]))
  {
  }

  lemma {:induction false} ParseReprCall(e: Expr, rest: string, consts: set<string>)
    requires e.App? && |e.args| != 2
    requires WellFormed(e, consts) && Stop(rest)
    ensures ParseExpr(Repr(e) + rest, consts) == Some((e, rest))
    decreases e, 0
  {
    var op, args := e.opName, e.args;
    var tail := "(" + (ReprList(args) + ")" + rest);
    ReprCallText(e, rest);
    TakeIdentOf(op, tail);
    assert ParseExpr(op + tail, consts) == ParseNamed(op + tail, consts) by {
      assert (op + tail)[0] == op[0];
    }
    if |args| == 0 {
      assert tail[2..] == rest;
      assert args == [];
    } else {
      ParseCallArgs(args, rest, consts);
    }
  }

  /** The text of a call whose argument count is not two. */
  lemma ReprCallText(e: Expr, rest: string)
    requires e.App? && |e.args| != 2
    ensures Repr(e) + rest == e.opName + ("(" + (ReprList(e.args) + ")" + rest))
  {
    assert |e.args| == 1 ==> ReprList(e.args) == Repr(e.args[0]);
  }

  /** The argument list of a call with at least one argument parses back. */
  lemma ParseCallArgs(args: seq<Expr>, rest: string, consts: set<string>)
    requires |args| >= 1 && Stop(rest)
    requires forall i :: 0 <= i < |args| ==> WellFormed(args[i], consts)
    ensures var tail := "(" + (ReprList(args) + ")" + rest);
      tail[1] != ')' && ParseArgs(tail[1..], consts) == Some((args, rest))
    decreases args, 1
  {
    var body := ReprList(args) + ")" + rest;
    assert ("(" + body)[1..] == body;
    ReprStart(args[0], consts);
    assert ReprList(args)[0] == Repr(args[0])[0];
    ParseArgsRepr(args, rest, consts);
  }

  lemma {:induction false} ParseArgsRepr(es: seq<Expr>, rest: string, consts: set<string>)
    requires |es| >= 1
    requires forall i :: 0 <= i < |es| ==> WellFormed(es[i], consts)
    ensures ParseArgs(ReprList(es) + ")" + rest, consts) == Some((es, rest))
    decreases es, 0
  {
    var s := ReprList(es) + ")" + rest;
    if |es| == 1 {
      assert s == Repr(es[0]) + (")" + rest);
      ParseRepr(es[0], ")" + rest, consts);
      assert (")" + rest)[1..] == rest;
      assert [es[0]] == es;
    } else {
      var rest1 := ", " + ReprList(es[1..]) + ")" + rest;
      assert s == Repr(es[0]) + rest1;
      ParseRepr(es[0], rest1, consts);
      assert rest1[2..] == ReprList(es[1..]) + ")" + rest;
      ParseArgsRepr(es[1..], rest, consts);
      assert [es[0]] + es[1..] == es;
    }
  }

  /** `parse_equation(repr(eq), constants)` gives back `eq`. */
  lemma ParseEquationRepr(eq: Equation, consts: set<string>)
    requires EquationWellFormed(eq, consts)
    ensures ParseEquation(EquationRepr(eq), consts) == Some(eq)
  {
    var tail := " = " + Repr(eq.rhs);
    assert EquationRepr(eq) == Repr(eq.lhs) + tail;
    ParseRepr(eq.lhs, tail, consts);
    assert tail[3..] == Repr(eq.rhs) + [];
    ParseRepr(eq.rhs, [], consts);
  }

  /** Because the printer drops the variable/constant distinction, text printed
      from an expression whose constants are not all in `consts` reads back as a
      different expression. */
  lemma ConstantReadBackAsVariable()
    ensures ParseEquation(EquationRepr(Equation(App("mul", [Var("x"), Const("e")]), Var("x"))), {})
         == Some(Equation(App("mul", [Var("x"), Var("e")]), Var("x")))
  {
    var eq := Equation(App("mul", [Var("x"), Var("e")]), Var("x"));
    assert EquationRepr(Equation(App("mul", [Var("x"), Const("e")]), Var("x"))) == EquationRepr(eq);
    assert WellFormed(Var("x"), {}) && IsIdent("mul") && WellFormed(Var("e"), {});
    ParseEquationRepr(eq, {});
  }
}
