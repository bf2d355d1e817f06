/** Expressions and equations of an algebraic signature: variables, constant
    symbols and operation applications, with their size, free variables,
    substitution and printed form (`__repr__`). */
module Ast {
  import Text

  datatype Expr =
    | Var(name: string)
    | Const(name: string)
    | App(opName: string, args: seq<Expr>)

  datatype Equation = Equation(lhs: Expr, rhs: Expr)

  /** Number of nodes: every leaf counts one, an application one plus its arguments. */
  function Size(e: Expr): (r: nat)
    ensures r >= 1
    decreases e
  {
    match e
    case Var(_) => 1
    case Const(_) => 1
    case App(_, args) => 1 + SizeList(args)
  }

  function SizeList(es: seq<Expr>): nat
    decreases es
  {
    if es == [] then 0 else Size(es[0]) + SizeList(es[1..])
  }

  /** Every argument of an application is strictly smaller than the application. */
  lemma {:induction false} ArgSmallerThanApp(op: string, args: seq<Expr>, a: Expr)
    requires a in args
    ensures Size(a) < Size(App(op, args))
  {
    ArgWithinSizeList(args, a);
  }

  lemma {:induction false} ArgWithinSizeList(es: seq<Expr>, a: Expr)
    requires a in es
    ensures Size(a) <= SizeList(es)
  {
    if es[0] != a {
      ArgWithinSizeList(es[1..], a);
    }
  }

  /** The variables occurring in an expression; constants contribute none. */
  function Variables(e: Expr): set<string>
    decreases e
  {
    match e
    case Var(n) => {n}
    case Const(_) => {}
    case App(_, args) => VariablesList(args)
  }

  function VariablesList(es: seq<Expr>): set<string>
    decreases es
  {
    if es == [] then {} else Variables(es[0]) + VariablesList(es[1..])
  }

  /** A name is a variable of an application exactly when it is a variable of
      one of its arguments. */
  lemma {:induction false} VariablesOfApp(op: string, args: seq<Expr>, v: string)
    ensures v in Variables(App(op, args)) <==> exists a :: a in args && v in Variables(a)
  {
    VariablesListMember(args, v);
  }

  lemma {:induction false} VariablesListMember(es: seq<Expr>, v: string)
    ensures v in VariablesList(es) <==> exists a :: a in es && v in Variables(a)
    decreases es
  {
    if es != [] {
      VariablesListMember(es[1..], v);
      if v in VariablesList(es[1..]) {
        var a :| a in es[1..] && v in Variables(a);
        assert a in es;
      }
      if exists a :: a in es && v in Variables(a) {
        var a :| a in es && v in Variables(a);
        if a != es[0] {
          assert a in es[1..];
        }
      }
    }
  }

  /** `mapping.get(name, self)` on variables, recursively through applications. */
  function Substitute(e: Expr, m: map<string, Expr>): Expr
    decreases e
  {
    match e
    case Var(n) => if n in m then m[n] else e
    case Const(_) => e
    case App(op, args) => App(op, SubstituteList(args, m))
  }

  function SubstituteList(es: seq<Expr>, m: map<string, Expr>): (r: seq<Expr>)
    ensures |r| == |es|
    decreases es
  {
    if es == [] then [] else [Substitute(es[0], m)] + SubstituteList(es[1..], m)
  }

  /** A mapping that mentions none of an expression's variables leaves it unchanged;
      in particular the empty mapping is the identity. */
  lemma {:induction false} SubstituteUnmentioned(e: Expr, m: map<string, Expr>)
    requires forall v :: v in Variables(e) ==> v !in m
    ensures Substitute(e, m) == e
    decreases e
  {
    match e
    case Var(_) =>
    case Const(_) =>
    case App(op, args) => SubstituteListUnmentioned(args, m);
  }

  lemma {:induction false} SubstituteListUnmentioned(es: seq<Expr>, m: map<string, Expr>)
    requires forall v :: v in VariablesList(es) ==> v !in m
    ensures SubstituteList(es, m) == es
    decreases es
  {
    if es != [] {
      SubstituteUnmentioned(es[0], m);
      SubstituteListUnmentioned(es[1..], m);
      assert es == [es[0]] + es[1..];
    }
  }

  /** Variables contributed by the images of the substituted variables. */
  ghost function ImageVariables(vs: set<string>, m: map<string, Expr>): set<string> {
    set v, w | v in vs && v in m && w in Variables(m[v]) :: w
  }

  /** After substitution the variables are the unmapped originals plus the
      variables of the images of the mapped ones. */
  lemma {:induction false} SubstituteVariables(e: Expr, m: map<string, Expr>)
    ensures Variables(Substitute(e, m)) == (Variables(e) - m.Keys) + ImageVariables(Variables(e), m)
    decreases e
  {
    match e
    case Var(n) =>
      if n in m {
        assert ImageVariables({n}, m) == Variables(m[n]);
      } else {
        assert ImageVariables({n}, m) == {};
      }
    case Const(_) =>
      assert ImageVariables({}, m) == {};
    case App(op, args) => SubstituteListVariables(args, m);
  }

  lemma {:induction false} SubstituteListVariables(es: seq<Expr>, m: map<string, Expr>)
    ensures VariablesList(SubstituteList(es, m))
         == (VariablesList(es) - m.Keys) + ImageVariables(VariablesList(es), m)
    decreases es
  {
    if es == [] {
      assert ImageVariables({}, m) == {};
    } else {
      SubstituteVariables(es[0], m);
      SubstituteListVariables(es[1..], m);
      var a, b := Variables(es[0]), VariablesList(es[1..]);
      assert SubstituteList(es, m)[0] == Substitute(es[0], m);
      assert SubstituteList(es, m)[1..] == SubstituteList(es[1..], m);
      assert ImageVariables(a + b, m) == ImageVariables(a, m) + ImageVariables(b, m);
    }
  }

  /** Renaming variables to variables keeps the size of an expression. */
  lemma {:induction false} RenamingKeepsSize(e: Expr, m: map<string, Expr>)
    requires forall v :: v in m ==> m[v].Var?
    ensures Size(Substitute(e, m)) == Size(e)
    decreases e
  {
    match e
    case Var(_) =>
    case Const(_) =>
    case App(op, args) => RenamingKeepsSizeList(args, m);
  }

  lemma {:induction false} RenamingKeepsSizeList(es: seq<Expr>, m: map<string, Expr>)
    requires forall v :: v in m ==> m[v].Var?
    ensures SizeList(SubstituteList(es, m)) == SizeList(es)
    decreases es
  {
    if es != [] {
      RenamingKeepsSize(es[0], m);
      RenamingKeepsSizeList(es[1..], m);
      assert SubstituteList(es, m)[1..] == SubstituteList(es[1..], m);
    }
  }

  /** `__repr__`: a binary application prints infix in parentheses, a unary one
      as `op(a)`, any other arity as `op(a, b, ...)`; leaves print their name. */
  function Repr(e: Expr): string
    decreases e
  {
    match e
    case Var(n) => n
    case Const(n) => n
    case App(op, args) =>
      if |args| == 2 then "(" + Repr(args[0]) + " " + op + " " + Repr(args[1]) + ")"
      else if |args| == 1 then op + "(" + Repr(args[0]) + ")"
      else op + "(" + ReprList(args) + ")"
  }

  /** `", ".join(repr(a) for a in args)`. */
  function ReprList(es: seq<Expr>): string
    decreases es
  {
    if es == [] then ""
    else if |es| == 1 then Repr(es[0])
    else Repr(es[0]) + ", " + ReprList(es[1..])
  }

  /** The printed form does not tell a variable from a constant of the same name;
      reading text back therefore needs the set of constant names. */
  lemma ReprForgetsConstness(n: string)
    ensures Var(n) != Const(n) && Repr(Var(n)) == Repr(Const(n))
  {
  }

  function EquationVariables(eq: Equation): set<string> {
    Variables(eq.lhs) + Variables(eq.rhs)
  }

  function EquationSize(eq: Equation): (r: nat)
    ensures r >= 2
  {
    Size(eq.lhs) + Size(eq.rhs)
  }

  function EquationRepr(eq: Equation): string {
    Repr(eq.lhs) + " = " + Repr(eq.rhs)
  }

  /** The operation names applied anywhere in an expression. */
  function OpNames(e: Expr): set<string>
    decreases e
  {
    match e
    case Var(_) => {}
    case Const(_) => {}
    case App(op, args) => {op} + OpNamesList(args)
  }

  function OpNamesList(es: seq<Expr>): set<string>
    decreases es
  {
    if es == [] then {} else OpNames(es[0]) + OpNamesList(es[1..])
  }

  /** The names used as constant symbols in an expression. */
  function ConstNames(e: Expr): set<string>
    decreases e
  {
    match e
    case Var(_) => {}
    case Const(n) => {n}
    case App(_, args) => ConstNamesList(args)
  }

  function ConstNamesList(es: seq<Expr>): set<string>
    decreases es
  {
    if es == [] then {} else ConstNames(es[0]) + ConstNamesList(es[1..])
  }
}
