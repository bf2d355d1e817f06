/** The Z3 encoding of a signature over the finite domain `{0, …, n-1}`: the
    integer constants that stand for the operation tables, the If-Then-Else
    chains that look a table up at a symbolic index, the evaluator that turns
    an expression into a Z3 term under an assignment of domain elements to
    variables, and the complete instantiation of an axiom over every
    assignment. Z3 terms are a datatype here; a Z3 model is a function giving
    every named integer constant its value. */
module Z3Encode {
  import opened Wrappers
  import opened Ast
  import Text
  import Sorting
  import Signatures
  import Grids

  // ---- Z3 terms ----

  /** A Z3 integer term: a named constant `z3.Int(name)`, or
      `z3.If(idx == i, thenT, elseT)`. */
  datatype Term = Cell(name: string) | Ite(idx: Term, i: int, thenT: Term, elseT: Term)

  /** What `_eval_expr` returns when it returns something: a Python `int` (the
      domain element bound to a variable) or a Z3 term. */
  datatype Value = IntV(k: int) | TermV(t: Term)

  /** The integer a term denotes in a model `asg`. */
  function Eval(t: Term, asg: string -> int): int {
    match t
    case Cell(x) => asg(x)
    case Ite(idx, i, a, b) => if Eval(idx, asg) == i then Eval(a, asg) else Eval(b, asg)
  }

  function ValueOf(v: Value, asg: string -> int): int {
    match v
    case IntV(k) => k
    case TermV(t) => Eval(t, asg)
  }

  // ---- If-Then-Else table lookups ----

  /** The entry an `n`-entry chain selects for index value `k`: entry `k` when
      `k` is below `n - 1`, the last entry for every other value. */
  function Sel(k: int, n: int): int {
    if 0 <= k < n - 1 then k else n - 1
  }

  /** The chain over `entries[i..]`:
      `If(idx == i, entries[i], If(idx == i + 1, …, entries[|entries| - 1]))`. */
  function Chain(entries: seq<Term>, idx: Term, i: nat): Term
    requires i < |entries|
    decreases |entries| - i
  {
    if i == |entries| - 1 then entries[i] else Ite(idx, i, entries[i], Chain(entries, idx, i + 1))
  }

  /** A chain from `i` on denotes the entry its index selects. */
  lemma {:induction false} ChainEval(entries: seq<Term>, idx: Term, i: nat, asg: string -> int)
    requires i < |entries|
    ensures var k := Eval(idx, asg);
      Eval(Chain(entries, idx, i), asg) == Eval(entries[if i <= k < |entries| - 1 then k else |entries| - 1], asg)
    decreases |entries| - i
  {
    if i < |entries| - 1 {
      ChainEval(entries, idx, i + 1, asg);
    }
  }

  /** The loop of `_z3_lookup_1d` and `_z3_lookup_2d`: start from the last
      entry, then wrap `If(idx == i, entries[i], result)` around the result for
      `i` from `n - 2` down to `0`. */
  method BuildChain(entries: seq<Term>, idx: Term) returns (result: Term)
    requires |entries| >= 1
    ensures result == Chain(entries, idx, 0)
  {
    var n := |entries|;
    result := entries[n - 1];
    var i := n - 2;
    while i >= 0
      invariant -1 <= i <= n - 2
      invariant result == Chain(entries, idx, i + 1)
    {
      result := Ite(idx, i, entries[i], result);
      i := i - 1;
    }
  }

  /** What a lookup needs of an index: a concrete index is a domain element. */
  predicate IndexOk(idx: Value, n: int) {
    idx.IntV? ==> 0 <= idx.k < n
  }

  /** `_z3_lookup_1d(table, idx, n)`: a concrete index reads the entry, a
      symbolic one builds the chain over the first `n` entries. */
  function Lookup1D(table: seq<Term>, idx: Value, n: int): Term
    requires 1 <= n <= |table| && IndexOk(idx, n)
  {
    match idx
    case IntV(k) => table[k]
    case TermV(t) => Chain(table[..n], t, 0)
  }

  /** The lookup denotes the entry its index selects in every model. */
  lemma Lookup1DSelects(table: seq<Term>, idx: Value, n: int, asg: string -> int)
    requires 1 <= n <= |table| && IndexOk(idx, n)
    ensures Eval(Lookup1D(table, idx, n), asg) == Eval(table[Sel(ValueOf(idx, asg), n)], asg)
  {
    if idx.TermV? {
      ChainEval(table[..n], idx.t, 0, asg);
    }
  }

  method BuildLookup1D(table: seq<Term>, idx: Value, n: int) returns (r: Term)
    requires 1 <= n <= |table| && IndexOk(idx, n)
    ensures r == Lookup1D(table, idx, n)
  {
    if idx.IntV? {
      return table[idx.k];
    }
    r := BuildChain(table[..n], idx.t);
  }

  /** The first `n` rows of `table` each have at least `n` entries. */
  predicate SquareFrom(table: seq<seq<Term>>, n: int) {
    1 <= n <= |table| && forall i :: 0 <= i < n ==> n <= |table[i]|
  }

  /** `row_results[:k]` of `_z3_lookup_2d`: each row looked up at the column. */
  function RowLookups(table: seq<seq<Term>>, col: Value, n: int, k: nat): (r: seq<Term>)
    requires SquareFrom(table, n) && IndexOk(col, n) && k <= n
    ensures |r| == k && forall i :: 0 <= i < k ==> r[i] == Lookup1D(table[i], col, n)
  {
    if k == 0 then [] else RowLookups(table, col, n, k - 1) + [Lookup1D(table[k - 1], col, n)]
  }

  /** `_z3_lookup_2d(table, row, col, n)`. */
  function Lookup2D(table: seq<seq<Term>>, row: Value, col: Value, n: int): Term
    requires SquareFrom(table, n) && IndexOk(row, n) && IndexOk(col, n)
  {
    if row.IntV? && col.IntV? then table[row.k][col.k]
    else if row.IntV? then Lookup1D(table[row.k], col, n)
    else Chain(RowLookups(table, col, n, n), row.t, 0)
  }

  /** The lookup denotes the entry its row and column select in every model. */
  lemma Lookup2DSelects(table: seq<seq<Term>>, row: Value, col: Value, n: int, asg: string -> int)
    requires SquareFrom(table, n) && IndexOk(row, n) && IndexOk(col, n)
    ensures Eval(Lookup2D(table, row, col, n), asg)
         == Eval(table[Sel(ValueOf(row, asg), n)][Sel(ValueOf(col, asg), n)], asg)
  {
    if row.IntV? && !col.IntV? {
      Lookup1DSelects(table[row.k], col, n, asg);
    } else if row.TermV? {
      var rows := RowLookups(table, col, n, n);
      ChainEval(rows, row.t, 0, asg);
      var s := Sel(ValueOf(row, asg), n);
      assert Eval(Lookup2D(table, row, col, n), asg) == Eval(rows[s], asg);
      Lookup1DSelects(table[s], col, n, asg);
    }
  }

  method BuildLookup2D(table: seq<seq<Term>>, row: Value, col: Value, n: int) returns (r: Term)
    requires SquareFrom(table, n) && IndexOk(row, n) && IndexOk(col, n)
    ensures r == Lookup2D(table, row, col, n)
  {
    if row.IntV? && col.IntV? {
      return table[row.k][col.k];
    }
    if row.IntV? {
      r := BuildLookup1D(table[row.k], col, n);
      return;
    }
    var rowResults: seq<Term> := [];
    var i := 0;
    while i < n
      invariant 0 <= i <= n
      invariant rowResults == RowLookups(table, col, n, i)
    {
      var rowVal := BuildLookup1D(table[i], col, n);
      rowResults := rowResults + [rowVal];
      i := i + 1;
    }
    r := BuildChain(rowResults, row.t);
  }

  // ---- Operation tables ----

  /** The three dictionaries of `find_models`: a Z3 constant per nullary
      operation, a row of `n` constants per unary one and an `n` by `n` grid
      per binary one, each keyed by operation name. */
  datatype Tables = Tables(
    consts: map<string, Term>,
    unary: map<string, seq<Term>>,
    binary: map<string, seq<seq<Term>>>)

  /** Every table has the shape of the domain. */
  predicate TablesOk(tb: Tables, n: int) {
    && n >= 1
    && (forall f :: f in tb.unary ==> |tb.unary[f]| == n)
    && (forall f :: f in tb.binary ==> |tb.binary[f]| == n && forall i :: 0 <= i < n ==> |tb.binary[f][i]| == n)
  }

  /** Every variable is bound to a domain element. */
  predicate EnvOk(env: map<string, int>, n: int) {
    forall x :: x in env ==> 0 <= env[x] < n
  }

  // ---- The evaluator ----

  /** `_eval_expr(expr, env, …)`: `None` for an unbound variable, a missing
      constant or table, any argument that is `None`, and an application of
      three or more arguments. */
  function EvalExpr(e: Expr, env: map<string, int>, tb: Tables, n: int): (r: Option<Value>)
    requires TablesOk(tb, n) && EnvOk(env, n)
    ensures r.Some? ==> IndexOk(r.value, n)
    decreases e
  {
    match e
    case Var(x) => if x in env then Some(IntV(env[x])) else None
    case Const(c) => if c in tb.consts then Some(TermV(tb.consts[c])) else None
    case App(op, args) =>
      var vals := EvalArgs(args, env, tb, n);
      if vals.None? then None else Apply(op, vals.value, tb, n)
  }

  /** The argument loop: the values of all arguments, or `None` as soon as one is. */
  function EvalArgs(args: seq<Expr>, env: map<string, int>, tb: Tables, n: int): (r: Option<seq<Value>>)
    requires TablesOk(tb, n) && EnvOk(env, n)
    ensures r.Some? ==> |r.value| == |args| && forall i :: 0 <= i < |args| ==> IndexOk(r.value[i], n)
    decreases args
  {
    if args == [] then Some([])
    else
      var v := EvalExpr(args[0], env, tb, n);
      var rest := EvalArgs(args[1..], env, tb, n);
      if v.None? || rest.None? then None else Some([v.value] + rest.value)
  }

  /** The table step of `_eval_expr` once the argument values are known. */
  function Apply(op: string, vals: seq<Value>, tb: Tables, n: int): (r: Option<Value>)
    requires TablesOk(tb, n) && forall i :: 0 <= i < |vals| ==> IndexOk(vals[i], n)
    ensures r.Some? ==> r.value.TermV?
  {
    if |vals| == 0 then
      if op in tb.consts then Some(TermV(tb.consts[op])) else None
    else if |vals| == 1 then
      if op !in tb.unary then None
      else
        var table := tb.unary[op];
        assert |table| == n && IndexOk(vals[0], n);
        if vals[0].IntV? then Some(TermV(table[vals[0].k]))
        else Some(TermV(Lookup1D(table, vals[0], |table|)))
    else if |vals| == 2 then
      if op !in tb.binary then None
      else
        var table := tb.binary[op];
        assert |table| == n && forall i :: 0 <= i < n ==> |table[i]| == n;
        assert IndexOk(vals[0], n) && IndexOk(vals[1], n);
        if vals[0].IntV? && vals[1].IntV? then Some(TermV(table[vals[0].k][vals[1].k]))
        else Some(TermV(Lookup2D(table, vals[0], vals[1], |table|)))
    else None
  }

  /** Three or more arguments never evaluate, whatever they are. */
  lemma WideApplicationIsNone(op: string, args: seq<Expr>, env: map<string, int>, tb: Tables, n: int)
    requires TablesOk(tb, n) && EnvOk(env, n) && |args| >= 3
    ensures EvalExpr(App(op, args), env, tb, n).None?
  {
  }

  // ---- Reading a model's tables directly ----

  /** The model gives every table entry a domain element (the constraints
      `v >= 0, v < n` of `find_models`). */
  predicate AsgInRange(tb: Tables, asg: string -> int, n: int) {
    && (forall c :: c in tb.consts ==> 0 <= Eval(tb.consts[c], asg) < n)
    && (forall f, i :: f in tb.unary && 0 <= i < |tb.unary[f]| ==> 0 <= Eval(tb.unary[f][i], asg) < n)
    && (forall f, i, j :: f in tb.binary && 0 <= i < |tb.binary[f]| && 0 <= j < |tb.binary[f][i]|
          ==> 0 <= Eval(tb.binary[f][i][j], asg) < n)
  }

  /** The value of an expression in a model, read straight off its tables by
      indexing (no If-Then-Else): `None` exactly where the evaluator gives none. */
  function Interp(e: Expr, env: map<string, int>, tb: Tables, n: int, asg: string -> int): (r: Option<int>)
    requires TablesOk(tb, n) && EnvOk(env, n) && AsgInRange(tb, asg, n)
    ensures r.Some? ==> 0 <= r.value < n
    decreases e
  {
    match e
    case Var(x) => if x in env then Some(env[x]) else None
    case Const(c) => if c in tb.consts then Some(Eval(tb.consts[c], asg)) else None
    case App(op, args) =>
      var vals := InterpArgs(args, env, tb, n, asg);
      if vals.None? then None
      else if |vals.value| == 0 then
        if op in tb.consts then Some(Eval(tb.consts[op], asg)) else None
      else if |vals.value| == 1 then
        if op in tb.unary then Some(Eval(tb.unary[op][vals.value[0]], asg)) else None
      else if |vals.value| == 2 then
        if op in tb.binary then Some(Eval(tb.binary[op][vals.value[0]][vals.value[1]], asg)) else None
      else None
  }

  function InterpArgs(args: seq<Expr>, env: map<string, int>, tb: Tables, n: int, asg: string -> int): (r: Option<seq<int>>)
    requires TablesOk(tb, n) && EnvOk(env, n) && AsgInRange(tb, asg, n)
    ensures r.Some? ==> |r.value| == |args| && forall i :: 0 <= i < |args| ==> 0 <= r.value[i] < n
    decreases args
  {
    if args == [] then Some([])
    else
      var v := Interp(args[0], env, tb, n, asg);
      var rest := InterpArgs(args[1..], env, tb, n, asg);
      if v.None? || rest.None? then None else Some([v.value] + rest.value)
  }

  /** The encoding is exact: the evaluator gives a term exactly when direct
      reading gives a value, and in every model that keeps table entries in
      the domain the term denotes that value. */
  lemma {:induction false} EvalExprSound(e: Expr, env: map<string, int>, tb: Tables, n: int, asg: string -> int)
    requires TablesOk(tb, n) && EnvOk(env, n) && AsgInRange(tb, asg, n)
    ensures EvalExpr(e, env, tb, n).Some? <==> Interp(e, env, tb, n, asg).Some?
    ensures EvalExpr(e, env, tb, n).Some? ==>
      ValueOf(EvalExpr(e, env, tb, n).value, asg) == Interp(e, env, tb, n, asg).value
    decreases e, 1
  {
    match e
    case Var(_) =>
    case Const(_) =>
    case App(op, args) =>
      EvalArgsSound(args, env, tb, n, asg);
      var vals := EvalArgs(args, env, tb, n);
      if vals.Some? {
        ApplySound(op, vals.value, InterpArgs(args, env, tb, n, asg).value, tb, n, asg);
      }
  }

  lemma {:induction false} EvalArgsSound(args: seq<Expr>, env: map<string, int>, tb: Tables, n: int, asg: string -> int)
    requires TablesOk(tb, n) && EnvOk(env, n) && AsgInRange(tb, asg, n)
    ensures EvalArgs(args, env, tb, n).Some? <==> InterpArgs(args, env, tb, n, asg).Some?
    ensures EvalArgs(args, env, tb, n).Some? ==>
      forall i :: 0 <= i < |args| ==>
        ValueOf(EvalArgs(args, env, tb, n).value[i], asg) == InterpArgs(args, env, tb, n, asg).value[i]
    decreases args, 0
  {
    if args != [] {
      EvalExprSound(args[0], env, tb, n, asg);
      EvalArgsSound(args[1..], env, tb, n, asg);
    }
  }

  /** One table step: the lookup a value list builds denotes the entry that
      the values it stands for index. */
  lemma ApplySound(op: string, vals: seq<Value>, ks: seq<int>, tb: Tables, n: int, asg: string -> int)
    requires TablesOk(tb, n) && AsgInRange(tb, asg, n)
    requires |vals| == |ks| && forall i :: 0 <= i < |vals| ==> IndexOk(vals[i], n)
    requires forall i :: 0 <= i < |vals| ==> ValueOf(vals[i], asg) == ks[i] && 0 <= ks[i] < n
    ensures Apply(op, vals, tb, n).Some? ==>
      ValueOf(Apply(op, vals, tb, n).value, asg) ==
        if |ks| == 0 then Eval(tb.consts[op], asg)
        else if |ks| == 1 then Eval(tb.unary[op][ks[0]], asg)
        else Eval(tb.binary[op][ks[0]][ks[1]], asg)
  {
    if |vals| == 1 && op in tb.unary && vals[0].TermV? {
      Lookup1DSelects(tb.unary[op], vals[0], n, asg);
    } else if |vals| == 2 && op in tb.binary && !(vals[0].IntV? && vals[1].IntV?) {
      Lookup2DSelects(tb.binary[op], vals[0], vals[1], n, asg);
    }
  }

  // ---- Instantiating an axiom ----

  /** The variables of an expression in order of occurrence, with repeats. */
  function VarOccurrences(e: Expr): (r: seq<string>)
    ensures forall x :: x in r <==> x in Variables(e)
    decreases e
  {
    match e
    case Var(x) => [x]
    case Const(_) => []
    case App(_, args) => VarOccurrencesList(args)
  }

  function VarOccurrencesList(es: seq<Expr>): (r: seq<string>)
    ensures forall x :: x in r <==> x in VariablesList(es)
    decreases es
  {
    if es == [] then [] else VarOccurrences(es[0]) + VarOccurrencesList(es[1..])
  }

  /** The first occurrence of every value, in order. */
  function Dedup(s: seq<string>): (r: seq<string>)
    ensures forall x :: x in r <==> x in s
    ensures Sorting.Distinct(r)
  {
    if s == [] then []
    else
      var d := Dedup(s[..|s| - 1]);
      assert forall x :: x in s <==> x in s[..|s| - 1] || x == s[|s| - 1] by {
        assert s == s[..|s| - 1] + [s[|s| - 1]];
      }
      if s[|s| - 1] in d then d else d + [s[|s| - 1]]
  }

  /** `sorted(eq.variables())`. */
  function VarNames(eq: Equation): seq<string> {
    Sorting.SortBy(Dedup(VarOccurrences(eq.lhs) + VarOccurrences(eq.rhs)), Sorting.StrLe)
  }

  /** The variable names are the distinct variables of the equation, ascending. */
  lemma VarNamesSpec(eq: Equation)
    ensures forall x :: x in VarNames(eq) <==> x in EquationVariables(eq)
    ensures Sorting.Distinct(VarNames(eq)) && Sorting.Sorted(VarNames(eq), Sorting.StrLe)
  {
    var d := Dedup(VarOccurrences(eq.lhs) + VarOccurrences(eq.rhs));
    var r := Sorting.SortBy(d, Sorting.StrLe);
    Sorting.StrLeIsTotal();
    Sorting.SortSorted(d, Sorting.StrLe);
    Sorting.DistinctPermutation(d, r);
    assert forall x :: x in r <==> x in d by {
      assert forall x :: x in r <==> x in multiset(r);
    }
  }

  /** A list without repeats is as long as the set of its members. */
  lemma {:induction false} DistinctCard(s: seq<string>, members: set<string>)
    requires Sorting.Distinct(s) && forall x :: x in s <==> x in members
    ensures |s| == |members|
  {
    if s != [] {
      var last := s[|s| - 1];
      var init := s[..|s| - 1];
      assert s == init + [last];
      assert last !in init;
      assert forall x :: x in init <==> x in members - {last};
      DistinctCard(init, members - {last});
    }
  }

  function Pow(n: nat, k: nat): nat {
    if k == 0 then 1 else n * Pow(n, k - 1)
  }

  /** A tuple of `k` domain elements. */
  predicate AssignmentOk(a: seq<int>, k: nat, n: int) {
    |a| == k && forall i :: 0 <= i < |a| ==> 0 <= a[i] < n
  }

  /** The tuples of `rest` prefixed by `lo`, then by `lo + 1`, …, up to `n - 1`. */
  function Extend(lo: nat, n: nat, rest: seq<seq<int>>): (r: seq<seq<int>>)
    ensures lo <= n ==> |r| == (n - lo) * |rest|
    decreases n - lo
  {
    if lo >= n then []
    else
      var r := Grids.PrefixAll(lo, rest) + Extend(lo + 1, n, rest);
      assert (n - lo) * |rest| == |rest| + (n - (lo + 1)) * |rest|;
      r
  }

  /** `product(range(n), repeat=k)`, in its order: the first position varies slowest. */
  function Assignments(k: nat, n: nat): (r: seq<seq<int>>)
    ensures |r| == Pow(n, k)
  {
    if k == 0 then [[]] else Extend(0, n, Assignments(k - 1, n))
  }

  lemma {:induction false} ExtendMember(lo: nat, n: nat, rest: seq<seq<int>>, a: seq<int>)
    ensures a in Extend(lo, n, rest) <==> |a| >= 1 && lo <= a[0] < n && a[1..] in rest
    decreases n - lo
  {
    if lo < n {
      ExtendMember(lo + 1, n, rest, a);
      PrefixMember(lo, rest, a);
      assert Extend(lo, n, rest) == Grids.PrefixAll(lo, rest) + Extend(lo + 1, n, rest);
    }
  }

  /** A tuple is `x` prefixed to a member of `rest` exactly when it starts with
      `x` and its tail is in `rest`. */
  lemma PrefixMember(x: int, rest: seq<seq<int>>, a: seq<int>)
    ensures a in Grids.PrefixAll(x, rest) <==> |a| >= 1 && a[0] == x && a[1..] in rest
  {
    var p := Grids.PrefixAll(x, rest);
    if a in p {
      var j :| 0 <= j < |p| && p[j] == a;
      assert a[1..] == rest[j];
    }
    if |a| >= 1 && a[0] == x && a[1..] in rest {
      var j :| 0 <= j < |rest| && rest[j] == a[1..];
      assert p[j] == a;
    }
  }

  /** A tuple of `k` elements is a first element and a tuple of `k - 1`. */
  lemma AssignmentOkCons(a: seq<int>, k: nat, n: int)
    requires k > 0
    ensures AssignmentOk(a, k, n) <==> |a| >= 1 && 0 <= a[0] < n && AssignmentOk(a[1..], k - 1, n)
  {
    if |a| >= 1 {
      var tail := a[1..];
      assert forall i :: 1 <= i < |a| ==> a[i] == tail[i - 1];
      if AssignmentOk(a, k, n) {
        assert forall i :: 0 <= i < |tail| ==> 0 <= tail[i] < n;
      }
      if 0 <= a[0] < n && AssignmentOk(tail, k - 1, n) {
        assert forall i :: 0 <= i < |a| ==> 0 <= a[i] < n;
      }
    }
  }

  /** The product holds exactly the tuples of `k` domain elements. */
  lemma {:induction false} AssignmentsExact(k: nat, n: nat, a: seq<int>)
    ensures a in Assignments(k, n) <==> AssignmentOk(a, k, n)
  {
    if k > 0 {
      var rest := Assignments(k - 1, n);
      assert Assignments(k, n) == Extend(0, n, rest);
      ExtendMember(0, n, rest, a);
      AssignmentOkCons(a, k, n);
      if |a| >= 1 {
        AssignmentsExact(k - 1, n, a[1..]);
      }
    } else {
      assert a in [[]] <==> a == [];
    }
  }

  /** `dict(zip(var_names, assignment))`. */
  function Zip(names: seq<string>, vals: seq<int>): (r: map<string, int>)
    requires |names| == |vals|
    ensures forall x :: x in r <==> x in names
    ensures forall x :: x in r ==> exists i :: 0 <= i < |vals| && r[x] == vals[i]
  {
    if names == [] then map[]
    else
      var m := |names| - 1;
      assert forall x :: x in names <==> x in names[..m] || x == names[m] by {
        assert names == names[..m] + [names[m]];
      }
      var r := Zip(names[..m], vals[..m])[names[m] := vals[m]];
      assert forall x :: x in r && x != names[m] ==> exists i :: 0 <= i < m && r[x] == vals[..m][i];
      r
  }

  lemma ZipInRange(names: seq<string>, a: seq<int>, n: int)
    requires AssignmentOk(a, |names|, n)
    ensures EnvOk(Zip(names, a), n)
  {
  }

  /** The constraints `_encode_axiom` and `find_models` add to the solver:
      `lhs == rhs` for an instance, and `v >= 0, v < n` for a table entry. */
  datatype Constraint = Equal(lhs: Value, rhs: Value) | InDomain(t: Term, n: int)

  predicate Holds(c: Constraint, asg: string -> int) {
    match c
    case Equal(l, r) => ValueOf(l, asg) == ValueOf(r, asg)
    case InDomain(t, n) => 0 <= Eval(t, asg) < n
  }

  /** The model satisfies every constraint of the list. */
  predicate AllHold(cs: seq<Constraint>, asg: string -> int) {
    forall i :: 0 <= i < |cs| ==> Holds(cs[i], asg)
  }

  lemma AllHoldAppend(a: seq<Constraint>, b: seq<Constraint>, asg: string -> int)
    ensures AllHold(a + b, asg) <==> AllHold(a, asg) && AllHold(b, asg)
  {
    if AllHold(a + b, asg) {
      forall i | 0 <= i < |b| ensures Holds(b[i], asg) {
        assert (a + b)[|a| + i] == b[i];
      }
      forall i | 0 <= i < |a| ensures Holds(a[i], asg) {
        assert (a + b)[i] == a[i];
      }
    }
  }

  /** The constraint of one instance: none when either side evaluates to `None`. */
  function Instance(eq: Equation, names: seq<string>, a: seq<int>, tb: Tables, n: int): (r: seq<Constraint>)
    requires TablesOk(tb, n) && AssignmentOk(a, |names|, n)
    ensures |r| <= 1
  {
    ZipInRange(names, a, n);
    var env := Zip(names, a);
    var l := EvalExpr(eq.lhs, env, tb, n);
    var r := EvalExpr(eq.rhs, env, tb, n);
    if l.Some? && r.Some? then [Equal(l.value, r.value)] else []
  }

  /** The instances for a list of assignments, in order. */
  function Instances(eq: Equation, names: seq<string>, asgs: seq<seq<int>>, tb: Tables, n: int): (r: seq<Constraint>)
    requires TablesOk(tb, n) && forall j :: 0 <= j < |asgs| ==> AssignmentOk(asgs[j], |names|, n)
    ensures |r| <= |asgs|
  {
    if asgs == [] then []
    else
      Instances(eq, names, asgs[..|asgs| - 1], tb, n) + Instance(eq, names, asgs[|asgs| - 1], tb, n)
  }

  /** The constraints for an axiom's equation: one instance per assignment of
      domain elements to its sorted variables. */
  function Encoding(eq: Equation, tb: Tables, n: int): seq<Constraint>
    requires TablesOk(tb, n)
  {
    var names := VarNames(eq);
    var asgs := Assignments(|names|, n);
    assert forall j :: 0 <= j < |asgs| ==> AssignmentOk(asgs[j], |names|, n) by {
      forall j | 0 <= j < |asgs| ensures AssignmentOk(asgs[j], |names|, n) {
        AssignmentsExact(|names|, n, asgs[j]);
      }
    }
    Instances(eq, names, asgs, tb, n)
  }

  /** An axiom with `k` distinct variables adds at most `n^k` constraints. */
  lemma EncodingBound(eq: Equation, tb: Tables, n: int)
    requires TablesOk(tb, n)
    ensures |Encoding(eq, tb, n)| <= Pow(n, |EquationVariables(eq)|)
  {
    VarNamesSpec(eq);
    DistinctCard(VarNames(eq), EquationVariables(eq));
  }

  /** The ground branch of `_encode_axiom` (lines 187-193): one equality when
      both sides evaluate. */
  method EncodeGround(eq: Equation, n: int, tb: Tables) returns (added: seq<Constraint>)
    requires TablesOk(tb, n)
    ensures added == Instance(eq, [], [], tb, n)
  {
    var lhsVal := EvalExpr(eq.lhs, map[], tb, n);
    var rhsVal := EvalExpr(eq.rhs, map[], tb, n);
    added := [];
    if lhsVal.Some? && rhsVal.Some? {
      added := [Equal(lhsVal.value, rhsVal.value)];
    }
    assert Zip([], []) == map[];
  }

  /** The assignment loop of `_encode_axiom` (lines 196-201). */
  method EncodeInstances(eq: Equation, names: seq<string>, asgs: seq<seq<int>>, n: int, tb: Tables) returns (added: seq<Constraint>)
    requires TablesOk(tb, n) && forall j :: 0 <= j < |asgs| ==> AssignmentOk(asgs[j], |names|, n)
    ensures added == Instances(eq, names, asgs, tb, n)
  {
    added := [];
    var j := 0;
    while j < |asgs|
      invariant 0 <= j <= |asgs|
      invariant added == Instances(eq, names, asgs[..j], tb, n)
    {
      ZipInRange(names, asgs[j], n);
      var env := Zip(names, asgs[j]);
      var lhsVal := EvalExpr(eq.lhs, env, tb, n);
      var rhsVal := EvalExpr(eq.rhs, env, tb, n);
      assert Instances(eq, names, asgs[..j + 1], tb, n)
          == Instances(eq, names, asgs[..j], tb, n) + Instance(eq, names, asgs[j], tb, n) by {
        assert asgs[..j + 1][..j] == asgs[..j];
      }
      if lhsVal.Some? && rhsVal.Some? {
        added := added + [Equal(lhsVal.value, rhsVal.value)];
      }
      j := j + 1;
    }
    assert asgs[..j] == asgs;
  }

  /** `_encode_axiom`: the constraints it adds to the solver, in order. */
  method EncodeAxiom(eq: Equation, n: int, tb: Tables) returns (added: seq<Constraint>)
    requires TablesOk(tb, n)
    ensures added == Encoding(eq, tb, n)
  {
    var varNames := VarNames(eq);
    var asgs := Assignments(|varNames|, n);
    forall i | 0 <= i < |asgs| ensures AssignmentOk(asgs[i], |varNames|, n) {
      AssignmentsExact(|varNames|, n, asgs[i]);
    }
    assert Encoding(eq, tb, n) == Instances(eq, varNames, asgs, tb, n);
    if varNames == [] {
      added := EncodeGround(eq, n, tb);
      assert asgs == [[]];
      assert Instances(eq, varNames, asgs, tb, n) == Instances(eq, varNames, [], tb, n) + Instance(eq, [], [], tb, n) by {
        assert asgs[..0] == [];
      }
      return;
    }
    added := EncodeInstances(eq, varNames, asgs, n, tb);
  }

  /** One instance of the axiom holds in a model read directly: where both
      sides are defined, they agree. */
  predicate InstanceHolds(eq: Equation, names: seq<string>, a: seq<int>, tb: Tables, n: int, asg: string -> int)
    requires TablesOk(tb, n) && AsgInRange(tb, asg, n) && AssignmentOk(a, |names|, n)
  {
    ZipInRange(names, a, n);
    var env := Zip(names, a);
    var l := Interp(eq.lhs, env, tb, n, asg);
    var r := Interp(eq.rhs, env, tb, n, asg);
    l.Some? && r.Some? ==> l.value == r.value
  }

  lemma InstanceExact(eq: Equation, names: seq<string>, a: seq<int>, tb: Tables, n: int, asg: string -> int)
    requires TablesOk(tb, n) && AsgInRange(tb, asg, n) && AssignmentOk(a, |names|, n)
    ensures AllHold(Instance(eq, names, a, tb, n), asg) <==> InstanceHolds(eq, names, a, tb, n, asg)
  {
    ZipInRange(names, a, n);
    var env := Zip(names, a);
    EvalExprSound(eq.lhs, env, tb, n, asg);
    EvalExprSound(eq.rhs, env, tb, n, asg);
    var l, r := EvalExpr(eq.lhs, env, tb, n), EvalExpr(eq.rhs, env, tb, n);
    if l.Some? && r.Some? {
      assert Instance(eq, names, a, tb, n) == [Equal(l.value, r.value)];
      assert Instance(eq, names, a, tb, n)[0] == Equal(l.value, r.value);
      assert InstanceHolds(eq, names, a, tb, n, asg) <==>
        Interp(eq.lhs, env, tb, n, asg).value == Interp(eq.rhs, env, tb, n, asg).value;
    } else {
      assert Instance(eq, names, a, tb, n) == [];
    }
  }

  /** Every assignment of the list gives an instance that holds. */
  predicate AllInstancesHold(eq: Equation, names: seq<string>, asgs: seq<seq<int>>, tb: Tables, n: int, asg: string -> int)
    requires TablesOk(tb, n) && AsgInRange(tb, asg, n)
    requires forall j :: 0 <= j < |asgs| ==> AssignmentOk(asgs[j], |names|, n)
  {
    forall j :: 0 <= j < |asgs| ==> InstanceHolds(eq, names, asgs[j], tb, n, asg)
  }

  lemma AllInstancesHoldSnoc(eq: Equation, names: seq<string>, asgs: seq<seq<int>>, tb: Tables, n: int, asg: string -> int)
    requires TablesOk(tb, n) && AsgInRange(tb, asg, n) && asgs != []
    requires forall j :: 0 <= j < |asgs| ==> AssignmentOk(asgs[j], |names|, n)
    ensures AllInstancesHold(eq, names, asgs, tb, n, asg) <==>
      AllInstancesHold(eq, names, asgs[..|asgs| - 1], tb, n, asg) && InstanceHolds(eq, names, asgs[|asgs| - 1], tb, n, asg)
  {
    var m := |asgs| - 1;
    var init := asgs[..m];
    assert forall j :: 0 <= j < m ==> init[j] == asgs[j];
    if AllInstancesHold(eq, names, asgs, tb, n, asg) {
      forall j | 0 <= j < m ensures InstanceHolds(eq, names, init[j], tb, n, asg) {
        assert InstanceHolds(eq, names, asgs[j], tb, n, asg);
      }
      assert AllInstancesHold(eq, names, init, tb, n, asg);
      assert InstanceHolds(eq, names, asgs[m], tb, n, asg);
    }
    if AllInstancesHold(eq, names, init, tb, n, asg) && InstanceHolds(eq, names, asgs[m], tb, n, asg) {
      forall j | 0 <= j < |asgs| ensures InstanceHolds(eq, names, asgs[j], tb, n, asg) {
        if j < m {
          assert InstanceHolds(eq, names, init[j], tb, n, asg);
        } else {
          assert asgs[j] == asgs[m];
        }
      }
    }
  }

  lemma {:induction false} InstancesExact(eq: Equation, names: seq<string>, asgs: seq<seq<int>>, tb: Tables, n: int, asg: string -> int)
    requires TablesOk(tb, n) && AsgInRange(tb, asg, n)
    requires forall j :: 0 <= j < |asgs| ==> AssignmentOk(asgs[j], |names|, n)
    ensures AllHold(Instances(eq, names, asgs, tb, n), asg) <==> AllInstancesHold(eq, names, asgs, tb, n, asg)
  {
    if asgs != [] {
      var m := |asgs| - 1;
      var init := asgs[..m];
      assert forall j :: 0 <= j < m ==> init[j] == asgs[j];
      var front, last := Instances(eq, names, init, tb, n), Instance(eq, names, asgs[m], tb, n);
      assert Instances(eq, names, asgs, tb, n) == front + last;
      InstancesExact(eq, names, init, tb, n, asg);
      InstanceExact(eq, names, asgs[m], tb, n, asg);
      AllHoldAppend(front, last, asg);
      AllInstancesHoldSnoc(eq, names, asgs, tb, n, asg);
    }
  }

  /** The axiom holds in a model read directly: at every assignment of domain
      elements to its variables, both sides agree where both are defined. */
  ghost predicate AxiomHolds(eq: Equation, tb: Tables, n: int, asg: string -> int)
    requires TablesOk(tb, n) && AsgInRange(tb, asg, n)
  {
    forall a {:trigger InstanceHolds(eq, VarNames(eq), a, tb, n, asg)} ::
      AssignmentOk(a, |VarNames(eq)|, n) ==> InstanceHolds(eq, VarNames(eq), a, tb, n, asg)
  }

  /** A model satisfies the constraints of an axiom exactly when, read
      directly, it satisfies the axiom at every assignment of domain elements
      to the variables where both sides are defined. */
  lemma EncodingExact(eq: Equation, tb: Tables, n: int, asg: string -> int)
    requires TablesOk(tb, n) && AsgInRange(tb, asg, n)
    ensures AllHold(Encoding(eq, tb, n), asg) <==> AxiomHolds(eq, tb, n, asg)
  {
    var names := VarNames(eq);
    var asgs := Assignments(|names|, n);
    forall j | 0 <= j < |asgs| ensures AssignmentOk(asgs[j], |names|, n) {
      AssignmentsExact(|names|, n, asgs[j]);
    }
    InstancesExact(eq, names, asgs, tb, n, asg);
    if AllInstancesHold(eq, names, asgs, tb, n, asg) {
      forall a | AssignmentOk(a, |names|, n) ensures InstanceHolds(eq, names, a, tb, n, asg) {
        AssignmentsExact(|names|, n, a);
        var j :| 0 <= j < |asgs| && asgs[j] == a;
      }
    }
  }

  // ---- Building the tables ----

  /** `f"{name}_{i}"`. */
  function CellName1(f: string, i: nat): string {
    f + "_" + Text.NatToString(i)
  }

  /** `f"{name}_{i}_{j}"`. */
  function CellName2(f: string, i: nat, j: nat): string {
    f + "_" + Text.NatToString(i) + "_" + Text.NatToString(j)
  }

  /** `[z3.Int(f"{name}_{i}") for i in range(n)]`. */
  function UnaryTable(f: string, n: nat): (r: seq<Term>)
    ensures |r| == n && forall i :: 0 <= i < n ==> r[i] == Cell(CellName1(f, i))
  {
    if n == 0 then [] else UnaryTable(f, n - 1) + [Cell(CellName1(f, n - 1))]
  }

  /** Row `i` of a binary table: `[z3.Int(f"{name}_{i}_{j}") for j in range(n)]`. */
  function GridRow(f: string, i: nat, n: nat): (r: seq<Term>)
    ensures |r| == n && forall j :: 0 <= j < n ==> r[j] == Cell(CellName2(f, i, j))
  {
    if n == 0 then [] else GridRow(f, i, n - 1) + [Cell(CellName2(f, i, n - 1))]
  }

  /** The first `k` rows of a binary table. */
  function BinaryTable(f: string, k: nat, n: nat): (r: seq<seq<Term>>)
    ensures |r| == k && forall i :: 0 <= i < k ==> r[i] == GridRow(f, i, n)
  {
    if k == 0 then [] else BinaryTable(f, k - 1, n) + [GridRow(f, k - 1, n)]
  }

  /** `len(range(n))`: the number of domain elements, none for a size of 0
      or below. */
  function Width(n: int): nat {
    if n > 0 then n else 0
  }

  /** One step of the operation loop: the operation's table under its name
      (replacing any earlier one); operations of arity three or more get none.
      At a size of 0 or below the unary and binary tables have no cells. */
  function AddOp(tb: Tables, op: Signatures.Operation, n: int): Tables {
    if op.Arity() == 0 then tb.(consts := tb.consts[op.name := Cell(op.name)])
    else if op.Arity() == 1 then tb.(unary := tb.unary[op.name := UnaryTable(op.name, Width(n))])
    else if op.Arity() == 2 then tb.(binary := tb.binary[op.name := BinaryTable(op.name, Width(n), Width(n))])
    else tb
  }

  /** `InDomain` for every entry of a row, in order. */
  function RowBounds(row: seq<Term>, n: int): (r: seq<Constraint>)
    ensures |r| == |row| && forall i :: 0 <= i < |row| ==> r[i] == InDomain(row[i], n)
  {
    if row == [] then [] else RowBounds(row[..|row| - 1], n) + [InDomain(row[|row| - 1], n)]
  }

  /** `InDomain` for every entry of a grid, row by row. */
  function GridBounds(grid: seq<seq<Term>>, n: int): seq<Constraint> {
    if grid == [] then [] else GridBounds(grid[..|grid| - 1], n) + RowBounds(grid[|grid| - 1], n)
  }

  lemma {:induction false} GridBoundsMember(grid: seq<seq<Term>>, n: int, i: int, j: int)
    requires 0 <= i < |grid| && 0 <= j < |grid[i]|
    ensures InDomain(grid[i][j], n) in GridBounds(grid, n)
  {
    var m := |grid| - 1;
    if i < m {
      GridBoundsMember(grid[..m], n, i, j);
    } else {
      assert RowBounds(grid[m], n)[j] == InDomain(grid[i][j], n);
    }
  }

  /** The range constraints one operation adds. */
  function OpBounds(op: Signatures.Operation, n: int): seq<Constraint> {
    if op.Arity() == 0 then [InDomain(Cell(op.name), n)]
    else if op.Arity() == 1 then RowBounds(UnaryTable(op.name, Width(n)), n)
    else if op.Arity() == 2 then GridBounds(BinaryTable(op.name, Width(n), Width(n)), n)
    else []
  }

  /** The three dictionaries after the operation loop of `find_models`. */
  function TablesFor(ops: seq<Signatures.Operation>, n: int): (r: Tables)
    ensures n >= 1 ==> TablesOk(r, n)
  {
    if ops == [] then Tables(map[], map[], map[]) else AddOp(TablesFor(ops[..|ops| - 1], n), ops[|ops| - 1], n)
  }

  /** The range constraints after the operation loop, in order. */
  function BoundsFor(ops: seq<Signatures.Operation>, n: int): seq<Constraint> {
    if ops == [] then [] else BoundsFor(ops[..|ops| - 1], n) + OpBounds(ops[|ops| - 1], n)
  }

  /** An operation has a table of its arity exactly when some operation of
      that name and arity is declared. */
  lemma {:induction false} TablesForKeys(ops: seq<Signatures.Operation>, n: int, f: string)
    ensures f in TablesFor(ops, n).consts <==> exists op :: op in ops && op.name == f && op.Arity() == 0
    ensures f in TablesFor(ops, n).unary <==> exists op :: op in ops && op.name == f && op.Arity() == 1
    ensures f in TablesFor(ops, n).binary <==> exists op :: op in ops && op.name == f && op.Arity() == 2
  {
    if ops != [] {
      var m := |ops| - 1;
      TablesForKeys(ops[..m], n, f);
      assert ops == ops[..m] + [ops[m]];
      assert forall op :: op in ops <==> op in ops[..m] || op == ops[m];
    }
  }

  /** Adding one operation keeps every table entry in the domain when the
      model meets the operation's range constraints. */
  lemma AddOpRange(tb: Tables, op: Signatures.Operation, n: int, asg: string -> int)
    requires AsgInRange(tb, asg, n) && AllHold(OpBounds(op, n), asg)
    ensures AsgInRange(AddOp(tb, op, n), asg, n)
  {
    if op.Arity() == 0 {
      assert OpBounds(op, n)[0] == InDomain(Cell(op.name), n);
    } else if op.Arity() == 1 {
      UnaryRange(tb, op.name, n, asg);
    } else if op.Arity() == 2 {
      BinaryRange(tb, op.name, n, asg);
    }
  }

  lemma UnaryRange(tb: Tables, f: string, n: int, asg: string -> int)
    requires AsgInRange(tb, asg, n) && AllHold(RowBounds(UnaryTable(f, Width(n)), n), asg)
    ensures AsgInRange(tb.(unary := tb.unary[f := UnaryTable(f, Width(n))]), asg, n)
  {
    var t := UnaryTable(f, Width(n));
    forall i | 0 <= i < |t| ensures 0 <= Eval(t[i], asg) < n {
      assert RowBounds(t, n)[i] == InDomain(t[i], n);
    }
  }

  lemma BinaryRange(tb: Tables, f: string, n: int, asg: string -> int)
    requires AsgInRange(tb, asg, n) && AllHold(GridBounds(BinaryTable(f, Width(n), Width(n)), n), asg)
    ensures AsgInRange(tb.(binary := tb.binary[f := BinaryTable(f, Width(n), Width(n))]), asg, n)
  {
    var g := BinaryTable(f, Width(n), Width(n));
    forall i, j | 0 <= i < |g| && 0 <= j < |g[i]| ensures 0 <= Eval(g[i][j], asg) < n {
      GridBoundsMember(g, n, i, j);
      var k :| 0 <= k < |GridBounds(g, n)| && GridBounds(g, n)[k] == InDomain(g[i][j], n);
      assert Holds(GridBounds(g, n)[k], asg);
    }
  }

  /** A model that meets every range constraint keeps every table entry in the domain. */
  lemma {:induction false} BoundsGiveRange(ops: seq<Signatures.Operation>, n: int, asg: string -> int)
    requires AllHold(BoundsFor(ops, n), asg)
    ensures AsgInRange(TablesFor(ops, n), asg, n)
  {
    if ops != [] {
      var m := |ops| - 1;
      AllHoldAppend(BoundsFor(ops[..m], n), OpBounds(ops[m], n), asg);
      BoundsGiveRange(ops[..m], n, asg);
      AddOpRange(TablesFor(ops[..m], n), ops[m], n, asg);
    }
  }

  /** The operation loop of `find_models` (lines 70-85): the tables and the
      range constraints added for them. */
  method BuildTables(ops: seq<Signatures.Operation>, n: int) returns (tb: Tables, bounds: seq<Constraint>)
    ensures tb == TablesFor(ops, n) && bounds == BoundsFor(ops, n)
  {
    tb := Tables(map[], map[], map[]);
    bounds := [];
    var k := 0;
    while k < |ops|
      invariant 0 <= k <= |ops|
      invariant tb == TablesFor(ops[..k], n) && bounds == BoundsFor(ops[..k], n)
    {
      assert ops[..k + 1][..k] == ops[..k];
      tb := AddOp(tb, ops[k], n);
      bounds := bounds + OpBounds(ops[k], n);
      k := k + 1;
    }
    assert ops[..k] == ops;
  }

  /** The constraints of the axiom loop, axiom by axiom. */
  function AxiomsEncoding(axioms: seq<Signatures.Axiom>, tb: Tables, n: int): seq<Constraint>
    requires TablesOk(tb, n)
  {
    if axioms == [] then []
    else AxiomsEncoding(axioms[..|axioms| - 1], tb, n) + Encoding(axioms[|axioms| - 1].equation, tb, n)
  }

  /** Every axiom of the list holds in a model read directly. */
  ghost predicate AxiomsHold(axioms: seq<Signatures.Axiom>, tb: Tables, n: int, asg: string -> int)
    requires TablesOk(tb, n) && AsgInRange(tb, asg, n)
  {
    axioms == [] ||
      (AxiomsHold(axioms[..|axioms| - 1], tb, n, asg) && AxiomHolds(axioms[|axioms| - 1].equation, tb, n, asg))
  }

  /** Every axiom of a list that holds holds on its own. */
  lemma {:induction false} AxiomsHoldEach(axioms: seq<Signatures.Axiom>, tb: Tables, n: int, asg: string -> int, i: int)
    requires TablesOk(tb, n) && AsgInRange(tb, asg, n) && 0 <= i < |axioms|
    ensures AxiomsHold(axioms, tb, n, asg) ==> AxiomHolds(axioms[i].equation, tb, n, asg)
  {
    var m := |axioms| - 1;
    if AxiomsHold(axioms, tb, n, asg) {
      assert AxiomsHold(axioms[..m], tb, n, asg) && AxiomHolds(axioms[m].equation, tb, n, asg);
      if i < m {
        AxiomsHoldEach(axioms[..m], tb, n, asg, i);
        assert axioms[..m][i].equation == axioms[i].equation;
      } else {
        assert axioms[i].equation == axioms[m].equation;
      }
    }
  }

  lemma {:induction false} AxiomsEncodingExact(axioms: seq<Signatures.Axiom>, tb: Tables, n: int, asg: string -> int)
    requires TablesOk(tb, n) && AsgInRange(tb, asg, n)
    ensures AllHold(AxiomsEncoding(axioms, tb, n), asg) <==> AxiomsHold(axioms, tb, n, asg)
  {
    if axioms != [] {
      var m := |axioms| - 1;
      var init := axioms[..m];
      AllHoldAppend(AxiomsEncoding(init, tb, n), Encoding(axioms[m].equation, tb, n), asg);
      AxiomsEncodingExact(init, tb, n, asg);
      EncodingExact(axioms[m].equation, tb, n, asg);
    }
  }

  // ---- Sizes of 0 and below ----

  /** `_eval_expr` with the empty environment over tables without cells, as
      at a size of 0 or below: `None`, a Z3 term, or the `IndexError` that
      `_z3_lookup_1d` and `_z3_lookup_2d` raise when they take the last entry
      (`table[n - 1]`, `row_results[n - 1]`) of an empty list. No argument is
      ever a Python `int` here, since no variable is bound. */
  function EvalEmpty(e: Expr, tb: Tables): (r: Result<Option<Term>>)
    ensures r.Success? && r.value.Some? ==> r.value.value in tb.consts.Values
    decreases e
  {
    match e
    case Var(_) => Success(None)
    case Const(c) => Success(if c in tb.consts then Some(tb.consts[c]) else None)
    case App(op, args) =>
      var vals := EvalEmptyArgs(args, tb);
      if vals.Failure? then Failure(vals.error)
      else if !vals.value then Success(None)
      else ApplyEmpty(op, |args|, tb)
  }

  /** The argument loop over tables without cells: `false` as soon as an
      argument is `None`, an error as soon as one raises. */
  function EvalEmptyArgs(args: seq<Expr>, tb: Tables): Result<bool>
    decreases args
  {
    if args == [] then Success(true)
    else
      var v := EvalEmpty(args[0], tb);
      if v.Failure? then Failure(v.error)
      else if v.value.None? then Success(false)
      else EvalEmptyArgs(args[1..], tb)
  }

  /** The table step over tables without cells: a constant is read, and a
      declared unary or binary table is empty, so looking it up raises. */
  function ApplyEmpty(op: string, arity: nat, tb: Tables): (r: Result<Option<Term>>)
    ensures r.Success? && r.value.Some? ==> r.value.value in tb.consts.Values
  {
    if arity == 0 then Success(if op in tb.consts then Some(tb.consts[op]) else None)
    else if arity == 1 then (if op in tb.unary then Failure("IndexError: list index out of range") else Success(None))
    else if arity == 2 then (if op in tb.binary then Failure("IndexError: list index out of range") else Success(None))
    else Success(None)
  }

  /** Without constants nothing evaluates and nothing raises: every argument
      is `None` before any table is looked up. */
  lemma {:induction false} EvalEmptyNoConstants(e: Expr, tb: Tables)
    requires tb.consts == map[]
    ensures EvalEmpty(e, tb) == Success(None)
    decreases e
  {
    match e
    case Var(_) =>
    case Const(_) =>
    case App(op, args) =>
      if args != [] {
        EvalEmptyNoConstants(args[0], tb);
      }
  }

  /** `_encode_axiom` over tables without cells: an axiom with variables has
      no instance (`product(range(n), repeat=k)` is empty); a ground axiom
      evaluates its left side, then its right side, and adds their equality
      when both have a value. */
  function EmptyEncoding(eq: Equation, tb: Tables): Result<seq<Constraint>> {
    if VarNames(eq) != [] then Success([])
    else
      var l := EvalEmpty(eq.lhs, tb);
      var r := EvalEmpty(eq.rhs, tb);
      if l.Failure? then Failure(l.error)
      else if r.Failure? then Failure(r.error)
      else if l.value.Some? && r.value.Some? then Success([Equal(TermV(l.value.value), TermV(r.value.value))])
      else Success([])
  }

  /** The axiom loop over tables without cells: the constraints in order, or
      the error of the first axiom that raises. */
  function EmptyAxiomsEncoding(axioms: seq<Signatures.Axiom>, tb: Tables): Result<seq<Constraint>> {
    if axioms == [] then Success([])
    else
      var front := EmptyAxiomsEncoding(axioms[..|axioms| - 1], tb);
      if front.Failure? then front
      else
        var last := EmptyEncoding(axioms[|axioms| - 1].equation, tb);
        if last.Failure? then last else Success(front.value + last.value)
  }

  lemma {:induction false} EmptyAxiomsNoConstants(axioms: seq<Signatures.Axiom>, tb: Tables)
    requires tb.consts == map[]
    ensures EmptyAxiomsEncoding(axioms, tb) == Success([])
  {
    if axioms != [] {
      var m := |axioms| - 1;
      EmptyAxiomsNoConstants(axioms[..m], tb);
      EmptyEncodingNoConstants(axioms[m].equation, tb);
      var e: seq<Constraint> := [];
      assert e + e == e;
    }
  }

  lemma EmptyEncodingNoConstants(eq: Equation, tb: Tables)
    requires tb.consts == map[]
    ensures EmptyEncoding(eq, tb) == Success([])
  {
    EvalEmptyNoConstants(eq.lhs, tb);
    EvalEmptyNoConstants(eq.rhs, tb);
  }

  /** At a size of 0 or below only the constants get range constraints, since
      the other tables have no cells. */
  lemma {:induction false} EmptyBoundsNoConstants(ops: seq<Signatures.Operation>, n: int)
    requires n <= 0 && forall i :: 0 <= i < |ops| ==> ops[i].Arity() != 0
    ensures BoundsFor(ops, n) == []
  {
    if ops != [] {
      EmptyBoundsNoConstants(ops[..|ops| - 1], n);
      assert UnaryTable(ops[|ops| - 1].name, Width(n)) == [];
      assert BinaryTable(ops[|ops| - 1].name, Width(n), Width(n)) == [];
    }
  }

  /** Each constant gets its range constraint `v >= 0, v < n`. */
  lemma {:induction false} ConstantBound(ops: seq<Signatures.Operation>, n: int, i: int)
    requires 0 <= i < |ops| && ops[i].Arity() == 0
    ensures InDomain(Cell(ops[i].name), n) in BoundsFor(ops, n)
  {
    var m := |ops| - 1;
    if i < m {
      ConstantBound(ops[..m], n, i);
    } else {
      assert OpBounds(ops[m], n) == [InDomain(Cell(ops[i].name), n)];
    }
  }

  /** Everything `find_models` hands the solver before its first check. */
  function SignatureEncoding(sig: Signatures.Signature, n: nat): seq<Constraint>
    requires n >= 1
  {
    BoundsFor(sig.operations, n) + AxiomsEncoding(sig.axioms, TablesFor(sig.operations, n), n)
  }

  /** What `find_models` hands the solver before its first check, at any
      size, or the error its encoding raises. */
  function SignatureEncodingAt(sig: Signatures.Signature, n: int): Result<seq<Constraint>> {
    if n >= 1 then Success(SignatureEncoding(sig, n))
    else
      var axioms := EmptyAxiomsEncoding(sig.axioms, TablesFor(sig.operations, n));
      if axioms.Failure? then Failure(axioms.error) else Success(BoundsFor(sig.operations, n) + axioms.value)
  }

  /** A model satisfies the encoding of a signature exactly when every table
      entry lies in the domain and every axiom holds, read directly off the
      tables, at every assignment where both of its sides are defined. At a
      size of 0 or below, where the encoding does not raise, it is satisfied
      exactly when no constant is declared: a constant's range constraint
      cannot hold, and without constants nothing else is constrained. A
      signature without constants never raises there. */
  lemma SignatureEncodingExact(sig: Signatures.Signature, n: int, asg: string -> int)
    ensures n >= 1 ==>
      (AllHold(SignatureEncodingAt(sig, n).value, asg) <==>
        && AllHold(BoundsFor(sig.operations, n), asg)
        && AsgInRange(TablesFor(sig.operations, n), asg, n)
        && AxiomsHold(sig.axioms, TablesFor(sig.operations, n), n, asg))
    ensures n <= 0 && Signatures.ConstantNames(sig.operations) == {} ==> SignatureEncodingAt(sig, n) == Success([])
    ensures n <= 0 && SignatureEncodingAt(sig, n).Success? ==>
      (AllHold(SignatureEncodingAt(sig, n).value, asg) <==> Signatures.ConstantNames(sig.operations) == {})
  {
    var ops := sig.operations;
    var tb := TablesFor(ops, n);
    if n >= 1 {
      AllHoldAppend(BoundsFor(ops, n), AxiomsEncoding(sig.axioms, tb, n), asg);
      if AllHold(BoundsFor(ops, n), asg) {
        BoundsGiveRange(ops, n, asg);
        AxiomsEncodingExact(sig.axioms, tb, n, asg);
      }
    } else if Signatures.ConstantNames(ops) == {} {
      assert forall i :: 0 <= i < |ops| ==> ops[i].Arity() != 0 by {
        forall i | 0 <= i < |ops| ensures ops[i].Arity() != 0 {
          var op := ops[i];
          assert op.Arity() == 0 ==> op.name in Signatures.ConstantNames(ops);
        }
      }
      EmptyBoundsNoConstants(ops, n);
      forall f ensures f !in tb.consts {
        TablesForKeys(ops, n, f);
      }
      assert tb.consts == map[];
      EmptyAxiomsNoConstants(sig.axioms, tb);
      assert EmptyAxiomsEncoding(sig.axioms, tb) == Success([]);
      assert BoundsFor(ops, n) + [] == [];
    } else if SignatureEncodingAt(sig, n).Success? {
      var c :| c in Signatures.ConstantNames(ops);
      var i :| 0 <= i < |ops| && ops[i].Arity() == 0 && ops[i].name == c;
      ConstantBound(ops, n, i);
      ConstantBoundFails(BoundsFor(ops, n), c, n, asg);
      AllHoldAppend(BoundsFor(ops, n), EmptyAxiomsEncoding(sig.axioms, tb).value, asg);
    }
  }

  /** A constant's range constraint cannot hold at a size of 0 or below. */
  lemma ConstantBoundFails(cs: seq<Constraint>, c: string, n: int, asg: string -> int)
    requires n <= 0 && InDomain(Cell(c), n) in cs
    ensures !AllHold(cs, asg)
  {
    var k :| 0 <= k < |cs| && cs[k] == InDomain(Cell(c), n);
    assert !Holds(cs[k], asg);
  }

  /** The axiom loop of `find_models` (lines 88-89): `_encode_axiom` for
      every axiom in order. */
  method EncodeAxioms(axioms: seq<Signatures.Axiom>, n: int, tb: Tables) returns (cs: seq<Constraint>)
    requires TablesOk(tb, n)
    ensures cs == AxiomsEncoding(axioms, tb, n)
  {
    cs := [];
    var k := 0;
    while k < |axioms|
      invariant 0 <= k <= |axioms|
      invariant cs == AxiomsEncoding(axioms[..k], tb, n)
    {
      var added := EncodeAxiom(axioms[k].equation, n, tb);
      assert axioms[..k + 1][..k] == axioms[..k];
      cs := cs + added;
      k := k + 1;
    }
    assert axioms[..k] == axioms;
  }

  /** The axiom loop of `find_models` over tables without cells: `_encode_axiom`
      for every axiom in order, stopping at the first that raises. */
  method EncodeEmptyAxioms(axioms: seq<Signatures.Axiom>, tb: Tables) returns (r: Result<seq<Constraint>>)
    ensures r == EmptyAxiomsEncoding(axioms, tb)
  {
    var cs := [];
    var k := 0;
    while k < |axioms|
      invariant 0 <= k <= |axioms|
      invariant EmptyAxiomsEncoding(axioms[..k], tb) == Success(cs)
    {
      assert axioms[..k + 1][..k] == axioms[..k];
      var added := EmptyEncoding(axioms[k].equation, tb);
      if added.Failure? {
        PrefixRaises(axioms, k + 1, tb);
        return Failure(added.error);
      }
      cs := cs + added.value;
      k := k + 1;
    }
    assert axioms[..k] == axioms;
    return Success(cs);
  }

  /** Once a prefix of the axioms raises, the whole loop raises the same error. */
  lemma {:induction false} PrefixRaises(axioms: seq<Signatures.Axiom>, k: nat, tb: Tables)
    requires 0 < k <= |axioms| && EmptyAxiomsEncoding(axioms[..k], tb).Failure?
    ensures EmptyAxiomsEncoding(axioms, tb) == EmptyAxiomsEncoding(axioms[..k], tb)
    decreases |axioms| - k
  {
    if k < |axioms| {
      var next := axioms[..k + 1];
      assert next[..|next| - 1] == axioms[..k];
      assert EmptyAxiomsEncoding(next, tb) == EmptyAxiomsEncoding(axioms[..k], tb);
      PrefixRaises(axioms, k + 1, tb);
    } else {
      assert axioms[..k] == axioms;
    }
  }

  /** Lines 57-89 of `find_models`: the tables, then the range constraints,
      then the constraints of every axiom in order, or the error an axiom
      raises at a size of 0 or below. */
  method EncodeSignature(sig: Signatures.Signature, n: int) returns (tb: Tables, r: Result<seq<Constraint>>)
    ensures tb == TablesFor(sig.operations, n)
    ensures r == SignatureEncodingAt(sig, n)
  {
    var bounds;
    tb, bounds := BuildTables(sig.operations, n);
    if n >= 1 {
      var axiomConstraints := EncodeAxioms(sig.axioms, n, tb);
      r := Success(bounds + axiomConstraints);
    } else {
      var axiomConstraints := EncodeEmptyAxioms(sig.axioms, tb);
      r := if axiomConstraints.Failure? then Failure(axiomConstraints.error) else Success(bounds + axiomConstraints.value);
    }
  }
}
