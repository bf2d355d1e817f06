/** Concatenations over index ranges: the shape of the loops that visit every
    index `i < n`, or every pair `i < j < m` row by row. Stated for an
    arbitrary block function so that facts about the shape are proved once. */
module Grids {
  /** `(x,) + t` for every tuple `t` of `rest`, in order. */
  function PrefixAll<T>(x: T, rest: seq<seq<T>>): (r: seq<seq<T>>)
    ensures |r| == |rest| && forall j :: 0 <= j < |rest| ==> r[j] == [x] + rest[j]
  {
    if rest == [] then [] else [[x] + rest[0]] + PrefixAll(x, rest[1..])
  }

  /** The blocks `f(0), ..., f(n - 1)`, concatenated. */
  function Line<T>(f: nat -> seq<T>, n: nat): seq<T> {
    if n == 0 then [] else Line(f, n - 1) + f(n - 1)
  }

  /** Row `i` of the upper triangle: the blocks `f(i, j)` for `i < j < n`. */
  function Row<T>(f: (nat, nat) -> seq<T>, i: nat, n: nat): seq<T> {
    if n == 0 then [] else Row(f, i, n - 1) + (if i < n - 1 then f(i, n - 1) else [])
  }

  /** Rows `0 .. n - 1` of the upper triangle of an `m`-wide grid. */
  function Triangle<T>(f: (nat, nat) -> seq<T>, m: nat, n: nat): seq<T> {
    if n == 0 then [] else Triangle(f, m, n - 1) + Row(f, n - 1, m)
  }

  /** When every block of `f` is a block of `g` followed by a block of `h`, a
      row of `f` is as long as the rows of `g` and `h` together and holds
      exactly their elements. */
  lemma {:induction false} RowSplit<T>(f: (nat, nat) -> seq<T>, g: (nat, nat) -> seq<T>, h: (nat, nat) -> seq<T>,
                                       i: nat, n: nat)
    requires forall a, b :: f(a, b) == g(a, b) + h(a, b)
    ensures |Row(f, i, n)| == |Row(g, i, n)| + |Row(h, i, n)|
    ensures forall x :: x in Row(f, i, n) <==> x in Row(g, i, n) || x in Row(h, i, n)
  {
    if n > 0 {
      RowSplit(f, g, h, i, n - 1);
      if i < n - 1 {
        assert f(i, n - 1) == g(i, n - 1) + h(i, n - 1);
      }
    }
  }

  /** The same for the whole triangle. */
  lemma {:induction false} TriangleSplit<T>(f: (nat, nat) -> seq<T>, g: (nat, nat) -> seq<T>, h: (nat, nat) -> seq<T>,
                                            m: nat, n: nat)
    requires forall a, b :: f(a, b) == g(a, b) + h(a, b)
    ensures |Triangle(f, m, n)| == |Triangle(g, m, n)| + |Triangle(h, m, n)|
    ensures forall x :: x in Triangle(f, m, n) <==> x in Triangle(g, m, n) || x in Triangle(h, m, n)
  {
    if n > 0 {
      TriangleSplit(f, g, h, m, n - 1);
      RowSplit(f, g, h, n - 1, m);
    }
  }

  /** When every block of `f` is the concatenation of blocks of six functions,
      the line of `f` is as long as their six lines together and holds exactly
      their elements. */
  lemma {:induction false} LineSplit6<T>(f: nat -> seq<T>, g1: nat -> seq<T>, g2: nat -> seq<T>, g3: nat -> seq<T>,
                                         g4: nat -> seq<T>, g5: nat -> seq<T>, g6: nat -> seq<T>, n: nat)
    requires forall a :: f(a) == g1(a) + g2(a) + g3(a) + g4(a) + g5(a) + g6(a)
    ensures |Line(f, n)|
      == |Line(g1, n)| + |Line(g2, n)| + |Line(g3, n)| + |Line(g4, n)| + |Line(g5, n)| + |Line(g6, n)|
    ensures forall x :: x in Line(f, n) <==>
      x in Line(g1, n) || x in Line(g2, n) || x in Line(g3, n) || x in Line(g4, n) || x in Line(g5, n) || x in Line(g6, n)
  {
    if n > 0 {
      LineSplit6(f, g1, g2, g3, g4, g5, g6, n - 1);
      assert f(n - 1) == g1(n - 1) + g2(n - 1) + g3(n - 1) + g4(n - 1) + g5(n - 1) + g6(n - 1);
    }
  }
}
