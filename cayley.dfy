/** Finite models as Cayley tables (src/models/cayley.py): one `n`×`n` table
    per operation, entry `[i][j]` being `i op j`. No query writes a table, so
    tables are values; the queries are the source's loops with early exits. */
module Cayley {
  import opened Wrappers
  import Grids
  import Sorting
  import Signatures

  type Table = seq<seq<int>>

  /** `CayleyTable`. */
  datatype CayleyTable = CayleyTable(size: int, tables: map<string, Table>, constants: map<string, int>)

  /** An `n`×`n` table. */
  predicate Square(t: Table, n: int) {
    |t| == n && forall i :: 0 <= i < n ==> |t[i]| == n
  }

  /** Every entry is an element of the domain, so entries can index the table. */
  predicate Closed(t: Table, n: int)
    requires Square(t, n)
  {
    forall i, j :: 0 <= i < n && 0 <= j < n ==> 0 <= t[i][j] < n
  }

  /** Every table of the model is `size`×`size`. */
  predicate Valid(m: CayleyTable) {
    m.size >= 0 && forall op :: op in m.tables ==> Square(m.tables[op], m.size)
  }

  // ---- Sets of values ----

  /** `set(s)`. */
  function Values(s: seq<int>): set<int> {
    set x | x in s
  }

  /** `table[:, j]`. */
  function Column(t: Table, n: int, j: int): (c: seq<int>)
    requires Square(t, n) && 0 <= j < n
    ensures |c| == n && forall i :: 0 <= i < n ==> c[i] == t[i][j]
  {
    seq(n, i requires 0 <= i < n => t[i][j])
  }

  /** A list has at most as many distinct values as entries, and exactly as
      many when no value repeats. */
  lemma {:induction false} ValuesCount(s: seq<int>)
    ensures |Values(s)| <= |s|
    ensures |Values(s)| == |s| <==> Sorting.Distinct(s)
  {
    if s != [] {
      var m := |s| - 1;
      var init := s[..m];
      ValuesCount(init);
      assert s == init + [s[m]];
      assert Values(s) == Values(init) + {s[m]};
      if Sorting.Distinct(s) {
        assert Sorting.Distinct(init) by {
          forall i, j | 0 <= i < j < m ensures init[i] != init[j] {
            assert init[i] == s[i] && init[j] == s[j];
          }
        }
        assert s[m] !in Values(init) by {
          forall i | 0 <= i < m ensures init[i] != s[m] {
            assert init[i] == s[i];
          }
        }
      } else {
        var i, j :| 0 <= i < j < |s| && s[i] == s[j];
        if j < m {
          assert init[i] == init[j];
          assert !Sorting.Distinct(init);
        } else {
          assert s[m] in Values(init) by {
            assert init[i] == s[m];
          }
        }
      }
    }
  }

  // ---- is_latin_square ----

  /** Every row and every column holds `n` distinct values. */
  predicate Latin(t: Table, n: int)
    requires Square(t, n)
  {
    forall i :: 0 <= i < n ==> |Values(t[i])| == n && |Values(Column(t, n, i))| == n
  }

  /** Row `i` holds `n` distinct values exactly when no value repeats in it,
      and likewise for column `i`. */
  lemma NoRepeatsAt(t: Table, n: int, i: int)
    requires Square(t, n) && 0 <= i < n
    ensures |Values(t[i])| == n <==> forall j, k :: 0 <= j < k < n ==> t[i][j] != t[i][k]
    ensures |Values(Column(t, n, i))| == n <==> forall j, k :: 0 <= j < k < n ==> t[j][i] != t[k][i]
  {
    ValuesCount(t[i]);
    var c := Column(t, n, i);
    ValuesCount(c);
    if Sorting.Distinct(c) {
      forall j, k | 0 <= j < k < n ensures t[j][i] != t[k][i] {
        assert c[j] != c[k];
      }
    }
    if forall j, k :: 0 <= j < k < n ==> t[j][i] != t[k][i] {
      forall j, k | 0 <= j < k < n ensures c[j] != c[k] {
        assert t[j][i] != t[k][i];
      }
    }
  }

  /** No value repeats in row `i`. */
  predicate RowNoRepeats(t: Table, n: int, i: int)
    requires Square(t, n) && 0 <= i < n
  {
    forall j, k :: 0 <= j < k < n ==> t[i][j] != t[i][k]
  }

  /** No value repeats in column `i`. */
  predicate ColumnNoRepeats(t: Table, n: int, i: int)
    requires Square(t, n) && 0 <= i < n
  {
    forall j, k :: 0 <= j < k < n ==> t[j][i] != t[k][i]
  }

  /** A square table is Latin exactly when no value repeats in a row or a
      column. */
  lemma LatinIffNoRepeats(t: Table, n: int)
    requires Square(t, n)
    ensures Latin(t, n) <==> forall i :: 0 <= i < n ==> RowNoRepeats(t, n, i) && ColumnNoRepeats(t, n, i)
  {
    forall i | 0 <= i < n
      ensures (|Values(t[i])| == n && |Values(Column(t, n, i))| == n) <==> RowNoRepeats(t, n, i) && ColumnNoRepeats(t, n, i)
    {
      NoRepeatsAt(t, n, i);
    }
  }

  /** `is_latin_square` (lines 23-34). */
  method IsLatinSquare(m: CayleyTable, op: string) returns (r: bool)
    requires Valid(m)
    ensures r <==> op in m.tables && Latin(m.tables[op], m.size)
  {
    if op !in m.tables {
      return false;
    }
    var t, n := m.tables[op], m.size;
    for i := 0 to n
      invariant forall k :: 0 <= k < i ==> |Values(t[k])| == n && |Values(Column(t, n, k))| == n
    {
      if |Values(t[i])| != n {
        return false;
      }
      if |Values(Column(t, n, i))| != n {
        return false;
      }
    }
    return true;
  }

  // ---- is_commutative ----

  /** `table.T`. */
  function Transpose(t: Table, n: int): (r: Table)
    requires Square(t, n)
    ensures Square(r, n) && forall i, j :: 0 <= i < n && 0 <= j < n ==> r[i][j] == t[j][i]
  {
    seq(n, i requires 0 <= i < n => Column(t, n, i))
  }

  /** `is_commutative` (lines 36-40): the table equals its transpose, that is,
      `i op j == j op i` everywhere. */
  function IsCommutative(m: CayleyTable, op: string): (r: bool)
    requires Valid(m)
    ensures r <==> op in m.tables && forall i, j :: 0 <= i < m.size && 0 <= j < m.size ==> m.tables[op][i][j] == m.tables[op][j][i]
  {
    if op !in m.tables then false
    else
      var t, n := m.tables[op], m.size;
      var tt := Transpose(t, n);
      assert (forall i, j :: 0 <= i < n && 0 <= j < n ==> t[i][j] == t[j][i]) ==> t == tt by {
        if forall i, j :: 0 <= i < n && 0 <= j < n ==> t[i][j] == t[j][i] {
          forall i | 0 <= i < n ensures t[i] == tt[i] {
          }
        }
      }
      t == tt
  }

  // ---- has_identity ----

  /** `e op x == x == x op e` for every `x`. */
  predicate IsIdentity(t: Table, n: int, e: int)
    requires Square(t, n) && 0 <= e < n
  {
    forall x :: 0 <= x < n ==> t[e][x] == x && t[x][e] == x
  }

  /** `has_identity` (lines 42-56): the least identity element, or `None`. */
  method HasIdentity(m: CayleyTable, op: string) returns (r: Option<int>)
    requires Valid(m)
    ensures op !in m.tables ==> r == None
    ensures op in m.tables && r.Some? ==>
      0 <= r.value < m.size && IsIdentity(m.tables[op], m.size, r.value) &&
      forall e :: 0 <= e < r.value ==> !IsIdentity(m.tables[op], m.size, e)
    ensures op in m.tables && r.None? ==> forall e :: 0 <= e < m.size ==> !IsIdentity(m.tables[op], m.size, e)
  {
    if op !in m.tables {
      return None;
    }
    var t, n := m.tables[op], m.size;
    for e := 0 to n
      invariant forall d :: 0 <= d < e ==> !IsIdentity(t, n, d)
    {
      var isId := true;
      var x := 0;
      while x < n
        invariant 0 <= x <= n
        invariant isId ==> forall y :: 0 <= y < x ==> t[e][y] == y && t[y][e] == y
        invariant !isId ==> !IsIdentity(t, n, e)
      {
        if t[e][x] != x || t[x][e] != x {
          isId := false;
          break;
        }
        x := x + 1;
      }
      if isId {
        return Some(e);
      }
    }
    return None;
  }

  /** A table has at most one identity element. */
  lemma IdentityUnique(t: Table, n: int, e1: int, e2: int)
    requires Square(t, n) && 0 <= e1 < n && 0 <= e2 < n
    requires IsIdentity(t, n, e1) && IsIdentity(t, n, e2)
    ensures e1 == e2
  {
    assert t[e1][e2] == e2;
    assert t[e1][e2] == e1;
  }

  // ---- is_associative ----

  /** `(a op b) op c == a op (b op c)`. */
  predicate AssocAt(t: Table, n: int, a: int, b: int, c: int)
    requires Square(t, n) && Closed(t, n) && 0 <= a < n && 0 <= b < n && 0 <= c < n
  {
    t[t[a][b]][c] == t[a][t[b][c]]
  }

  predicate Associative(t: Table, n: int)
    requires Square(t, n) && Closed(t, n)
  {
    forall a, b, c :: 0 <= a < n && 0 <= b < n && 0 <= c < n ==> AssocAt(t, n, a, b, c)
  }

  /** `is_associative` (lines 58-68). Entries index the table, so they must be
      domain elements. */
  method IsAssociative(m: CayleyTable, op: string) returns (r: bool)
    requires Valid(m)
    requires op in m.tables ==> Closed(m.tables[op], m.size)
    ensures r <==> op in m.tables && Associative(m.tables[op], m.size)
  {
    if op !in m.tables {
      return false;
    }
    var t, n := m.tables[op], m.size;
    for a := 0 to n
      invariant forall x, y, z :: 0 <= x < a && 0 <= y < n && 0 <= z < n ==> AssocAt(t, n, x, y, z)
    {
      for b := 0 to n
        invariant forall y, z :: 0 <= y < b && 0 <= z < n ==> AssocAt(t, n, a, y, z)
      {
        for c := 0 to n
          invariant forall z :: 0 <= z < c ==> AssocAt(t, n, a, b, z)
        {
          if t[t[a][b]][c] != t[a][t[b][c]] {
            assert !AssocAt(t, n, a, b, c);
            return false;
          }
        }
      }
    }
    return true;
  }

  // ---- symmetry_score ----

  /** The distinct values of row `i` plus those of column `i`. */
  function Uniques(t: Table, n: int, i: int): (u: nat)
    requires Square(t, n) && 0 <= i < n
    ensures u <= 2 * n
    ensures u == 2 * n <==> |Values(t[i])| == n && |Values(Column(t, n, i))| == n
  {
    ValuesCount(t[i]);
    ValuesCount(Column(t, n, i));
    |Values(t[i])| + |Values(Column(t, n, i))|
  }

  /** The score accumulated over the first `k` rows and columns. */
  function ScoreSum(t: Table, n: int, k: int): real
    requires Square(t, n) && n >= 1 && 0 <= k <= n
  {
    if k == 0 then 0.0 else ScoreSum(t, n, k - 1) + Uniques(t, n, k - 1) as real / (2 * n) as real
  }

  /** A fraction `q / d` of a positive `d` with `0 <= q <= d` lies in [0, 1],
      and is 1 exactly when `q == d`. */
  lemma FractionBounds(q: real, d: real)
    requires 0.0 < d && 0.0 <= q <= d
    ensures 0.0 <= q / d <= 1.0
    ensures q / d == 1.0 <==> q == d
  {
    if q / d == 1.0 {
      assert q == (q / d) * d;
    }
  }

  /** After `k` rows the score lies in [0, k], and equals `k` exactly when
      each of those rows and columns holds `n` distinct values. */
  lemma {:induction false} ScoreSumBounds(t: Table, n: int, k: int)
    requires Square(t, n) && n >= 1 && 0 <= k <= n
    ensures 0.0 <= ScoreSum(t, n, k) <= k as real
    ensures ScoreSum(t, n, k) == k as real <==> forall i :: 0 <= i < k ==> Uniques(t, n, i) == 2 * n
  {
    if k > 0 {
      ScoreSumBounds(t, n, k - 1);
      FractionBounds(Uniques(t, n, k - 1) as real, (2 * n) as real);
    }
  }

  /** The score of a table lies in [0, 1], and is 1 exactly for a Latin square. */
  lemma ScoreMeaning(t: Table, n: int)
    requires Square(t, n) && n >= 1
    ensures 0.0 <= ScoreSum(t, n, n) / n as real <= 1.0
    ensures ScoreSum(t, n, n) / n as real == 1.0 <==> Latin(t, n)
  {
    ScoreSumBounds(t, n, n);
    FractionBounds(ScoreSum(t, n, n), n as real);
    if Latin(t, n) {
      forall i | 0 <= i < n ensures Uniques(t, n, i) == 2 * n {
        assert |Values(t[i])| == n && |Values(Column(t, n, i))| == n;
      }
    }
    if forall i :: 0 <= i < n ==> Uniques(t, n, i) == 2 * n {
      forall i | 0 <= i < n ensures |Values(t[i])| == n && |Values(Column(t, n, i))| == n {
        assert Uniques(t, n, i) == 2 * n;
      }
    }
  }

  /** What Python raises for `0.0 / 0`. */
  const FloatDivisionByZero := "ZeroDivisionError: float division by zero"

  /** `symmetry_score` (lines 105-116): the mean over `i` of the distinct
      values of row `i` and column `i`, as a fraction of `2n`. A model of size
      0 that has the table adds nothing and then divides by zero. */
  method SymmetryScore(m: CayleyTable, op: string) returns (r: Result<real>)
    requires Valid(m)
    ensures op !in m.tables ==> r == Success(0.0)
    ensures op in m.tables && m.size == 0 ==> r == Failure(FloatDivisionByZero)
    ensures op in m.tables && m.size >= 1 ==> r == Success(ScoreSum(m.tables[op], m.size, m.size) / m.size as real)
    ensures r.Success? ==> 0.0 <= r.value <= 1.0
    ensures r.Success? && op in m.tables ==> (r.value == 1.0 <==> Latin(m.tables[op], m.size))
  {
    if op !in m.tables {
      return Success(0.0);
    }
    var t, n := m.tables[op], m.size;
    if n == 0 {
      return Failure(FloatDivisionByZero);
    }
    var score := 0.0;
    for i := 0 to n
      invariant score == ScoreSum(t, n, i)
    {
      var rowUnique := |Values(t[i])|;
      var colUnique := |Values(Column(t, n, i))|;
      assert rowUnique + colUnique == Uniques(t, n, i);
      score := score + (rowUnique + colUnique) as real / (2 * n) as real;
    }
    ScoreMeaning(t, n);
    return Success(score / n as real);
  }

  // ---- Permutations ----

  /** `s` without its element at `i`. */
  function Remove(s: seq<int>, i: int): (r: seq<int>)
    requires 0 <= i < |s|
    ensures |r| == |s| - 1
  {
    s[..i] + s[i + 1..]
  }

  /** `itertools.permutations(s)`, in its order: first those starting with
      `s[0]`, then those starting with `s[1]`, and so on. */
  function Perms(s: seq<int>): seq<seq<int>>
    decreases |s|, |s| + 1
  {
    if s == [] then [[]] else PermsFrom(s, 0)
  }

  /** The permutations of `s` that start with `s[i]`, `s[i + 1]`, …. */
  function PermsFrom(s: seq<int>, i: int): seq<seq<int>>
    requires 0 <= i <= |s|
    decreases |s|, |s| - i
  {
    if i == |s| then []
    else Grids.PrefixAll(s[i], Perms(Remove(s, i))) + PermsFrom(s, i + 1)
  }

  /** `range(n)`. */
  function Range(n: nat): (r: seq<int>)
    ensures |r| == n && forall i :: 0 <= i < n ==> r[i] == i
  {
    seq(n, i => i)
  }

  function AllPerms(n: nat): seq<seq<int>> {
    Perms(Range(n))
  }

  /** Every listed permutation of `s` rearranges `s`. */
  lemma {:induction false} PermsRearrange(s: seq<int>)
    ensures forall p :: p in Perms(s) ==> multiset(p) == multiset(s)
    decreases |s|, |s| + 1
  {
    if s != [] {
      PermsFromRearrange(s, 0);
    }
  }

  lemma {:induction false} PermsFromRearrange(s: seq<int>, i: int)
    requires 0 <= i <= |s|
    ensures forall p :: p in PermsFrom(s, i) ==> multiset(p) == multiset(s)
    decreases |s|, |s| - i
  {
    if i < |s| {
      var rest := Remove(s, i);
      PermsRearrange(rest);
      PermsFromRearrange(s, i + 1);
      RemoveMultiset(s, i);
      var front := Grids.PrefixAll(s[i], Perms(rest));
      PrefixRearranges(s[i], Perms(rest), multiset(rest));
      assert PermsFrom(s, i) == front + PermsFrom(s, i + 1);
    }
  }

  /** Putting `x` in front of rearrangements of `m` gives rearrangements of
      `m` plus `x`. */
  lemma PrefixRearranges(x: int, ps: seq<seq<int>>, m: multiset<int>)
    requires forall q :: q in ps ==> multiset(q) == m
    ensures forall p :: p in Grids.PrefixAll(x, ps) ==> multiset(p) == m + multiset{x}
  {
    var front := Grids.PrefixAll(x, ps);
    forall p | p in front ensures multiset(p) == m + multiset{x} {
      var j :| 0 <= j < |front| && front[j] == p;
      assert ps[j] in ps;
      assert p == [x] + ps[j];
    }
  }

  lemma RemoveMultiset(s: seq<int>, i: int)
    requires 0 <= i < |s|
    ensures multiset(s) == multiset(Remove(s, i)) + multiset{s[i]}
  {
    assert s == s[..i] + [s[i]] + s[i + 1..];
  }

  /** `s` itself is among its permutations (the identity rearrangement). */
  lemma {:induction false} PermsHoldIdentity(s: seq<int>)
    ensures s in Perms(s)
    decreases |s|
  {
    if s != [] {
      var rest := Remove(s, 0);
      assert rest == s[1..];
      PermsHoldIdentity(rest);
      var j :| 0 <= j < |Perms(rest)| && Perms(rest)[j] == rest;
      var front := Grids.PrefixAll(s[0], Perms(rest));
      assert front[j] == [s[0]] + rest == s;
      assert PermsFrom(s, 0) == front + PermsFrom(s, 1);
    }
  }

  /** A bijection of `range(n)` onto itself. */
  predicate IsPermutation(p: seq<int>, n: int) {
    |p| == n && (forall k :: 0 <= k < |p| ==> 0 <= p[k] < n) && Sorting.Distinct(p)
  }

  /** Everything `permutations(range(n))` lists is a bijection of the domain,
      and the identity is listed. */
  lemma AllPermsArePermutations(n: nat)
    ensures forall k :: 0 <= k < |AllPerms(n)| ==> IsPermutation(AllPerms(n)[k], n)
    ensures Range(n) in AllPerms(n)
  {
    var r := Range(n);
    PermsRearrange(r);
    PermsHoldIdentity(r);
    assert Sorting.Distinct(r);
    forall k | 0 <= k < |AllPerms(n)| ensures IsPermutation(AllPerms(n)[k], n) {
      var p := AllPerms(n)[k];
      assert p in Perms(r);
      assert multiset(p) == multiset(r);
      assert |p| == n by {
        assert |multiset(p)| == |p| && |multiset(r)| == |r|;
      }
      forall q | 0 <= q < |p| ensures 0 <= p[q] < n {
        assert p[q] in multiset(r);
      }
      Sorting.DistinctPermutation(r, p);
    }
  }

  // ---- Structure-preserving relabellings ----

  /** `perm[t1[a][b]] == t2[perm[a]][perm[b]]` for all `a`, `b`: `p` carries
      `t1` onto `t2`. */
  predicate MapsUnder(t1: Table, t2: Table, n: int, p: seq<int>)
    requires Square(t1, n) && Square(t2, n) && Closed(t1, n) && IsPermutation(p, n)
  {
    forall a, b :: 0 <= a < n && 0 <= b < n ==> p[t1[a][b]] == t2[p[a]][p[b]]
  }

  /** `p` is a bijection of the domain that carries `t1` onto `t2`. */
  predicate Relabels(t1: Table, t2: Table, n: int, p: seq<int>)
    requires Square(t1, n) && Square(t2, n) && Closed(t1, n)
  {
    IsPermutation(p, n) && MapsUnder(t1, t2, n, p)
  }

  /** The inner double loop of `automorphism_count_estimate` and
      `models_are_isomorphic` (the `is_auto` / `match` flag). */
  method CheckRelabelling(t1: Table, t2: Table, n: int, p: seq<int>) returns (ok: bool)
    requires Square(t1, n) && Square(t2, n) && Closed(t1, n) && IsPermutation(p, n)
    ensures ok == MapsUnder(t1, t2, n, p)
  {
    ok := true;
    var a := 0;
    while a < n
      invariant 0 <= a <= n && ok
      invariant forall x, y :: 0 <= x < a && 0 <= y < n ==> p[t1[x][y]] == t2[p[x]][p[y]]
    {
      var b := 0;
      while b < n
        invariant 0 <= b <= n && ok
        invariant forall y :: 0 <= y < b ==> p[t1[a][y]] == t2[p[a]][p[y]]
      {
        if p[t1[a][b]] != t2[p[a]][p[b]] {
          ok := false;
          break;
        }
        b := b + 1;
      }
      if !ok {
        break;
      }
      a := a + 1;
    }
  }

  /** The number of listed permutations that carry `t1` onto `t2`. */
  function CountMaps(t1: Table, t2: Table, n: int, ps: seq<seq<int>>): (c: nat)
    requires Square(t1, n) && Square(t2, n) && Closed(t1, n)
    ensures c <= |ps|
  {
    if ps == [] then 0
    else CountMaps(t1, t2, n, ps[..|ps| - 1]) + (if Relabels(t1, t2, n, ps[|ps| - 1]) then 1 else 0)
  }

  /** The count is positive exactly when some listed permutation carries `t1`
      onto `t2`. */
  lemma {:induction false} CountMapsPositive(t1: Table, t2: Table, n: int, ps: seq<seq<int>>)
    requires Square(t1, n) && Square(t2, n) && Closed(t1, n)
    ensures CountMaps(t1, t2, n, ps) >= 1 <==> exists k :: 0 <= k < |ps| && Relabels(t1, t2, n, ps[k])
  {
    if ps != [] {
      var m := |ps| - 1;
      var init := ps[..m];
      assert forall k :: 0 <= k < m ==> init[k] == ps[k];
      CountMapsPositive(t1, t2, n, init);
      if exists k :: 0 <= k < |ps| && Relabels(t1, t2, n, ps[k]) {
        var k :| 0 <= k < |ps| && Relabels(t1, t2, n, ps[k]);
        if k < m {
          assert Relabels(t1, t2, n, init[k]);
        } else {
          assert ps[k] == ps[m];
        }
      }
    }
  }

  /** `automorphism_count_estimate` (lines 118-138): 0 without the table or
      above size 8; otherwise the number of permutations of the domain that
      are automorphisms. */
  method AutomorphismCountEstimate(m: CayleyTable, op: string) returns (count: nat)
    requires Valid(m)
    requires op in m.tables && m.size <= 8 ==> Closed(m.tables[op], m.size)
    ensures op !in m.tables || m.size > 8 ==> count == 0
    ensures op in m.tables && m.size <= 8 ==> count == CountMaps(m.tables[op], m.tables[op], m.size, AllPerms(m.size))
  {
    if op !in m.tables || m.size > 8 {
      return 0;
    }
    var t, n := m.tables[op], m.size;
    AllPermsArePermutations(n);
    count := CountRelabellings(t, t, n, AllPerms(n));
  }

  /** The loop over `permutations(range(n))` of `automorphism_count_estimate`:
      how many of the listed bijections carry `t1` onto `t2`. */
  method CountRelabellings(t1: Table, t2: Table, n: int, perms: seq<seq<int>>) returns (count: nat)
    requires Square(t1, n) && Square(t2, n) && Closed(t1, n)
    requires forall k :: 0 <= k < |perms| ==> IsPermutation(perms[k], n)
    ensures count == CountMaps(t1, t2, n, perms)
  {
    count := 0;
    var k := 0;
    while k < |perms|
      invariant 0 <= k <= |perms|
      invariant count == CountMaps(t1, t2, n, perms[..k])
    {
      var p := perms[k];
      assert IsPermutation(p, n);
      var isAuto := CheckRelabelling(t1, t2, n, p);
      assert perms[..k + 1][..k] == perms[..k];
      assert CountMaps(t1, t2, n, perms[..k + 1])
        == CountMaps(t1, t2, n, perms[..k]) + (if Relabels(t1, t2, n, p) then 1 else 0);
      if isAuto {
        count := count + 1;
      }
      k := k + 1;
    }
    assert perms[..k] == perms;
  }

  /** The identity is an automorphism of every table, so the estimate is at
      least 1 whenever it is computed, and at most the number of permutations. */
  lemma AutomorphismsAtLeastOne(t: Table, n: nat)
    requires Square(t, n) && Closed(t, n)
    ensures 1 <= CountMaps(t, t, n, AllPerms(n)) <= |AllPerms(n)|
  {
    AllPermsArePermutations(n);
    var ps := AllPerms(n);
    var k :| 0 <= k < |ps| && ps[k] == Range(n);
    assert Relabels(t, t, n, ps[k]);
    CountMapsPositive(t, t, n, ps);
  }

  /** Some permutation of the domain carries `t1` onto `t2`. */
  predicate Isomorphic(t1: Table, t2: Table, n: nat)
    requires Square(t1, n) && Square(t2, n) && Closed(t1, n)
  {
    exists k :: 0 <= k < |AllPerms(n)| && Relabels(t1, t2, n, AllPerms(n)[k])
  }

  /** `models_are_isomorphic` (lines 160-186): false for different sizes or
      above size 10; otherwise whether some permutation carries the first
      table onto the second. Both models must have the table. */
  method ModelsAreIsomorphic(m1: CayleyTable, m2: CayleyTable, op: string) returns (r: bool)
    requires Valid(m1) && Valid(m2)
    requires m1.size == m2.size && m1.size <= 10 ==>
      op in m1.tables && op in m2.tables && Closed(m1.tables[op], m1.size)
    ensures r <==> m1.size == m2.size && m1.size <= 10 && Isomorphic(m1.tables[op], m2.tables[op], m1.size)
  {
    if m1.size != m2.size {
      return false;
    }
    if m1.size > 10 {
      return false;
    }
    var n := m1.size;
    AllPermsArePermutations(n);
    r := FindRelabelling(m1.tables[op], m2.tables[op], n, AllPerms(n));
  }

  /** The loop over `permutations(range(n))` of `models_are_isomorphic`:
      whether one of the listed bijections carries `t1` onto `t2`, stopping at
      the first. */
  method FindRelabelling(t1: Table, t2: Table, n: int, perms: seq<seq<int>>) returns (found: bool)
    requires Square(t1, n) && Square(t2, n) && Closed(t1, n)
    requires forall k :: 0 <= k < |perms| ==> IsPermutation(perms[k], n)
    ensures found <==> exists k :: 0 <= k < |perms| && Relabels(t1, t2, n, perms[k])
  {
    for k := 0 to |perms|
      invariant forall j :: 0 <= j < k ==> !Relabels(t1, t2, n, perms[j])
    {
      var p := perms[k];
      assert IsPermutation(p, n);
      var matched := CheckRelabelling(t1, t2, n, p);
      if matched {
        assert Relabels(t1, t2, n, perms[k]);
        return true;
      }
    }
    return false;
  }

  /** A table is isomorphic to itself (by the identity). */
  lemma IsomorphicToItself(t: Table, n: nat)
    requires Square(t, n) && Closed(t, n)
    ensures Isomorphic(t, t, n)
  {
    AllPermsArePermutations(n);
    var ps := AllPerms(n);
    var k :| 0 <= k < |ps| && ps[k] == Range(n);
    assert Relabels(t, t, n, ps[k]);
  }

  /** The one-element sequence has itself as its only permutation. */
  lemma PermsSingleton(x: int)
    ensures Perms([x]) == [[x]]
  {
    assert Remove([x], 0) == [];
    assert Perms([]) == [[]];
    var r := Grids.PrefixAll(x, [[]]);
    assert |r| == 1 && r[0] == [x];
    assert PermsFrom([x], 1) == [];
    assert PermsFrom([x], 0) == Grids.PrefixAll(x, [[]]) + PermsFrom([x], 1);
  }

  /** `permutations(range(2))` lists the identity, then the swap. */
  lemma AllPermsOfTwo()
    ensures AllPerms(2) == [[0, 1], [1, 0]]
  {
    var r := Range(2);
    assert r == [0, 1];
    assert Remove(r, 0) == [1] && Remove(r, 1) == [0];
    PermsSingleton(0);
    PermsSingleton(1);
    assert PermsFrom(r, 2) == [];
    var p1, p0 := Grids.PrefixAll(1, [[0]]), Grids.PrefixAll(0, [[1]]);
    assert |p1| == 1 && p1[0] == [1, 0];
    assert |p0| == 1 && p0[0] == [0, 1];
    assert PermsFrom(r, 1) == Grids.PrefixAll(1, Perms([0])) + PermsFrom(r, 2);
    assert PermsFrom(r, 1) == [[1, 0]];
    assert PermsFrom(r, 0) == Grids.PrefixAll(0, Perms([1])) + PermsFrom(r, 1);
  }

  // ---- to_dict / from_dict ----

  /** A dictionary in the shape `to_dict` produces. Each key may be absent
      from a dictionary built elsewhere. */
  datatype CayleyDict = CayleyDict(size: Option<int>, tables: Option<map<string, Table>>, constants: Option<map<string, int>>)

  /** `to_dict` (lines 140-145): `tolist()` keeps every entry. */
  function ToDict(m: CayleyTable): CayleyDict {
    CayleyDict(Some(m.size), Some(m.tables), Some(m.constants))
  }

  /** `from_dict` (lines 147-153): `data["size"]` and `data["tables"]` raise
      `KeyError` in that order when missing; a missing `constants` entry
      gives none. */
  function FromDict(d: CayleyDict): (r: Result<CayleyTable>)
    ensures r.Failure? <==> d.size.None? || d.tables.None?
    ensures d.size.None? ==> r == Failure(Signatures.MissingKey("size"))
    ensures d.size.Some? && d.tables.None? ==> r == Failure(Signatures.MissingKey("tables"))
    ensures r.Success? ==> r.value.size == d.size.value && r.value.tables == d.tables.value
    ensures r.Success? ==> r.value.constants == (if d.constants.Some? then d.constants.value else map[])
  {
    if d.size.None? then Failure(Signatures.MissingKey("size"))
    else if d.tables.None? then Failure(Signatures.MissingKey("tables"))
    else Success(CayleyTable(d.size.value, d.tables.value, if d.constants.Some? then d.constants.value else map[]))
  }

  /** `from_dict(to_dict(m))` gives back `m`: the same size, tables and
      constants, and no error. */
  lemma DictRoundTrip(m: CayleyTable)
    ensures FromDict(ToDict(m)) == Success(m)
  {
  }

  /** A dictionary that reads back is the `to_dict` form of what it reads as,
      up to a missing `constants` entry. */
  lemma DictReadBack(d: CayleyDict)
    requires FromDict(d).Success?
    ensures ToDict(FromDict(d).value) == d.(constants := Some(FromDict(d).value.constants))
  {
  }
}
