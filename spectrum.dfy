/** The result of one model search and the spectrum of model counts per domain
    size (`Mace4Result`, `ModelSpectrum`), with the loops that fill a spectrum
    size by size. The found models are of an arbitrary type `M`; the solvers
    that produce them are oracles passed in as functions. */
module Spectrum {
  import opened Wrappers
  import Sorting

  /** `Mace4Result`: what every finder returns for one domain size. */
  datatype Mace4Result<M> = Mace4Result(
    domainSize: int,
    modelsFound: seq<M>,
    exitCode: int,
    rawOutput: string,
    error: string,
    timedOut: bool)

  /** `ModelSpectrum`. The two dictionaries are lists of (key, value) entries in
      insertion order, as Python dictionaries keep them. */
  datatype ModelSpectrum<M> = ModelSpectrum(
    signatureName: string,
    spectrum: seq<(int, nat)>,
    modelsBySize: seq<(int, seq<M>)>,
    timedOutSizes: seq<int>)

  function EmptySpectrum<M>(name: string): ModelSpectrum<M> {
    ModelSpectrum(name, [], [], [])
  }

  // ---- Dictionaries as entry lists ----

  function Keys<V>(d: seq<(int, V)>): (r: seq<int>)
    ensures |r| == |d| && forall i :: 0 <= i < |d| ==> r[i] == d[i].0
  {
    if d == [] then [] else [d[0].0] + Keys(d[1..])
  }

  predicate DistinctKeys<V>(d: seq<(int, V)>) {
    forall i, j :: 0 <= i < j < |d| ==> d[i].0 != d[j].0
  }

  /** `d.get(k)`. */
  function Get<V>(d: seq<(int, V)>, k: int): (r: Option<V>)
    ensures r.None? <==> k !in Keys(d)
  {
    if d == [] then None
    else if d[0].0 == k then Some(d[0].1)
    else
      assert Keys(d) == [d[0].0] + Keys(d[1..]);
      Get(d[1..], k)
  }

  /** In a dictionary without repeated keys, every entry is what its key looks up. */
  lemma {:induction false} GetAt<V>(d: seq<(int, V)>, i: int)
    requires DistinctKeys(d) && 0 <= i < |d|
    ensures Get(d, d[i].0) == Some(d[i].1)
  {
    if i > 0 {
      assert d[1..][i - 1] == d[i];
      GetAt(d[1..], i - 1);
    }
  }

  /** `d[k] = v`: an existing key keeps its place and takes the new value, a new
      key goes at the end. */
  function Put<V>(d: seq<(int, V)>, k: int, v: V): (r: seq<(int, V)>)
    ensures Get(r, k) == Some(v)
    ensures k !in Keys(d) ==> r == d + [(k, v)]
  {
    if d == [] then [(k, v)]
    else if d[0].0 == k then [(k, v)] + d[1..]
    else
      var rest := Put(d[1..], k, v);
      assert Keys(d) == [d[0].0] + Keys(d[1..]);
      assert ([d[0]] + rest)[1..] == rest;
      assert k !in Keys(d) ==> [d[0]] + (d[1..] + [(k, v)]) == d + [(k, v)];
      [d[0]] + rest
  }

  /** Setting one key leaves every other key's value alone. */
  lemma {:induction false} PutOther<V>(d: seq<(int, V)>, k: int, v: V, x: int)
    requires x != k
    ensures Get(Put(d, k, v), x) == Get(d, x)
  {
    if d != [] && d[0].0 != k {
      PutOther(d[1..], k, v, x);
      assert ([d[0]] + Put(d[1..], k, v))[1..] == Put(d[1..], k, v);
    }
  }

  // ---- The queries of ModelSpectrum ----

  /** Some entry of `d` has key `x` and a positive count. */
  predicate HasModelsAt(d: seq<(int, nat)>, x: int) {
    exists i :: 0 <= i < |d| && d[i].0 == x && d[i].1 > 0
  }

  lemma HasModelsAtCons(d: seq<(int, nat)>)
    requires d != []
    ensures forall x :: HasModelsAt(d, x) <==> (d[0].0 == x && d[0].1 > 0) || HasModelsAt(d[1..], x)
  {
    forall x | HasModelsAt(d, x) && !(d[0].0 == x && d[0].1 > 0) ensures HasModelsAt(d[1..], x) {
      var i :| 0 <= i < |d| && d[i].0 == x && d[i].1 > 0;
      assert d[1..][i - 1] == d[i];
    }
    forall x | HasModelsAt(d[1..], x) ensures HasModelsAt(d, x) {
      var i :| 0 <= i < |d[1..]| && d[1..][i].0 == x && d[1..][i].1 > 0;
      assert d[i + 1] == d[1..][i];
    }
  }

  /** The keys with a positive count, in entry order. */
  function PositiveSizes(d: seq<(int, nat)>): (r: seq<int>)
    ensures forall x :: x in r <==> HasModelsAt(d, x)
    ensures DistinctKeys(d) ==> forall i, j :: 0 <= i < j < |r| ==> r[i] != r[j]
  {
    if d == [] then []
    else
      var rest := PositiveSizes(d[1..]);
      HasModelsAtCons(d);
      assert DistinctKeys(d) ==> DistinctKeys(d[1..]) && d[0].0 !in rest;
      if d[0].1 > 0 then [d[0].0] + rest else rest
  }

  /** `sizes_with_models`: the sizes with at least one model, ascending. */
  function SizesWithModels<M>(sp: ModelSpectrum<M>): (r: seq<int>)
    ensures Sorting.Sorted(r, Sorting.IntLe)
    ensures forall x :: x in r <==> HasModelsAt(sp.spectrum, x)
    ensures DistinctKeys(sp.spectrum) ==> forall i, j :: 0 <= i < j < |r| ==> r[i] < r[j]
  {
    var p := PositiveSizes(sp.spectrum);
    var r := Sorting.SortBy(p, Sorting.IntLe);
    Sorting.IntLeIsTotal();
    Sorting.SortSorted(p, Sorting.IntLe);
    assert forall x :: x in r <==> x in p by {
      assert forall x :: x in r <==> x in multiset(r);
    }
    if DistinctKeys(sp.spectrum) then
      SortedDistinctAscending(p, r);
      r
    else r
  }

  /** Sorting a list without repeats gives a strictly ascending list. */
  lemma SortedDistinctAscending(p: seq<int>, r: seq<int>)
    requires forall i, j :: 0 <= i < j < |p| ==> p[i] != p[j]
    requires multiset(r) == multiset(p) && Sorting.Sorted(r, Sorting.IntLe)
    ensures forall i, j :: 0 <= i < j < |r| ==> r[i] < r[j]
  {
    Sorting.DistinctPermutation(p, r);
  }

  function Total(d: seq<(int, nat)>): nat {
    if d == [] then 0 else d[0].1 + Total(d[1..])
  }

  /** `total_models`: the sum of the counts. */
  function TotalModels<M>(sp: ModelSpectrum<M>): nat {
    Total(sp.spectrum)
  }

  /** `is_empty`. */
  predicate IsEmpty<M>(sp: ModelSpectrum<M>) {
    TotalModels(sp) == 0
  }

  /** `any_timed_out`. */
  predicate AnyTimedOut<M>(sp: ModelSpectrum<M>) {
    |sp.timedOutSizes| > 0
  }

  /** The total is zero exactly when no count is positive. */
  lemma {:induction false} TotalZero(d: seq<(int, nat)>)
    ensures Total(d) == 0 <==> forall i :: 0 <= i < |d| ==> d[i].1 == 0
  {
    if d != [] {
      TotalZero(d[1..]);
      assert forall i :: 1 <= i < |d| ==> d[i] == d[1..][i - 1];
    }
  }

  /** A spectrum is empty exactly when no size has a model. */
  lemma EmptyIffNoSizes<M>(sp: ModelSpectrum<M>)
    ensures IsEmpty(sp) <==> SizesWithModels(sp) == []
  {
    TotalZero(sp.spectrum);
    var d, r := sp.spectrum, SizesWithModels(sp);
    if r != [] {
      assert r[0] in r && HasModelsAt(d, r[0]);
      var i :| 0 <= i < |d| && d[i].0 == r[0] && d[i].1 > 0;
    }
    if !IsEmpty(sp) {
      var i :| 0 <= i < |d| && d[i].1 != 0;
      assert HasModelsAt(d, d[i].0);
    }
  }

  // ---- Filling a spectrum, size by size ----

  /** How many sizes `range(lo, hi + 1)` holds. */
  function Span(lo: int, hi: int): nat {
    if hi < lo then 0 else hi - lo + 1
  }

  /** Every search of the `n` sizes from `lo` on returns a result: none of
      them raises. */
  predicate Returns<M>(find: int -> Result<Mace4Result<M>>, lo: int, n: nat) {
    forall s :: lo <= s < lo + n ==> find(s).Success?
  }

  /** The search at size `s` raises `e`, and every search before it in the
      range from `lo` returned. */
  predicate RaisesFirstAt<M>(find: int -> Result<Mace4Result<M>>, lo: int, s: int, e: string) {
    lo <= s && find(s) == Failure(e) && Returns(find, lo, s - lo)
  }

  /** The count entries for the `n` sizes from `lo` on, in order. */
  function Counts<M>(find: int -> Result<Mace4Result<M>>, lo: int, n: nat): (r: seq<(int, nat)>)
    requires Returns(find, lo, n)
    ensures |r| == n
  {
    if n == 0 then [] else Counts(find, lo, n - 1) + [(lo + n - 1, |find(lo + n - 1).value.modelsFound|)]
  }

  /** The model-list entries for the `n` sizes from `lo` on, in order. */
  function ModelLists<M>(find: int -> Result<Mace4Result<M>>, lo: int, n: nat): (r: seq<(int, seq<M>)>)
    requires Returns(find, lo, n)
    ensures |r| == n
  {
    if n == 0 then [] else ModelLists(find, lo, n - 1) + [(lo + n - 1, find(lo + n - 1).value.modelsFound)]
  }

  /** Entry `k` of the counts is size `lo + k` with its number of models. */
  lemma {:induction false} CountsAt<M>(find: int -> Result<Mace4Result<M>>, lo: int, n: nat, k: nat)
    requires Returns(find, lo, n) && k < n
    ensures Counts(find, lo, n)[k] == (lo + k, |find(lo + k).value.modelsFound|)
    ensures ModelLists(find, lo, n)[k] == (lo + k, find(lo + k).value.modelsFound)
  {
    if k < n - 1 {
      CountsAt(find, lo, n - 1, k);
    }
  }

  /** The keys of the counts are the sizes `lo` to `lo + n - 1`. */
  lemma {:induction false} CountsKeys<M>(find: int -> Result<Mace4Result<M>>, lo: int, n: nat)
    requires Returns(find, lo, n)
    ensures forall x :: x in Keys(Counts(find, lo, n)) <==> lo <= x < lo + n
    ensures forall x :: x in Keys(ModelLists(find, lo, n)) <==> lo <= x < lo + n
    ensures DistinctKeys(Counts(find, lo, n))
  {
    var c, m := Counts(find, lo, n), ModelLists(find, lo, n);
    forall k | 0 <= k < n ensures c[k].0 == lo + k && m[k].0 == lo + k {
      CountsAt(find, lo, n, k);
    }
    forall x | lo <= x < lo + n ensures x in Keys(c) && x in Keys(m) {
      assert Keys(c)[x - lo] == x && Keys(m)[x - lo] == x;
    }
  }

  /** The count recorded for each size, looked up by size. */
  lemma CountsGet<M>(find: int -> Result<Mace4Result<M>>, lo: int, n: nat)
    requires Returns(find, lo, n)
    ensures forall s :: Get(Counts(find, lo, n), s) == if lo <= s < lo + n then Some(|find(s).value.modelsFound|) else None
  {
    CountsKeys(find, lo, n);
    forall s | lo <= s < lo + n ensures Get(Counts(find, lo, n), s) == Some(|find(s).value.modelsFound|) {
      CountsAt(find, lo, n, s - lo);
      GetAt(Counts(find, lo, n), s - lo);
    }
  }

  /** For a filled spectrum, `sizes_with_models` is exactly the sizes of the
      range whose search found a model, strictly ascending. */
  lemma CountsSizesWithModels<M>(sp: ModelSpectrum<M>, find: int -> Result<Mace4Result<M>>, lo: int, n: nat)
    requires Returns(find, lo, n) && sp.spectrum == Counts(find, lo, n)
    ensures forall s :: s in SizesWithModels(sp) <==> lo <= s < lo + n && |find(s).value.modelsFound| > 0
    ensures forall i, j :: 0 <= i < j < |SizesWithModels(sp)| ==> SizesWithModels(sp)[i] < SizesWithModels(sp)[j]
  {
    CountsKeys(find, lo, n);
    forall s ensures HasModelsAt(sp.spectrum, s) <==> lo <= s < lo + n && |find(s).value.modelsFound| > 0 {
      if lo <= s < lo + n {
        CountsAt(find, lo, n, s - lo);
      }
      if HasModelsAt(sp.spectrum, s) {
        var i :| 0 <= i < n && sp.spectrum[i].0 == s && sp.spectrum[i].1 > 0;
        CountsAt(find, lo, n, i);
      }
    }
  }

  /** `spectrum[size] = len(result.models_found)` and
      `models_by_size[size] = result.models_found`. */
  function Record<M>(sp: ModelSpectrum<M>, size: int, result: Mace4Result<M>): ModelSpectrum<M> {
    sp.(spectrum := Put<nat>(sp.spectrum, size, |result.modelsFound|),
        modelsBySize := Put<seq<M>>(sp.modelsBySize, size, result.modelsFound))
  }

  /** Recording the next size appends one entry to each dictionary. */
  lemma RecordExtends<M>(sp: ModelSpectrum<M>, find: int -> Result<Mace4Result<M>>, lo: int, size: int)
    requires lo <= size && Returns(find, lo, size + 1 - lo)
    requires sp.spectrum == Counts(find, lo, size - lo) && sp.modelsBySize == ModelLists(find, lo, size - lo)
    ensures Record(sp, size, find(size).value).spectrum == Counts(find, lo, size + 1 - lo)
    ensures Record(sp, size, find(size).value).modelsBySize == ModelLists(find, lo, size + 1 - lo)
  {
    CountsKeys(find, lo, size - lo);
  }

  /** A range whose searches all returned grows by a size whose search returned. */
  lemma ReturnsExtends<M>(find: int -> Result<Mace4Result<M>>, lo: int, size: int)
    requires lo <= size && Returns(find, lo, size - lo) && find(size).Success?
    ensures Returns(find, lo, size + 1 - lo)
  {
  }

  /** Recording the next size appends it to the timed-out list exactly when
      its search timed out. */
  lemma TimedOutsExtends<M>(find: int -> Result<Mace4Result<M>>, lo: int, size: int)
    requires lo <= size && Returns(find, lo, size + 1 - lo)
    ensures TimedOuts(find, lo, size + 1 - lo) ==
      TimedOuts(find, lo, size - lo) + (if find(size).value.timedOut then [size] else [])
  {
  }

  /** The loop of `Mace4Solver.compute_spectrum` and `Mace4Fallback.compute_spectrum`:
      every size from `lo` to `hi` gets its count and its models, in ascending
      order, and the timeout flag of a result is not looked at. A search that
      raises ends the loop with its error. */
  method ComputeSpectrum<M>(name: string, find: int -> Result<Mace4Result<M>>, lo: int, hi: int)
    returns (r: Result<ModelSpectrum<M>>)
    ensures r.Success? <==> Returns(find, lo, Span(lo, hi))
    ensures r.Success? ==>
      && r.value.signatureName == name
      && r.value.spectrum == Counts(find, lo, Span(lo, hi))
      && r.value.modelsBySize == ModelLists(find, lo, Span(lo, hi))
      && r.value.timedOutSizes == []
    ensures r.Failure? ==> exists s :: s <= hi && RaisesFirstAt(find, lo, s, r.error)
  {
    var sp := EmptySpectrum(name);
    var size := lo;
    while size <= hi
      invariant lo <= size && size - lo <= Span(lo, hi)
      invariant Returns(find, lo, size - lo)
      invariant sp.signatureName == name && sp.timedOutSizes == []
      invariant sp.spectrum == Counts(find, lo, size - lo) && sp.modelsBySize == ModelLists(find, lo, size - lo)
    {
      var result := find(size);
      if result.Failure? {
        assert RaisesFirstAt(find, lo, size, result.error);
        return Failure(result.error);
      }
      ReturnsExtends(find, lo, size);
      RecordExtends(sp, find, lo, size);
      sp := Record(sp, size, result.value);
      size := size + 1;
    }
    return Success(sp);
  }

  /** The sizes among the `n` from `lo` on whose search timed out, in order. */
  function TimedOuts<M>(find: int -> Result<Mace4Result<M>>, lo: int, n: nat): seq<int>
    requires Returns(find, lo, n)
  {
    if n == 0 then []
    else TimedOuts(find, lo, n - 1) + (if find(lo + n - 1).value.timedOut then [lo + n - 1] else [])
  }

  /** The timed-out list holds exactly the timed-out sizes of the range, ascending. */
  lemma {:induction false} TimedOutsExact<M>(find: int -> Result<Mace4Result<M>>, lo: int, n: nat)
    requires Returns(find, lo, n)
    ensures forall s :: s in TimedOuts(find, lo, n) <==> lo <= s < lo + n && find(s).value.timedOut
    ensures forall i :: 0 <= i < |TimedOuts(find, lo, n)| ==> TimedOuts(find, lo, n)[i] < lo + n
    ensures forall i, j :: 0 <= i < j < |TimedOuts(find, lo, n)| ==> TimedOuts(find, lo, n)[i] < TimedOuts(find, lo, n)[j]
  {
    if n > 0 {
      TimedOutsExact(find, lo, n - 1);
    }
  }

  /** When no search of the range times out, nothing is recorded as timed out. */
  lemma {:induction false} TimedOutsNone<M>(find: int -> Result<Mace4Result<M>>, lo: int, n: nat)
    requires Returns(find, lo, n)
    requires forall s :: lo <= s < lo + n ==> !find(s).value.timedOut
    ensures TimedOuts(find, lo, n) == []
  {
    if n > 0 {
      TimedOutsNone(find, lo, n - 1);
    }
  }

  /** When no search of the range finds a model, the spectrum is empty. */
  lemma CountsNone<M>(sp: ModelSpectrum<M>, find: int -> Result<Mace4Result<M>>, lo: int, n: nat)
    requires Returns(find, lo, n)
    requires forall s :: lo <= s < lo + n ==> find(s).value.modelsFound == []
    requires sp.spectrum == Counts(find, lo, n)
    ensures IsEmpty(sp)
  {
    forall k | 0 <= k < n ensures sp.spectrum[k].1 == 0 {
      CountsAt(find, lo, n, k);
    }
    TotalZero(sp.spectrum);
  }

  /** The loop of `Z3ModelFinder.compute_spectrum` and
      `SmartSolverRouter.compute_spectrum`: as `ComputeSpectrum`, and every size
      whose search timed out is appended to `timed_out_sizes`, so that list holds
      exactly the timed-out sizes, ascending. */
  method ComputeSpectrumTracked<M>(name: string, find: int -> Result<Mace4Result<M>>, lo: int, hi: int)
    returns (r: Result<ModelSpectrum<M>>)
    ensures r.Success? <==> Returns(find, lo, Span(lo, hi))
    ensures r.Success? ==>
      && r.value.signatureName == name
      && r.value.spectrum == Counts(find, lo, Span(lo, hi))
      && r.value.modelsBySize == ModelLists(find, lo, Span(lo, hi))
      && r.value.timedOutSizes == TimedOuts(find, lo, Span(lo, hi))
    ensures r.Failure? ==> exists s :: s <= hi && RaisesFirstAt(find, lo, s, r.error)
  {
    var sp := EmptySpectrum(name);
    var size := lo;
    while size <= hi
      invariant lo <= size && size - lo <= Span(lo, hi)
      invariant Returns(find, lo, size - lo)
      invariant sp.signatureName == name
      invariant sp.spectrum == Counts(find, lo, size - lo) && sp.modelsBySize == ModelLists(find, lo, size - lo)
      invariant sp.timedOutSizes == TimedOuts(find, lo, size - lo)
    {
      var result := find(size);
      if result.Failure? {
        assert RaisesFirstAt(find, lo, size, result.error);
        return Failure(result.error);
      }
      ReturnsExtends(find, lo, size);
      TimedOutsExtends(find, lo, size);
      RecordExtends(sp, find, lo, size);
      sp := Record(sp, size, result.value);
      if result.value.timedOut {
        sp := sp.(timedOutSizes := sp.timedOutSizes + [size]);
      }
      size := size + 1;
    }
    return Success(sp);
  }
}
