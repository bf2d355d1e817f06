/** The interestingness score (src/scoring/engine.py): eleven dimensions of a
    candidate signature, its optional model spectrum and an optional set of
    known fingerprints, combined by a weight table. Python floats are modelled
    as exact `real`s; `math.exp` is an oracle `exp` (it enters only `richness`
    and the count part of `model_diversity`). Fingerprints are the canonical
    shapes whose SHA-256 the source compares, the hash being taken as injective. */
module Scoring {
  import opened Wrappers
  import Text
  import Signatures
  import Spectrum
  import Sorting

  function Min(a: real, b: real): real { if a <= b then a else b }
  function Max(a: real, b: real): real { if a >= b then a else b }

  /** `ScoreBreakdown`. */
  datatype ScoreBreakdown = ScoreBreakdown(
    connectivity: real,
    richness: real,
    tension: real,
    economy: real,
    fertility: real,
    hasModels: real,
    modelDiversity: real,
    spectrumPattern: real,
    solverDifficulty: real,
    isNovel: real,
    distance: real,
    total: real)

  /** `ScoreBreakdown()`: every field starts at zero. */
  const Zero := ScoreBreakdown(0.0, 0.0, 0.0, 0.0, 0.0, 0.0, 0.0, 0.0, 0.0, 0.0, 0.0, 0.0)

  /** `getattr(breakdown, name)`; `None` where Python raises `AttributeError`. */
  function Field(b: ScoreBreakdown, name: string): Option<real> {
    if name == "connectivity" then Some(b.connectivity)
    else if name == "richness" then Some(b.richness)
    else if name == "tension" then Some(b.tension)
    else if name == "economy" then Some(b.economy)
    else if name == "fertility" then Some(b.fertility)
    else if name == "has_models" then Some(b.hasModels)
    else if name == "model_diversity" then Some(b.modelDiversity)
    else if name == "spectrum_pattern" then Some(b.spectrumPattern)
    else if name == "solver_difficulty" then Some(b.solverDifficulty)
    else if name == "is_novel" then Some(b.isNovel)
    else if name == "distance" then Some(b.distance)
    else if name == "total" then Some(b.total)
    else None
  }

  /** `to_dict()`: the eleven dimensions and the total, each under its field name. */
  function ToDict(b: ScoreBreakdown): (d: seq<(string, real)>)
    ensures |d| == 12
    ensures forall i :: 0 <= i < |d| ==> Field(b, d[i].0) == Some(d[i].1)
    ensures d[11] == ("total", b.total)
  {
    [("connectivity", b.connectivity), ("richness", b.richness), ("tension", b.tension),
     ("economy", b.economy), ("fertility", b.fertility), ("has_models", b.hasModels),
     ("model_diversity", b.modelDiversity), ("spectrum_pattern", b.spectrumPattern),
     ("solver_difficulty", b.solverDifficulty), ("is_novel", b.isNovel),
     ("distance", b.distance), ("total", b.total)]
  }

  /** `DEFAULT_WEIGHTS`, in the dictionary's order. */
  const DefaultWeights: seq<(string, real)> := [
    ("connectivity", 0.08), ("richness", 0.08), ("tension", 0.08), ("economy", 0.10),
    ("fertility", 0.06), ("has_models", 0.15), ("model_diversity", 0.10),
    ("spectrum_pattern", 0.10), ("solver_difficulty", 0.05), ("is_novel", 0.15),
    ("distance", 0.05)]

  function WeightSum(weights: seq<(string, real)>): real {
    if weights == [] then 0.0 else weights[0].1 + WeightSum(weights[1..])
  }

  /** The weighted sum `total` is set to: every key of the table is looked up
      as a field of the breakdown; `None` where a key names no field. */
  function WeightedTotal(weights: seq<(string, real)>, b: ScoreBreakdown): Option<real> {
    if weights == [] then Some(0.0)
    else
      var v := Field(b, weights[0].0);
      var rest := WeightedTotal(weights[1..], b);
      if v.None? || rest.None? then None else Some(Weighted(weights[0].1, v.value) + rest.value)
  }

  /** The text of the `AttributeError` that `getattr` raises for the first
      key of the table that names no field of the breakdown. */
  function UnknownFieldError(weights: seq<(string, real)>, b: ScoreBreakdown): string {
    if weights == [] then ""
    else if Field(b, weights[0].0).None? then "'ScoreBreakdown' object has no attribute '" + weights[0].0 + "'"
    else UnknownFieldError(weights[1..], b)
  }

  /** `weight * value`. */
  function Weighted(w: real, v: real): real { w * v }

  lemma WeightedInRange(w: real, v: real)
    requires w >= 0.0 && 0.0 <= v <= 1.0
    ensures 0.0 <= Weighted(w, v) <= w
  {
    assert w * v <= w * 1.0;
  }

  /** The eleven dimensions all lie in [0, 1]. */
  predicate DimensionsInUnit(b: ScoreBreakdown) {
    && 0.0 <= b.connectivity <= 1.0 && 0.0 <= b.richness <= 1.0 && 0.0 <= b.tension <= 1.0
    && 0.0 <= b.economy <= 1.0 && 0.0 <= b.fertility <= 1.0 && 0.0 <= b.hasModels <= 1.0
    && 0.0 <= b.modelDiversity <= 1.0 && 0.0 <= b.spectrumPattern <= 1.0
    && 0.0 <= b.solverDifficulty <= 1.0 && 0.0 <= b.isNovel <= 1.0 && 0.0 <= b.distance <= 1.0
  }

  /** With non-negative weights whose every key names a field in [0, 1], the
      weighted total lies between 0 and the sum of the weights. */
  lemma {:induction false} WeightedTotalBounded(weights: seq<(string, real)>, b: ScoreBreakdown)
    requires forall i :: 0 <= i < |weights| ==> weights[i].1 >= 0.0
    requires forall i :: 0 <= i < |weights| ==>
               Field(b, weights[i].0).Some? && 0.0 <= Field(b, weights[i].0).value <= 1.0
    ensures WeightedTotal(weights, b).Some?
    ensures 0.0 <= WeightedTotal(weights, b).value <= WeightSum(weights)
  {
    if weights != [] {
      var tail := weights[1..];
      assert forall i :: 0 <= i < |tail| ==> tail[i] == weights[i + 1];
      WeightedTotalBounded(tail, b);
      assert Field(b, weights[0].0).Some?;
      var w, v := weights[0].1, Field(b, weights[0].0).value;
      var rest := WeightedTotal(tail, b).value;
      WeightedInRange(w, v);
      assert WeightedTotal(weights, b) == Some(Weighted(w, v) + rest);
      assert WeightSum(weights) == w + WeightSum(tail);
      assert 0.0 <= rest <= WeightSum(tail);
    }
  }

  /** One unfolding of `WeightSum` on a suffix. */
  lemma WeightSumStep(w: seq<(string, real)>, k: nat)
    requires k < |w|
    ensures WeightSum(w[k..]) == w[k].1 + WeightSum(w[k + 1..])
  {
    assert w[k..][1..] == w[k + 1..];
  }

  /** The last five default weights sum to 0.45. */
  lemma DefaultWeightTail()
    ensures WeightSum(DefaultWeights[6..]) == 0.45
  {
    var w := DefaultWeights;
    assert w[11..] == [];
    WeightSumStep(w, 10);
    WeightSumStep(w, 9);
    WeightSumStep(w, 8);
    WeightSumStep(w, 7);
    WeightSumStep(w, 6);
  }

  /** The first six default weights sum to 0.55. */
  lemma DefaultWeightHead()
    ensures WeightSum(DefaultWeights) == 0.55 + WeightSum(DefaultWeights[6..])
  {
    var w := DefaultWeights;
    WeightSumStep(w, 5);
    WeightSumStep(w, 4);
    WeightSumStep(w, 3);
    WeightSumStep(w, 2);
    WeightSumStep(w, 1);
    WeightSumStep(w, 0);
    assert w[0..] == w;
  }

  /** The default weights are non-negative and sum to one. */
  lemma DefaultWeightSum()
    ensures WeightSum(DefaultWeights) == 1.0
    ensures forall i :: 0 <= i < |DefaultWeights| ==> DefaultWeights[i].1 >= 0.0
  {
    DefaultWeightTail();
    DefaultWeightHead();
    forall i | 0 <= i < |DefaultWeights|
      ensures DefaultWeights[i].1 >= 0.0
    {
      if i < 6 {
        if i == 0 {} else if i == 1 {} else if i == 2 {} else if i == 3 {} else if i == 4 {} else {}
      } else {
        if i == 6 {} else if i == 7 {} else if i == 8 {} else if i == 9 {} else {}
      }
    }
  }

  /** Every key of the default weights names one of the eleven dimensions
      (never `total`). */
  lemma DefaultWeightKeys(b: ScoreBreakdown)
    ensures forall i :: 0 <= i < |DefaultWeights| ==> Field(b, DefaultWeights[i].0).Some?
    ensures DimensionsInUnit(b) ==> forall i :: 0 <= i < |DefaultWeights| ==>
              0.0 <= Field(b, DefaultWeights[i].0).value <= 1.0
  {
    forall i | 0 <= i < |DefaultWeights|
      ensures Field(b, DefaultWeights[i].0) in {Some(b.connectivity), Some(b.richness), Some(b.tension),
        Some(b.economy), Some(b.fertility), Some(b.hasModels), Some(b.modelDiversity),
        Some(b.spectrumPattern), Some(b.solverDifficulty), Some(b.isNovel), Some(b.distance)}
    {
      if i < 6 {
        if i == 0 {} else if i == 1 {} else if i == 2 {} else if i == 3 {} else if i == 4 {} else {}
      } else {
        if i == 6 {} else if i == 7 {} else if i == 8 {} else if i == 9 {} else {}
      }
    }
  }

  /** A table whose every key names a field gives a total. */
  lemma {:induction false} WeightedTotalDefined(weights: seq<(string, real)>, b: ScoreBreakdown)
    requires forall i :: 0 <= i < |weights| ==> Field(b, weights[i].0).Some?
    ensures WeightedTotal(weights, b).Some?
  {
    if weights != [] {
      assert Field(b, weights[0].0).Some?;
      var tail := weights[1..];
      assert forall i :: 0 <= i < |tail| ==> tail[i] == weights[i + 1];
      WeightedTotalDefined(tail, b);
    }
  }

  /** With the default weights, the total of a breakdown whose dimensions lie
      in [0, 1] lies in [0, 1]. */
  lemma DefaultTotalInUnit(b: ScoreBreakdown)
    requires DimensionsInUnit(b)
    ensures WeightedTotal(DefaultWeights, b).Some?
    ensures 0.0 <= WeightedTotal(DefaultWeights, b).value <= 1.0
  {
    DefaultWeightSum();
    DefaultWeightKeys(b);
    WeightedTotalBounded(DefaultWeights, b);
  }

  /** `ScoringEngine`: its weight table. */
  datatype ScoringEngine = ScoringEngine(weights: seq<(string, real)>)

  /** `ScoringEngine(weights)`: `weights or DEFAULT_WEIGHTS`, so an absent or
      empty table means the default one. */
  function NewEngine(weights: Option<seq<(string, real)>>): (e: ScoringEngine)
    ensures e.weights != []
    ensures weights.Some? && weights.value != [] ==> e.weights == weights.value
  {
    if weights.Some? && weights.value != [] then ScoringEngine(weights.value)
    else ScoringEngine(DefaultWeights)
  }

  // ---- connectivity ----

  /** `set(op.domain) | {op.codomain}`. */
  function OpSorts(op: Signatures.Operation): set<string> {
    (set s | s in op.domain) + {op.codomain}
  }

  /** `touched_sorts` after the first loop has visited `ops`. */
  function TouchedSorts(ops: seq<Signatures.Operation>): set<string> {
    if ops == [] then {} else TouchedSorts(ops[..|ops| - 1]) + OpSorts(ops[|ops| - 1])
  }

  /** `cross_sort_ops` after the second loop has visited `ops`. */
  function CrossSortOps(ops: seq<Signatures.Operation>): (r: nat)
    ensures r <= |ops|
  {
    if ops == [] then 0
    else CrossSortOps(ops[..|ops| - 1]) + (if |OpSorts(ops[|ops| - 1])| > 1 then 1 else 0)
  }

  function DeclaredSorts(sorts: seq<Signatures.Sort>): set<string> {
    set s | s in sorts :: s.name
  }

  /** `_connectivity`: 0.5 for at most one sort, otherwise the mean of the sort
      coverage and the share of operations that span several sorts. */
  function ConnectivityOf(sig: Signatures.Signature): real {
    if |sig.sorts| <= 1 then 0.5
    else
      var all := DeclaredSorts(sig.sorts);
      var coverage := if all != {} then |TouchedSorts(sig.operations)| as real / |all| as real else 0.0;
      var crossRatio := if sig.operations != [] then CrossSortOps(sig.operations) as real / |sig.operations| as real else 0.0;
      (coverage + crossRatio) / 2.0
  }

  /** A sort an operation mentions is one the first loop adds. */
  lemma {:induction false} TouchedSortsMember(ops: seq<Signatures.Operation>, s: string)
    ensures s in TouchedSorts(ops) <==> exists i :: 0 <= i < |ops| && s in OpSorts(ops[i])
  {
    if ops != [] {
      var front := ops[..|ops| - 1];
      TouchedSortsMember(front, s);
      assert forall i :: 0 <= i < |front| ==> front[i] == ops[i];
    }
  }

  /** The body of the first loop of `_connectivity` for one operation: each
      domain sort, then the codomain, is added to `touched`. */
  method AddOpSorts(touched: set<string>, op: Signatures.Operation) returns (t: set<string>)
    ensures t == touched + OpSorts(op)
  {
    t := touched;
    var j := 0;
    while j < |op.domain|
      invariant 0 <= j <= |op.domain|
      invariant t == touched + (set s | s in op.domain[..j])
    {
      assert op.domain[..j + 1] == op.domain[..j] + [op.domain[j]];
      t := t + {op.domain[j]};
      j := j + 1;
    }
    assert op.domain[..j] == op.domain;
    t := t + {op.codomain};
  }

  /** The first loop of `_connectivity`: every sort some operation mentions. */
  method CollectTouchedSorts(ops: seq<Signatures.Operation>) returns (touched: set<string>)
    ensures touched == TouchedSorts(ops)
  {
    touched := {};
    var i := 0;
    while i < |ops|
      invariant 0 <= i <= |ops|
      invariant touched == TouchedSorts(ops[..i])
    {
      touched := AddOpSorts(touched, ops[i]);
      assert ops[..i + 1][..i] == ops[..i];
      i := i + 1;
    }
    assert ops[..i] == ops;
  }

  /** The second loop of `_connectivity`: the operations spanning several sorts. */
  method CountCrossSortOps(ops: seq<Signatures.Operation>) returns (cross: nat)
    ensures cross == CrossSortOps(ops)
  {
    cross := 0;
    var i := 0;
    while i < |ops|
      invariant 0 <= i <= |ops|
      invariant cross == CrossSortOps(ops[..i])
    {
      var sortsInOp := OpSorts(ops[i]);
      if |sortsInOp| > 1 {
        cross := cross + 1;
      }
      assert ops[..i + 1][..i] == ops[..i];
      i := i + 1;
    }
    assert ops[..i] == ops;
  }

  /** The method `_connectivity`. */
  method Connectivity(sig: Signatures.Signature) returns (r: real)
    ensures r == ConnectivityOf(sig)
  {
    if |sig.sorts| <= 1 {
      return 0.5;
    }
    var ops := sig.operations;
    var allSorts := DeclaredSorts(sig.sorts);
    var touched := CollectTouchedSorts(ops);
    var cross := CountCrossSortOps(ops);
    var coverage := if allSorts != {} then |touched| as real / |allSorts| as real else 0.0;
    var crossRatio := if ops != [] then cross as real / |ops| as real else 0.0;
    r := (coverage + crossRatio) / 2.0;
  }

  /** Connectivity is never negative, and it is at most one when every sort
      an operation mentions is declared. */
  lemma ConnectivityBounds(sig: Signatures.Signature)
    ensures ConnectivityOf(sig) >= 0.0
    ensures (forall i :: 0 <= i < |sig.operations| ==> OpSorts(sig.operations[i]) <= DeclaredSorts(sig.sorts))
            ==> ConnectivityOf(sig) <= 1.0
  {
    if |sig.sorts| > 1 {
      var ops := sig.operations;
      var all, touched := DeclaredSorts(sig.sorts), TouchedSorts(ops);
      assert sig.sorts[0].name in all;
      var coverage := |touched| as real / |all| as real;
      var crossRatio := if ops != [] then CrossSortOps(ops) as real / |ops| as real else 0.0;
      assert ConnectivityOf(sig) == (coverage + crossRatio) / 2.0;
      if ops != [] {
        DivInUnit(CrossSortOps(ops) as real, |ops| as real);
      }
      assert coverage >= 0.0;
      if forall i :: 0 <= i < |ops| ==> OpSorts(ops[i]) <= all {
        forall s | s in touched ensures s in all {
          TouchedSortsMember(ops, s);
        }
        SubsetCard(touched, all);
        DivInUnit(|touched| as real, |all| as real);
      }
    }
  }

  lemma SubsetCard<T>(a: set<T>, b: set<T>)
    requires a <= b
    ensures |a| <= |b|
  {
    assert b == a + (b - a);
  }

  /** The operation f: S x U -> V mentions three sorts. */
  lemma ThreeSortOp()
    ensures |OpSorts(Signatures.Operation("f", ["S", "U"], "V", ""))| == 3
  {
    var op := Signatures.Operation("f", ["S", "U"], "V", "");
    assert OpSorts(op) == {"S", "U", "V"};
  }

  /** An operation over an undeclared sort can push connectivity above one:
      sorts S and T, one operation f: S x U -> V. */
  lemma ConnectivityCanExceedOne()
    ensures ConnectivityOf(Signatures.Signature("X",
              [Signatures.Sort("S", ""), Signatures.Sort("T", "")],
              [Signatures.Operation("f", ["S", "U"], "V", "")], [], "", [], map[])) > 1.0
  {
    var op := Signatures.Operation("f", ["S", "U"], "V", "");
    ThreeSortOp();
    assert [op][..0] == [];
    assert TouchedSorts([op]) == OpSorts(op);
    assert CrossSortOps([op]) == 1;
    var declared := DeclaredSorts([Signatures.Sort("S", ""), Signatures.Sort("T", "")]);
    assert declared == {"S", "T"};
    assert |declared| == 2;
  }

  // ---- richness, tension, economy, fertility ----

  /** `exp` behaves like `math.exp` on the non-positive reals: into (0, 1]. */
  ghost predicate ExpBounded(exp: real -> real) {
    forall x: real :: x <= 0.0 ==> 0.0 < exp(x) <= 1.0
  }

  /** `_richness`: exp(-(axioms/ops - 1)^2), an empty operation list counting as one. */
  function Richness(sig: Signatures.Signature, exp: real -> real): real {
    var nOps := if |sig.operations| == 0 then 1 else |sig.operations|;
    var ratio := |sig.axioms| as real / nOps as real;
    exp(-((ratio - 1.0) * (ratio - 1.0)))
  }

  /** Richness lies in (0, 1] and peaks when there are as many axioms as operations. */
  lemma RichnessBounds(sig: Signatures.Signature, exp: real -> real)
    requires ExpBounded(exp)
    ensures 0.0 < Richness(sig, exp) <= 1.0
    ensures |sig.axioms| == |sig.operations| > 0 ==> Richness(sig, exp) == exp(0.0)
  {
    var nOps := if |sig.operations| == 0 then 1 else |sig.operations|;
    var ratio := |sig.axioms| as real / nOps as real;
    assert (ratio - 1.0) * (ratio - 1.0) >= 0.0;
    assert -((ratio - 1.0) * (ratio - 1.0)) <= 0.0;
    if |sig.axioms| == |sig.operations| > 0 {
      assert ratio == 1.0;
    }
  }

  function KindSet(axioms: seq<Signatures.Axiom>): set<Signatures.AxiomKind> {
    set a | a in axioms :: a.kind
  }

  /** `min(len(set(AxiomKind)), 6)`: there are more than six kinds. */
  const TensionDenominator := 6

  /** `_tension`: 0 without axioms, else the number of distinct kinds over six, capped at one. */
  function Tension(sig: Signatures.Signature): (r: real)
    ensures 0.0 <= r <= 1.0
  {
    if sig.axioms == [] then 0.0
    else Min(|KindSet(sig.axioms)| as real / TensionDenominator as real, 1.0)
  }

  /** Adding an axiom of a kind not yet present, while fewer than six kinds
      are present, strictly raises the tension. */
  lemma NewKindRaisesTension(sig: Signatures.Signature, ax: Signatures.Axiom)
    requires ax.kind !in KindSet(sig.axioms)
    requires |KindSet(sig.axioms)| < TensionDenominator
    ensures Tension(sig.(axioms := sig.axioms + [ax])) > Tension(sig)
  {
    var after := sig.axioms + [ax];
    assert KindSet(after) == KindSet(sig.axioms) + {ax.kind} by {
      assert forall a :: a in after <==> a in sig.axioms || a == ax;
    }
    assert |KindSet(after)| == |KindSet(sig.axioms)| + 1;
  }

  /** Tension reaches one exactly when six or more kinds are present. */
  lemma TensionSaturates(sig: Signatures.Signature)
    ensures Tension(sig) == 1.0 <==> |KindSet(sig.axioms)| >= TensionDenominator
  {
    var k := |KindSet(sig.axioms)|;
    if sig.axioms == [] {
      assert KindSet(sig.axioms) == {};
    } else {
      assert k as real / 6.0 >= 1.0 <==> k >= 6;
    }
  }

  /** `_economy` of the component count `t`. */
  function EconomyOf(t: nat): real {
    if t <= 2 then 0.4
    else if t <= 12 then 1.0 - (if t > 5 then t - 5 else 0) as real * 0.04
    else Max(0.1, 1.0 - t as real * 0.04)
  }

  function Economy(sig: Signatures.Signature): real {
    EconomyOf(|sig.sorts| + |sig.operations| + |sig.axioms|)
  }

  /** Economy lies in [0.1, 1]; it is one from three to five components, falls
      by 0.04 per component up to twelve, and eleven components give 0.76. */
  lemma EconomyBounds(t: nat)
    ensures 0.1 <= EconomyOf(t) <= 1.0
    ensures 3 <= t <= 5 ==> EconomyOf(t) == 1.0
    ensures 5 <= t < 12 ==> EconomyOf(t + 1) == EconomyOf(t) - 0.04
    ensures EconomyOf(11) == 0.76
  {
  }

  /** `_fertility`: the mean of min(sorts/3, 1) and min(binary ops/3, 1). */
  function Fertility(sig: Signatures.Signature): (r: real)
    ensures 0.0 <= r <= 1.0
    ensures r == 1.0 <==> |sig.sorts| >= 3 && |Signatures.BinaryOps(sig)| >= 3
  {
    var sortScore := Min(|sig.sorts| as real / 3.0, 1.0);
    var opScore := Min(|Signatures.BinaryOps(sig)| as real / 3.0, 1.0);
    (sortScore + opScore) / 2.0
  }

  // ---- spectrum dimensions ----

  function MinOf(s: seq<int>): (m: int)
    requires s != []
    ensures m in s && forall x :: x in s ==> m <= x
  {
    if |s| == 1 then s[0]
    else
      var t := MinOf(s[1..]);
      assert forall x :: x in s ==> x == s[0] || x in s[1..];
      if s[0] <= t then s[0] else t
  }

  function MaxOf(s: seq<int>): (m: int)
    requires s != []
    ensures m in s && forall x :: x in s ==> x <= m
  {
    if |s| == 1 then s[0]
    else
      var t := MaxOf(s[1..]);
      assert forall x :: x in s ==> x == s[0] || x in s[1..];
      if s[0] >= t then s[0] else t
  }

  /** `_model_diversity`: the mean of the share of the size range with models
      and 1 - exp(-average models per populated size / 3). */
  function ModelDiversity<M>(sp: Spectrum.ModelSpectrum<M>, exp: real -> real): real {
    var total := Spectrum.TotalModels(sp);
    if total == 0 then 0.0
    else
      var keys := Spectrum.Keys(sp.spectrum);
      DiversityOf(total, |Spectrum.SizesWithModels(sp)|, MaxOf(keys) - MinOf(keys) + 1, exp)
  }

  /** The arithmetic of `_model_diversity` once the counts are known. */
  function DiversityOf(total: nat, sizesWith: nat, sizeRange: int, exp: real -> real): real {
    var coverage := if sizeRange > 0 then sizesWith as real / sizeRange as real else 0.0;
    var avgPerSize := if sizesWith > 0 then total as real / sizesWith as real else 0.0;
    var countScore := 1.0 - exp(-avgPerSize / 3.0);
    (coverage + countScore) / 2.0
  }

  lemma DiversityOfBounds(total: nat, sizesWith: nat, sizeRange: int, exp: real -> real)
    requires ExpBounded(exp) && sizesWith <= sizeRange
    ensures 0.0 <= DiversityOf(total, sizesWith, sizeRange, exp) <= 1.0
  {
    if sizeRange > 0 {
      DivInUnit(sizesWith as real, sizeRange as real);
    }
    var avgPerSize := if sizesWith > 0 then total as real / sizesWith as real else 0.0;
    assert avgPerSize >= 0.0;
    assert 0.0 < exp(-avgPerSize / 3.0) <= 1.0;
  }

  /** A strictly ascending list inside [lo, hi] has at most hi - lo + 1 elements. */
  lemma {:induction false} AscendingSpan(r: seq<int>, lo: int, hi: int)
    requires forall i, j :: 0 <= i < j < |r| ==> r[i] < r[j]
    requires forall x :: x in r ==> lo <= x <= hi
    ensures r != [] ==> |r| <= hi - lo + 1
  {
    if r != [] {
      assert r[0] in r;
      var tail := r[1..];
      forall x | x in tail ensures r[0] + 1 <= x <= hi {
        var k :| 0 <= k < |tail| && tail[k] == x;
        assert r[k + 1] == x;
        assert x in r;
      }
      AscendingSpan(tail, r[0] + 1, hi);
    }
  }

  lemma DivInUnit(a: real, b: real)
    requires 0.0 <= a <= b && b > 0.0
    ensures 0.0 <= a / b <= 1.0
  {
    assert a / b * b == a;
  }

  /** With sizes recorded once each, the sizes with models fit in the range of
      recorded sizes, and a positive total means at least one of them. */
  lemma CoverageBound<M>(sp: Spectrum.ModelSpectrum<M>)
    requires Spectrum.DistinctKeys(sp.spectrum) && Spectrum.TotalModels(sp) > 0
    ensures Spectrum.Keys(sp.spectrum) != []
    ensures var keys := Spectrum.Keys(sp.spectrum);
      0 < |Spectrum.SizesWithModels(sp)| <= MaxOf(keys) - MinOf(keys) + 1
  {
    var keys := Spectrum.Keys(sp.spectrum);
    var r := Spectrum.SizesWithModels(sp);
    Spectrum.EmptyIffNoSizes(sp);
    var lo, hi := MinOf(keys), MaxOf(keys);
    forall x | x in r ensures lo <= x <= hi {
      assert Spectrum.HasModelsAt(sp.spectrum, x);
      var i :| 0 <= i < |sp.spectrum| && sp.spectrum[i].0 == x && sp.spectrum[i].1 > 0;
      assert keys[i] == x;
      assert x in keys;
    }
    AscendingSpan(r, lo, hi);
  }

  /** Model diversity lies in [0, 1] for a spectrum without repeated sizes. */
  lemma ModelDiversityBounds<M>(sp: Spectrum.ModelSpectrum<M>, exp: real -> real)
    requires Spectrum.DistinctKeys(sp.spectrum) && ExpBounded(exp)
    ensures 0.0 <= ModelDiversity(sp, exp) <= 1.0
  {
    var total := Spectrum.TotalModels(sp);
    if total != 0 {
      CoverageBound(sp);
      var keys := Spectrum.Keys(sp.spectrum);
      DiversityOfBounds(total, |Spectrum.SizesWithModels(sp)|, MaxOf(keys) - MinOf(keys) + 1, exp);
    }
  }

  /** The sizes `_spectrum_pattern` treats as prime and as powers of two. */
  const Primes: set<int> := {2, 3, 5, 7, 11, 13, 17, 19, 23}
  const PowersOfTwo: set<int> := {1, 2, 4, 8, 16, 32}

  predicate AllIn(s: seq<int>, allowed: set<int>) {
    forall i :: 0 <= i < |s| ==> s[i] in allowed
  }

  /** `diffs`: the gaps between neighbouring sizes. */
  function Gaps(s: seq<int>): (d: seq<int>)
    ensures |d| == if s == [] then 0 else |s| - 1
    ensures forall i :: 0 <= i < |d| ==> d[i] == s[i + 1] - s[i]
  {
    if |s| <= 1 then [] else [s[1] - s[0]] + Gaps(s[1..])
  }

  /** `len(set(diffs)) == 1`: at least one gap, all equal to the first. */
  predicate OneGap(d: seq<int>) {
    d != [] && forall i :: 0 <= i < |d| ==> d[i] == d[0]
  }

  /** `ratios`: the quotients of neighbouring sizes, as exact reals. */
  function Ratios(s: seq<int>): (q: seq<real>)
    requires forall i :: 0 <= i < |s| ==> s[i] > 0
    ensures |q| == if s == [] then 0 else |s| - 1
  {
    if |s| <= 1 then [] else [s[1] as real / s[0] as real] + Ratios(s[1..])
  }

  function MinR(s: seq<real>): real requires s != [] {
    if |s| == 1 then s[0] else Min(s[0], MinR(s[1..]))
  }

  function MaxR(s: seq<real>): real requires s != [] {
    if |s| == 1 then s[0] else Max(s[0], MaxR(s[1..]))
  }

  /** `[spectrum.get(s, 0) for s in sizes]`. */
  function CountsAt(d: seq<(int, nat)>, sizes: seq<int>): (c: seq<nat>)
    ensures |c| == |sizes|
  {
    if sizes == [] then []
    else
      var g := Spectrum.Get(d, sizes[0]);
      [if g.Some? then g.value else 0] + CountsAt(d, sizes[1..])
  }

  predicate NonDecreasing(c: seq<nat>) {
    forall i :: 0 <= i < |c| - 1 ==> c[i] <= c[i + 1]
  }

  /** The score of the gap test: 0.7 for one common gap above one, 0.3 for
      one common gap of at most one, nothing otherwise. */
  function GapScore(sizes: seq<int>, score: real): real {
    var diffs := Gaps(sizes);
    if OneGap(diffs) then (if diffs[0] > 1 then Max(score, 0.7) else Max(score, 0.3)) else score
  }

  /** The score of the ratio test: neighbouring ratios spread by less than 0.1. */
  function RatioScore(sizes: seq<int>, score: real): real {
    if (forall i :: 0 <= i < |sizes| ==> sizes[i] > 0) && |sizes| >= 3 then
      var ratios := Ratios(sizes);
      var spread := MaxR(ratios) - MinR(ratios);
      if spread < 0.1 then Max(score, 0.7) else score
    else score
  }

  /** `_spectrum_pattern`: the best of the pattern scores that match, 0 when
      fewer than two sizes have models. */
  function SpectrumPattern<M>(sp: Spectrum.ModelSpectrum<M>): real {
    var sizes := Spectrum.SizesWithModels(sp);
    if |sizes| < 2 then 0.0 else PatternScore(sizes, CountsAt(sp.spectrum, sizes))
  }

  /** The pattern tests of `_spectrum_pattern` on the sizes with models and
      their counts. */
  function PatternScore(sizes: seq<int>, counts: seq<nat>): real {
    var s0 := if AllIn(sizes, Primes) then 0.9 else 0.0;
    var s1 := if AllIn(sizes, PowersOfTwo) then Max(s0, 0.8) else s0;
    var s2 := GapScore(sizes, s1);
    var s3 := RatioScore(sizes, s2);
    if |counts| >= 3 && NonDecreasing(counts) then Max(s3, 0.5) else s3
  }

  /** The pattern score is one of the listed values, so it lies in [0, 0.9];
      it is zero when fewer than two sizes have models. */
  lemma SpectrumPatternValues<M>(sp: Spectrum.ModelSpectrum<M>)
    ensures SpectrumPattern(sp) in {0.0, 0.3, 0.5, 0.7, 0.8, 0.9}
    ensures 0.0 <= SpectrumPattern(sp) <= 0.9
    ensures |Spectrum.SizesWithModels(sp)| < 2 ==> SpectrumPattern(sp) == 0.0
  {
  }

  /** Sizes with models in one arithmetic progression score at least 0.7 when
      the common gap exceeds one and at least 0.3 when the sizes are consecutive. */
  lemma ProgressionScores<M>(sp: Spectrum.ModelSpectrum<M>, gap: int)
    requires |Spectrum.SizesWithModels(sp)| >= 2
    requires forall i :: 0 <= i < |Spectrum.SizesWithModels(sp)| - 1 ==>
               Spectrum.SizesWithModels(sp)[i + 1] - Spectrum.SizesWithModels(sp)[i] == gap
    ensures gap > 1 ==> SpectrumPattern(sp) >= 0.7
    ensures SpectrumPattern(sp) >= 0.3
  {
    var sizes := Spectrum.SizesWithModels(sp);
    var diffs := Gaps(sizes);
    forall i | 0 <= i < |diffs| ensures diffs[i] == gap {
      assert sizes[i + 1] - sizes[i] == gap;
    }
    assert OneGap(diffs);
  }

  /** When the sizes with a positive count already come in ascending order,
      `sizes_with_models` is that list itself. */
  lemma SizesInOrder<M>(sp: Spectrum.ModelSpectrum<M>)
    requires Sorting.Sorted(Spectrum.PositiveSizes(sp.spectrum), Sorting.IntLe)
    ensures Spectrum.SizesWithModels(sp) == Spectrum.PositiveSizes(sp.spectrum)
  {
    var p := Spectrum.PositiveSizes(sp.spectrum);
    Sorting.IntLeIsTotal();
    Sorting.SortSorted(p, Sorting.IntLe);
    Sorting.SortedUnique(Sorting.SortBy(p, Sorting.IntLe), p, Sorting.IntLe);
  }

  /** Consecutive sizes 2 to 5, one model each, score 0.5: the gap of one
      gives 0.3 and the non-decreasing counts raise it. */
  lemma ConsecutiveScore()
    ensures PatternScore([2, 3, 4, 5], [1, 1, 1, 1]) == 0.5
  {
    var sizes := [2, 3, 4, 5];
    assert !AllIn(sizes, Primes) by { assert sizes[2] !in Primes; }
    assert !AllIn(sizes, PowersOfTwo) by { assert sizes[1] !in PowersOfTwo; }
    assert GapScore(sizes, 0.0) == 0.3 by {
      assert Gaps(sizes) == [1, 1, 1];
    }
    ConsecutiveRatios();
  }

  /** The ratios 3/2, 4/3 and 5/4 spread by 0.25, so the ratio test fails. */
  lemma ConsecutiveRatios()
    ensures RatioScore([2, 3, 4, 5], 0.3) == 0.3
  {
    var q := Ratios([2, 3, 4, 5]);
    assert q == [1.5, 4.0 / 3.0, 1.25];
    assert MinR(q[2..]) == 1.25 && MaxR(q[2..]) == 1.25;
    assert MinR(q[1..]) == 1.25 && MaxR(q[1..]) == 4.0 / 3.0;
    assert MinR(q) == 1.25 && MaxR(q) == 1.5;
  }

  /** Sizes 2, 4, 6, 8, one model each, score 0.7: a gap of two. */
  lemma GappedScore()
    ensures PatternScore([2, 4, 6, 8], [1, 1, 1, 1]) == 0.7
  {
    var sizes := [2, 4, 6, 8];
    assert !AllIn(sizes, Primes) by { assert sizes[1] !in Primes; }
    assert !AllIn(sizes, PowersOfTwo) by { assert sizes[2] !in PowersOfTwo; }
    assert Gaps(sizes) == [2, 2, 2];
    assert RatioScore(sizes, 0.7) == 0.7;
  }

  /** The test spectra {2: 1, 3: 1, 4: 1, 5: 1} and {2: 1, 4: 1, 6: 1, 8: 1}:
      the consecutive one scores 0.5, below the gapped one at 0.7. */
  lemma ConsecutiveBelowGapped()
    ensures SpectrumPattern<int>(Spectrum.ModelSpectrum("Test", [(2, 1), (3, 1), (4, 1), (5, 1)], [], [])) == 0.5
    ensures SpectrumPattern<int>(Spectrum.ModelSpectrum("Test", [(2, 1), (4, 1), (6, 1), (8, 1)], [], [])) == 0.7
  {
    OneModelEach(2, 3, 4, 5);
    OneModelEach(2, 4, 6, 8);
    ConsecutiveScore();
    GappedScore();
  }

  /** Four ascending sizes with one model each: they are the sizes with
      models, each with count one. */
  lemma OneModelEach(a: int, b: int, c: int, d: int)
    requires a < b < c < d
    ensures var sp: Spectrum.ModelSpectrum<int> := Spectrum.ModelSpectrum("Test", [(a, 1), (b, 1), (c, 1), (d, 1)], [], []);
      && Spectrum.SizesWithModels(sp) == [a, b, c, d]
      && CountsAt(sp.spectrum, [a, b, c, d]) == [1, 1, 1, 1]
  {
    var e: seq<(int, nat)> := [(a, 1), (b, 1), (c, 1), (d, 1)];
    var sp: Spectrum.ModelSpectrum<int> := Spectrum.ModelSpectrum("Test", e, [], []);
    PositiveFour(e);
    SizesInOrder(sp);
    CountsFour(e);
  }

  lemma PositiveFour(e: seq<(int, nat)>)
    requires |e| == 4 && e[0].1 > 0 && e[1].1 > 0 && e[2].1 > 0 && e[3].1 > 0
    ensures Spectrum.PositiveSizes(e) == [e[0].0, e[1].0, e[2].0, e[3].0]
  {
    assert Spectrum.PositiveSizes(e[3..]) == [e[3].0];
    assert Spectrum.PositiveSizes(e[2..]) == [e[2].0, e[3].0];
    assert Spectrum.PositiveSizes(e[1..]) == [e[1].0, e[2].0, e[3].0];
  }

  lemma CountsFour(e: seq<(int, nat)>)
    requires |e| == 4 && e[0].0 < e[1].0 < e[2].0 < e[3].0
    ensures CountsAt(e, [e[0].0, e[1].0, e[2].0, e[3].0]) == [e[0].1, e[1].1, e[2].1, e[3].1]
  {
    var k := [e[0].0, e[1].0, e[2].0, e[3].0];
    assert Spectrum.DistinctKeys(e);
    Spectrum.GetAt(e, 3);
    assert CountsAt(e, k[3..]) == [e[3].1];
    Spectrum.GetAt(e, 2);
    assert CountsAt(e, k[2..]) == [e[2].1] + CountsAt(e, k[3..]);
    Spectrum.GetAt(e, 1);
    assert CountsAt(e, k[1..]) == [e[1].1] + CountsAt(e, k[2..]);
    Spectrum.GetAt(e, 0);
    assert CountsAt(e, k) == [e[0].1] + CountsAt(e, k[1..]);
  }

  /** The values `spectrum.values()` that are positive, in entry order. */
  function PositiveCounts(d: seq<(int, nat)>): (c: seq<nat>)
    ensures |c| <= |d|
  {
    if d == [] then []
    else if d[0].1 > 0 then [d[0].1] + PositiveCounts(d[1..])
    else PositiveCounts(d[1..])
  }

  /** `len(set(counts)) == 1` for a non-empty list. */
  predicate AllSame(c: seq<nat>) {
    forall i :: 0 <= i < |c| ==> c[i] == c[0]
  }

  /** Three or more equal non-zero counts: the spectrum looks saturated. */
  predicate Flat(d: seq<(int, nat)>) {
    |PositiveCounts(d)| >= 3 && AllSame(PositiveCounts(d))
  }

  /** `_solver_difficulty`. */
  function SolverDifficulty<M>(sp: Spectrum.ModelSpectrum<M>): real {
    var checked := |sp.spectrum|;
    if checked == 0 then 0.0
    else
      var nTimedOut := |sp.timedOutSizes|;
      if nTimedOut == checked then 0.0
      else
        var timeoutPenalty := 1.0 - nTimedOut as real / checked as real;
        var flatnessPenalty := if Flat(sp.spectrum) then 0.7 else 1.0;
        timeoutPenalty * flatnessPenalty
  }

  /** Solver difficulty is zero when nothing was checked or every checked size
      timed out; otherwise it is the share of sizes that did not time out,
      times 0.7 for a flat spectrum. It lies in [0, 1] when no more sizes timed
      out than were checked, is one exactly for a clean, non-flat spectrum, and
      lies strictly between 0 and 1 when only some sizes timed out. */
  lemma SolverDifficultyBounds<M>(sp: Spectrum.ModelSpectrum<M>)
    requires |sp.timedOutSizes| <= |sp.spectrum|
    ensures 0.0 <= SolverDifficulty(sp) <= 1.0
    ensures |sp.timedOutSizes| == |sp.spectrum| ==> SolverDifficulty(sp) == 0.0
    ensures SolverDifficulty(sp) == 1.0 <==> |sp.spectrum| > 0 && sp.timedOutSizes == [] && !Flat(sp.spectrum)
    ensures 0 < |sp.timedOutSizes| < |sp.spectrum| ==> 0.0 < SolverDifficulty(sp) < 1.0
  {
    var checked := |sp.spectrum|;
    var t := |sp.timedOutSizes|;
    if checked > 0 && t < checked {
      var ratio := t as real / checked as real;
      assert 0.0 <= ratio < 1.0;
      assert t > 0 ==> ratio > 0.0;
    }
  }

  // ---- distance ----

  /** The move-name substrings `_distance_from_known` looks for. */
  const MoveKindNames: seq<string> := ["Abstract", "Dualize", "Complete", "Quotient", "Internalize", "Transfer", "Deform"]

  function KindsIn(step: string): set<string> {
    set k | k in MoveKindNames && Text.Contains(step, k)
  }

  /** `move_kinds` after the loop has visited the steps of `chain`. */
  function MoveKinds(chain: seq<string>): set<string> {
    if chain == [] then {} else MoveKinds(chain[..|chain| - 1]) + KindsIn(chain[|chain| - 1])
  }

  /** `_distance_from_known` as a value. */
  function DistanceOf(chain: seq<string>): real {
    if chain == [] then 0.0
    else (Min(|chain| as real / 5.0, 1.0) + |MoveKinds(chain)| as real / 7.0) / 2.0
  }

  /** The inner loop of `_distance_from_known`: each of the seven move names
      the step contains is added to `move_kinds`. */
  method AddKindsIn(kinds: set<string>, step: string) returns (r: set<string>)
    ensures r == kinds + KindsIn(step)
  {
    r := kinds;
    var j := 0;
    while j < |MoveKindNames|
      invariant 0 <= j <= |MoveKindNames|
      invariant r == kinds + (set k | k in MoveKindNames[..j] && Text.Contains(step, k))
    {
      var kind := MoveKindNames[j];
      assert MoveKindNames[..j + 1] == MoveKindNames[..j] + [kind];
      if Text.Contains(step, kind) {
        r := r + {kind};
      }
      j := j + 1;
    }
    assert MoveKindNames[..j] == MoveKindNames;
  }

  /** The method `_distance_from_known`: a loop over the chain, and for each
      step a loop over the seven move names adding those it contains. */
  method DistanceFromKnown(sig: Signatures.Signature) returns (d: real)
    ensures d == DistanceOf(sig.derivationChain)
  {
    var chain := sig.derivationChain;
    if chain == [] {
      return 0.0;
    }
    var lengthScore := Min(|chain| as real / 5.0, 1.0);
    var moveKinds: set<string> := {};
    var i := 0;
    while i < |chain|
      invariant 0 <= i <= |chain|
      invariant moveKinds == MoveKinds(chain[..i])
    {
      moveKinds := AddKindsIn(moveKinds, chain[i]);
      assert chain[..i + 1][..i] == chain[..i];
      i := i + 1;
    }
    assert chain[..i] == chain;
    var diversityScore := |moveKinds| as real / 7.0;
    d := (lengthScore + diversityScore) / 2.0;
  }

  lemma {:induction false} MoveKindsWithin(chain: seq<string>)
    ensures MoveKinds(chain) <= set k | k in MoveKindNames
  {
    if chain != [] {
      MoveKindsWithin(chain[..|chain| - 1]);
    }
  }

  lemma {:induction false} SetOfSeqCard<T>(s: seq<T>)
    ensures |set x | x in s| <= |s|
  {
    if s != [] {
      SetOfSeqCard(s[1..]);
      assert (set x | x in s) == (set x | x in s[1..]) + {s[0]};
    }
  }

  /** Distance is zero for an empty chain and lies in (0, 1] otherwise. */
  lemma DistanceBounds(chain: seq<string>)
    ensures chain == [] ==> DistanceOf(chain) == 0.0
    ensures chain != [] ==> 0.0 < DistanceOf(chain) <= 1.0
  {
    if chain != [] {
      MoveKindsWithin(chain);
      SetOfSeqCard(MoveKindNames);
      SubsetCard(MoveKinds(chain), set k | k in MoveKindNames);
    }
  }

  /** The move names a step contributes are already among the move kinds of any
      chain that contains the step. */
  lemma {:induction false} StepKindsInChain(chain: seq<string>, i: int)
    requires 0 <= i < |chain|
    ensures KindsIn(chain[i]) <= MoveKinds(chain)
  {
    if i < |chain| - 1 {
      StepKindsInChain(chain[..|chain| - 1], i);
    }
  }

  /** Repeating a step already in the chain adds length but no diversity. */
  lemma RepeatedStepKeepsDiversity(chain: seq<string>, i: int)
    requires 0 <= i < |chain|
    ensures MoveKinds(chain + [chain[i]]) == MoveKinds(chain)
  {
    var after := chain + [chain[i]];
    assert after[..|after| - 1] == chain;
    StepKindsInChain(chain, i);
  }

  // ---- score ----

  /** `has_models` for a supplied spectrum: 1 unless it is empty. */
  function HasModels<M>(sp: Spectrum.ModelSpectrum<M>): (r: real)
    ensures r == 1.0 <==> Spectrum.SizesWithModels(sp) != []
    ensures r == 0.0 <==> Spectrum.SizesWithModels(sp) == []
  {
    Spectrum.EmptyIffNoSizes(sp);
    if !Spectrum.IsEmpty(sp) then 1.0 else 0.0
  }

  /** Timed-out sizes do not enter `has_models`: the spectrum {4: 0} scores 0
      with or without a timeout at size 4. */
  lemma TimeoutsLeaveHasModelsZero()
    ensures HasModels<int>(Spectrum.ModelSpectrum("Test", [(4, 0)], [], [4])) == 0.0
    ensures HasModels<int>(Spectrum.ModelSpectrum("Test", [(4, 0)], [], [])) == 0.0
  {
  }

  /** Every dimension of `score` with the total still zero. */
  function Dimensions<M>(exp: real -> real, sig: Signatures.Signature, spectrum: Option<Spectrum.ModelSpectrum<M>>,
                         known: Option<set<Signatures.Canon>>): (b: ScoreBreakdown)
    ensures b.total == 0.0
  {
    var b0 := Zero.(connectivity := ConnectivityOf(sig), richness := Richness(sig, exp),
                    tension := Tension(sig), economy := Economy(sig), fertility := Fertility(sig));
    var b1 := if spectrum.None? then b0
              else b0.(hasModels := HasModels(spectrum.value),
                       modelDiversity := ModelDiversity(spectrum.value, exp),
                       spectrumPattern := SpectrumPattern(spectrum.value),
                       solverDifficulty := SolverDifficulty(spectrum.value));
    var b2 := if known.None? then b1
              else b1.(isNovel := if Signatures.Fingerprint(sig) in known.value then 0.0 else 1.0);
    b2.(distance := DistanceOf(sig.derivationChain))
  }

  /** `score(sig, spectrum, known_fingerprints)`; a failure where a weight key
      names no field of the breakdown. */
  function ScoreOf<M>(engine: ScoringEngine, exp: real -> real, sig: Signatures.Signature,
                      spectrum: Option<Spectrum.ModelSpectrum<M>>, known: Option<set<Signatures.Canon>>): Result<ScoreBreakdown>
  {
    var b := Dimensions(exp, sig, spectrum, known);
    var t := WeightedTotal(engine.weights, b);
    if t.None? then Failure(UnknownFieldError(engine.weights, b)) else Success(b.(total := t.value))
  }

  /** The method `score`: a zeroed breakdown filled field by field, then the total. */
  method Score<M>(engine: ScoringEngine, exp: real -> real, sig: Signatures.Signature,
                  spectrum: Option<Spectrum.ModelSpectrum<M>>, known: Option<set<Signatures.Canon>>)
    returns (r: Result<ScoreBreakdown>)
    ensures r == ScoreOf(engine, exp, sig, spectrum, known)
  {
    var breakdown := Zero;
    var c := Connectivity(sig);
    breakdown := breakdown.(connectivity := c);
    breakdown := breakdown.(richness := Richness(sig, exp));
    breakdown := breakdown.(tension := Tension(sig));
    breakdown := breakdown.(economy := Economy(sig));
    breakdown := breakdown.(fertility := Fertility(sig));
    if spectrum.Some? {
      var sp := spectrum.value;
      breakdown := breakdown.(hasModels := HasModels(sp));
      breakdown := breakdown.(modelDiversity := ModelDiversity(sp, exp));
      breakdown := breakdown.(spectrumPattern := SpectrumPattern(sp));
      breakdown := breakdown.(solverDifficulty := SolverDifficulty(sp));
    }
    if known.Some? {
      var fp := Signatures.Fingerprint(sig);
      breakdown := breakdown.(isNovel := if fp in known.value then 0.0 else 1.0);
    }
    var d := DistanceFromKnown(sig);
    breakdown := breakdown.(distance := d);
    var total := WeightedTotal(engine.weights, breakdown);
    if total.None? {
      return Failure(UnknownFieldError(engine.weights, breakdown));
    }
    r := Success(breakdown.(total := total.value));
  }

  /** `has_models` is one exactly when a spectrum is given and holds a model;
      `is_novel` is one exactly when a fingerprint set is given that lacks the
      signature's fingerprint; the spectrum dimensions stay zero without a spectrum. */
  lemma ModelAndNoveltyFlags<M>(exp: real -> real, sig: Signatures.Signature,
                                spectrum: Option<Spectrum.ModelSpectrum<M>>, known: Option<set<Signatures.Canon>>)
    ensures var b := Dimensions(exp, sig, spectrum, known);
      && (b.hasModels == 1.0 <==> spectrum.Some? && Spectrum.TotalModels(spectrum.value) > 0)
      && (b.hasModels != 1.0 ==> b.hasModels == 0.0)
      && (b.isNovel == 1.0 <==> known.Some? && Signatures.Fingerprint(sig) !in known.value)
      && (b.isNovel != 1.0 ==> b.isNovel == 0.0)
      && (spectrum.None? ==> b.modelDiversity == b.spectrumPattern == b.solverDifficulty == 0.0)
  {
  }

  /** A spectrum well formed as the solvers build it: no repeated size and no
      more timed-out sizes than checked sizes. */
  predicate WellFormed<M>(sp: Spectrum.ModelSpectrum<M>) {
    Spectrum.DistinctKeys(sp.spectrum) && |sp.timedOutSizes| <= |sp.spectrum|
  }

  /** Every dimension lies in [0, 1] when `exp` behaves like `math.exp`, the
      spectrum is well formed and every sort an operation mentions is declared. */
  lemma DimensionsBounded<M>(exp: real -> real, sig: Signatures.Signature,
                             spectrum: Option<Spectrum.ModelSpectrum<M>>, known: Option<set<Signatures.Canon>>)
    requires ExpBounded(exp)
    requires spectrum.Some? ==> WellFormed(spectrum.value)
    requires forall i :: 0 <= i < |sig.operations| ==> OpSorts(sig.operations[i]) <= DeclaredSorts(sig.sorts)
    ensures DimensionsInUnit(Dimensions(exp, sig, spectrum, known))
  {
    ConnectivityBounds(sig);
    RichnessBounds(sig, exp);
    EconomyBounds(|sig.sorts| + |sig.operations| + |sig.axioms|);
    DistanceBounds(sig.derivationChain);
    if spectrum.Some? {
      ModelDiversityBounds(spectrum.value, exp);
      SpectrumPatternValues(spectrum.value);
      SolverDifficultyBounds(spectrum.value);
    }
  }

  /** With the default engine, `score` never fails. */
  lemma DefaultScoreSucceeds<M>(exp: real -> real, sig: Signatures.Signature,
                                spectrum: Option<Spectrum.ModelSpectrum<M>>, known: Option<set<Signatures.Canon>>)
    ensures ScoreOf(NewEngine(None), exp, sig, spectrum, known).Success?
  {
    var b := Dimensions(exp, sig, spectrum, known);
    DefaultWeightKeys(b);
    WeightedTotalDefined(DefaultWeights, b);
  }

  /** With the default engine, `score` always succeeds, and under the same
      conditions its total lies in [0, 1]. */
  lemma DefaultScoreBounded<M>(exp: real -> real, sig: Signatures.Signature,
                               spectrum: Option<Spectrum.ModelSpectrum<M>>, known: Option<set<Signatures.Canon>>)
    requires ExpBounded(exp)
    requires spectrum.Some? ==> WellFormed(spectrum.value)
    requires forall i :: 0 <= i < |sig.operations| ==> OpSorts(sig.operations[i]) <= DeclaredSorts(sig.sorts)
    ensures ScoreOf(NewEngine(None), exp, sig, spectrum, known).Success?
    ensures 0.0 <= ScoreOf(NewEngine(None), exp, sig, spectrum, known).value.total <= 1.0
  {
    DimensionsBounded(exp, sig, spectrum, known);
    DefaultTotalInUnit(Dimensions(exp, sig, spectrum, known));
  }
}
