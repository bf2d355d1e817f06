/** `SmartSolverRouter` (src/solvers/router.py): a signature with a heavy
    equational axiom goes to Mace4 when Mace4 is installed, otherwise to Z3 with
    a longer timeout; every other signature goes to Z3 with the normal timeout.
    The set of heavy kinds is a parameter (`HEAVY_AXIOM_KINDS` is defined
    outside the modelled files), and so are the solvers' oracles. */
module Router {
  import opened Wrappers
  import Signatures
  import Spectrum
  import Z3Model
  import Mace4
  import Fol

  /** The three strings `classify` returns. */
  datatype Route = Mace4Heavy | Z3Heavy | Z3Normal

  /** `_is_single_sorted`. */
  predicate IsSingleSorted(sig: Signatures.Signature) {
    |sig.sorts| <= 1
  }

  /** `_has_heavy_axioms`: `any` over the axioms, first to last. */
  function HasHeavyAxioms(axioms: seq<Signatures.Axiom>, heavy: set<Signatures.AxiomKind>): (r: bool)
    ensures r <==> exists i :: 0 <= i < |axioms| && axioms[i].kind in heavy
  {
    if axioms == [] then false
    else if axioms[0].kind in heavy then true
    else
      var r := HasHeavyAxioms(axioms[1..], heavy);
      assert forall i :: 0 < i < |axioms| ==> axioms[i] == axioms[1..][i - 1];
      r
  }

  /** `_count_heavy_axioms`. */
  function CountHeavyAxioms(axioms: seq<Signatures.Axiom>, heavy: set<Signatures.AxiomKind>): (r: nat)
    ensures r <= |axioms|
    ensures r == 0 <==> forall i :: 0 <= i < |axioms| ==> axioms[i].kind !in heavy
    ensures r == |axioms| <==> forall i :: 0 <= i < |axioms| ==> axioms[i].kind in heavy
  {
    if axioms == [] then 0
    else
      var rest := CountHeavyAxioms(axioms[1..], heavy);
      assert forall i :: 0 < i < |axioms| ==> axioms[i] == axioms[1..][i - 1];
      (if axioms[0].kind in heavy then 1 else 0) + rest
  }

  /** A signature has a heavy axiom exactly when it counts at least one. */
  lemma HeavyIffCounted(axioms: seq<Signatures.Axiom>, heavy: set<Signatures.AxiomKind>)
    ensures HasHeavyAxioms(axioms, heavy) <==> CountHeavyAxioms(axioms, heavy) >= 1
  {
  }

  /** Python's `int()` on a float: truncation toward zero. */
  function Truncate(x: real): (r: int)
    ensures x >= 0.0 ==> r as real <= x < r as real + 1.0
    ensures x < 0.0 ==> r as real - 1.0 < x <= r as real
  {
    if x >= 0.0 then x.Floor else -((-x).Floor)
  }

  /** The router's state once `__init__` has probed Mace4. */
  datatype SmartSolverRouter = SmartSolverRouter(
    z3TimeoutMs: int,
    mace4Timeout: int,
    heavyTimeoutMultiplier: real,
    mace4: Mace4.Mace4Solver,
    mace4Available: bool,
    z3Normal: Z3Model.Z3ModelFinder,
    z3Heavy: Z3Model.Z3ModelFinder)

  /** `__init__`: Mace4 is probed once, with `run` standing for the subprocess. */
  function NewRouter(z3TimeoutMs: int, mace4Timeout: int, multiplier: real,
                     run: (seq<string>, string, int) -> Mace4.Run): (r: SmartSolverRouter)
    ensures r.mace4 == Mace4.Mace4Solver("mace4", mace4Timeout)
    ensures r.mace4Available <==> Mace4.IsAvailable(r.mace4, run)
    ensures r.z3Normal.timeoutMs == z3TimeoutMs
    ensures r.z3Heavy.timeoutMs == Truncate(z3TimeoutMs as real * multiplier)
  {
    var m := Mace4.Mace4Solver("mace4", mace4Timeout);
    SmartSolverRouter(z3TimeoutMs, mace4Timeout, multiplier, m, Mace4.IsAvailable(m, run),
      Z3Model.Z3ModelFinder(z3TimeoutMs), Z3Model.Z3ModelFinder(Truncate(z3TimeoutMs as real * multiplier)))
  }

  /** `SmartSolverRouter()`: 30000 ms for Z3, 30 s for Mace4, multiplier 2.0. */
  function DefaultRouter(run: (seq<string>, string, int) -> Mace4.Run): SmartSolverRouter {
    NewRouter(30000, 30, 2.0, run)
  }

  /** A whole multiplier scales the timeout exactly; by default heavy
      signatures get twice the normal timeout, 60000 ms. */
  lemma WholeMultiplier(z3TimeoutMs: int, mace4Timeout: int, k: int, run: (seq<string>, string, int) -> Mace4.Run)
    ensures NewRouter(z3TimeoutMs, mace4Timeout, k as real, run).z3Heavy.timeoutMs == k * z3TimeoutMs
    ensures DefaultRouter(run).z3Heavy.timeoutMs == 2 * DefaultRouter(run).z3Normal.timeoutMs == 60000
  {
    assert z3TimeoutMs as real * k as real == (k * z3TimeoutMs) as real;
    assert 30000 as real * 2.0 == 60000 as real;
  }

  /** `is_available`: Mace4 was found at start-up, or Z3 imports. */
  predicate IsAvailable<M>(r: SmartSolverRouter, b: Z3Model.Z3Backend<M>) {
    r.mace4Available || Z3Model.IsAvailable(b)
  }

  /** A router can search exactly when Mace4 answered its probe or Z3 is installed. */
  lemma AvailableIff<M>(z3TimeoutMs: int, mace4Timeout: int, multiplier: real,
                        run: (seq<string>, string, int) -> Mace4.Run, b: Z3Model.Z3Backend<M>)
    ensures IsAvailable(NewRouter(z3TimeoutMs, mace4Timeout, multiplier, run), b) <==>
      Mace4.IsAvailable(Mace4.Mace4Solver("mace4", mace4Timeout), run) || b.available
  {
  }

  /** `classify`. */
  function Classify(r: SmartSolverRouter, heavy: set<Signatures.AxiomKind>, sig: Signatures.Signature): (route: Route)
    ensures route == Mace4Heavy <==> (exists i :: 0 <= i < |sig.axioms| && sig.axioms[i].kind in heavy) && r.mace4Available
    ensures route == Z3Heavy <==> (exists i :: 0 <= i < |sig.axioms| && sig.axioms[i].kind in heavy) && !r.mace4Available
    ensures route == Z3Normal <==> forall i :: 0 <= i < |sig.axioms| ==> sig.axioms[i].kind !in heavy
  {
    if HasHeavyAxioms(sig.axioms, heavy) then
      if r.mace4Available then Mace4Heavy else Z3Heavy
    else Z3Normal
  }

  /** The route depends on the axiom kinds only: not on the sorts (in particular
      not on whether the signature is single-sorted), the operations, the names
      or the descriptions. */
  lemma ClassifyIgnoresRest(r: SmartSolverRouter, heavy: set<Signatures.AxiomKind>, s1: Signatures.Signature, s2: Signatures.Signature)
    requires |s1.axioms| == |s2.axioms|
    requires forall i :: 0 <= i < |s1.axioms| ==> s1.axioms[i].kind == s2.axioms[i].kind
    ensures Classify(r, heavy, s1) == Classify(r, heavy, s2)
  {
    if HasHeavyAxioms(s1.axioms, heavy) {
      var i :| 0 <= i < |s1.axioms| && s1.axioms[i].kind in heavy;
      assert s2.axioms[i].kind in heavy;
    }
  }

  /** `find_models`: the search of the backend `classify` names; whatever
      that search raises passes through. */
  function Find<M>(r: SmartSolverRouter, heavy: set<Signatures.AxiomKind>, b: Z3Model.Z3Backend<M>,
                   run: (seq<string>, string, int) -> Mace4.Run, parse: (string, Signatures.Signature, int) -> seq<M>,
                   sig: Signatures.Signature, n: int, maxModels: int): Result<Spectrum.Mace4Result<M>>
  {
    match Classify(r, heavy, sig)
    case Mace4Heavy => Mace4.Find(r.mace4, run, parse, sig, n, maxModels)
    case Z3Heavy => Z3Model.FindResult(r.z3Heavy, b, sig, n, maxModels)
    case Z3Normal => Z3Model.FindResult(r.z3Normal, b, sig, n, maxModels)
  }

  /** Heavy signatures go to Mace4 when it is installed and otherwise to Z3
      with the stretched timeout; a Mace4 run raises exactly when it cannot
      start, and Z3 never raises from a size of 1 on; a result is for the
      size asked. */
  lemma FindRoutes<M>(r: SmartSolverRouter, heavy: set<Signatures.AxiomKind>, b: Z3Model.Z3Backend<M>,
                      run: (seq<string>, string, int) -> Mace4.Run, parse: (string, Signatures.Signature, int) -> seq<M>,
                      sig: Signatures.Signature, n: int, maxModels: int)
    ensures var f := Find(r, heavy, b, run, parse, sig, n, maxModels);
      && (HasHeavyAxioms(sig.axioms, heavy) && r.mace4Available ==>
            f == Mace4.Find(r.mace4, run, parse, sig, n, maxModels) &&
            (f.Failure? <==> run(Mace4.Command(r.mace4, n, maxModels), Fol.Mace4Text(sig, n), r.mace4.timeout).NotStarted?))
      && (HasHeavyAxioms(sig.axioms, heavy) && !r.mace4Available ==> f == Z3Model.FindResult(r.z3Heavy, b, sig, n, maxModels))
      && (!HasHeavyAxioms(sig.axioms, heavy) ==> f == Z3Model.FindResult(r.z3Normal, b, sig, n, maxModels))
      && (n >= 1 && !(HasHeavyAxioms(sig.axioms, heavy) && r.mace4Available) ==> f.Success?)
      && (f.Success? ==> f.value.domainSize == n)
  {
    Mace4.FindOutcomes(r.mace4, run, parse, sig, n, maxModels);
    Z3Model.FindRaises(r.z3Heavy, b, sig, n, maxModels);
    Z3Model.FindRaises(r.z3Normal, b, sig, n, maxModels);
  }

  /** `find_models` as a function of the size. */
  function FindAt<M>(r: SmartSolverRouter, heavy: set<Signatures.AxiomKind>, b: Z3Model.Z3Backend<M>,
                     run: (seq<string>, string, int) -> Mace4.Run, parse: (string, Signatures.Signature, int) -> seq<M>,
                     sig: Signatures.Signature, maxModels: int): int -> Result<Spectrum.Mace4Result<M>> {
    size => Find(r, heavy, b, run, parse, sig, size, maxModels)
  }

  /** `compute_spectrum` (lines 113-130): sizes `lo` to `hi` through the routed
      search, with timeouts tracked, ending with the error of the first size
      that raises. */
  method ComputeSpectrum<M>(r: SmartSolverRouter, heavy: set<Signatures.AxiomKind>, b: Z3Model.Z3Backend<M>,
                            run: (seq<string>, string, int) -> Mace4.Run, parse: (string, Signatures.Signature, int) -> seq<M>,
                            sig: Signatures.Signature, lo: int, hi: int, maxModels: int)
    returns (sp: Result<Spectrum.ModelSpectrum<M>>)
    ensures sp.Success? <==> Spectrum.Returns(FindAt(r, heavy, b, run, parse, sig, maxModels), lo, Spectrum.Span(lo, hi))
    ensures sp.Success? ==>
      && sp.value.signatureName == sig.name
      && sp.value.spectrum == Spectrum.Counts(FindAt(r, heavy, b, run, parse, sig, maxModels), lo, Spectrum.Span(lo, hi))
      && sp.value.modelsBySize == Spectrum.ModelLists(FindAt(r, heavy, b, run, parse, sig, maxModels), lo, Spectrum.Span(lo, hi))
      && sp.value.timedOutSizes == Spectrum.TimedOuts(FindAt(r, heavy, b, run, parse, sig, maxModels), lo, Spectrum.Span(lo, hi))
    ensures sp.Failure? ==> exists s :: s <= hi && Spectrum.RaisesFirstAt(FindAt(r, heavy, b, run, parse, sig, maxModels), lo, s, sp.error)
  {
    sp := Spectrum.ComputeSpectrumTracked(sig.name, FindAt(r, heavy, b, run, parse, sig, maxModels), lo, hi);
  }

  /** On the Mace4 route the spectrum is computed exactly when every run of
      the range starts; on a Z3 route it always is from a size of 1 on, or
      without Z3. */
  lemma SpectrumReturns<M>(r: SmartSolverRouter, heavy: set<Signatures.AxiomKind>, b: Z3Model.Z3Backend<M>,
                           run: (seq<string>, string, int) -> Mace4.Run, parse: (string, Signatures.Signature, int) -> seq<M>,
                           sig: Signatures.Signature, lo: int, hi: int, maxModels: int)
    ensures Classify(r, heavy, sig) == Mace4Heavy ==>
      (Spectrum.Returns(FindAt(r, heavy, b, run, parse, sig, maxModels), lo, Spectrum.Span(lo, hi)) <==>
       forall n :: lo <= n <= hi ==> !run(Mace4.Command(r.mace4, n, maxModels), Fol.Mace4Text(sig, n), r.mace4.timeout).NotStarted?)
    ensures Classify(r, heavy, sig) != Mace4Heavy && (lo >= 1 || !b.available) ==>
      Spectrum.Returns(FindAt(r, heavy, b, run, parse, sig, maxModels), lo, Spectrum.Span(lo, hi))
  {
    var find := FindAt(r, heavy, b, run, parse, sig, maxModels);
    forall n | lo <= n <= hi
      ensures Classify(r, heavy, sig) == Mace4Heavy ==>
        (find(n).Success? <==> !run(Mace4.Command(r.mace4, n, maxModels), Fol.Mace4Text(sig, n), r.mace4.timeout).NotStarted?)
      ensures Classify(r, heavy, sig) != Mace4Heavy && (lo >= 1 || !b.available) ==> find(n).Success?
    {
      assert find(n) == Find(r, heavy, b, run, parse, sig, n, maxModels);
      FindRoutes(r, heavy, b, run, parse, sig, n, maxModels);
      Z3Model.FindRaises(r.z3Heavy, b, sig, n, maxModels);
      Z3Model.FindRaises(r.z3Normal, b, sig, n, maxModels);
    }
  }

  /** The spectrum records, for every size from `lo` to `hi` and no other, the
      number of models the routed search found; its timed-out sizes are
      exactly the sizes of the range whose routed search timed out, ascending. */
  lemma SpectrumExact<M>(r: SmartSolverRouter, heavy: set<Signatures.AxiomKind>, b: Z3Model.Z3Backend<M>,
                         run: (seq<string>, string, int) -> Mace4.Run, parse: (string, Signatures.Signature, int) -> seq<M>,
                         sig: Signatures.Signature, lo: int, hi: int, maxModels: int, sp: Spectrum.ModelSpectrum<M>)
    requires Spectrum.Returns(FindAt(r, heavy, b, run, parse, sig, maxModels), lo, Spectrum.Span(lo, hi))
    requires sp.spectrum == Spectrum.Counts(FindAt(r, heavy, b, run, parse, sig, maxModels), lo, Spectrum.Span(lo, hi))
    requires sp.timedOutSizes == Spectrum.TimedOuts(FindAt(r, heavy, b, run, parse, sig, maxModels), lo, Spectrum.Span(lo, hi))
    ensures forall s :: lo <= s <= hi ==>
      && Find(r, heavy, b, run, parse, sig, s, maxModels).Success?
      && Spectrum.Get(sp.spectrum, s) == Some(|Find(r, heavy, b, run, parse, sig, s, maxModels).value.modelsFound|)
      && (s in sp.timedOutSizes <==> Find(r, heavy, b, run, parse, sig, s, maxModels).value.timedOut)
    ensures forall s :: !(lo <= s <= hi) ==> Spectrum.Get(sp.spectrum, s) == None && s !in sp.timedOutSizes
    ensures forall i, j :: 0 <= i < j < |sp.timedOutSizes| ==> sp.timedOutSizes[i] < sp.timedOutSizes[j]
  {
    var find := FindAt(r, heavy, b, run, parse, sig, maxModels);
    Spectrum.CountsGet(find, lo, Spectrum.Span(lo, hi));
    Spectrum.TimedOutsExact(find, lo, Spectrum.Span(lo, hi));
    forall s | lo <= s <= hi
      ensures Find(r, heavy, b, run, parse, sig, s, maxModels) == find(s)
    {
    }
  }

  /** Unlike `Mace4Solver.compute_spectrum`, the router keeps Mace4's
      timeouts: on the Mace4 route a size is listed as timed out exactly when
      its Mace4 run timed out. */
  lemma Mace4TimeoutsKept<M>(r: SmartSolverRouter, heavy: set<Signatures.AxiomKind>, b: Z3Model.Z3Backend<M>,
                             run: (seq<string>, string, int) -> Mace4.Run, parse: (string, Signatures.Signature, int) -> seq<M>,
                             sig: Signatures.Signature, lo: int, hi: int, maxModels: int, sp: Spectrum.ModelSpectrum<M>)
    requires Classify(r, heavy, sig) == Mace4Heavy
    requires Spectrum.Returns(FindAt(r, heavy, b, run, parse, sig, maxModels), lo, Spectrum.Span(lo, hi))
    requires sp.timedOutSizes == Spectrum.TimedOuts(FindAt(r, heavy, b, run, parse, sig, maxModels), lo, Spectrum.Span(lo, hi))
    ensures forall s :: s in sp.timedOutSizes <==>
      lo <= s <= hi && run(Mace4.Command(r.mace4, s, maxModels), Fol.Mace4Text(sig, s), r.mace4.timeout).TimedOut?
  {
    var find := FindAt(r, heavy, b, run, parse, sig, maxModels);
    Spectrum.TimedOutsExact(find, lo, Spectrum.Span(lo, hi));
    forall s | lo <= s <= hi
      ensures find(s).value.timedOut <==> run(Mace4.Command(r.mace4, s, maxModels), Fol.Mace4Text(sig, s), r.mace4.timeout).TimedOut?
    {
      assert find(s) == Mace4.Find(r.mace4, run, parse, sig, s, maxModels);
      Mace4.FindOutcomes(r.mace4, run, parse, sig, s, maxModels);
    }
  }
}
