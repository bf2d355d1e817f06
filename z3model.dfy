/** `Z3ModelFinder` (src/solvers/z3_solver.py): encode a signature at one
    domain size, then ask the solver for up to `max_models` models, blocking
    each model found before the next check. Satisfiability itself is an
    oracle: `check` answers for the constraints and the models found so far
    (which stand for the blocking clauses added after them), and `model` is
    the model the solver reports. */
module Z3Model {
  import opened Wrappers
  import Text
  import Signatures
  import Spectrum
  import Z3Encode

  /** `z3.sat`, `z3.unsat`, `z3.unknown`. */
  datatype CheckResult = Sat | Unsat | Unknown

  /** The `z3` package: whether it imports, and its solver's answers. The
      first argument of `check` is the timeout in milliseconds. */
  datatype Z3Backend<!M> = Z3Backend(
    available: bool,
    check: (int, seq<Z3Encode.Constraint>, seq<M>) -> CheckResult,
    model: (seq<Z3Encode.Constraint>, seq<M>) -> M)

  datatype Z3ModelFinder = Z3ModelFinder(timeoutMs: int)

  /** `Z3ModelFinder()`: the default timeout of 30000 ms. */
  function DefaultFinder(): (f: Z3ModelFinder)
    ensures f.timeoutMs == 30000
  {
    Z3ModelFinder(30000)
  }

  /** `is_available`. */
  predicate IsAvailable<M>(b: Z3Backend<M>) {
    b.available
  }

  /** Where the search loop stands: the models so far, the timeout flag, and
      whether a `break` has ended the loop. */
  datatype SearchState<M> = SearchState(models: seq<M>, timedOut: bool, stopped: bool)

  /** One round of the loop body: check, then stop on `unknown` (timed out)
      or on any other non-`sat` answer, or append the reported model. The
      solver sees the blocking clauses of the models in `Blocked`. */
  function Step<M>(b: Z3Backend<M>, t: int, cs: seq<Z3Encode.Constraint>, blocks: bool, models: seq<M>): SearchState<M> {
    var seen := Blocked(blocks, models);
    match b.check(t, cs, seen)
    case Unknown => SearchState(models, true, true)
    case Unsat => SearchState(models, false, true)
    case Sat => SearchState(models + [b.model(cs, seen)], false, false)
  }

  /** The state after `k` passes of `for _ in range(max_models)`. */
  function Rounds<M>(b: Z3Backend<M>, t: int, cs: seq<Z3Encode.Constraint>, blocks: bool, k: nat): SearchState<M> {
    if k == 0 then SearchState([], false, false)
    else
      var p := Rounds(b, t, cs, blocks, k - 1);
      if p.stopped then p else Step(b, t, cs, blocks, p.models)
  }

  /** `range(max_models)` is empty for a negative count. */
  function RoundCount(maxModels: int): nat {
    if maxModels > 0 then maxModels else 0
  }

  /** The `if block:` test after each model: a blocking clause is added when
      a constant is declared, or when the size is at least 1 and a unary or
      binary operation is declared (their tables are empty otherwise, and
      operations of other arities get no table). */
  predicate AddsBlocking(sig: Signatures.Signature, n: int) {
    Signatures.ConstantNames(sig.operations) != {} ||
    (n >= 1 && (HasArity(sig.operations, 1) || HasArity(sig.operations, 2)))
  }

  predicate HasArity(ops: seq<Signatures.Operation>, k: nat) {
    exists i :: 0 <= i < |ops| && ops[i].Arity() == k
  }

  /** The models whose blocking clauses the solver holds: all of them when
      blocking clauses are added, none otherwise. */
  function Blocked<M>(blocks: bool, models: seq<M>): seq<M> {
    if blocks then models else []
  }

  /** What `np.zeros((n, n))` raises for a negative size. */
  const NegativeDimensions := "ValueError: negative dimensions are not allowed"

  /** The loop of `find_models` with the tabulation of each model: when
      `tabulateRaises` (a binary table at a negative size), the first model
      found raises instead of being recorded. */
  function SearchOutcome<M>(b: Z3Backend<M>, t: int, cs: seq<Z3Encode.Constraint>, blocks: bool, tabulateRaises: bool, k: nat)
    : Result<SearchState<M>>
  {
    var st := Rounds(b, t, cs, blocks, k);
    if tabulateRaises && |st.models| > 0 then Failure(NegativeDimensions) else Success(st)
  }

  /** The `Mace4Result` of `find_models`, or the error it raises. */
  function FindResult<M>(f: Z3ModelFinder, b: Z3Backend<M>, sig: Signatures.Signature, n: int, maxModels: int)
    : Result<Spectrum.Mace4Result<M>>
  {
    if !b.available then
      Success(Spectrum.Mace4Result(n, [], -1, "", "z3-solver not installed", false))
    else
      var enc := Z3Encode.SignatureEncodingAt(sig, n);
      if enc.Failure? then Failure(enc.error)
      else
        var found := SearchOutcome(b, f.timeoutMs, enc.value, AddsBlocking(sig, n),
                                   n < 0 && HasArity(sig.operations, 2), RoundCount(maxModels));
        if found.Failure? then Failure(found.error)
        else
          var ms := found.value.models;
          Success(Spectrum.Mace4Result(n, ms, if |ms| > 0 then 0 else 1,
            "Z3 found " + Text.NatToString(|ms|) + " model(s)", "", found.value.timedOut))
  }

  // ---- The search loop ----

  /** Once a `break` has happened, later rounds change nothing. */
  lemma {:induction false} StoppedStays<M>(b: Z3Backend<M>, t: int, cs: seq<Z3Encode.Constraint>, blocks: bool, k: nat, j: nat)
    requires Rounds(b, t, cs, blocks, k).stopped && k <= j
    ensures Rounds(b, t, cs, blocks, j) == Rounds(b, t, cs, blocks, k)
  {
    if j > k {
      StoppedStays(b, t, cs, blocks, k, j - 1);
    }
  }

  /** The shape of the state after `k` rounds: at most `k` models; exactly `k`
      when no `break` happened; a timeout only together with a `break`. */
  lemma {:induction false} RoundsShape<M>(b: Z3Backend<M>, t: int, cs: seq<Z3Encode.Constraint>, blocks: bool, k: nat)
    ensures |Rounds(b, t, cs, blocks, k).models| <= k
    ensures !Rounds(b, t, cs, blocks, k).stopped ==> |Rounds(b, t, cs, blocks, k).models| == k
    ensures Rounds(b, t, cs, blocks, k).stopped ==> |Rounds(b, t, cs, blocks, k).models| < k
    ensures Rounds(b, t, cs, blocks, k).timedOut ==> Rounds(b, t, cs, blocks, k).stopped
  {
    if k > 0 {
      RoundsShape(b, t, cs, blocks, k - 1);
    }
  }

  /** Later rounds only append models. */
  lemma {:induction false} RoundsGrow<M>(b: Z3Backend<M>, t: int, cs: seq<Z3Encode.Constraint>, blocks: bool, k: nat, j: nat)
    requires k <= j
    ensures |Rounds(b, t, cs, blocks, k).models| <= |Rounds(b, t, cs, blocks, j).models|
  {
    if k < j {
      RoundsGrow(b, t, cs, blocks, k, j - 1);
    }
  }

  /** Every model was the solver's answer to a `sat` check made after all
      earlier models had been found, and blocked when blocking clauses are
      added. */
  lemma {:induction false} RoundsHistory<M>(b: Z3Backend<M>, t: int, cs: seq<Z3Encode.Constraint>, blocks: bool, k: nat)
    ensures forall j :: 0 <= j < |Rounds(b, t, cs, blocks, k).models| ==>
      b.check(t, cs, Blocked(blocks, Rounds(b, t, cs, blocks, k).models[..j])) == Sat &&
      Rounds(b, t, cs, blocks, k).models[j] == b.model(cs, Blocked(blocks, Rounds(b, t, cs, blocks, k).models[..j]))
  {
    if k > 0 {
      RoundsHistory(b, t, cs, blocks, k - 1);
      var p := Rounds(b, t, cs, blocks, k - 1);
      if !p.stopped && b.check(t, cs, Blocked(blocks, p.models)) == Sat {
        var ms := p.models + [b.model(cs, Blocked(blocks, p.models))];
        forall j | 0 <= j < |ms|
          ensures b.check(t, cs, Blocked(blocks, ms[..j])) == Sat && ms[j] == b.model(cs, Blocked(blocks, ms[..j]))
        {
          if j < |p.models| {
            assert ms[..j] == p.models[..j] && ms[j] == p.models[j];
            assert b.check(t, cs, Blocked(blocks, p.models[..j])) == Sat;
          } else {
            assert ms[..j] == p.models;
          }
        }
        assert Rounds(b, t, cs, blocks, k).models == ms;
      }
    }
  }

  /** A model is found at all exactly when there is a round and the first
      check answers `sat`. */
  lemma RoundsFirst<M>(b: Z3Backend<M>, t: int, cs: seq<Z3Encode.Constraint>, blocks: bool, k: nat)
    ensures |Rounds(b, t, cs, blocks, k).models| > 0 <==> k > 0 && b.check(t, cs, []) == Sat
  {
    var ms := Rounds(b, t, cs, blocks, k).models;
    RoundsShape(b, t, cs, blocks, k);
    if |ms| > 0 {
      RoundsHistory(b, t, cs, blocks, k);
      assert ms[..0] == [];
    }
    if k > 0 && b.check(t, cs, []) == Sat {
      RoundsGrow(b, t, cs, blocks, 1, k);
    }
  }

  /** How the loop ended: a `break` happened exactly when the last check was
      not `sat`, and the timeout flag is set exactly when that check was
      `unknown`; without a `break` all `k` checks were `sat`. */
  lemma {:induction false} RoundsEnd<M>(b: Z3Backend<M>, t: int, cs: seq<Z3Encode.Constraint>, blocks: bool, k: nat)
    ensures var st := Rounds(b, t, cs, blocks, k);
      st.stopped ==> b.check(t, cs, Blocked(blocks, st.models)) != Sat
    ensures var st := Rounds(b, t, cs, blocks, k);
      st.timedOut <==> st.stopped && b.check(t, cs, Blocked(blocks, st.models)) == Unknown
  {
    if k > 0 {
      RoundsEnd(b, t, cs, blocks, k - 1);
    }
  }

  /** The solver promises that a reported model satisfies the blocking clauses
      of all earlier ones, so it differs from each of them. */
  ghost predicate BlocksFound<M(!new)>(b: Z3Backend<M>, t: int, cs: seq<Z3Encode.Constraint>) {
    forall ms: seq<M> :: b.check(t, cs, ms) == Sat ==> b.model(cs, ms) !in ms
  }

  /** With blocking clauses added and honoured, no model is reported twice. */
  lemma {:induction false} RoundsDistinct<M(!new)>(b: Z3Backend<M>, t: int, cs: seq<Z3Encode.Constraint>, k: nat)
    requires BlocksFound(b, t, cs)
    ensures var ms := Rounds(b, t, cs, true, k).models;
      forall i, j :: 0 <= i < j < |ms| ==> ms[i] != ms[j]
  {
    RoundsHistory(b, t, cs, true, k);
    var ms := Rounds(b, t, cs, true, k).models;
    forall i, j | 0 <= i < j < |ms| ensures ms[i] != ms[j] {
      assert ms[..j][i] == ms[i];
      assert b.check(t, cs, ms[..j]) == Sat && ms[j] == b.model(cs, ms[..j]);
    }
  }

  /** Without blocking clauses the solver is asked the same question every
      round: either the first check is not `sat` and nothing is found, or
      every round reports the same model. */
  lemma {:induction false} RoundsRepeat<M>(b: Z3Backend<M>, t: int, cs: seq<Z3Encode.Constraint>, k: nat)
    ensures b.check(t, cs, []) != Sat ==> Rounds(b, t, cs, false, k).models == []
    ensures b.check(t, cs, []) == Sat ==>
      !Rounds(b, t, cs, false, k).stopped && Rounds(b, t, cs, false, k).models == seq(k, _ => b.model(cs, []))
  {
    if k > 0 {
      RoundsRepeat(b, t, cs, k - 1);
      if b.check(t, cs, []) == Sat {
        assert seq(k - 1, _ => b.model(cs, [])) + [b.model(cs, [])] == seq(k, _ => b.model(cs, []));
      }
    }
  }

  /** The search loop of `find_models` (lines 92-144), with the tabulation of
      each model (lines 106-112) raising when `tabulateRaises`. */
  method Search<M>(b: Z3Backend<M>, t: int, cs: seq<Z3Encode.Constraint>, blocks: bool, tabulateRaises: bool, maxModels: int)
    returns (r: Result<SearchState<M>>)
    ensures r == SearchOutcome(b, t, cs, blocks, tabulateRaises, RoundCount(maxModels))
  {
    var models := [];
    var timedOut := false;
    var i := 0;
    while i < RoundCount(maxModels)
      invariant 0 <= i <= RoundCount(maxModels)
      invariant Rounds(b, t, cs, blocks, i) == SearchState(models, timedOut, false)
      invariant tabulateRaises ==> models == []
    {
      var result := b.check(t, cs, Blocked(blocks, models));
      if result == Unknown {
        timedOut := true;
        StoppedStays(b, t, cs, blocks, i + 1, RoundCount(maxModels));
        return Success(SearchState(models, timedOut, true));
      }
      if result != Sat {
        StoppedStays(b, t, cs, blocks, i + 1, RoundCount(maxModels));
        return Success(SearchState(models, timedOut, true));
      }
      if tabulateRaises {
        RoundsGrow(b, t, cs, blocks, i + 1, RoundCount(maxModels));
        return Failure(NegativeDimensions);
      }
      var m := b.model(cs, Blocked(blocks, models));
      models := models + [m];
      i := i + 1;
    }
    return Success(SearchState(models, timedOut, false));
  }

  /** `find_models`: without Z3 an error result; otherwise the tables and
      constraints of the signature, then the search. */
  method FindModels<M>(f: Z3ModelFinder, b: Z3Backend<M>, sig: Signatures.Signature, n: int, maxModels: int)
    returns (r: Result<Spectrum.Mace4Result<M>>)
    ensures r == FindResult(f, b, sig, n, maxModels)
  {
    if !b.available {
      return Success(Spectrum.Mace4Result(n, [], -1, "", "z3-solver not installed", false));
    }
    var tb, enc := Z3Encode.EncodeSignature(sig, n);
    if enc.Failure? {
      return Failure(enc.error);
    }
    var found := Search(b, f.timeoutMs, enc.value, AddsBlocking(sig, n), n < 0 && HasArity(sig.operations, 2), maxModels);
    if found.Failure? {
      return Failure(found.error);
    }
    var ms := found.value.models;
    r := Success(Spectrum.Mace4Result(n, ms, if |ms| > 0 then 0 else 1,
      "Z3 found " + Text.NatToString(|ms|) + " model(s)", "", found.value.timedOut));
  }

  // ---- Properties of one search ----

  /** Without Z3: a result with no models, exit code -1, a non-empty error,
      no timeout. */
  lemma UnavailableResult<M>(f: Z3ModelFinder, b: Z3Backend<M>, sig: Signatures.Signature, n: int, maxModels: int)
    requires !b.available
    ensures FindResult(f, b, sig, n, maxModels).Success?
    ensures FindResult(f, b, sig, n, maxModels).value.modelsFound == []
    ensures FindResult(f, b, sig, n, maxModels).value.exitCode == -1
    ensures FindResult(f, b, sig, n, maxModels).value.error != ""
    ensures !FindResult(f, b, sig, n, maxModels).value.timedOut
  {
  }

  /** `find_models` raises exactly when Z3 is present and either the encoding
      raises or, at a negative size with a binary operation, the first check
      answers `sat`, so that its model is tabulated; it never raises at a size
      of 1 or more. */
  lemma FindRaises<M>(f: Z3ModelFinder, b: Z3Backend<M>, sig: Signatures.Signature, n: int, maxModels: int)
    ensures FindResult(f, b, sig, n, maxModels).Failure? <==>
      b.available &&
      (Z3Encode.SignatureEncodingAt(sig, n).Failure? ||
       (n < 0 && HasArity(sig.operations, 2) && RoundCount(maxModels) > 0 &&
        b.check(f.timeoutMs, Z3Encode.SignatureEncodingAt(sig, n).value, []) == Sat))
    ensures n >= 1 ==> FindResult(f, b, sig, n, maxModels).Success?
  {
    var enc := Z3Encode.SignatureEncodingAt(sig, n);
    if b.available && enc.Success? {
      RoundsFirst(b, f.timeoutMs, enc.value, AddsBlocking(sig, n), RoundCount(maxModels));
    }
  }

  /** With Z3, when it returns: at most `max_models` models, exit code 0
      exactly when one was found, no error; a timeout leaves fewer than
      `max_models` models and means the last check answered `unknown`; when
      fewer models were found and there was no timeout, the last check
      answered `unsat`. */
  lemma {:induction false} AvailableResult<M>(f: Z3ModelFinder, b: Z3Backend<M>, sig: Signatures.Signature, n: int, maxModels: int)
    requires b.available && FindResult(f, b, sig, n, maxModels).Success?
    ensures Z3Encode.SignatureEncodingAt(sig, n).Success?
    ensures var r := FindResult(f, b, sig, n, maxModels).value;
      |r.modelsFound| <= RoundCount(maxModels) &&
      (r.exitCode == 0 <==> |r.modelsFound| > 0) &&
      (r.exitCode != 0 ==> r.exitCode == 1) &&
      r.error == "" &&
      r.domainSize == n
    ensures var r := FindResult(f, b, sig, n, maxModels).value;
      var cs := Z3Encode.SignatureEncodingAt(sig, n).value;
      var seen := Blocked(AddsBlocking(sig, n), r.modelsFound);
      (r.timedOut ==> |r.modelsFound| < RoundCount(maxModels) && b.check(f.timeoutMs, cs, seen) == Unknown) &&
      (!r.timedOut && |r.modelsFound| < RoundCount(maxModels) ==> b.check(f.timeoutMs, cs, seen) == Unsat)
  {
    var cs := Z3Encode.SignatureEncodingAt(sig, n).value;
    RoundsShape(b, f.timeoutMs, cs, AddsBlocking(sig, n), RoundCount(maxModels));
    RoundsEnd(b, f.timeoutMs, cs, AddsBlocking(sig, n), RoundCount(maxModels));
  }

  /** The solver answers `sat` only to constraints some assignment satisfies. */
  ghost predicate SoundCheck<M(!new)>(b: Z3Backend<M>, t: int, cs: seq<Z3Encode.Constraint>) {
    forall ms: seq<M> :: b.check(t, cs, ms) == Sat ==> exists asg :: Z3Encode.AllHold(cs, asg)
  }

  /** At a size of 0 or below, a declared constant's range constraint cannot
      hold: a sound solver finds no model, and the exit code is 1. */
  lemma ConstantOnEmptyDomain<M(!new)>(f: Z3ModelFinder, b: Z3Backend<M>, sig: Signatures.Signature, n: int, maxModels: int)
    requires b.available && n <= 0 && Signatures.ConstantNames(sig.operations) != {}
    requires Z3Encode.SignatureEncodingAt(sig, n).Success?
    requires SoundCheck(b, f.timeoutMs, Z3Encode.SignatureEncodingAt(sig, n).value)
    ensures FindResult(f, b, sig, n, maxModels).Success?
    ensures FindResult(f, b, sig, n, maxModels).value.modelsFound == []
    ensures FindResult(f, b, sig, n, maxModels).value.exitCode == 1
  {
    var cs := Z3Encode.SignatureEncodingAt(sig, n).value;
    forall asg ensures !Z3Encode.AllHold(cs, asg) {
      Z3Encode.SignatureEncodingExact(sig, n, asg);
    }
    assert b.check(f.timeoutMs, cs, []) != Sat;
    RoundsFirst(b, f.timeoutMs, cs, AddsBlocking(sig, n), RoundCount(maxModels));
  }

  /** At a size of 0 or below without constants, nothing is constrained and
      no blocking clause is added: every round reports the same model, so a
      `sat` answer yields `max_models` copies of it. */
  lemma NoConstantsOnEmptyDomain<M>(f: Z3ModelFinder, b: Z3Backend<M>, sig: Signatures.Signature, n: int, maxModels: int)
    requires b.available && n <= 0 && Signatures.ConstantNames(sig.operations) == {}
    ensures Z3Encode.SignatureEncodingAt(sig, n) == Success([])
    ensures !AddsBlocking(sig, n)
    ensures var r := FindResult(f, b, sig, n, maxModels);
      r.Success? ==> forall j :: 0 <= j < |r.value.modelsFound| ==> r.value.modelsFound[j] == b.model([], [])
    ensures var r := FindResult(f, b, sig, n, maxModels);
      r.Success? && b.check(f.timeoutMs, [], []) == Sat ==>
        |r.value.modelsFound| == RoundCount(maxModels) && !r.value.timedOut
  {
    Z3Encode.SignatureEncodingExact(sig, n, _ => 0);
    RoundsRepeat(b, f.timeoutMs, [], RoundCount(maxModels));
    RoundsShape(b, f.timeoutMs, [], false, RoundCount(maxModels));
  }

  // ---- compute_spectrum ----

  /** `find_models` as a function of the size. */
  function FindAt<M>(f: Z3ModelFinder, b: Z3Backend<M>, sig: Signatures.Signature, maxModels: int)
    : int -> Result<Spectrum.Mace4Result<M>>
  {
    size => FindResult(f, b, sig, size, maxModels)
  }

  /** `compute_spectrum` (lines 154-168): sizes `lo` to `hi`, with timeouts
      tracked, ending with the error of the first size that raises. */
  method ComputeSpectrum<M>(f: Z3ModelFinder, b: Z3Backend<M>, sig: Signatures.Signature, lo: int, hi: int, maxModels: int)
    returns (r: Result<Spectrum.ModelSpectrum<M>>)
    ensures r.Success? <==> Spectrum.Returns(FindAt(f, b, sig, maxModels), lo, Spectrum.Span(lo, hi))
    ensures r.Success? ==>
      && r.value.signatureName == sig.name
      && r.value.spectrum == Spectrum.Counts(FindAt(f, b, sig, maxModels), lo, Spectrum.Span(lo, hi))
      && r.value.modelsBySize == Spectrum.ModelLists(FindAt(f, b, sig, maxModels), lo, Spectrum.Span(lo, hi))
      && r.value.timedOutSizes == Spectrum.TimedOuts(FindAt(f, b, sig, maxModels), lo, Spectrum.Span(lo, hi))
    ensures r.Failure? ==> exists s :: s <= hi && Spectrum.RaisesFirstAt(FindAt(f, b, sig, maxModels), lo, s, r.error)
  {
    r := Spectrum.ComputeSpectrumTracked(sig.name, FindAt(f, b, sig, maxModels), lo, hi);
  }

  /** From a size of 1 on, or without Z3, no search raises, so the spectrum
      is always computed. */
  lemma SpectrumReturns<M>(f: Z3ModelFinder, b: Z3Backend<M>, sig: Signatures.Signature, lo: int, hi: int, maxModels: int)
    requires lo >= 1 || !b.available
    ensures Spectrum.Returns(FindAt(f, b, sig, maxModels), lo, Spectrum.Span(lo, hi))
  {
    forall s | lo <= s < lo + Spectrum.Span(lo, hi) ensures FindAt(f, b, sig, maxModels)(s).Success? {
      FindRaises(f, b, sig, s, maxModels);
    }
  }

  /** A computed spectrum holds, for every size from `lo` to `hi` and no
      other, the number of models `find_models` found there. */
  lemma SpectrumCounts<M>(f: Z3ModelFinder, b: Z3Backend<M>, sig: Signatures.Signature, lo: int, hi: int, maxModels: int,
                          sp: Spectrum.ModelSpectrum<M>)
    requires Spectrum.Returns(FindAt(f, b, sig, maxModels), lo, Spectrum.Span(lo, hi))
    requires sp.spectrum == Spectrum.Counts(FindAt(f, b, sig, maxModels), lo, Spectrum.Span(lo, hi))
    ensures forall s :: lo <= s <= hi ==>
      FindResult(f, b, sig, s, maxModels).Success? &&
      Spectrum.Get(sp.spectrum, s) == Some(|FindResult(f, b, sig, s, maxModels).value.modelsFound|)
    ensures forall s :: !(lo <= s <= hi) ==> Spectrum.Get(sp.spectrum, s) == None
  {
    var find := FindAt(f, b, sig, maxModels);
    Spectrum.CountsGet(find, lo, Spectrum.Span(lo, hi));
    forall s | lo <= s <= hi ensures FindResult(f, b, sig, s, maxModels).Success? {
      assert find(s) == FindResult(f, b, sig, s, maxModels);
    }
  }

  /** The search at size `s` timed out: the check after its last model
      answered `unknown` before `max_models` models were found. */
  predicate SearchTimedOut<M>(f: Z3ModelFinder, b: Z3Backend<M>, sig: Signatures.Signature, s: int, maxModels: int) {
    b.available && Z3Encode.SignatureEncodingAt(sig, s).Success? &&
    var cs := Z3Encode.SignatureEncodingAt(sig, s).value;
    var ms := Rounds(b, f.timeoutMs, cs, AddsBlocking(sig, s), RoundCount(maxModels)).models;
    b.check(f.timeoutMs, cs, Blocked(AddsBlocking(sig, s), ms)) == Unknown && |ms| < RoundCount(maxModels)
  }

  /** A result is flagged as timed out exactly when the search timed out. */
  lemma TimedOutAt<M>(f: Z3ModelFinder, b: Z3Backend<M>, sig: Signatures.Signature, s: int, maxModels: int)
    requires FindResult(f, b, sig, s, maxModels).Success?
    ensures FindAt(f, b, sig, maxModels)(s).value.timedOut <==> SearchTimedOut(f, b, sig, s, maxModels)
  {
    if b.available {
      var cs := Z3Encode.SignatureEncodingAt(sig, s).value;
      RoundsShape(b, f.timeoutMs, cs, AddsBlocking(sig, s), RoundCount(maxModels));
      RoundsEnd(b, f.timeoutMs, cs, AddsBlocking(sig, s), RoundCount(maxModels));
    }
  }

  /** The timed-out sizes of a computed spectrum are exactly the sizes of the
      range whose search timed out, ascending. */
  lemma SpectrumTimeouts<M>(f: Z3ModelFinder, b: Z3Backend<M>, sig: Signatures.Signature, lo: int, hi: int, maxModels: int,
                            sp: Spectrum.ModelSpectrum<M>)
    requires Spectrum.Returns(FindAt(f, b, sig, maxModels), lo, Spectrum.Span(lo, hi))
    requires sp.timedOutSizes == Spectrum.TimedOuts(FindAt(f, b, sig, maxModels), lo, Spectrum.Span(lo, hi))
    ensures forall s :: s in sp.timedOutSizes <==> lo <= s <= hi && SearchTimedOut(f, b, sig, s, maxModels)
    ensures forall i, j :: 0 <= i < j < |sp.timedOutSizes| ==> sp.timedOutSizes[i] < sp.timedOutSizes[j]
  {
    Spectrum.TimedOutsExact(FindAt(f, b, sig, maxModels), lo, Spectrum.Span(lo, hi));
    forall s | lo <= s <= hi
      ensures FindAt(f, b, sig, maxModels)(s).value.timedOut <==> SearchTimedOut(f, b, sig, s, maxModels)
    {
      assert FindAt(f, b, sig, maxModels)(s) == FindResult(f, b, sig, s, maxModels);
      TimedOutAt(f, b, sig, s, maxModels);
    }
  }

  /** Without Z3 the spectrum is computed, has no models and no timed-out size. */
  lemma UnavailableSpectrum<M>(f: Z3ModelFinder, b: Z3Backend<M>, sig: Signatures.Signature, lo: int, hi: int, maxModels: int)
    requires !b.available
    ensures Spectrum.Returns(FindAt(f, b, sig, maxModels), lo, Spectrum.Span(lo, hi))
    ensures Spectrum.TimedOuts(FindAt(f, b, sig, maxModels), lo, Spectrum.Span(lo, hi)) == []
    ensures Spectrum.IsEmpty(Spectrum.ModelSpectrum(sig.name,
      Spectrum.Counts(FindAt(f, b, sig, maxModels), lo, Spectrum.Span(lo, hi)),
      Spectrum.ModelLists(FindAt(f, b, sig, maxModels), lo, Spectrum.Span(lo, hi)), []))
  {
    var find := FindAt(f, b, sig, maxModels);
    var n := Spectrum.Span(lo, hi);
    SpectrumReturns(f, b, sig, lo, hi, maxModels);
    Spectrum.TimedOutsNone(find, lo, n);
    Spectrum.CountsNone(Spectrum.ModelSpectrum(sig.name, Spectrum.Counts(find, lo, n), Spectrum.ModelLists(find, lo, n), []), find, lo, n);
  }
}
