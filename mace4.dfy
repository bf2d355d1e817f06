/** `Mace4Solver` and `Mace4Fallback` (src/solvers/mace4.py). The Mace4
    program runs as a subprocess: the operating system is an oracle `run`
    from a command line, its standard input and a timeout in seconds to what
    `subprocess.run` reports, and reading the output is an oracle `parse`. */
module Mace4 {
  import opened Wrappers
  import Text
  import Signatures
  import Spectrum
  import Fol
  import Z3Model

  /** What `subprocess.run` gives back: the exit code and both output streams,
      a `TimeoutExpired`, or an `OSError` raised before the program runs;
      `missing` tells the `FileNotFoundError` of a missing binary from the
      others (a `PermissionError`, say). */
  datatype Run = Exited(code: int, stdout: string, stderr: string) | TimedOut | NotStarted(missing: bool)

  datatype Mace4Solver = Mace4Solver(path: string, timeout: int)

  /** `Mace4Solver()`: the binary `mace4` with a 30 second timeout. */
  function DefaultSolver(): (s: Mace4Solver)
    ensures s.path == "mace4" && s.timeout == 30
  {
    Mace4Solver("mace4", 30)
  }

  /** `is_available`: `mace4 --version` (5 second timeout) exits with 0 or 1;
      a timeout or a failure to start means not available. */
  predicate IsAvailable(s: Mace4Solver, run: (seq<string>, string, int) -> Run) {
    match run([s.path, "--version"], "", 5)
    case Exited(code, _, _) => code == 0 || code == 1
    case _ => false
  }

  /** The probe succeeds exactly when the program ran and exited with 0 or 1. */
  lemma AvailableIff(s: Mace4Solver, run: (seq<string>, string, int) -> Run)
    ensures IsAvailable(s, run) <==>
      run([s.path, "--version"], "", 5).Exited? && run([s.path, "--version"], "", 5).code in {0, 1}
  {
  }

  /** The command line of `find_models`: the size as both bounds, and `-m`
      only when more than one model is asked for. */
  function Command(s: Mace4Solver, n: int, maxModels: int): seq<string> {
    [s.path, "-n", Text.IntToString(n), "-N", Text.IntToString(n)] +
    (if maxModels > 1 then ["-m", Text.IntToString(maxModels)] else [])
  }

  /** For a non-negative size both bounds read back as the size, and the model
      count is passed exactly when it exceeds one, reading back as that count. */
  lemma CommandReadsBack(s: Mace4Solver, n: nat, maxModels: int)
    ensures var c := Command(s, n, maxModels);
      c[0] == s.path && c[1] == "-n" && c[3] == "-N" &&
      Text.ParseNat(c[2]) == n && Text.ParseNat(c[4]) == n &&
      (|c| == 7 <==> maxModels > 1) && (|c| == 5 <==> maxModels <= 1)
    ensures maxModels > 1 ==> Command(s, n, maxModels)[5] == "-m" && Text.ParseNat(Command(s, n, maxModels)[6]) == maxModels
  {
    Text.NatToStringRoundTrip(n);
    if maxModels > 1 {
      Text.NatToStringRoundTrip(maxModels);
    }
  }

  /** The result of a run that timed out (lines 123-131). */
  function TimeoutResult<M>(n: int): Spectrum.Mace4Result<M> {
    Spectrum.Mace4Result(n, [], -1, "", "Timed out", true)
  }

  /** `Mace4Solver.find_models`: run Mace4 on the input of `to_mace4`; a run
      that could not start raises, here a `Failure`. */
  function Find<M>(s: Mace4Solver, run: (seq<string>, string, int) -> Run, parse: (string, Signatures.Signature, int) -> seq<M>,
                   sig: Signatures.Signature, n: int, maxModels: int): Result<Spectrum.Mace4Result<M>> {
    match run(Command(s, n, maxModels), Fol.Mace4Text(sig, n), s.timeout)
    case Exited(code, out, err) => Success(Spectrum.Mace4Result(n, parse(out, sig, n), code, out, err, false))
    case TimedOut => Success(TimeoutResult(n))
    case NotStarted(_) => Failure("OSError")
  }

  /** A timed-out run gives no models, exit code -1 and the timeout flag; a
      finished run is never flagged, keeps the exit code and both streams,
      and its models are those read from its standard output. */
  lemma FindOutcomes<M>(s: Mace4Solver, run: (seq<string>, string, int) -> Run, parse: (string, Signatures.Signature, int) -> seq<M>,
                        sig: Signatures.Signature, n: int, maxModels: int)
    ensures var r := run(Command(s, n, maxModels), Fol.Mace4Text(sig, n), s.timeout);
      var f := Find(s, run, parse, sig, n, maxModels);
      (r.TimedOut? ==> f.Success? && f.value.modelsFound == [] && f.value.exitCode == -1 && f.value.timedOut && f.value.error == "Timed out") &&
      (r.Exited? ==> f.Success? && !f.value.timedOut && f.value.exitCode == r.code && f.value.rawOutput == r.stdout &&
                     f.value.error == r.stderr && f.value.modelsFound == parse(r.stdout, sig, n)) &&
      (f.Success? <==> !r.NotStarted?) &&
      (f.Success? ==> f.value.domainSize == n)
  {
  }

  /** `find_models` as a function of the size. */
  function FindAt<M>(s: Mace4Solver, run: (seq<string>, string, int) -> Run, parse: (string, Signatures.Signature, int) -> seq<M>,
                     sig: Signatures.Signature, maxModels: int): int -> Result<Spectrum.Mace4Result<M>> {
    size => Find(s, run, parse, sig, size, maxModels)
  }

  /** `Mace4Solver.compute_spectrum` (lines 135-151), ending with the error of
      the first size whose run cannot start. */
  method ComputeSpectrum<M>(s: Mace4Solver, run: (seq<string>, string, int) -> Run, parse: (string, Signatures.Signature, int) -> seq<M>,
                            sig: Signatures.Signature, lo: int, hi: int, maxModels: int)
    returns (r: Result<Spectrum.ModelSpectrum<M>>)
    ensures r.Success? <==> Spectrum.Returns(FindAt(s, run, parse, sig, maxModels), lo, Spectrum.Span(lo, hi))
    ensures r.Success? ==>
      && r.value.signatureName == sig.name
      && r.value.spectrum == Spectrum.Counts(FindAt(s, run, parse, sig, maxModels), lo, Spectrum.Span(lo, hi))
      && r.value.modelsBySize == Spectrum.ModelLists(FindAt(s, run, parse, sig, maxModels), lo, Spectrum.Span(lo, hi))
      && r.value.timedOutSizes == []
    ensures r.Failure? ==> r.error == "OSError"
    ensures r.Failure? ==> exists n :: n <= hi && Spectrum.RaisesFirstAt(FindAt(s, run, parse, sig, maxModels), lo, n, r.error)
  {
    r := Spectrum.ComputeSpectrum(sig.name, FindAt(s, run, parse, sig, maxModels), lo, hi);
  }

  /** The spectrum is computed exactly when every run of the range starts. */
  lemma SpectrumStarts<M>(s: Mace4Solver, run: (seq<string>, string, int) -> Run, parse: (string, Signatures.Signature, int) -> seq<M>,
                          sig: Signatures.Signature, lo: int, hi: int, maxModels: int)
    ensures Spectrum.Returns(FindAt(s, run, parse, sig, maxModels), lo, Spectrum.Span(lo, hi)) <==>
      forall n :: lo <= n <= hi ==> !run(Command(s, n, maxModels), Fol.Mace4Text(sig, n), s.timeout).NotStarted?
  {
    var find := FindAt(s, run, parse, sig, maxModels);
    forall n ensures find(n).Success? <==> !run(Command(s, n, maxModels), Fol.Mace4Text(sig, n), s.timeout).NotStarted? {
      FindOutcomes(s, run, parse, sig, n, maxModels);
    }
  }

  /** A spectrum filled this way records, for every size of the range and no
      other, the number of models read from Mace4's output, and 0 for a size
      whose run timed out; yet no size is ever listed as timed out, so a
      timed-out size looks like a size without models. */
  lemma SpectrumLosesTimeouts<M>(s: Mace4Solver, run: (seq<string>, string, int) -> Run, parse: (string, Signatures.Signature, int) -> seq<M>,
                                 sig: Signatures.Signature, lo: int, hi: int, maxModels: int, sp: Spectrum.ModelSpectrum<M>)
    requires Spectrum.Returns(FindAt(s, run, parse, sig, maxModels), lo, Spectrum.Span(lo, hi))
    requires sp.spectrum == Spectrum.Counts(FindAt(s, run, parse, sig, maxModels), lo, Spectrum.Span(lo, hi))
    requires sp.timedOutSizes == []
    ensures forall n :: lo <= n <= hi && run(Command(s, n, maxModels), Fol.Mace4Text(sig, n), s.timeout).TimedOut? ==>
      Spectrum.Get(sp.spectrum, n) == Some(0) && n !in sp.timedOutSizes
    ensures forall n :: lo <= n <= hi && run(Command(s, n, maxModels), Fol.Mace4Text(sig, n), s.timeout).Exited? ==>
      Spectrum.Get(sp.spectrum, n) == Some(|parse(run(Command(s, n, maxModels), Fol.Mace4Text(sig, n), s.timeout).stdout, sig, n)|)
    ensures forall n :: !(lo <= n <= hi) ==> Spectrum.Get(sp.spectrum, n) == None
    ensures !Spectrum.AnyTimedOut(sp)
  {
    Spectrum.CountsGet(FindAt(s, run, parse, sig, maxModels), lo, Spectrum.Span(lo, hi));
  }

  /** The same loop keeping the timeout flag of each size, as the Z3 finder and
      the router do. */
  method ComputeSpectrumTracked<M>(s: Mace4Solver, run: (seq<string>, string, int) -> Run, parse: (string, Signatures.Signature, int) -> seq<M>,
                                   sig: Signatures.Signature, lo: int, hi: int, maxModels: int)
    returns (r: Result<Spectrum.ModelSpectrum<M>>)
    ensures r.Success? <==> Spectrum.Returns(FindAt(s, run, parse, sig, maxModels), lo, Spectrum.Span(lo, hi))
    ensures r.Success? ==>
      && r.value.signatureName == sig.name
      && r.value.spectrum == Spectrum.Counts(FindAt(s, run, parse, sig, maxModels), lo, Spectrum.Span(lo, hi))
      && r.value.modelsBySize == Spectrum.ModelLists(FindAt(s, run, parse, sig, maxModels), lo, Spectrum.Span(lo, hi))
      && r.value.timedOutSizes == Spectrum.TimedOuts(FindAt(s, run, parse, sig, maxModels), lo, Spectrum.Span(lo, hi))
    ensures r.Failure? ==> r.error == "OSError"
    ensures r.Failure? ==> exists n :: n <= hi && Spectrum.RaisesFirstAt(FindAt(s, run, parse, sig, maxModels), lo, n, r.error)
  {
    r := Spectrum.ComputeSpectrumTracked(sig.name, FindAt(s, run, parse, sig, maxModels), lo, hi);
  }

  /** With the flag kept, the timed-out sizes are exactly the sizes of the
      range whose Mace4 run timed out, ascending. */
  lemma TrackedSpectrumTimeouts<M>(s: Mace4Solver, run: (seq<string>, string, int) -> Run, parse: (string, Signatures.Signature, int) -> seq<M>,
                                   sig: Signatures.Signature, lo: int, hi: int, maxModels: int, sp: Spectrum.ModelSpectrum<M>)
    requires Spectrum.Returns(FindAt(s, run, parse, sig, maxModels), lo, Spectrum.Span(lo, hi))
    requires sp.timedOutSizes == Spectrum.TimedOuts(FindAt(s, run, parse, sig, maxModels), lo, Spectrum.Span(lo, hi))
    ensures forall n :: n in sp.timedOutSizes <==>
      lo <= n <= hi && run(Command(s, n, maxModels), Fol.Mace4Text(sig, n), s.timeout).TimedOut?
    ensures forall i, j :: 0 <= i < j < |sp.timedOutSizes| ==> sp.timedOutSizes[i] < sp.timedOutSizes[j]
  {
    Spectrum.TimedOutsExact(FindAt(s, run, parse, sig, maxModels), lo, Spectrum.Span(lo, hi));
  }

  /** An operating system on which every run times out. */
  function AlwaysTimesOut(command: seq<string>, input: string, timeout: int): Run {
    TimedOut
  }

  function NoModels(output: string, sig: Signatures.Signature, n: int): seq<int> {
    []
  }

  /** When every run times out, sizes 2 to 8 all get count 0 and, as written,
      no size is listed as timed out, although all seven timed out. */
  lemma AllTimeoutsLost(sig: Signatures.Signature, sp: Spectrum.ModelSpectrum<int>)
    requires sp.spectrum == Spectrum.Counts(FindAt(DefaultSolver(), AlwaysTimesOut, NoModels, sig, 10), 2, 7)
    requires sp.timedOutSizes == []
    ensures Spectrum.IsEmpty(sp) && !Spectrum.AnyTimedOut(sp)
    ensures Spectrum.TimedOuts(FindAt(DefaultSolver(), AlwaysTimesOut, NoModels, sig, 10), 2, 7) == [2, 3, 4, 5, 6, 7, 8]
  {
    var find := FindAt(DefaultSolver(), AlwaysTimesOut, NoModels, sig, 10);
    Spectrum.CountsNone(sp, find, 2, 7);
  }

  // ---- Mace4Fallback ----

  datatype Mace4Fallback = Mace4Fallback(timeout: int)

  /** The Z3 finder the fallback builds: its timeout in seconds, in milliseconds. */
  function FallbackFinder(fb: Mace4Fallback): (f: Z3Model.Z3ModelFinder)
    ensures f.timeoutMs == fb.timeout * 1000
  {
    Z3Model.Z3ModelFinder(fb.timeout * 1000)
  }

  /** `Mace4Fallback.find_models`: the Z3 finder's result when its module
      imports (`z3Module`), otherwise an error result. Only the `ImportError`
      is caught: an error the Z3 finder raises passes through. */
  function FallbackFind<M>(fb: Mace4Fallback, z3Module: bool, b: Z3Model.Z3Backend<M>, sig: Signatures.Signature, n: int, maxModels: int)
    : Result<Spectrum.Mace4Result<M>>
  {
    if z3Module then Z3Model.FindResult(FallbackFinder(fb), b, sig, n, maxModels)
    else Success(Spectrum.Mace4Result(n, [], -1, "", "Neither Mace4 nor Z3 available", false))
  }

  /** Without the Z3 module: no models, exit code -1, the error message; with
      the module, exactly the Z3 finder's result or error (its own error
      result when the `z3` package is missing). */
  lemma FallbackErrors<M>(fb: Mace4Fallback, z3Module: bool, b: Z3Model.Z3Backend<M>, sig: Signatures.Signature, n: int, maxModels: int)
    ensures !z3Module ==> FallbackFind(fb, z3Module, b, sig, n, maxModels) == Success(Spectrum.Mace4Result(n, [], -1, "", "Neither Mace4 nor Z3 available", false))
    ensures z3Module && !b.available ==>
      FallbackFind(fb, z3Module, b, sig, n, maxModels).Success? &&
      FallbackFind(fb, z3Module, b, sig, n, maxModels).value.error == "z3-solver not installed"
    ensures z3Module ==> FallbackFind(fb, z3Module, b, sig, n, maxModels) == Z3Model.FindResult(Z3Model.Z3ModelFinder(fb.timeout * 1000), b, sig, n, maxModels)
  {
  }

  function FallbackAt<M>(fb: Mace4Fallback, z3Module: bool, b: Z3Model.Z3Backend<M>, sig: Signatures.Signature, maxModels: int)
    : int -> Result<Spectrum.Mace4Result<M>>
  {
    size => FallbackFind(fb, z3Module, b, sig, size, maxModels)
  }

  /** `Mace4Fallback.compute_spectrum` (lines 244-256), ending with the error
      of the first size whose search raises. */
  method FallbackSpectrum<M>(fb: Mace4Fallback, z3Module: bool, b: Z3Model.Z3Backend<M>, sig: Signatures.Signature, lo: int, hi: int, maxModels: int)
    returns (r: Result<Spectrum.ModelSpectrum<M>>)
    ensures r.Success? <==> Spectrum.Returns(FallbackAt(fb, z3Module, b, sig, maxModels), lo, Spectrum.Span(lo, hi))
    ensures r.Success? ==>
      && r.value.signatureName == sig.name
      && r.value.spectrum == Spectrum.Counts(FallbackAt(fb, z3Module, b, sig, maxModels), lo, Spectrum.Span(lo, hi))
      && r.value.modelsBySize == Spectrum.ModelLists(FallbackAt(fb, z3Module, b, sig, maxModels), lo, Spectrum.Span(lo, hi))
      && r.value.timedOutSizes == []
    ensures r.Failure? ==> exists n :: n <= hi && Spectrum.RaisesFirstAt(FallbackAt(fb, z3Module, b, sig, maxModels), lo, n, r.error)
  {
    r := Spectrum.ComputeSpectrum(sig.name, FallbackAt(fb, z3Module, b, sig, maxModels), lo, hi);
  }

  /** As written, a size whose Z3 search timed out is counted with the models
      found before the timeout and is not listed as timed out. */
  lemma FallbackLosesTimeouts<M>(fb: Mace4Fallback, b: Z3Model.Z3Backend<M>, sig: Signatures.Signature, lo: int, hi: int, maxModels: int,
                                 sp: Spectrum.ModelSpectrum<M>, n: int)
    requires Spectrum.Returns(FallbackAt(fb, true, b, sig, maxModels), lo, Spectrum.Span(lo, hi))
    requires lo <= n <= hi
    requires sp.spectrum == Spectrum.Counts(FallbackAt(fb, true, b, sig, maxModels), lo, Spectrum.Span(lo, hi))
    requires sp.timedOutSizes == []
    requires Z3Model.SearchTimedOut(FallbackFinder(fb), b, sig, n, maxModels)
    ensures FallbackFind(fb, true, b, sig, n, maxModels).Success?
    ensures FallbackFind(fb, true, b, sig, n, maxModels).value.timedOut
    ensures Spectrum.Get(sp.spectrum, n) == Some(|FallbackFind(fb, true, b, sig, n, maxModels).value.modelsFound|)
    ensures n !in sp.timedOutSizes
  {
    assert FallbackAt(fb, true, b, sig, maxModels)(n) == FallbackFind(fb, true, b, sig, n, maxModels);
    Z3Model.TimedOutAt(FallbackFinder(fb), b, sig, n, maxModels);
    Spectrum.CountsGet(FallbackAt(fb, true, b, sig, maxModels), lo, Spectrum.Span(lo, hi));
  }

  /** The fallback loop keeping the timeout flag of each size. */
  method FallbackSpectrumTracked<M>(fb: Mace4Fallback, z3Module: bool, b: Z3Model.Z3Backend<M>, sig: Signatures.Signature, lo: int, hi: int, maxModels: int)
    returns (r: Result<Spectrum.ModelSpectrum<M>>)
    ensures r.Success? <==> Spectrum.Returns(FallbackAt(fb, z3Module, b, sig, maxModels), lo, Spectrum.Span(lo, hi))
    ensures r.Success? ==>
      && r.value.signatureName == sig.name
      && r.value.spectrum == Spectrum.Counts(FallbackAt(fb, z3Module, b, sig, maxModels), lo, Spectrum.Span(lo, hi))
      && r.value.modelsBySize == Spectrum.ModelLists(FallbackAt(fb, z3Module, b, sig, maxModels), lo, Spectrum.Span(lo, hi))
      && r.value.timedOutSizes == Spectrum.TimedOuts(FallbackAt(fb, z3Module, b, sig, maxModels), lo, Spectrum.Span(lo, hi))
    ensures r.Failure? ==> exists n :: n <= hi && Spectrum.RaisesFirstAt(FallbackAt(fb, z3Module, b, sig, maxModels), lo, n, r.error)
  {
    r := Spectrum.ComputeSpectrumTracked(sig.name, FallbackAt(fb, z3Module, b, sig, maxModels), lo, hi);
  }

  /** With the flag kept and the Z3 module present, the timed-out sizes are
      exactly those whose Z3 search timed out. */
  lemma FallbackTrackedTimeouts<M>(fb: Mace4Fallback, b: Z3Model.Z3Backend<M>, sig: Signatures.Signature, lo: int, hi: int, maxModels: int,
                                   sp: Spectrum.ModelSpectrum<M>)
    requires Spectrum.Returns(FallbackAt(fb, true, b, sig, maxModels), lo, Spectrum.Span(lo, hi))
    requires sp.timedOutSizes == Spectrum.TimedOuts(FallbackAt(fb, true, b, sig, maxModels), lo, Spectrum.Span(lo, hi))
    ensures forall n :: n in sp.timedOutSizes <==> lo <= n <= hi && Z3Model.SearchTimedOut(FallbackFinder(fb), b, sig, n, maxModels)
    ensures forall i, j :: 0 <= i < j < |sp.timedOutSizes| ==> sp.timedOutSizes[i] < sp.timedOutSizes[j]
  {
    var find := FallbackAt(fb, true, b, sig, maxModels);
    Spectrum.TimedOutsExact(find, lo, Spectrum.Span(lo, hi));
    forall n | lo <= n <= hi
      ensures find(n).value.timedOut <==> Z3Model.SearchTimedOut(FallbackFinder(fb), b, sig, n, maxModels)
    {
      assert find(n) == FallbackFind(fb, true, b, sig, n, maxModels);
      Z3Model.TimedOutAt(FallbackFinder(fb), b, sig, n, maxModels);
    }
  }
}
