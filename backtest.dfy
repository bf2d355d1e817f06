/** The backtest of discovered structures (backtest.py): every selected
    discovery's signature is rebuilt from its stored dictionary, its model
    spectrum recomputed and the discovery re-scored, and each gets a PASS, WARN
    or FAIL verdict; the run exits with 1 exactly when something failed.
    The library on disk, the spectrum computation and `math.exp` are oracles
    given as parameters; table output, file rewriting and archiving are not
    modelled. */
module Backtest {
  import opened Wrappers
  import Signatures
  import Spectrum
  import Scoring

  datatype Status = Pass | Warn | Fail

  /** The `reason` recorded with a verdict. */
  datatype Reason =
    | ParseError(message: string)   // the signature could not be rebuilt
    | LostModels                    // no models now, the original had some
    | TimedOut(sizes: seq<int>)     // no models now, but these sizes timed out
    | NoModels                      // no models now, nor before
    | NoReason                      // PASS

  /** One entry of `results`. */
  datatype Item = Item(status: Status, id: string, reason: Reason)

  /** A stored discovery: `id` and `signature` may be missing, `score` and
      `score_breakdown.has_models` default to 0, and a missing or empty
      `fingerprint` is `None`. */
  datatype Discovery = Discovery(
    id: Option<string>,
    name: string,
    score: real,
    signature: Option<Signatures.SigDict>,
    fingerprint: Option<Signatures.Canon>,
    hadModels: real)

  /** A score update queued for a passing discovery: the discovery, its new
      total and the new breakdown as a dictionary. */
  datatype Update = Update(discovery: Discovery, newScore: real, breakdown: seq<(string, real)>)

  /** What a run produces: the return code, the verdicts and the queued updates. */
  datatype Report = Report(code: int, results: seq<Item>, updates: seq<Update>)

  /** `disc.get("id", "?")`. */
  function IdOf(d: Discovery): string {
    if d.id.Some? then d.id.value else "?"
  }

  // ---- selection ----

  /** `[d for d in discoveries if d.get("id") == discovery_id]`. */
  function WithId(ds: seq<Discovery>, id: string): (r: seq<Discovery>)
    ensures forall i :: 0 <= i < |r| ==> r[i].id == Some(id)
    ensures forall d :: d in ds && d.id == Some(id) ==> d in r
    ensures forall d :: d in r ==> d in ds
  {
    if ds == [] then []
    else (if ds[0].id == Some(id) then [ds[0]] else []) + WithId(ds[1..], id)
  }

  /** `[d for d in discoveries if d.get("score", 0) >= min_score]`. */
  function AtLeast(ds: seq<Discovery>, minScore: real): (r: seq<Discovery>)
    ensures forall i :: 0 <= i < |r| ==> r[i].score >= minScore
    ensures forall d :: d in ds && d.score >= minScore ==> d in r
    ensures forall d :: d in r ==> d in ds
  {
    if ds == [] then []
    else (if ds[0].score >= minScore then [ds[0]] else []) + AtLeast(ds[1..], minScore)
  }

  /** `if discovery_id:` — an absent or empty id selects nothing out. */
  predicate IdGiven(discoveryId: Option<string>) {
    discoveryId.Some? && discoveryId.value != ""
  }

  /** The discoveries that survive both filters. */
  function Selected(ds: seq<Discovery>, discoveryId: Option<string>, minScore: real): seq<Discovery> {
    var byId := if IdGiven(discoveryId) then WithId(ds, discoveryId.value) else ds;
    if minScore > 0.0 then AtLeast(byId, minScore) else byId
  }

  // ---- phase 1: rebuilding the signatures ----

  /** `Signature.from_dict(disc["signature"])`: a missing key raises. */
  function ParseOf(d: Discovery): Result<Signatures.Signature> {
    if d.signature.None? then Failure(Signatures.MissingKey("signature")) else Signatures.SignatureFromDict(d.signature.value)
  }

  /** `parsed` after the first loop has visited `ds`. */
  function ParsedOf(ds: seq<Discovery>): seq<(Discovery, Signatures.Signature)> {
    if ds == [] then []
    else
      var p := ParseOf(ds[|ds| - 1]);
      ParsedOf(ds[..|ds| - 1]) + (if p.Success? then [(ds[|ds| - 1], p.value)] else [])
  }

  /** `results` after the first loop has visited `ds`: one FAIL per signature
      that could not be rebuilt. */
  function ParseFailuresOf(ds: seq<Discovery>): seq<Item> {
    if ds == [] then []
    else
      var p := ParseOf(ds[|ds| - 1]);
      ParseFailuresOf(ds[..|ds| - 1])
        + (if p.Failure? then [Item(Fail, IdOf(ds[|ds| - 1]), ParseError(p.error))] else [])
  }

  /** Phase 1 of `run_backtest`. */
  method ParseAll(ds: seq<Discovery>) returns (parsed: seq<(Discovery, Signatures.Signature)>, failures: seq<Item>)
    ensures parsed == ParsedOf(ds)
    ensures failures == ParseFailuresOf(ds)
  {
    parsed, failures := [], [];
    var i := 0;
    while i < |ds|
      invariant 0 <= i <= |ds|
      invariant parsed == ParsedOf(ds[..i])
      invariant failures == ParseFailuresOf(ds[..i])
    {
      var disc := ds[i];
      var sig: Result<Signatures.Signature>;
      if disc.signature.None? {
        sig := Failure(Signatures.MissingKey("signature"));
      } else {
        sig := Signatures.FromDict(disc.signature.value);
      }
      if sig.Success? {
        parsed := parsed + [(disc, sig.value)];
      } else {
        failures := failures + [Item(Fail, IdOf(disc), ParseError(sig.error))];
      }
      assert ds[..i + 1][..i] == ds[..i];
      i := i + 1;
    }
    assert ds[..i] == ds;
  }

  /** Every discovery ends up either rebuilt or with a FAIL verdict, never both,
      and every verdict of the first phase is a FAIL. */
  lemma {:induction false} ParsePartition(ds: seq<Discovery>)
    ensures |ParsedOf(ds)| + |ParseFailuresOf(ds)| == |ds|
    ensures forall i :: 0 <= i < |ParseFailuresOf(ds)| ==> ParseFailuresOf(ds)[i].status == Fail
  {
    if ds != [] {
      ParsePartition(ds[..|ds| - 1]);
    }
  }

  /** The first phase reports a failure exactly when some discovery's
      signature cannot be rebuilt. */
  lemma {:induction false} ParseFailuresExist(ds: seq<Discovery>)
    ensures (exists d :: d in ds && ParseOf(d).Failure?) <==> ParseFailuresOf(ds) != []
  {
    if ds != [] {
      var front := ds[..|ds| - 1];
      ParseFailuresExist(front);
      assert forall d :: d in ds <==> d in front || d == ds[|ds| - 1];
    }
  }

  // ---- phase 3: the verdict ----

  /** The status decision: FAIL when nothing was found and nothing timed out,
      WARN when the original had models and the search timed out without
      finding any, PASS otherwise (models found, or none before and a timeout now). */
  function Decide(origHadModels: bool, totalModels: nat, timedOut: seq<int>): (r: (Status, Reason))
    ensures r.0 == Fail <==> totalModels == 0 && timedOut == []
    ensures r.0 == Warn <==> origHadModels && totalModels == 0 && timedOut != []
    ensures r.0 == Pass <==> totalModels > 0 || (!origHadModels && timedOut != [])
    ensures r.0 == Pass <==> r.1 == NoReason
    ensures r.0 == Warn ==> r.1 == TimedOut(timedOut)
  {
    if origHadModels && totalModels == 0 && timedOut == [] then (Fail, LostModels)
    else if origHadModels && totalModels == 0 && timedOut != [] then (Warn, TimedOut(timedOut))
    else if totalModels == 0 && !origHadModels && timedOut == [] then (Fail, NoModels)
    else (Pass, NoReason)
  }

  /** `scoring_fps` after the loop over the discoveries `others` has run: the
      known fingerprints plus every present sibling fingerprint that differs
      from the discovery's own. */
  function ScoringFingerprintsOf(known: set<Signatures.Canon>, own: Option<Signatures.Canon>,
                                 others: seq<Discovery>): set<Signatures.Canon> {
    if others == [] then known
    else
      var fp := others[|others| - 1].fingerprint;
      ScoringFingerprintsOf(known, own, others[..|others| - 1])
        + (if fp.Some? && fp != own then {fp.value} else {})
  }

  /** The loop that builds `scoring_fps`. */
  method ScoringFingerprints(known: set<Signatures.Canon>, own: Option<Signatures.Canon>, others: seq<Discovery>)
    returns (fps: set<Signatures.Canon>)
    ensures fps == ScoringFingerprintsOf(known, own, others)
  {
    fps := known;
    var i := 0;
    while i < |others|
      invariant 0 <= i <= |others|
      invariant fps == ScoringFingerprintsOf(known, own, others[..i])
    {
      var otherFp := others[i].fingerprint;
      if otherFp.Some? && otherFp != own {
        fps := fps + {otherFp.value};
      }
      assert others[..i + 1][..i] == others[..i];
      i := i + 1;
    }
    assert others[..i] == others;
  }

  /** A fingerprint is scored against exactly when it is known or some sibling
      carries it and it is not the discovery's own. */
  lemma {:induction false} ScoringFingerprintsMember(known: set<Signatures.Canon>, own: Option<Signatures.Canon>,
                                                     others: seq<Discovery>, fp: Signatures.Canon)
    ensures fp in ScoringFingerprintsOf(known, own, others) <==>
              fp in known || (Some(fp) != own && exists i :: 0 <= i < |others| && others[i].fingerprint == Some(fp))
  {
    if others != [] {
      var front := others[..|others| - 1];
      ScoringFingerprintsMember(known, own, front, fp);
      assert forall i :: 0 <= i < |front| ==> front[i] == others[i];
    }
  }

  /** So a discovery is never penalised for its siblings carrying its own
      fingerprint: its own fingerprint counts only when it is already known. */
  lemma OwnFingerprintOnlyIfKnown(known: set<Signatures.Canon>, own: Signatures.Canon, others: seq<Discovery>)
    ensures own in ScoringFingerprintsOf(known, Some(own), others) <==> own in known
  {
    ScoringFingerprintsMember(known, Some(own), others, own);
  }

  /** The re-score: the default engine, the recomputed spectrum and `scoring_fps`. */
  function Rescore<M>(exp: real -> real, sig: Signatures.Signature, spectrum: Spectrum.ModelSpectrum<M>,
                      fps: set<Signatures.Canon>): Scoring.ScoreBreakdown
  {
    Scoring.DefaultScoreSucceeds(exp, sig, Some(spectrum), Some(fps));
    Scoring.ScoreOf(Scoring.NewEngine(None), exp, sig, Some(spectrum), Some(fps)).value
  }

  /** The verdict for one rebuilt discovery, and its queued update when it passes. */
  function AssessOf<M>(exp: real -> real, spectrumOf: Signatures.Signature -> Spectrum.ModelSpectrum<M>,
                       known: set<Signatures.Canon>, selected: seq<Discovery>,
                       disc: Discovery, sig: Signatures.Signature): (r: (Item, Option<Update>))
    ensures r.1.Some? <==> r.0.status == Pass
  {
    var spectrum := spectrumOf(sig);
    var fps := ScoringFingerprintsOf(known, disc.fingerprint, selected);
    var bd := Rescore(exp, sig, spectrum, fps);
    var verdict := Decide(disc.hadModels > 0.0, Spectrum.TotalModels(spectrum), spectrum.timedOutSizes);
    (Item(verdict.0, IdOf(disc), verdict.1),
     if verdict.0 == Pass then Some(Update(disc, bd.total, Scoring.ToDict(bd))) else None)
  }

  /** The verdicts after the third loop has visited `parsed`. */
  function ItemsOf<M>(exp: real -> real, spectrumOf: Signatures.Signature -> Spectrum.ModelSpectrum<M>,
                      known: set<Signatures.Canon>, selected: seq<Discovery>,
                      parsed: seq<(Discovery, Signatures.Signature)>): (r: seq<Item>)
    ensures |r| == |parsed|
  {
    if parsed == [] then []
    else
      var last := parsed[|parsed| - 1];
      ItemsOf(exp, spectrumOf, known, selected, parsed[..|parsed| - 1])
        + [AssessOf(exp, spectrumOf, known, selected, last.0, last.1).0]
  }

  /** `updates` after the third loop has visited `parsed`. */
  function UpdatesOf<M>(exp: real -> real, spectrumOf: Signatures.Signature -> Spectrum.ModelSpectrum<M>,
                        known: set<Signatures.Canon>, selected: seq<Discovery>,
                        parsed: seq<(Discovery, Signatures.Signature)>): seq<Update>
  {
    if parsed == [] then []
    else
      var last := parsed[|parsed| - 1];
      var u := AssessOf(exp, spectrumOf, known, selected, last.0, last.1).1;
      UpdatesOf(exp, spectrumOf, known, selected, parsed[..|parsed| - 1])
        + (if u.Some? then [u.value] else [])
  }

  /** The body of the third loop for one rebuilt discovery. */
  method Assess<M>(exp: real -> real, spectrumOf: Signatures.Signature -> Spectrum.ModelSpectrum<M>,
                   known: set<Signatures.Canon>, selected: seq<Discovery>,
                   disc: Discovery, sig: Signatures.Signature) returns (item: Item, update: Option<Update>)
    ensures (item, update) == AssessOf(exp, spectrumOf, known, selected, disc, sig)
  {
    var spectrum := spectrumOf(sig);
    var totalModels := Spectrum.TotalModels(spectrum);
    var origHadModels := disc.hadModels > 0.0;
    var scoringFps := ScoringFingerprints(known, disc.fingerprint, selected);
    Scoring.DefaultScoreSucceeds(exp, sig, Some(spectrum), Some(scoringFps));
    var scored := Scoring.Score(Scoring.NewEngine(None), exp, sig, Some(spectrum), Some(scoringFps));
    var newScoreBd := scored.value;
    var status: Status;
    var reason: Reason;
    if origHadModels && totalModels == 0 && !Spectrum.AnyTimedOut(spectrum) {
      status, reason := Fail, LostModels;
    } else if origHadModels && totalModels == 0 && Spectrum.AnyTimedOut(spectrum) {
      status, reason := Warn, TimedOut(spectrum.timedOutSizes);
    } else if totalModels == 0 && !origHadModels && !Spectrum.AnyTimedOut(spectrum) {
      status, reason := Fail, NoModels;
    } else {
      status, reason := Pass, NoReason;
    }
    update := None;
    if status == Pass {
      update := Some(Update(disc, newScoreBd.total, Scoring.ToDict(newScoreBd)));
    }
    item := Item(status, IdOf(disc), reason);
  }

  /** One more turn of the third loop extends the verdicts and the updates by
      what that turn assesses. */
  lemma AssessStep<M>(exp: real -> real, spectrumOf: Signatures.Signature -> Spectrum.ModelSpectrum<M>,
                      known: set<Signatures.Canon>, selected: seq<Discovery>,
                      parsed: seq<(Discovery, Signatures.Signature)>, i: nat)
    requires i < |parsed|
    ensures var a := AssessOf(exp, spectrumOf, known, selected, parsed[i].0, parsed[i].1);
      && ItemsOf(exp, spectrumOf, known, selected, parsed[..i + 1])
           == ItemsOf(exp, spectrumOf, known, selected, parsed[..i]) + [a.0]
      && UpdatesOf(exp, spectrumOf, known, selected, parsed[..i + 1])
           == UpdatesOf(exp, spectrumOf, known, selected, parsed[..i]) + (if a.1.Some? then [a.1.value] else [])
  {
    assert parsed[..i + 1][..i] == parsed[..i];
  }

  /** Phase 3 of `run_backtest`: one verdict per rebuilt discovery, in order. */
  method AssessAll<M>(exp: real -> real, spectrumOf: Signatures.Signature -> Spectrum.ModelSpectrum<M>,
                      known: set<Signatures.Canon>, selected: seq<Discovery>,
                      parsed: seq<(Discovery, Signatures.Signature)>)
    returns (items: seq<Item>, updates: seq<Update>)
    ensures items == ItemsOf(exp, spectrumOf, known, selected, parsed)
    ensures updates == UpdatesOf(exp, spectrumOf, known, selected, parsed)
  {
    items, updates := [], [];
    var i := 0;
    while i < |parsed|
      invariant 0 <= i <= |parsed|
      invariant items == ItemsOf(exp, spectrumOf, known, selected, parsed[..i])
      invariant updates == UpdatesOf(exp, spectrumOf, known, selected, parsed[..i])
    {
      var item, update := Assess(exp, spectrumOf, known, selected, parsed[i].0, parsed[i].1);
      AssessStep(exp, spectrumOf, known, selected, parsed, i);
      items := items + [item];
      if update.Some? {
        updates := updates + [update.value];
      }
      i := i + 1;
    }
    assert parsed[..i] == parsed;
  }

  /** The number of verdicts with status `s`. */
  function CountStatus(results: seq<Item>, s: Status): nat {
    if results == [] then 0
    else CountStatus(results[..|results| - 1], s) + (if results[|results| - 1].status == s then 1 else 0)
  }

  /** Some verdict has status `s` exactly when the count of `s` is positive. */
  lemma {:induction false} CountStatusPositive(results: seq<Item>, s: Status)
    ensures CountStatus(results, s) > 0 <==> exists i :: 0 <= i < |results| && results[i].status == s
  {
    if results != [] {
      var front := results[..|results| - 1];
      CountStatusPositive(front, s);
      assert forall i :: 0 <= i < |front| ==> front[i] == results[i];
    }
  }

  /** A score update is queued for exactly the passing discoveries. */
  lemma {:induction false} UpdatesArePasses<M>(exp: real -> real, spectrumOf: Signatures.Signature -> Spectrum.ModelSpectrum<M>,
                                               known: set<Signatures.Canon>, selected: seq<Discovery>,
                                               parsed: seq<(Discovery, Signatures.Signature)>)
    ensures |UpdatesOf(exp, spectrumOf, known, selected, parsed)|
              == CountStatus(ItemsOf(exp, spectrumOf, known, selected, parsed), Pass)
  {
    if parsed != [] {
      var front := parsed[..|parsed| - 1];
      UpdatesArePasses(exp, spectrumOf, known, selected, front);
      var items := ItemsOf(exp, spectrumOf, known, selected, parsed);
      assert items[..|items| - 1] == ItemsOf(exp, spectrumOf, known, selected, front);
    }
  }

  /** The summary count of FAIL verdicts. */
  method CountFails(results: seq<Item>) returns (nFail: nat)
    ensures nFail == CountStatus(results, Fail)
  {
    nFail := 0;
    var i := 0;
    while i < |results|
      invariant 0 <= i <= |results|
      invariant nFail == CountStatus(results[..i], Fail)
    {
      if results[i].status == Fail {
        nFail := nFail + 1;
      }
      assert results[..i + 1][..i] == results[..i];
      i := i + 1;
    }
    assert results[..i] == results;
  }

  // ---- the whole run ----

  /** `run_backtest` as a value. */
  function BacktestOf<M>(ds: seq<Discovery>, discoveryId: Option<string>, minScore: real,
                         known: set<Signatures.Canon>,
                         spectrumOf: Signatures.Signature -> Spectrum.ModelSpectrum<M>,
                         exp: real -> real): Report
  {
    if ds == [] then Report(0, [], [])
    else if IdGiven(discoveryId) && WithId(ds, discoveryId.value) == [] then Report(1, [], [])
    else
      var selected := Selected(ds, discoveryId, minScore);
      var parsed := ParsedOf(selected);
      var results := ParseFailuresOf(selected) + ItemsOf(exp, spectrumOf, known, selected, parsed);
      Report(if CountStatus(results, Fail) > 0 then 1 else 0, results,
             UpdatesOf(exp, spectrumOf, known, selected, parsed))
  }

  /** The method `run_backtest`: the two filters, the three phases and the
      return code. */
  method RunBacktest<M>(ds: seq<Discovery>, discoveryId: Option<string>, minScore: real,
                        known: set<Signatures.Canon>,
                        spectrumOf: Signatures.Signature -> Spectrum.ModelSpectrum<M>,
                        exp: real -> real) returns (r: Report)
    ensures r == BacktestOf(ds, discoveryId, minScore, known, spectrumOf, exp)
  {
    if ds == [] {
      return Report(0, [], []);
    }
    var discoveries := ds;
    if IdGiven(discoveryId) {
      discoveries := WithId(discoveries, discoveryId.value);
      if discoveries == [] {
        return Report(1, [], []);
      }
    }
    if minScore > 0.0 {
      discoveries := AtLeast(discoveries, minScore);
    }
    assert discoveries == Selected(ds, discoveryId, minScore);
    var parsed, results := ParseAll(discoveries);
    var updates: seq<Update> := [];
    if parsed != [] {
      var items;
      items, updates := AssessAll(exp, spectrumOf, known, discoveries, parsed);
      results := results + items;
    } else {
      assert ItemsOf(exp, spectrumOf, known, discoveries, parsed) == [];
      assert results + [] == results;
    }
    assert results == ParseFailuresOf(discoveries) + ItemsOf(exp, spectrumOf, known, discoveries, parsed);
    var nFail := CountFails(results);
    var code := if nFail > 0 then 1 else 0;
    r := Report(code, results, updates);
  }

  /** The return code is 1 exactly when the requested id matches nothing or
      some selected discovery got a FAIL verdict (a signature that could not be
      rebuilt included); there is one verdict per selected discovery, and a
      score update per PASS. */
  lemma BacktestOutcome<M>(ds: seq<Discovery>, discoveryId: Option<string>, minScore: real,
                           known: set<Signatures.Canon>,
                           spectrumOf: Signatures.Signature -> Spectrum.ModelSpectrum<M>,
                           exp: real -> real)
    ensures var r := BacktestOf(ds, discoveryId, minScore, known, spectrumOf, exp);
      && (r.code == 1 <==>
            (ds != [] && IdGiven(discoveryId) && WithId(ds, discoveryId.value) == [])
            || exists i :: 0 <= i < |r.results| && r.results[i].status == Fail)
      && (r.code == 0 || r.code == 1)
      && |r.updates| == CountStatus(r.results, Pass)
  {
    if ds != [] && !(IdGiven(discoveryId) && WithId(ds, discoveryId.value) == []) {
      var selected := Selected(ds, discoveryId, minScore);
      var parsed := ParsedOf(selected);
      var failures := ParseFailuresOf(selected);
      var items := ItemsOf(exp, spectrumOf, known, selected, parsed);
      var results := failures + items;
      CountStatusPositive(results, Fail);
      CountStatusAppend(failures, items, Pass);
      ParsePartition(selected);
      CountStatusNone(failures, Pass);
      UpdatesArePasses(exp, spectrumOf, known, selected, parsed);
    }
  }

  lemma {:induction false} CountStatusAppend(a: seq<Item>, b: seq<Item>, s: Status)
    ensures CountStatus(a + b, s) == CountStatus(a, s) + CountStatus(b, s)
  {
    if b != [] {
      var front := b[..|b| - 1];
      CountStatusAppend(a, front, s);
      assert (a + b)[..|a + b| - 1] == a + front;
    } else {
      assert a + b == a;
    }
  }

  lemma {:induction false} CountStatusNone(results: seq<Item>, s: Status)
    requires forall i :: 0 <= i < |results| ==> results[i].status != s
    ensures CountStatus(results, s) == 0
  {
    if results != [] {
      var front := results[..|results| - 1];
      assert forall i :: 0 <= i < |front| ==> front[i] == results[i];
      CountStatusNone(front, s);
    }
  }

  /** A discovery whose signature cannot be rebuilt makes the run fail. */
  lemma ParseFailureFailsRun<M>(ds: seq<Discovery>, discoveryId: Option<string>, minScore: real,
                                known: set<Signatures.Canon>,
                                spectrumOf: Signatures.Signature -> Spectrum.ModelSpectrum<M>,
                                exp: real -> real, d: Discovery)
    requires d in Selected(ds, discoveryId, minScore)
    requires ParseOf(d).Failure?
    ensures BacktestOf(ds, discoveryId, minScore, known, spectrumOf, exp).code == 1
  {
    var selected := Selected(ds, discoveryId, minScore);
    assert d in ds;
    ParseFailuresExist(selected);
    ParsePartition(selected);
    var failures := ParseFailuresOf(selected);
    var items := ItemsOf(exp, spectrumOf, known, selected, ParsedOf(selected));
    assert failures != [] && failures[0].status == Fail;
    assert (failures + items)[0] == failures[0];
    BacktestOutcome(ds, discoveryId, minScore, known, spectrumOf, exp);
  }

  /** WARN verdicts alone never fail the run. */
  lemma WarningsDoNotFail<M>(ds: seq<Discovery>, discoveryId: Option<string>, minScore: real,
                             known: set<Signatures.Canon>,
                             spectrumOf: Signatures.Signature -> Spectrum.ModelSpectrum<M>,
                             exp: real -> real)
    requires ds != [] && !(IdGiven(discoveryId) && WithId(ds, discoveryId.value) == [])
    requires forall i :: 0 <= i < |BacktestOf(ds, discoveryId, minScore, known, spectrumOf, exp).results| ==>
               BacktestOf(ds, discoveryId, minScore, known, spectrumOf, exp).results[i].status != Fail
    ensures BacktestOf(ds, discoveryId, minScore, known, spectrumOf, exp).code == 0
  {
    BacktestOutcome(ds, discoveryId, minScore, known, spectrumOf, exp);
  }
}
