/** From the passes of a trial to the calls a run may pin: the passes behind a gate are what clears it. */
module GateTrials {
  import opened Wrappers
  import opened Qualification

  /** What was run at one N. */
  datatype Trial = Trial(n: nat, baseline: seq<Pass>, serial: Pass, parallel: Pass, serialMs: int, parallelMs: int) {
    function Outcome(): Result<GateResult, GateError> { Gate(n, baseline, serial, parallel, serialMs, parallelMs) }
  }

  // ---- what is counted ----

  /** The passes cover the same records and answer just `count` of them differently. */
  ghost predicate DifferOn(a: Pass, b: Pass, count: nat) {
    a.Keys == b.Keys && exists ids: set<string> :: AreDiffering(ids, a, b) && |ids| == count
  }

  ghost predicate AreDiffering(ids: set<string>, a: Pass, b: Pass) {
    && (forall id | id in ids :: id in a && id in b && a[id] != b[id])
    && (forall id | id in a && id in b && a[id] != b[id] :: id in ids)
  }

  lemma {:induction false} DifferCounts(a: Pass, b: Pass, count: nat)
    ensures DifferCount(a, b) == Success(count) <==> DifferOn(a, b, count)
  {
    if a.Keys == b.Keys {
      var ids := Differing(a, b);
      assert AreDiffering(ids, a, b);
      if DifferOn(a, b, count) {
        var other: set<string> :| AreDiffering(other, a, b) && |other| == count;
        assert other == ids;
      }
    }
  }

  /** At least the share of the records, two of forty-eight, and what any one-slot pass drifted from
      the first; and no more than one of the two asks for. */
  ghost predicate IsBand(baseline: seq<Pass>, band: nat) {
    && |baseline| >= 2 && 48 * band >= 2 * |baseline[0]|
    && (forall i | 0 <= i < |baseline| :: Drifts(baseline, i, band))
    && (48 * (band - 1) < 2 * |baseline[0]| || exists i :: 0 <= i < |baseline| && DifferOn(baseline[0], baseline[i], band))
  }

  ghost predicate Drifts(baseline: seq<Pass>, i: nat, band: nat)
    requires i < |baseline|
  {
    exists count: nat :: count <= band && DifferOn(baseline[0], baseline[i], count)
  }

  // ---- what a gate stores ----

  /** A made gate stores the N and the number of records it was made at, its band, what the two passes on
      the N-slot server differ on, and a verdict that says which of the two left the band or was too slow. */
  ghost predicate Records(t: Trial, g: GateResult) {
    && g.n == t.n && t.baseline != [] && g.records == |t.baseline[0]|
    && IsBand(t.baseline, g.noiseBand)
    && DifferOn(t.baseline[0], t.serial, g.serialDiffer) && DifferOn(t.baseline[0], t.parallel, g.parallelDiffer)
    && t.serialMs > 0 && t.parallelMs > 0
    && g.verdict == match (g.serialDiffer <= g.noiseBand, g.parallelDiffer <= g.noiseBand && 10 * t.serialMs >= 13 * t.parallelMs)
                    case (true, true) => Passes
                    case (true, false) => FailsParallel
                    case (false, true) => FailsServer
                    case (false, false) => FailsBoth
  }

  lemma {:induction false} FastEnoughIff(serialMs: int, parallelMs: int)
    requires parallelMs > 0
    ensures FastEnough(serialMs, parallelMs) <==> 10 * serialMs >= 13 * parallelMs
  {
    var speedup := serialMs as real / parallelMs as real;
    assert speedup * parallelMs as real == serialMs as real;
    if speedup >= 1.3 {
      assert (speedup - 1.3) * parallelMs as real >= 0.0;
    } else {
      assert (1.3 - speedup) * parallelMs as real > 0.0;
    }
  }

  lemma {:induction false} BandOfGate(t: Trial)
    requires t.Outcome().Success?
    ensures IsBand(t.baseline, t.Outcome().value.noiseBand)
  {
    var band := t.Outcome().value.noiseBand;
    GateIsMadeIff(t.n, t.baseline, t.serial, t.parallel, t.serialMs, t.parallelMs);
    BandIsTight(t.n, t.baseline, t.serial, t.parallel, t.serialMs, t.parallelMs);
    NoiseFloorRoundsUp(|t.baseline[0]|);
    forall i | 0 <= i < |t.baseline| ensures Drifts(t.baseline, i, band) {
      BandCoversBaseline(t.n, t.baseline, t.serial, t.parallel, t.serialMs, t.parallelMs, i);
      DifferCounts(t.baseline[0], t.baseline[i], DifferCount(t.baseline[0], t.baseline[i]).value);
    }
    if SomePassDrifts(t.baseline, band) {
      var p :| p in t.baseline && DifferCount(t.baseline[0], p) == Success(band);
      var i :| 0 <= i < |t.baseline| && t.baseline[i] == p;
      DifferCounts(t.baseline[0], t.baseline[i], band);
    }
  }

  lemma {:induction false} GateRecords(t: Trial)
    requires t.Outcome().Success?
    ensures Records(t, t.Outcome().value)
  {
    var g := t.Outcome().value;
    GateIsMadeIff(t.n, t.baseline, t.serial, t.parallel, t.serialMs, t.parallelMs);
    BandOfGate(t);
    DifferCounts(t.baseline[0], t.serial, g.serialDiffer);
    DifferCounts(t.baseline[0], t.parallel, g.parallelDiffer);
    FastEnoughIff(t.serialMs, t.parallelMs);
  }

  ghost predicate OneRecordSet(baseline: seq<Pass>) {
    forall i | 0 <= i < |baseline| :: baseline[i].Keys == baseline[0].Keys
  }

  /** Why there is no gate, the first obstacle named: too few passes, no time, one-slot passes over
      different records, over none at all, or another pass over different ones. */
  lemma {:induction false} RefusalNamesWhatIsMissing(t: Trial)
    requires t.Outcome().Failure?
    ensures var error, enough, measured, agree :=
              t.Outcome().error, |t.baseline| >= 2, t.serialMs > 0 && t.parallelMs > 0, OneRecordSet(t.baseline);
            && (error == TooFewPasses <==> !enough)
            && (error == NotMeasured <==> enough && !measured)
            && (error == NoRecords <==> enough && measured && agree && t.baseline[0] == map[])
            && (error == DifferentRecords <==> enough && measured && (agree ==> t.baseline[0] != map[]))
  {
    if |t.baseline| >= 2 { AgreeIff(t.baseline); }
  }

  lemma {:induction false} AgreeIff(baseline: seq<Pass>)
    requires |baseline| >= 2
    ensures BaselineDiffers(baseline[0], baseline[1..]).Success? <==> OneRecordSet(baseline)
    ensures BaselineDiffers(baseline[0], baseline[1..]).Success? ==> BaselineDiffers(baseline[0], baseline[1..]).value != []
    ensures BaselineDiffers(baseline[0], baseline[1..]).Failure? ==> BaselineDiffers(baseline[0], baseline[1..]).error == DifferentRecords
    ensures |baseline[0]| < 1 <==> baseline[0] == map[]
  {
    BaselineDiffersAre(baseline[0], baseline[1..]);
    if BaselineDiffers(baseline[0], baseline[1..]).Failure? { OnlyRecordsDiffer(baseline[0], baseline[1..]); }
    forall i | 0 <= i < |baseline| && i > 0 ensures baseline[i] in baseline[1..] {
      assert baseline[1..][i - 1] == baseline[i];
    }
    if OneRecordSet(baseline) {
      forall p | p in baseline[1..] ensures p.Keys == baseline[0].Keys {
        var i :| 0 <= i < |baseline[1..]| && baseline[1..][i] == p;
        assert baseline[i + 1] == p;
      }
    }
  }

  lemma {:induction false} OnlyRecordsDiffer(reference: Pass, others: seq<Pass>)
    requires BaselineDiffers(reference, others).Failure?
    ensures BaselineDiffers(reference, others).error == DifferentRecords
  {
    if DifferCount(reference, others[0]).Success? { OnlyRecordsDiffer(reference, others[1..]); }
  }

  // ---- from the trials to the decision ----

  ghost predicate MadeFrom(gates: seq<GateResult>, trials: seq<Trial>) {
    |gates| == |trials| && forall i | 0 <= i < |gates| :: trials[i].Outcome() == Success(gates[i])
  }

  /** A trial at N that moved no more answers than its band, one call at a time and N at a time, and was
      at least 1.3 times as fast N at a time. */
  ghost predicate StaysInBand(t: Trial) {
    exists band: nat, serial: nat, parallel: nat ::
      && IsBand(t.baseline, band) && serial <= band && parallel <= band
      && DifferOn(t.baseline[0], t.serial, serial) && DifferOn(t.baseline[0], t.parallel, parallel)
      && t.parallelMs > 0 && 10 * t.serialMs >= 13 * t.parallelMs
  }

  lemma {:induction false} PassesIffInBand(t: Trial, g: GateResult)
    requires Records(t, g) && g.verdict == Passes
    ensures StaysInBand(t)
  {}

  /** Outside a measurement a run makes several calls at once only if one of the trials behind its gates
      was made at as many or more and stayed in its band. */
  lemma {:induction false} PinnedCallsWereTried(mapped: Option<int>, qualified: Option<Qualified>, digest: string, version: Option<string>,
                                                trials: seq<Trial>) returns (t: Trial)
    requires ParallelDecision(mapped, qualified, digest, version, false).n > 1
    requires MadeFrom(qualified.value.gates, trials)
    ensures t in trials && t.n >= ParallelDecision(mapped, qualified, digest, version, false).n && StaysInBand(t)
  {
    DecisionIsSafe(mapped, qualified, digest, version, false);
    var gates := qualified.value.gates;
    var g :| g in gates && g.verdict == Passes && g.n >= mapped.value;
    var i :| 0 <= i < |gates| && gates[i] == g;
    t := trials[i];
    GateRecords(t);
    PassesIffInBand(t, g);
  }

  /** And if none of the trials that stayed in their band was made at as many, it is refused: for a gate
      of this model file and server version the reason is that it failed. */
  lemma {:induction false} UntriedCallsAreRefused(mapped: int, qualified: Qualified, trials: seq<Trial>)
    requires mapped > 1 && trials != [] && MadeFrom(qualified.gates, trials) && qualified.ollamaVersion.Some?
    requires forall t | t in trials && t.n >= mapped :: !StaysInBand(t)
    ensures ParallelDecision(Some(mapped), Some(qualified), qualified.modelDigest, qualified.ollamaVersion, false) == Decision(1, Failed)
  {
    var d := ParallelDecision(Some(mapped), Some(qualified), qualified.modelDigest, qualified.ollamaVersion, false);
    if d.n > 1 {
      DecisionIsSafe(Some(mapped), Some(qualified), qualified.modelDigest, qualified.ollamaVersion, false);
      var t := PinnedCallsWereTried(Some(mapped), Some(qualified), qualified.modelDigest, qualified.ollamaVersion, trials);
    }
  }

  // ---- forty-eight records at N = 4 ----

  /** A trial at four calls over these answers, with no drift and twice the speed. */
  function SteadyTrial(answers: Pass): Trial { Trial(4, [answers, answers], answers, answers, 2000, 1000) }

  lemma {:induction false} SameAnswers(answers: Pass)
    ensures DifferOn(answers, answers, 0)
  {
    DifferCountIsMetric(answers, answers, answers);
    DifferCounts(answers, answers, 0);
  }

  /** It clears four calls and not sixteen, whatever the number of records. */
  lemma {:induction false} TrialAtFourClearsFour(answers: Pass, digest: string, version: string)
    requires answers != map[]
    ensures var gate := SteadyTrial(answers).Outcome();
            && gate.Success? && gate.value.n == 4 && gate.value.records == |answers| && gate.value.verdict == Passes
            && var q := Some(Qualified(digest, Some(version), [gate.value]));
               && ParallelDecision(Some(4), q, digest, Some(version), false) == Decision(4, Gated)
               && ParallelDecision(Some(16), q, digest, Some(version), false) == Decision(1, Failed)
  {
    var t := SteadyTrial(answers);
    GateIsMadeIff(4, t.baseline, answers, answers, 2000, 1000);
    GateRecords(t);
    SameAnswers(answers);
    DifferCounts(answers, answers, 0);
    var g := t.Outcome().value;
    DifferCounts(answers, answers, g.serialDiffer);
    DifferCounts(answers, answers, g.parallelDiffer);
    assert g.verdict == Passes;
    assert PassingN([]) == 1 && !PassedBefore([]);
    assert [g][..0] == [];
    assert PassingN([g]) == 4;
  }
}
