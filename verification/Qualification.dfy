/** Whether a model's answers survive a parallel server, and how many calls a run may pin. */
module Qualification {
  import opened Wrappers
  import opened Rounding

  /** The answers of one pass, by record. */
  type Pass = map<string, string>

  datatype GateError = DifferentRecords | NoRecords | TooFewPasses | NotMeasured

  const MIN_SPEEDUP := 1.3

  const NOISE_FLOOR_RECORDS := 2

  const NOISE_FLOOR_OF := 48

  function Differing(first: Pass, second: Pass): set<string>
    requires first.Keys == second.Keys
  {
    set id | id in first && first[id] != second[id]
  }

  /** The number of differing answers, for passes that cover one set of records. */
  function DifferCount(first: Pass, second: Pass): Result<nat, GateError> {
    if first.Keys != second.Keys then Failure(DifferentRecords) else Success(|Differing(first, second)|)
  }

  // ---- the differ count is a metric ----

  lemma {:induction false} SubsetIsSmaller(a: set<string>, b: set<string>)
    requires a <= b
    ensures |a| <= |b|
  {
    if a != {} {
      var x :| x in a;
      SubsetIsSmaller(a - {x}, b - {x});
    }
  }

  lemma {:induction false} UnionIsAtMostSum(a: set<string>, b: set<string>)
    ensures |a + b| <= |a| + |b|
  {}

  /** Over the same records: nothing differs exactly for equal passes, the count does not depend on
      which pass comes first, and going through a third pass never shortens it. */
  lemma {:induction false} DifferCountIsMetric(a: Pass, b: Pass, c: Pass)
    requires a.Keys == b.Keys == c.Keys
    ensures DifferCount(a, b).value == 0 <==> a == b
    ensures DifferCount(a, b) == DifferCount(b, a)
    ensures DifferCount(a, c).value <= DifferCount(a, b).value + DifferCount(b, c).value
  {
    assert Differing(a, b) == Differing(b, a);
    if Differing(a, b) == {} {
      forall id | id in a ensures a[id] == b[id] { assert id !in Differing(a, b); }
    }
    SubsetIsSmaller(Differing(a, c), Differing(a, b) + Differing(b, c));
    UnionIsAtMostSum(Differing(a, b), Differing(b, c));
  }

  // ---- the gate ----

  /** Two records of forty-eight, scaled up to the number of records and rounded up. */
  function NoiseFloor(records: nat): Result<nat, GateError> {
    if records < 1 then Failure(NoRecords)
    else Success((records * NOISE_FLOOR_RECORDS + NOISE_FLOOR_OF - 1) / NOISE_FLOOR_OF)
  }

  /** The floor is the least whole number of records that is at least the share. */
  lemma {:induction false} NoiseFloorRoundsUp(records: nat)
    requires records >= 1
    ensures var floor := NoiseFloor(records).value;
            floor >= 1 && floor * NOISE_FLOOR_OF >= records * NOISE_FLOOR_RECORDS > (floor - 1) * NOISE_FLOOR_OF
  {}

  function Largest(counts: seq<nat>): (m: nat)
    requires counts != []
    ensures m in counts && forall c | c in counts :: c <= m
  {
    if |counts| == 1 then counts[0]
    else
      var rest := Largest(counts[1..]);
      assert counts == [counts[0]] + counts[1..];
      if counts[0] >= rest then counts[0] else rest
  }

  function NoiseBand(baselineDiffers: seq<nat>, records: nat): Result<nat, GateError> {
    if baselineDiffers == [] then Failure(TooFewPasses)
    else
      var floor := NoiseFloor(records);
      if floor.Failure? then floor
      else Success(if Largest(baselineDiffers) >= floor.value then Largest(baselineDiffers) else floor.value)
  }

  datatype GateVerdict = Passes | FailsParallel | FailsServer | FailsBoth

  function Verdict(band: nat, serialDiffer: nat, parallelDiffer: nat, speedup: real): GateVerdict {
    var parallelOk, serverOk := parallelDiffer <= band && speedup >= MIN_SPEEDUP, serialDiffer <= band;
    if parallelOk && serverOk then Passes
    else if serverOk then FailsParallel
    else if parallelOk then FailsServer
    else FailsBoth
  }

  datatype GateResult = GateResult(n: nat, records: nat, noiseBand: nat, serialDiffer: nat, parallelDiffer: nat,
                                   speedup: real, verdict: GateVerdict)

  /** The other one-slot passes against the first. */
  function BaselineDiffers(reference: Pass, others: seq<Pass>): Result<seq<nat>, GateError> {
    if others == [] then Success([])
    else
      var first := DifferCount(reference, others[0]);
      if first.Failure? then Failure(first.error)
      else
        var rest := BaselineDiffers(reference, others[1..]);
        if rest.Failure? then rest else Success([first.value] + rest.value)
  }

  /** `round(speedup, 2)`. */
  function Hundredths(speedup: real): real { Round(100.0 * speedup) as real / 100.0 }

  /** The verdict is of the speedup as measured; the result keeps it rounded. */
  function Gate(n: nat, baseline: seq<Pass>, serial: Pass, parallel: Pass, serialMs: int, parallelMs: int): Result<GateResult, GateError> {
    if |baseline| < 2 then Failure(TooFewPasses)
    else if parallelMs <= 0 || serialMs <= 0 then Failure(NotMeasured)
    else
      var reference := baseline[0];
      var differs := BaselineDiffers(reference, baseline[1..]);
      if differs.Failure? then Failure(differs.error)
      else
        var band := NoiseBand(differs.value, |reference|);
        if band.Failure? then Failure(band.error)
        else
          var serialDiffer := DifferCount(reference, serial);
          if serialDiffer.Failure? then Failure(serialDiffer.error)
          else
            var parallelDiffer := DifferCount(reference, parallel);
            if parallelDiffer.Failure? then Failure(parallelDiffer.error)
            else
              var speedup := serialMs as real / parallelMs as real;
              Success(GateResult(n, |reference|, band.value, serialDiffer.value, parallelDiffer.value, Hundredths(speedup),
                                 Verdict(band.value, serialDiffer.value, parallelDiffer.value, speedup)))
  }

  lemma {:induction false} BaselineDiffersAre(reference: Pass, others: seq<Pass>)
    ensures BaselineDiffers(reference, others).Success? <==> forall p | p in others :: p.Keys == reference.Keys
    ensures BaselineDiffers(reference, others).Success? ==>
              |BaselineDiffers(reference, others).value| == |others| &&
              forall i | 0 <= i < |others| :: DifferCount(reference, others[i]) == Success(BaselineDiffers(reference, others).value[i])
  {
    if others != [] {
      BaselineDiffersAre(reference, others[1..]);
      assert others == [others[0]] + others[1..];
    }
  }

  /** A gate is made exactly when there are two passes or more, both times were measured, there are
      records, and every pass covers the same ones. */
  lemma {:induction false} GateIsMadeIff(n: nat, baseline: seq<Pass>, serial: Pass, parallel: Pass, serialMs: int, parallelMs: int)
    ensures Gate(n, baseline, serial, parallel, serialMs, parallelMs).Success? <==>
              && |baseline| >= 2 && serialMs > 0 && parallelMs > 0 && |baseline[0]| >= 1
              && (forall p | p in baseline :: p.Keys == baseline[0].Keys)
              && serial.Keys == baseline[0].Keys && parallel.Keys == baseline[0].Keys
  {
    if |baseline| >= 2 {
      BaselineDiffersAre(baseline[0], baseline[1..]);
      assert baseline == [baseline[0]] + baseline[1..];
    }
  }

  /** The band is no wider than it has to be: the floor, or what some one-slot pass drifted. */
  lemma {:induction false} BandIsTight(n: nat, baseline: seq<Pass>, serial: Pass, parallel: Pass, serialMs: int, parallelMs: int)
    requires Gate(n, baseline, serial, parallel, serialMs, parallelMs).Success?
    ensures var g := Gate(n, baseline, serial, parallel, serialMs, parallelMs).value;
            && NoiseFloor(|baseline[0]|).Success? && NoiseFloor(|baseline[0]|).value <= g.noiseBand
            && (g.noiseBand == NoiseFloor(|baseline[0]|).value || SomePassDrifts(baseline, g.noiseBand))
  {
    BaselineDiffersAre(baseline[0], baseline[1..]);
    LargestIsDrift(baseline, BaselineDiffers(baseline[0], baseline[1..]).value);
  }

  ghost predicate SomePassDrifts(baseline: seq<Pass>, count: nat)
    requires baseline != []
  {
    exists p :: p in baseline && DifferCount(baseline[0], p) == Success(count)
  }

  lemma {:induction false} LargestIsDrift(baseline: seq<Pass>, differs: seq<nat>)
    requires |baseline| >= 2 && |differs| == |baseline| - 1
    requires forall i | 0 <= i < |differs| :: DifferCount(baseline[0], baseline[1..][i]) == Success(differs[i])
    ensures SomePassDrifts(baseline, Largest(differs))
  {
    var i :| 0 <= i < |differs| && differs[i] == Largest(differs);
    assert baseline[1..][i] == baseline[i + 1] && baseline[i + 1] in baseline;
  }

  /** The band covers the drift between ordinary one-slot passes. */
  lemma {:induction false} BandCoversBaseline(n: nat, baseline: seq<Pass>, serial: Pass, parallel: Pass, serialMs: int, parallelMs: int, i: nat)
    requires Gate(n, baseline, serial, parallel, serialMs, parallelMs).Success? && i < |baseline|
    ensures DifferCount(baseline[0], baseline[i]).Success?
    ensures DifferCount(baseline[0], baseline[i]).value <= Gate(n, baseline, serial, parallel, serialMs, parallelMs).value.noiseBand
  {
    BaselineDiffersAre(baseline[0], baseline[1..]);
    if i == 0 {
      DifferCountIsMetric(baseline[0], baseline[0], baseline[0]);
    } else {
      assert baseline[1..][i - 1] == baseline[i];
      var differs := BaselineDiffers(baseline[0], baseline[1..]).value;
      assert differs[i - 1] in differs;
    }
  }

  ghost predicate FastEnough(serialMs: int, parallelMs: int) {
    parallelMs > 0 && serialMs as real / parallelMs as real >= MIN_SPEEDUP
  }

  /** A gate passes exactly when neither pass on the N-slot server leaves the band and the parallel
      one was measured to be fast enough. Then the two of them differ on at most twice the band, and
      so does either from any one-slot pass. */
  lemma {:induction false} PassingGateBoundsDrift(n: nat, baseline: seq<Pass>, serial: Pass, parallel: Pass, serialMs: int, parallelMs: int, i: nat)
    requires Gate(n, baseline, serial, parallel, serialMs, parallelMs).Success? && i < |baseline|
    ensures var g := Gate(n, baseline, serial, parallel, serialMs, parallelMs).value;
            && DifferCount(baseline[0], serial) == Success(g.serialDiffer) && DifferCount(baseline[0], parallel) == Success(g.parallelDiffer)
            && (g.verdict == Passes <==> g.serialDiffer <= g.noiseBand && g.parallelDiffer <= g.noiseBand && FastEnough(serialMs, parallelMs))
            && (g.verdict == FailsParallel || g.verdict == FailsBoth <==> g.parallelDiffer > g.noiseBand || !FastEnough(serialMs, parallelMs))
            && (g.verdict == Passes ==>
                  && DifferCount(serial, parallel).Success? && DifferCount(serial, parallel).value <= 2 * g.noiseBand
                  && DifferCount(baseline[i], serial).Success? && DifferCount(baseline[i], serial).value <= 2 * g.noiseBand
                  && DifferCount(baseline[i], parallel).Success? && DifferCount(baseline[i], parallel).value <= 2 * g.noiseBand)
  {
    GateIsMadeIff(n, baseline, serial, parallel, serialMs, parallelMs);
    BandCoversBaseline(n, baseline, serial, parallel, serialMs, parallelMs, i);
    var reference, other := baseline[0], baseline[i];
    DifferCountIsMetric(serial, reference, parallel);
    DifferCountIsMetric(other, reference, serial);
    DifferCountIsMetric(other, reference, parallel);
    DifferCountIsMetric(reference, other, other);
  }

  /** What a stored result still tells: a pass had all three conditions, the speedup even after
      rounding, and the serial answers alone decide whether the server setting is safe. */
  ghost predicate Consistent(g: GateResult) {
    && (g.verdict == Passes ==> g.serialDiffer <= g.noiseBand && g.parallelDiffer <= g.noiseBand && g.speedup >= MIN_SPEEDUP)
    && (g.verdict == FailsServer || g.verdict == FailsBoth <==> g.serialDiffer > g.noiseBand)
  }

  lemma {:induction false} RoundingKeepsTheBar(speedup: real)
    requires speedup >= MIN_SPEEDUP
    ensures Hundredths(speedup) >= MIN_SPEEDUP
  {
    RoundIsMonotone(130.0, 100.0 * speedup);
    RoundOfInteger(130);
  }

  lemma {:induction false} GateIsConsistent(n: nat, baseline: seq<Pass>, serial: Pass, parallel: Pass, serialMs: int, parallelMs: int)
    requires Gate(n, baseline, serial, parallel, serialMs, parallelMs).Success?
    ensures Consistent(Gate(n, baseline, serial, parallel, serialMs, parallelMs).value)
    ensures parallelMs > 0
    ensures -0.005 <= Gate(n, baseline, serial, parallel, serialMs, parallelMs).value.speedup - serialMs as real / parallelMs as real <= 0.005
  {
    var speedup := serialMs as real / parallelMs as real;
    RoundIsNear(100.0 * speedup);
    if speedup >= MIN_SPEEDUP { RoundingKeepsTheBar(speedup); }
  }

  lemma {:induction false} RoundsUpToTheBarIff(speedup: real)
    ensures Hundredths(speedup) >= MIN_SPEEDUP <==> speedup >= 1.295
  {
    assert Round(129.5) == 130;
    if speedup >= 1.295 {
      RoundIsMonotone(129.5, 100.0 * speedup);
    } else {
      assert 100.0 * speedup < 129.5;
      assert Round(100.0 * speedup) <= 129;
    }
  }

  /** The stored speedup reaches the bar of a gate that the measured one failed exactly for measured
      speedups from 1.295 to just below 1.3. */
  lemma {:induction false} StoredSpeedupHidesIff(n: nat, baseline: seq<Pass>, serial: Pass, parallel: Pass, serialMs: int, parallelMs: int)
    requires Gate(n, baseline, serial, parallel, serialMs, parallelMs).Success?
    ensures parallelMs > 0
    ensures Gate(n, baseline, serial, parallel, serialMs, parallelMs).value.speedup >= MIN_SPEEDUP && !FastEnough(serialMs, parallelMs)
       <==> 1.295 <= serialMs as real / parallelMs as real < MIN_SPEEDUP
  {
    RoundsUpToTheBarIff(serialMs as real / parallelMs as real);
  }

  /** So 1297 ms against 1000 ms is stored as 1.3 and fails for being too slow. */
  lemma {:induction false} StoredSpeedupCanHideAFailure(n: nat, answers: Pass)
    requires answers != map[]
    ensures var g := Gate(n, [answers, answers], answers, answers, 1297, 1000);
            && g.Success? && g.value.verdict == FailsParallel && g.value.speedup == MIN_SPEEDUP
            && g.value.serialDiffer == g.value.parallelDiffer == 0
  {
    GateIsMadeIff(n, [answers, answers], answers, answers, 1297, 1000);
    DifferCountIsMetric(answers, answers, answers);
    assert 1297.0 / 1000.0 == 1.297 && 100.0 * 1.297 == 129.7;
    assert Round(129.7) == 130;
  }

  // ---- what a run may pin ----

  datatype Qualified = Qualified(modelDigest: string, ollamaVersion: Option<string>, gates: seq<GateResult>)

  /** The largest N a gate passed at, or 1. */
  function PassingN(gates: seq<GateResult>): nat {
    if gates == [] then 1
    else
      var rest, g := PassingN(gates[..|gates| - 1]), gates[|gates| - 1];
      if g.verdict != Passes then rest
      else if !PassedBefore(gates[..|gates| - 1]) || g.n > rest then g.n
      else rest
  }

  predicate PassedBefore(gates: seq<GateResult>) {
    exists g | g in gates :: g.verdict == Passes
  }

  lemma {:induction false} PassingNIsLargest(gates: seq<GateResult>)
    ensures !PassedBefore(gates) ==> PassingN(gates) == 1
    ensures PassedBefore(gates) ==> exists g :: g in gates && g.verdict == Passes && g.n == PassingN(gates)
    ensures forall g | g in gates && g.verdict == Passes :: g.n <= PassingN(gates)
  {
    if gates != [] {
      PassingNIsLargest(gates[..|gates| - 1]);
      assert gates == gates[..|gates| - 1] + [gates[|gates| - 1]];
    }
  }

  predicate ServerSensitive(gates: seq<GateResult>) {
    exists g | g in gates :: g.verdict == FailsServer || g.verdict == FailsBoth
  }

  datatype ParallelReason = Gated | Measuring | NotMapped | NoGate | Digest | OllamaVersion | Failed

  datatype Decision = Decision(n: int, reason: ParallelReason)

  function ParallelDecision(mapped: Option<int>, qualified: Option<Qualified>, digest: string, version: Option<string>, measuring: bool): Decision {
    if mapped.None? || mapped.value <= 1 then Decision(1, NotMapped)
    else if measuring then Decision(mapped.value, Measuring)
    else if qualified.None? || qualified.value.gates == [] then Decision(1, NoGate)
    else if qualified.value.modelDigest != digest then Decision(1, Digest)
    else if version.None? || qualified.value.ollamaVersion != version then Decision(1, OllamaVersion)
    else if mapped.value > PassingN(qualified.value.gates) then Decision(1, Failed)
    else Decision(mapped.value, Gated)
  }

  /** A gate passed at `n` or more, for this very model file on this very server version. */
  ghost predicate Cleared(n: int, qualified: Option<Qualified>, digest: string, version: Option<string>) {
    && qualified.Some? && version.Some?
    && qualified.value.modelDigest == digest && qualified.value.ollamaVersion == version
    && exists g :: g in qualified.value.gates && g.verdict == Passes && g.n >= n
  }

  /** A decision pins one call or the configured number, never a number in between; and more than
      one, outside a measurement, exactly when that number is configured and cleared by a gate. */
  lemma {:induction false} DecisionIsSafe(mapped: Option<int>, qualified: Option<Qualified>, digest: string, version: Option<string>, measuring: bool)
    ensures var d := ParallelDecision(mapped, qualified, digest, version, measuring);
            && (d.n == 1 || (mapped == Some(d.n) && d.n > 1))
            && (d.n > 1 <==> mapped.Some? && mapped.value > 1 && (measuring || Cleared(mapped.value, qualified, digest, version)))
            && (d.n > 1 <==> d.reason == Gated || d.reason == Measuring)
            && (d.reason == Measuring ==> measuring)
  {
    if qualified.Some? { PassingNIsLargest(qualified.value.gates); }
  }

  /** A refusal names the first obstacle: nothing to ask for, no gate, another model file, another
      or unknown server version, and last a gate that does not reach the number. */
  lemma {:induction false} RefusalNamesFirstObstacle(mapped: Option<int>, qualified: Option<Qualified>, digest: string, version: Option<string>, measuring: bool)
    ensures var d := ParallelDecision(mapped, qualified, digest, version, measuring);
            && (d.reason == NotMapped <==> mapped.None? || mapped.value <= 1)
            && (d.reason in {NoGate, Digest, OllamaVersion, Failed} ==> mapped.Some? && !measuring && d.n == 1)
            && (d.reason == NoGate ==> qualified.None? || qualified.value.gates == [])
            && (d.reason in {Digest, OllamaVersion, Failed} ==> qualified.Some? && qualified.value.gates != [])
            && (d.reason == Digest ==> qualified.value.modelDigest != digest)
            && (d.reason in {OllamaVersion, Failed} ==> qualified.value.modelDigest == digest)
            && (d.reason == OllamaVersion ==> version.None? || qualified.value.ollamaVersion != version)
            && (d.reason == Failed ==> version.Some? && qualified.value.ollamaVersion == version
                                       && forall g | g in qualified.value.gates && g.verdict == Passes :: g.n < mapped.value)
  {
    if qualified.Some? { PassingNIsLargest(qualified.value.gates); }
  }

  /** A run that pins several calls on a gated model was cleared by gates whose serial and parallel
      answers stayed in the band. */
  lemma {:induction false} GatedRunStaysInBand(mapped: Option<int>, qualified: Option<Qualified>, digest: string, version: Option<string>) returns (g: GateResult)
    requires ParallelDecision(mapped, qualified, digest, version, false).n > 1
    requires forall x | x in qualified.value.gates :: Consistent(x)
    ensures qualified.Some? && g in qualified.value.gates && g.n >= ParallelDecision(mapped, qualified, digest, version, false).n
    ensures g.serialDiffer <= g.noiseBand && g.parallelDiffer <= g.noiseBand && g.speedup >= MIN_SPEEDUP
  {
    DecisionIsSafe(mapped, qualified, digest, version, false);
    g :| g in qualified.value.gates && g.verdict == Passes && g.n >= mapped.value;
  }

  /** Whether the server setting is safe for a model is decided by its serial answers alone. */
  lemma {:induction false} ServerSensitiveIff(gates: seq<GateResult>)
    requires forall x | x in gates :: Consistent(x)
    ensures ServerSensitive(gates) <==> exists g :: g in gates && g.serialDiffer > g.noiseBand
  {}
}
