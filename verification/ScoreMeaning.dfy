/** What the score rows of a feature say, told of the cases with each outcome and flag. */
module ScoreMeaning {
  import opened Wrappers
  import opened Wilson
  import opened Rounding
  import opened Scoring
  import opened ScoredTies

  /** How many of the cases have this outcome and this flag. */
  function Cell(cases: seq<LabelledCase>, outcome: Outcome, flag: Option<bool>): nat {
    multiset(cases)[LabelledCase(outcome, flag)]
  }

  function All(cases: seq<LabelledCase>, outcome: Outcome): nat {
    Cell(cases, outcome, None) + Cell(cases, outcome, Some(true)) + Cell(cases, outcome, Some(false))
  }

  function WithFlag(cases: seq<LabelledCase>, flag: bool): nat {
    Cell(cases, Hit, Some(flag)) + Cell(cases, Wrong, Some(flag)) + Cell(cases, Missing, Some(flag))
  }

  lemma {:induction false} CellStep(c: LabelledCase, rest: seq<LabelledCase>, outcome: Outcome, flag: Option<bool>)
    ensures Cell([c] + rest, outcome, flag) == Cell(rest, outcome, flag) + if c == LabelledCase(outcome, flag) then 1 else 0
  {
    assert multiset([c] + rest) == multiset{c} + multiset(rest);
  }

  lemma {:induction false} FlagValues(c: LabelledCase)
    ensures c.presentFlag == None || c.presentFlag == Some(true) || c.presentFlag == Some(false)
  {
    if c.presentFlag.Some? {
      var flag := c.presentFlag.value;
      assert c.presentFlag == Some(flag);
      assert flag == true || flag == false;
    }
  }

  lemma {:induction false} CountIs(cases: seq<LabelledCase>, outcome: Outcome)
    ensures Count(cases, outcome) == All(cases, outcome)
  {
    if cases != [] {
      var c, rest := cases[0], cases[1..];
      CountIs(rest, outcome);
      assert cases == [c] + rest;
      CellStep(c, rest, outcome, None);
      CellStep(c, rest, outcome, Some(true));
      CellStep(c, rest, outcome, Some(false));
      FlagValues(c);
    }
  }

  lemma {:induction false} FlaggedStep(c: LabelledCase, rest: seq<LabelledCase>)
    ensures Flagged([c] + rest) == if c.presentFlag.Some? then [c] + Flagged(rest) else Flagged(rest)
  {
    assert ([c] + rest)[1..] == rest;
  }

  lemma {:induction false} TallyStep(c: LabelledCase, rest: seq<LabelledCase>, outcome: Outcome, flag: bool)
    ensures Tally([c] + rest, outcome, flag) == Tally(rest, outcome, flag) + if c == LabelledCase(outcome, Some(flag)) then 1 else 0
  {
    assert ([c] + rest)[1..] == rest;
  }

  lemma {:induction false} FlaggedCell(cases: seq<LabelledCase>, outcome: Outcome, flag: bool)
    ensures Tally(Flagged(cases), outcome, flag) == Cell(cases, outcome, Some(flag))
  {
    if cases != [] {
      var c, rest := cases[0], cases[1..];
      FlaggedCell(rest, outcome, flag);
      assert cases == [c] + rest;
      CellStep(c, rest, outcome, Some(flag));
      FlaggedStep(c, rest);
      TallyStep(c, Flagged(rest), outcome, flag);
    }
  }

  lemma {:induction false} FlaggedCount(cases: seq<LabelledCase>)
    ensures |Flagged(cases)| == WithFlag(cases, true) + WithFlag(cases, false)
    ensures Present(Flagged(cases)) == WithFlag(cases, true)
  {
    var flagged := Flagged(cases);
    FlaggedFacts(cases);
    TalliesAddUp(flagged);
    FlaggedCell(cases, Hit, true);
    FlaggedCell(cases, Hit, false);
    FlaggedCell(cases, Wrong, true);
    FlaggedCell(cases, Wrong, false);
    FlaggedCell(cases, Missing, true);
    FlaggedCell(cases, Missing, false);
  }

  /** The shares that a score test at 95 percent does not reject, from `hits` of `base`; all shares when
      there is nothing to test. */
  ghost predicate IsScoreInterval(i: Interval, hits: nat, base: nat) {
    && i.n == base
    && (base == 0 ==> i.low == 0.0 && i.high == 1.0)
    && (base > 0 ==> forall p: real {:trigger ScoreTest(hits as real / base as real, p, base as real, 1.959963985)} ::
                       i.low <= p <= i.high <==> ScoreTest(hits as real / base as real, p, base as real, 1.959963985))
  }

  lemma {:induction false} WilsonIs(sqrt: real -> real, hits: nat, base: nat)
    requires IsSqrt(sqrt) && hits <= base
    ensures IsScoreInterval(Wilson.Wilson(sqrt, hits, base, WILSON_Z_95), hits, base)
  {
    if base > 0 {
      var i, share, n := Wilson.Wilson(sqrt, hits, base, WILSON_Z_95), hits as real / base as real, base as real;
      forall p: real ensures i.low <= p <= i.high <==> ScoreTest(share, p, n, WILSON_Z_95) {
        WilsonInvertsScoreTest(sqrt, hits, base, WILSON_Z_95, p);
      }
    }
  }

  /** A rate: hits over base, or zero over nothing, with the interval of that share. */
  ghost predicate IsRate(row: ScoreRow, metric: Metric, hits: nat, base: nat) {
    && row.metric == metric && row.n == base && row.ci.Some?
    && (if base == 0 then row.value == 0.0 else Times(row.value, base as real) == hits as real)
    && IsScoreInterval(row.ci.value, hits, base)
  }

  /** F1: twice the hits over what was claimed and all cases together, with the interval of the nearest
      whole number of cases, of two the even one. */
  ghost predicate IsF1(row: ScoreRow, hits: nat, claimed: nat, n: nat) {
    && row.metric == F1 && row.n == n && row.ci.Some?
    && (if n == 0 then row.value == 0.0 else Times(row.value, (claimed + n) as real) == 2.0 * hits as real)
    && exists k: nat {:trigger IsScoreInterval(row.ci.value, k, n)} :: Nearest(Times(row.value, n as real), k) && IsScoreInterval(row.ci.value, k, n)
  }

  ghost predicate Nearest(x: real, k: nat) {
    -0.5 < k as real - x < 0.5 || ((k as real - x == 0.5 || x - k as real == 0.5) && k % 2 == 0)
  }

  /** A count: how many, out of how many, and no interval. */
  ghost predicate IsCount(row: ScoreRow, metric: Metric, count: nat, base: nat) {
    row == ScoreRow(metric, count as real, base, None)
  }

  lemma {:induction false} RateIs(sqrt: real -> real, metric: Metric, hits: nat, base: nat)
    requires IsSqrt(sqrt) && hits <= base
    ensures IsRate(Rate(sqrt, metric, hits, base), metric, hits, base)
  {
    WilsonIs(sqrt, hits, base);
    if base > 0 { DivisionInverts(hits as real, base as real); }
  }

  lemma {:induction false} DerivedIs(sqrt: real -> real, metric: Metric, value: real, n: nat)
    requires IsSqrt(sqrt) && 0.0 <= value <= 1.0
    ensures var row := DerivedRate(sqrt, metric, value, n);
            && row.metric == metric && row.value == value && row.n == n && row.ci.Some?
            && exists k: nat {:trigger IsScoreInterval(row.ci.value, k, n)} :: Nearest(Times(value, n as real), k) && IsScoreInterval(row.ci.value, k, n)
  {
    RoundsToCount(value, n);
    var k: nat := Round(Times(value, n as real));
    RoundIff(Times(value, n as real), k);
    WilsonIs(sqrt, k, n);
    assert Nearest(Times(value, n as real), k);
  }

  lemma {:induction false} F1RowIs(sqrt: real -> real, cases: seq<LabelledCase>)
    requires IsSqrt(sqrt)
    ensures IsF1(AggregateGoal1(sqrt, cases)[2], Count(cases, Hit), Count(cases, Hit) + Count(cases, Wrong), |cases|)
  {
    var hits, claimed, n := Count(cases, Hit), Count(cases, Hit) + Count(cases, Wrong), |cases|;
    Goal1RatesReadBack(sqrt, cases);
    F1CellOf(sqrt, cases);
    DerivedIs(sqrt, F1, F1Value(cases), n);
  }

  lemma {:induction false} Goal1Rates(sqrt: real -> real, cases: seq<LabelledCase>)
    requires IsSqrt(sqrt)
    ensures var rows, hits, wrong := AggregateGoal1(sqrt, cases), Count(cases, Hit), Count(cases, Wrong);
            IsRate(rows[0], Precision, hits, hits + wrong) && IsRate(rows[1], Recall, hits, |cases|)
  {
    CountsAddUp(cases);
    RateIs(sqrt, Precision, Count(cases, Hit), Count(cases, Hit) + Count(cases, Wrong));
    RateIs(sqrt, Recall, Count(cases, Hit), |cases|);
  }

  lemma {:induction false} Goal1Counts(sqrt: real -> real, cases: seq<LabelledCase>)
    ensures var rows := AggregateGoal1(sqrt, cases);
            && |rows| == 6 && IsCount(rows[3], HitCount, Count(cases, Hit), |cases|)
            && IsCount(rows[4], WrongCount, Count(cases, Wrong), |cases|) && IsCount(rows[5], MissingCount, Count(cases, Missing), |cases|)
  {}

  /** Goal 1: precision over what was claimed, recall over all cases, F1, and the three counts. */
  lemma {:induction false} Goal1RowsAre(sqrt: real -> real, cases: seq<LabelledCase>)
    requires IsSqrt(sqrt)
    ensures var rows, hits, wrong := AggregateGoal1(sqrt, cases), All(cases, Hit), All(cases, Wrong);
            && |rows| == 6
            && IsRate(rows[0], Precision, hits, hits + wrong) && IsRate(rows[1], Recall, hits, |cases|)
            && IsF1(rows[2], hits, hits + wrong, |cases|)
            && IsCount(rows[3], HitCount, hits, |cases|) && IsCount(rows[4], WrongCount, wrong, |cases|)
            && IsCount(rows[5], MissingCount, All(cases, Missing), |cases|)
  {
    CountIs(cases, Hit);
    CountIs(cases, Wrong);
    CountIs(cases, Missing);
    Goal1Counts(sqrt, cases);
    Goal1Rates(sqrt, cases);
    F1RowIs(sqrt, cases);
  }

  lemma {:induction false} Goal2Rates(sqrt: real -> real, cases: seq<LabelledCase>)
    requires IsSqrt(sqrt)
    ensures var rows, flagged := AggregateGoal2(sqrt, cases), Flagged(cases);
            && IsRate(rows[0], PresenceRate, Present(flagged), |cases|)
            && IsRate(rows[1], FlagInconsistencyRate, Tally(flagged, Hit, false), |flagged|)
  {
    FlaggedFacts(cases);
    TalliesAddUp(Flagged(cases));
    RateIs(sqrt, PresenceRate, Present(Flagged(cases)), |cases|);
    RateIs(sqrt, FlagInconsistencyRate, Tally(Flagged(cases), Hit, false), |Flagged(cases)|);
  }

  lemma {:induction false} Goal2Cells(sqrt: real -> real, cases: seq<LabelledCase>)
    ensures var rows, flagged := AggregateGoal2(sqrt, cases), Flagged(cases);
            && |rows| == 8
            && IsCount(rows[2], HitPresent, Tally(flagged, Hit, true), |flagged|) && IsCount(rows[3], HitAbsent, Tally(flagged, Hit, false), |flagged|)
            && IsCount(rows[4], WrongPresent, Tally(flagged, Wrong, true), |flagged|) && IsCount(rows[5], WrongAbsent, Tally(flagged, Wrong, false), |flagged|)
            && IsCount(rows[6], MissingPresent, Tally(flagged, Missing, true), |flagged|)
            && IsCount(rows[7], MissingAbsent, Tally(flagged, Missing, false), |flagged|)
  {}

  /** Goal 2: the rate flagged present, over all cases; the rate of hits flagged absent, over the flagged
      cases; and the six cells of outcome and flag. */
  lemma {:induction false} Goal2RowsAre(sqrt: real -> real, cases: seq<LabelledCase>)
    requires IsSqrt(sqrt)
    ensures var rows, f := AggregateGoal2(sqrt, cases), WithFlag(cases, true) + WithFlag(cases, false);
            && |rows| == 8
            && IsRate(rows[0], PresenceRate, WithFlag(cases, true), |cases|)
            && IsRate(rows[1], FlagInconsistencyRate, Cell(cases, Hit, Some(false)), f)
            && IsCount(rows[2], HitPresent, Cell(cases, Hit, Some(true)), f) && IsCount(rows[3], HitAbsent, Cell(cases, Hit, Some(false)), f)
            && IsCount(rows[4], WrongPresent, Cell(cases, Wrong, Some(true)), f) && IsCount(rows[5], WrongAbsent, Cell(cases, Wrong, Some(false)), f)
            && IsCount(rows[6], MissingPresent, Cell(cases, Missing, Some(true)), f)
            && IsCount(rows[7], MissingAbsent, Cell(cases, Missing, Some(false)), f)
  {
    FlaggedCount(cases);
    FlaggedCell(cases, Hit, true);
    FlaggedCell(cases, Hit, false);
    FlaggedCell(cases, Wrong, true);
    FlaggedCell(cases, Wrong, false);
    FlaggedCell(cases, Missing, true);
    FlaggedCell(cases, Missing, false);
    Goal2Rates(sqrt, cases);
    Goal2Cells(sqrt, cases);
  }
}
