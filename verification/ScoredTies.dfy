/** Intervals of derived rates, and why cells over one number of cases never tie when disjoint. */
module ScoredTies {
  import opened Wrappers
  import opened Wilson
  import opened Ties
  import opened Rounding
  import opened Scoring

  // ---- a value lies in the interval of the count it is rounded to ----

  /** The score test with both sides scaled up to counts: `x` of `n` expected, `k` seen. */
  lemma {:induction false} TestOnCounts(share: real, value: real, n: real, z: real, x: real, e: real)
    requires n > 0.0
    requires Times(n, value) == x
    requires Times(n, share) == x + e
    ensures ScoreTest(share, value, n, z) <==> Times(e, e) <= Times(z * z, Times(x, 1.0 - value))
  {
    var d := share - value;
    Distribute(n, share, value);
    assert Times(n, d) == e;
    assert Times(n, Times(n, Times(d, d))) == Times(Times(n, d), Times(n, d));
    Swap(n, z * z, Times(value, 1.0 - value));
    assert Times(n, Times(value, 1.0 - value)) == Times(Times(n, value), 1.0 - value);
    ScaleOrder(n, Times(n, Times(d, d)), Times(z * z, Times(value, 1.0 - value)));
  }

  lemma {:induction false} HalfSquared(e: real)
    requires -0.5 <= e <= 0.5
    ensures Times(e, e) <= 0.25
  {
    SquareOrder(e, 0.5);
    assert Times(0.5, 0.5) == 0.25;
  }

  lemma {:induction false} ProductAtLeast(a: real, b: real)
    requires a >= 0.5 && b >= 0.5
    ensures Times(a, b) >= 0.25
  {
    MulNonNegative(a - 0.5, b);
    assert Times(a - 0.5, b) == Times(a, b) - 0.5 * b;
  }

  /** A value half a count or more away from both ends: rounding moves it at most half a count. */
  lemma {:induction false} RoundedInside(value: real, n: real, z: real, x: real, e: real)
    requires 0.0 <= value <= 1.0 && z * z >= 1.0 && -0.5 <= e <= 0.5
    requires Times(n, value) == x
    requires 0.5 <= x <= n - 0.5
    ensures Times(e, e) <= Times(z * z, Times(x, 1.0 - value))
  {
    HalfSquared(e);
    if value <= 0.5 {
      ProductAtLeast(x, 1.0 - value);
    } else {
      ProductAtLeast(n - x, value);
      assert Times(n - x, value) == Times(x, 1.0 - value);
    }
    var v := Times(x, 1.0 - value);
    MulNonNegative(z * z - 1.0, v);
    assert Times(z * z - 1.0, v) == Times(z * z, v) - v;
  }

  /** A value within half a count of zero, rounded to zero. */
  lemma {:induction false} RoundedToZero(value: real, n: real, z: real, x: real)
    requires 0.0 <= value <= 1.0 && z * z >= 1.0 && n >= 1.0
    requires Times(n, value) == x
    requires 0.0 <= x <= 0.5
    ensures Times(-x, -x) <= Times(z * z, Times(x, 1.0 - value))
  {
    MulNonNegative(n - 1.0, value);
    assert Times(n - 1.0, value) == x - value;
    MulNonNegative(x, 1.0 - value - x);
    Distribute(x, 1.0 - value, x);
    assert Times(-x, -x) == Times(x, x);
    var v := Times(x, 1.0 - value);
    MulNonNegative(x, 1.0 - value);
    MulNonNegative(z * z - 1.0, v);
    assert Times(z * z - 1.0, v) == Times(z * z, v) - v;
  }

  /** A value within half a count of all, rounded to all. */
  lemma {:induction false} RoundedToAll(value: real, n: real, z: real, x: real)
    requires 0.0 <= value <= 1.0 && z * z >= 1.0 && n >= 1.0
    requires Times(n, value) == x
    requires n - 0.5 <= x <= n
    ensures Times(n - x, n - x) <= Times(z * z, Times(x, 1.0 - value))
  {
    assert Times(n, 1.0 - value) == n - x;
    RoundedToZero(1.0 - value, n, z, n - x);
    assert Times(n - x, value) == Times(x, 1.0 - value);
    assert Times(-(n - x), -(n - x)) == Times(n - x, n - x);
  }

  lemma {:induction false} ZSquared()
    ensures WILSON_Z_95 * WILSON_Z_95 >= 1.0
  {}

  lemma {:induction false} ValuePassesItsTest(value: real, n: nat)
    requires n > 0 && 0.0 <= value <= 1.0
    ensures var k := Round(Times(value, n as real));
            0 <= k <= n && ScoreTest(Proportion(k, n), value, n as real, WILSON_Z_95)
  {
    var nr, x := n as real, Times(value, n as real);
    RoundsToCount(value, n);
    var k := Round(x);
    RoundIsNear(x);
    ZSquared();
    assert Times(nr, value) == x;
    MulNonNegative(value, nr);
    assert Times(1.0 - value, nr) == nr - x;
    MulNonNegative(1.0 - value, nr);
    var e := k as real - x;
    DivisionInverts(k as real, nr);
    TestOnCounts(Proportion(k, n), value, nr, WILSON_Z_95, x, e);
    if 0.5 <= x <= nr - 0.5 {
      RoundedInside(value, nr, WILSON_Z_95, x, e);
    } else if x < 0.5 {
      assert k == 0;
      RoundedToZero(value, nr, WILSON_Z_95, x);
    } else {
      assert k == n;
      RoundedToAll(value, nr, WILSON_Z_95, x);
    }
  }

  /** Every rate between 0 and 1 lies in its own interval, although the interval is computed from
      the value rounded to a whole count. */
  lemma {:induction false} DerivedRateInItsInterval(sqrt: real -> real, metric: Metric, value: real, n: nat)
    requires IsSqrt(sqrt) && 0.0 <= value <= 1.0
    ensures var row := DerivedRate(sqrt, metric, value, n);
            0.0 <= row.ci.value.low <= value <= row.ci.value.high <= 1.0
  {
    if n > 0 {
      ValuePassesItsTest(value, n);
      var k := Round(Times(value, n as real));
      WilsonInvertsScoreTest(sqrt, k, n, WILSON_Z_95, value);
      WilsonHoldsItsShare(sqrt, k, n, WILSON_Z_95);
    }
  }

  /** All three rates of a feature lie in their own intervals, F1 between precision and recall,
      and the three counts add up to the labelled cases. */
  lemma {:induction false} Goal1RowsAreCoherent(sqrt: real -> real, cases: seq<LabelledCase>)
    requires IsSqrt(sqrt)
    ensures var rows := AggregateGoal1(sqrt, cases);
            && (forall i | 0 <= i < 3 :: 0.0 <= rows[i].ci.value.low <= rows[i].value <= rows[i].ci.value.high <= 1.0)
            && Min(rows[0].value, rows[1].value) <= rows[2].value <= Max(rows[0].value, rows[1].value)
            && rows[3].value + rows[4].value + rows[5].value == |cases| as real
  {
    var n, hit, wrong := |cases|, Count(cases, Hit), Count(cases, Wrong);
    CountsAddUp(cases);
    RateInItsInterval(sqrt, Precision, hit, hit + wrong);
    RateInItsInterval(sqrt, Recall, hit, n);
    Share01InRange(hit, hit + wrong);
    Share01InRange(hit, n);
    HarmonicMeanBetween(Share01(hit, hit + wrong), Share01(hit, n));
    DerivedRateInItsInterval(sqrt, F1, F1Of(Share01(hit, hit + wrong), Share01(hit, n)), n);
  }

  lemma {:induction false} ShareReadsBack(successes: nat, n: nat)
    requires successes <= n
    ensures Times(Share01(successes, n), n as real) == successes as real
  {
    if n > 0 { DivisionInverts(successes as real, n as real); }
  }

  lemma {:induction false} F1ReadsBack(hit: nat, claimed: nat, n: nat)
    requires hit <= claimed <= n
    ensures Times(F1Of(Share01(hit, claimed), Share01(hit, n)), (claimed + n) as real) == 2.0 * hit as real
  {
    if hit > 0 {
      F1IsDice(hit, claimed, n);
    } else {
      assert Share01(hit, claimed) == 0.0 && Share01(hit, n) == 0.0;
    }
  }

  /** The rates can be read back into the counts beside them: precision times what was claimed and
      recall times the labelled cases are the hits, and F1 times both together is twice the hits. */
  lemma {:induction false} Goal1RatesReadBack(sqrt: real -> real, cases: seq<LabelledCase>)
    ensures var rows := AggregateGoal1(sqrt, cases);
            var hits, claimed, n := rows[3].value, rows[3].value + rows[4].value, |cases| as real;
            && hits == Count(cases, Hit) as real && rows[5].value == Count(cases, Missing) as real
            && Times(rows[0].value, claimed) == hits && Times(rows[1].value, n) == hits
            && Times(rows[2].value, claimed + n) == 2.0 * hits
            && rows[0].n as real == claimed && rows[1].n == rows[2].n == |cases|
  {
    var n, hit, wrong := |cases|, Count(cases, Hit), Count(cases, Wrong);
    CountsAddUp(cases);
    ShareReadsBack(hit, hit + wrong);
    ShareReadsBack(hit, n);
    F1ReadsBack(hit, hit + wrong, n);
  }

  lemma {:induction false} RateInItsInterval(sqrt: real -> real, metric: Metric, successes: nat, n: nat)
    requires IsSqrt(sqrt) && successes <= n
    ensures var row := Rate(sqrt, metric, successes, n);
            0.0 <= row.ci.value.low <= row.value <= row.ci.value.high <= 1.0
  {
    if n > 0 { WilsonHoldsItsShare(sqrt, successes, n, WILSON_Z_95); }
  }

  // ---- ties within one feature ----

  function RowCell(row: ScoreRow): TiedCell
    requires row.ci.Some?
  {
    TiedCell(row.value, row.ci.value)
  }

  /** One model's F1 cell on a feature, as `AggregateGoal1` scores it. */
  function F1Cell(sqrt: real -> real, cases: seq<LabelledCase>): TiedCell {
    RowCell(AggregateGoal1(sqrt, cases)[2])
  }

  function F1Cells(sqrt: real -> real, models: seq<seq<LabelledCase>>): seq<TiedCell> {
    seq(|models|, i requires 0 <= i < |models| => F1Cell(sqrt, models[i]))
  }

  function F1Value(cases: seq<LabelledCase>): real {
    F1Of(Share01(Count(cases, Hit), Count(cases, Hit) + Count(cases, Wrong)), Share01(Count(cases, Hit), |cases|))
  }

  lemma {:induction false} F1CellOf(sqrt: real -> real, cases: seq<LabelledCase>)
    requires IsSqrt(sqrt)
    ensures 0.0 <= F1Value(cases) <= 1.0
    ensures F1Cell(sqrt, cases) == RowCell(DerivedRate(sqrt, F1, F1Value(cases), |cases|))
    ensures F1Cell(sqrt, cases).interval.low <= F1Cell(sqrt, cases).interval.high
  {
    Goal1RowsAreCoherent(sqrt, cases);
    CountsAddUp(cases);
    Share01InRange(Count(cases, Hit), Count(cases, Hit) + Count(cases, Wrong));
    Share01InRange(Count(cases, Hit), |cases|);
  }

  /** Over one number of cases a higher rate never has a lower lower bound. */
  lemma {:induction false} DerivedLowIsMonotone(sqrt: real -> real, metric: Metric, v: real, w: real, n: nat)
    requires IsSqrt(sqrt) && n > 0 && 0.0 <= v <= w <= 1.0
    ensures DerivedRate(sqrt, metric, v, n).ci.value.low <= DerivedRate(sqrt, metric, w, n).ci.value.low
  {
    RoundsToCount(v, n);
    RoundsToCount(w, n);
    MulNonNegative(w - v, n as real);
    assert Times(w - v, n as real) == Times(w, n as real) - Times(v, n as real);
    RoundIsMonotone(Times(v, n as real), Times(w, n as real));
    WilsonIsMonotone(sqrt, Round(Times(v, n as real)), Round(Times(w, n as real)), n, WILSON_Z_95);
  }

  lemma {:induction false} HigherF1HigherLow(sqrt: real -> real, a: seq<LabelledCase>, b: seq<LabelledCase>)
    requires IsSqrt(sqrt) && |a| == |b| > 0
    requires F1Cell(sqrt, a).point <= F1Cell(sqrt, b).point
    ensures F1Cell(sqrt, a).interval.low <= F1Cell(sqrt, b).interval.low
  {
    F1CellOf(sqrt, a);
    F1CellOf(sqrt, b);
    DerivedLowIsMonotone(sqrt, F1, F1Value(a), F1Value(b), |a|);
  }

  /** On one feature, where every model is scored over the same labelled cases, two cells whose
      intervals are disjoint are never both tied. */
  lemma {:induction false} DisjointF1CellsNeverBothTied(sqrt: real -> real, models: seq<seq<LabelledCase>>, n: nat)
    requires IsSqrt(sqrt) && n > 0 && models != []
    requires forall i | 0 <= i < |models| :: |models[i]| == n
    ensures TiedCellsOverlap(F1Cells(sqrt, models))
  {
    var cells := F1Cells(sqrt, models);
    forall i | 0 <= i < |cells| ensures cells[i].interval.low <= cells[i].interval.high {
      F1CellOf(sqrt, models[i]);
    }
    forall i, j | 0 <= i < |cells| && 0 <= j < |cells| && cells[i].point <= cells[j].point
      ensures cells[i].interval.low <= cells[j].interval.low
    {
      HigherF1HigherLow(sqrt, models[i], models[j]);
    }
    MonotoneLowsSuffice(cells);
  }

  // ---- the presence cross-tab ----

  function Flagged(cases: seq<LabelledCase>): seq<LabelledCase> {
    if cases == [] then []
    else (if cases[0].presentFlag.Some? then [cases[0]] else []) + Flagged(cases[1..])
  }

  function Tally(cases: seq<LabelledCase>, outcome: Outcome, present: bool): nat {
    if cases == [] then 0
    else Tally(cases[1..], outcome, present)
         + if cases[0].outcome == outcome && cases[0].presentFlag == Some(present) then 1 else 0
  }

  function Present(cases: seq<LabelledCase>): nat {
    if cases == [] then 0 else Present(cases[1..]) + if cases[0].presentFlag == Some(true) then 1 else 0
  }

  function AggregateGoal2(sqrt: real -> real, cases: seq<LabelledCase>): seq<ScoreRow> {
    var flagged := Flagged(cases);
    var f := |flagged|;
    [Rate(sqrt, PresenceRate, Present(flagged), |cases|),
     Rate(sqrt, FlagInconsistencyRate, Tally(flagged, Hit, false), f),
     CountRow(HitPresent, Tally(flagged, Hit, true), f), CountRow(HitAbsent, Tally(flagged, Hit, false), f),
     CountRow(WrongPresent, Tally(flagged, Wrong, true), f), CountRow(WrongAbsent, Tally(flagged, Wrong, false), f),
     CountRow(MissingPresent, Tally(flagged, Missing, true), f), CountRow(MissingAbsent, Tally(flagged, Missing, false), f)]
  }

  lemma {:induction false} FlaggedFacts(cases: seq<LabelledCase>)
    ensures |Flagged(cases)| <= |cases|
    ensures forall c | c in Flagged(cases) :: c.presentFlag.Some?
  {
    if cases != [] { FlaggedFacts(cases[1..]); }
  }

  lemma {:induction false} TalliesAddUp(cases: seq<LabelledCase>)
    requires forall c | c in cases :: c.presentFlag.Some?
    ensures Tally(cases, Hit, true) + Tally(cases, Wrong, true) + Tally(cases, Missing, true) == Present(cases)
    ensures Present(cases) + Tally(cases, Hit, false) + Tally(cases, Wrong, false) + Tally(cases, Missing, false) == |cases|
  {
    if cases != [] {
      assert cases[0] in cases;
      var flag := cases[0].presentFlag.value;
      assert cases[0].presentFlag == Some(flag);
      assert flag == true || flag == false;
      TalliesAddUp(cases[1..]);
    }
  }

  /** The six cells are the flagged cases, the three `present` ones those flagged present; both
      rates lie in their own intervals. */
  lemma {:induction false} Goal2RowsAreCoherent(sqrt: real -> real, cases: seq<LabelledCase>)
    requires IsSqrt(sqrt)
    ensures var rows, f := AggregateGoal2(sqrt, cases), |Flagged(cases)|;
            && f <= |cases|
            && rows[2].value + rows[4].value + rows[6].value == Present(Flagged(cases)) as real
            && rows[2].value + rows[3].value + rows[4].value + rows[5].value + rows[6].value + rows[7].value == f as real
            && (forall i | 0 <= i < 2 :: 0.0 <= rows[i].ci.value.low <= rows[i].value <= rows[i].ci.value.high <= 1.0)
  {
    FlaggedFacts(cases);
    TalliesAddUp(Flagged(cases));
    RateInItsInterval(sqrt, PresenceRate, Present(Flagged(cases)), |cases|);
    RateInItsInterval(sqrt, FlagInconsistencyRate, Tally(Flagged(cases), Hit, false), |Flagged(cases)|);
  }
}
