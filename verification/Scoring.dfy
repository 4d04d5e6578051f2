/** From one feature's labelled cases to score rows, and the cells they are compared as. */
module Scoring {
  import opened Wrappers
  import opened Rounding
  import opened Wilson
  import opened Ties

  datatype Outcome = Hit | Wrong | Missing

  datatype LabelledCase = LabelledCase(outcome: Outcome, presentFlag: Option<bool>)

  datatype Metric = Precision | Recall | F1 | HitCount | WrongCount | MissingCount
    | PresenceRate | FlagInconsistencyRate
    | HitPresent | HitAbsent | WrongPresent | WrongAbsent | MissingPresent | MissingAbsent

  /** A rate carries its interval; a count has none. */
  datatype ScoreRow = ScoreRow(metric: Metric, value: real, n: nat, ci: Option<Interval>)

  function Count(cases: seq<LabelledCase>, outcome: Outcome): nat {
    if cases == [] then 0 else Count(cases[1..], outcome) + if cases[0].outcome == outcome then 1 else 0
  }

  function Share01(successes: nat, n: nat): real {
    if n == 0 then 0.0 else Proportion(successes, n)
  }

  function Rate(sqrt: real -> real, metric: Metric, successes: nat, n: nat): ScoreRow {
    ScoreRow(metric, Share01(successes, n), n, Some(Wilson.Wilson(sqrt, successes, n, WILSON_Z_95)))
  }

  /** A value with the interval of the count it rounds to. */
  function DerivedRate(sqrt: real -> real, metric: Metric, value: real, n: nat): ScoreRow
    requires 0.0 <= value
  {
    RoundsToCount(value, n);
    ScoreRow(metric, value, n, Some(Wilson.Wilson(sqrt, Round(Times(value, n as real)), n, WILSON_Z_95)))
  }

  function CountRow(metric: Metric, value: nat, n: nat): ScoreRow {
    ScoreRow(metric, value as real, n, None)
  }

  function F1Of(precision: real, recall: real): real {
    if precision + recall != 0.0 then 2.0 * precision * recall / (precision + recall) else 0.0
  }

  function AggregateGoal1(sqrt: real -> real, cases: seq<LabelledCase>): seq<ScoreRow> {
    var n, hit, wrong, missing := |cases|, Count(cases, Hit), Count(cases, Wrong), Count(cases, Missing);
    var claimed := hit + wrong;
    CountsAddUp(cases);
    var precision, recall := Share01(hit, claimed), Share01(hit, n);
    Share01InRange(hit, claimed);
    Share01InRange(hit, n);
    var f1 := F1Of(precision, recall);
    HarmonicMeanBetween(precision, recall);
    [Rate(sqrt, Precision, hit, claimed), Rate(sqrt, Recall, hit, n), DerivedRate(sqrt, F1, f1, n),
     CountRow(HitCount, hit, n), CountRow(WrongCount, wrong, n), CountRow(MissingCount, missing, n)]
  }

  // ---- counts ----

  lemma {:induction false} CountsAddUp(cases: seq<LabelledCase>)
    ensures Count(cases, Hit) + Count(cases, Wrong) + Count(cases, Missing) == |cases|
  {
    if cases != [] { CountsAddUp(cases[1..]); }
  }

  lemma {:induction false} Share01InRange(successes: nat, n: nat)
    requires successes <= n
    ensures 0.0 <= Share01(successes, n) <= 1.0
  {
    if n > 0 { Share(successes, n); }
  }

  // ---- rounding a value to a count ----

  lemma {:induction false} RoundsToCount(value: real, n: nat)
    requires 0.0 <= value
    ensures 0 <= Round(Times(value, n as real))
    ensures value <= 1.0 ==> Round(Times(value, n as real)) <= n
  {
    MulNonNegative(value, n as real);
    RoundOfInteger(0);
    RoundOfInteger(n);
    RoundIsMonotone(0.0, Times(value, n as real));
    if value <= 1.0 {
      MulNonNegative(1.0 - value, n as real);
      assert Times(1.0 - value, n as real) == n as real - Times(value, n as real);
      RoundIsMonotone(Times(value, n as real), n as real);
    }
  }

  /** The harmonic mean of two shares lies between them. */
  lemma {:induction false} HarmonicMeanBetween(p: real, r: real)
    requires 0.0 <= p && 0.0 <= r
    ensures Min(p, r) <= F1Of(p, r) <= Max(p, r)
  {
    if p + r != 0.0 {
      if p <= r { HarmonicMeanOrdered(p, r); } else { HarmonicMeanOrdered(r, p); assert 2.0 * p * r == 2.0 * r * p; }
    }
  }

  lemma {:induction false} HarmonicMeanOrdered(p: real, r: real)
    requires 0.0 <= p <= r && p + r > 0.0
    ensures p <= 2.0 * p * r / (p + r) <= r
  {
    MulNonNegative(p, r - p);
    MulNonNegative(r, r - p);
    assert Times(p, r - p) == 2.0 * p * r - Times(p, p + r);
    assert Times(r, r - p) == Times(r, p + r) - 2.0 * p * r;
    DivideBounds(2.0 * p * r, p + r, p, r);
  }

  lemma {:induction false} DivideBounds(a: real, d: real, low: real, high: real)
    requires d > 0.0
    requires Times(low, d) <= a <= Times(high, d)
    ensures low <= a / d <= high
  {
    var q := a / d;
    assert Times(d, q) == a && Times(d, low) == Times(low, d) && Times(d, high) == Times(high, d);
    ScaleOrder(d, low, q);
    ScaleOrder(d, q, high);
  }

  lemma {:induction false} Swap(a: real, b: real, c: real)
    ensures Times(a, Times(b, c)) == Times(b, Times(a, c))
  {}

  lemma {:induction false} Cancel(k: real, a: real, b: real)
    requires k > 0.0
    requires Times(k, a) == Times(k, b)
    ensures a == b
  {
    ScaleOrder(k, a, b);
    ScaleOrder(k, b, a);
  }

  lemma {:induction false} DiceAlgebra(p: real, r: real, c: real, m: real, h: real, f: real)
    requires p > 0.0
    requires r > 0.0
    requires Times(p, c) == h
    requires Times(r, m) == h
    requires Times(p + r, f) == 2.0 * Times(p, r)
    ensures Times(f, c + m) == 2.0 * h
  {
    var k := Times(p, r);
    MulPositive(p, r);
    assert Times(k, c) == Times(r, Times(p, c)) && Times(k, m) == Times(p, Times(r, m));
    Distribute(k, c, m);
    assert Times(k, c + m) == Times(h, p + r);
    Swap(k, f, c + m);
    Swap(f, h, p + r);
    assert Times(h, Times(f, p + r)) == Times(h, 2.0 * k) by { assert Times(f, p + r) == Times(p + r, f); }
    assert Times(h, 2.0 * k) == Times(k, 2.0 * h);
    Cancel(k, Times(f, c + m), 2.0 * h);
  }

  /** F1 counts hits against both what was claimed and what there was: 2 * hit / (claimed + n). */
  lemma {:induction false} F1IsDice(hit: nat, claimed: nat, n: nat)
    requires hit <= claimed <= n && hit > 0
    ensures Times(F1Of(Share01(hit, claimed), Share01(hit, n)), (claimed + n) as real) == 2.0 * hit as real
  {
    var h, c, m := hit as real, claimed as real, n as real;
    var p, r := h / c, h / m;
    DivisionInverts(h, c);
    DivisionInverts(h, m);
    DivisionInverts(2.0 * p * r, p + r);
    assert 2.0 * p * r == 2.0 * Times(p, r);
    DiceAlgebra(p, r, c, m, h, F1Of(p, r));
  }

  lemma {:induction false} DivisionInverts(a: real, b: real)
    requires b > 0.0
    ensures Times(a / b, b) == a && Times(b, a / b) == a
    ensures a > 0.0 ==> a / b > 0.0
  {}
}
