/** The unweighted average over features, and its propagated interval. */
module MacroAverage {
  import opened Wrappers
  import opened Wilson

  function Sum(xs: seq<real>): real {
    if xs == [] then 0.0 else xs[0] + Sum(xs[1..])
  }

  function SumSquares(xs: seq<real>): real {
    if xs == [] then 0.0 else Times(xs[0], xs[0]) + SumSquares(xs[1..])
  }

  function Mean(xs: seq<real>): real
    requires xs != []
  {
    Sum(xs) / |xs| as real
  }

  /** An empty list has no average, not an average of 0. */
  function Macro(values: seq<real>): Option<real> {
    if values == [] then None else Some(Mean(values))
  }

  function Centres(intervals: seq<Interval>): seq<real> {
    seq(|intervals|, i requires 0 <= i < |intervals| => (intervals[i].low + intervals[i].high) / 2.0)
  }

  /** Half the width of each interval, over z: a standard error. */
  function StandardErrors(intervals: seq<Interval>): seq<real> {
    seq(|intervals|, i requires 0 <= i < |intervals| => (intervals[i].high - intervals[i].low) / (2.0 * WILSON_Z_95))
  }

  function SumN(intervals: seq<Interval>): nat {
    if intervals == [] then 0 else intervals[0].n + SumN(intervals[1..])
  }

  function MacroMargin(sqrt: real -> real, intervals: seq<Interval>): real
    requires intervals != []
  {
    WILSON_Z_95 * (sqrt(SumSquares(StandardErrors(intervals))) / |intervals| as real)
  }

  function MacroInterval(sqrt: real -> real, intervals: seq<Interval>): Interval
    requires intervals != []
  {
    var centre, margin := Mean(Centres(intervals)), MacroMargin(sqrt, intervals);
    Interval(Max(0.0, centre - margin), Min(1.0, centre + margin), SumN(intervals))
  }

  ghost predicate Proper(i: Interval) { 0.0 <= i.low <= i.high <= 1.0 }

  // ---- sums ----

  lemma {:induction false} SumsNonNegative(xs: seq<real>)
    requires forall i | 0 <= i < |xs| :: xs[i] >= 0.0
    ensures Sum(xs) >= 0.0
  {
    if xs != [] { SumsNonNegative(xs[1..]); }
  }

  lemma {:induction false} SquaresNonNegative(xs: seq<real>)
    ensures SumSquares(xs) >= 0.0
  {
    if xs != [] {
      SquareNonNegative(xs[0]);
      SquaresNonNegative(xs[1..]);
    }
  }

  lemma {:induction false} MeanInRange(xs: seq<real>, low: real, high: real)
    requires forall i | 0 <= i < |xs| :: low <= xs[i] <= high
    ensures Times(|xs| as real, low) <= Sum(xs) <= Times(|xs| as real, high)
  {
    if xs == [] {
      assert Times(0.0, low) == 0.0 && Times(0.0, high) == 0.0;
    } else {
      var k := |xs[1..]| as real;
      MeanInRange(xs[1..], low, high);
      assert |xs| as real == k + 1.0;
      assert Times(k + 1.0, low) == Times(k, low) + low && Times(k + 1.0, high) == Times(k, high) + high;
    }
  }

  lemma {:induction false} QuotientInRange(s: real, k: real, low: real, high: real)
    requires k > 0.0
    requires Times(k, low) <= s <= Times(k, high)
    ensures low <= s / k <= high
  {
    assert Times(k, s / k) == s;
    ScaleOrder(k, low, s / k);
    ScaleOrder(k, s / k, high);
  }

  /** The squares of non-negative numbers sum to at most the square of their sum. */
  lemma {:induction false} SquaresBelowSquare(xs: seq<real>)
    requires forall i | 0 <= i < |xs| :: xs[i] >= 0.0
    ensures SumSquares(xs) <= Times(Sum(xs), Sum(xs))
  {
    if xs == [] {
      assert Times(0.0, 0.0) == 0.0;
    } else {
      var x, s := xs[0], Sum(xs[1..]);
      SquaresBelowSquare(xs[1..]);
      SumsNonNegative(xs[1..]);
      MulNonNegative(x, s);
      assert Times(x + s, x + s) == Times(x, x) + 2.0 * Times(x, s) + Times(s, s);
    }
  }

  /** The squared distances of all elements from `e` sum to something non-negative. */
  lemma {:induction false} DistancesNonNegative(xs: seq<real>, e: real)
    ensures SumSquares(xs) - 2.0 * Times(e, Sum(xs)) + Times(|xs| as real, Times(e, e)) >= 0.0
  {
    if xs == [] {
      assert Times(e, 0.0) == 0.0 && Times(0.0, Times(e, e)) == 0.0;
    } else {
      var x, s, k := xs[0], Sum(xs[1..]), |xs[1..]| as real;
      DistancesNonNegative(xs[1..], e);
      DistanceStep(x, e, s, SumSquares(xs[1..]), k);
      assert |xs| as real == k + 1.0;
    }
  }

  lemma {:induction false} DistanceStep(x: real, e: real, s: real, q: real, k: real)
    requires q - 2.0 * Times(e, s) + Times(k, Times(e, e)) >= 0.0
    ensures Times(x, x) + q - 2.0 * Times(e, x + s) + Times(k + 1.0, Times(e, e)) >= 0.0
  {
    SquareNonNegative(x - e);
    assert Times(x - e, x - e) == Times(x, x) - 2.0 * Times(e, x) + Times(e, e);
    Distribute(e, x, s);
    var ee := Times(e, e);
    assert Times(k + 1.0, ee) == Times(k, ee) + ee;
  }

  /** Cauchy-Schwarz: the square of a sum of k numbers is at most k times the sum of their squares. */
  lemma {:induction false} SquareOfSum(xs: seq<real>)
    ensures Times(Sum(xs), Sum(xs)) <= Times(|xs| as real, SumSquares(xs))
  {
    if xs == [] {
      assert Times(0.0, 0.0) == 0.0;
    } else {
      var x, s, q, k := xs[0], Sum(xs[1..]), SumSquares(xs[1..]), |xs[1..]| as real;
      SquareOfSum(xs[1..]);
      DistancesNonNegative(xs[1..], x);
      assert Times(x + s, x + s) == Times(x, x) + 2.0 * Times(x, s) + Times(s, s);
      assert |xs| as real == k + 1.0;
      assert Times(k + 1.0, Times(x, x) + q) == Times(k, Times(x, x)) + Times(k, q) + Times(x, x) + q;
    }
  }

  // ---- the interval ----

  lemma {:induction false} ErrorsNonNegative(intervals: seq<Interval>)
    requires forall i | 0 <= i < |intervals| :: intervals[i].low <= intervals[i].high
    ensures forall i | 0 <= i < |intervals| :: StandardErrors(intervals)[i] >= 0.0
  {
    forall i | 0 <= i < |intervals| ensures StandardErrors(intervals)[i] >= 0.0 {
      QuotientNonNegative(intervals[i].high - intervals[i].low, 2.0 * WILSON_Z_95);
    }
  }

  lemma {:induction false} MarginIsNonNegative(sqrt: real -> real, intervals: seq<Interval>)
    requires IsSqrt(sqrt) && intervals != []
    ensures MacroMargin(sqrt, intervals) >= 0.0
  {
    var es := StandardErrors(intervals);
    SquaresNonNegative(es);
    QuotientNonNegative(sqrt(SumSquares(es)), |intervals| as real);
    MulNonNegative(WILSON_Z_95, sqrt(SumSquares(es)) / |intervals| as real);
  }

  /** The average of intervals inside [0, 1] is again a proper interval inside [0, 1]. */
  lemma {:induction false} MacroIntervalIsProper(sqrt: real -> real, intervals: seq<Interval>)
    requires IsSqrt(sqrt) && intervals != []
    requires forall i | 0 <= i < |intervals| :: Proper(intervals[i])
    ensures Proper(MacroInterval(sqrt, intervals))
  {
    MarginIsNonNegative(sqrt, intervals);
    MeanInRange(Centres(intervals), 0.0, 1.0);
    QuotientInRange(Sum(Centres(intervals)), |intervals| as real, 0.0, 1.0);
  }

  /** One interval is its own average. */
  lemma {:induction false} MacroOfOne(sqrt: real -> real, i: Interval)
    requires IsSqrt(sqrt) && Proper(i)
    ensures MacroInterval(sqrt, [i]) == i
  {
    var e := (i.high - i.low) / (2.0 * WILSON_Z_95);
    assert StandardErrors([i]) == [e] && Centres([i]) == [(i.low + i.high) / 2.0];
    assert SumSquares([e]) == Times(e, e) + SumSquares([]) by { assert [e][1..] == []; }
    ErrorsNonNegative([i]);
    SquareNonNegative(e);
    assert Times(sqrt(Times(e, e)), sqrt(Times(e, e))) == Times(e, e);
    SameRoot(sqrt(Times(e, e)), e);
    assert MacroMargin(sqrt, [i]) == WILSON_Z_95 * e == (i.high - i.low) / 2.0;
    assert Sum([(i.low + i.high) / 2.0]) == (i.low + i.high) / 2.0;
    assert SumN([i]) == i.n;
  }

  function HalfWidths(intervals: seq<Interval>): seq<real> {
    seq(|intervals|, i requires 0 <= i < |intervals| => (intervals[i].high - intervals[i].low) / 2.0)
  }

  lemma {:induction false} SumScaled(intervals: seq<Interval>)
    ensures Sum(HalfWidths(intervals)) == Times(WILSON_Z_95, Sum(StandardErrors(intervals)))
  {
    if intervals != [] {
      SumScaled(intervals[1..]);
      assert HalfWidths(intervals)[1..] == HalfWidths(intervals[1..]);
      assert StandardErrors(intervals)[1..] == StandardErrors(intervals[1..]);
      Distribute(WILSON_Z_95, StandardErrors(intervals)[0], Sum(StandardErrors(intervals[1..])));
    }
  }

  /** Averaging never widens past the mean half-width, and narrows it by no more than the square
      root of the number of intervals. */
  lemma {:induction false} MacroMarginBounds(sqrt: real -> real, intervals: seq<Interval>)
    requires IsSqrt(sqrt) && intervals != []
    requires forall i | 0 <= i < |intervals| :: intervals[i].low <= intervals[i].high
    ensures var m, h := MacroMargin(sqrt, intervals), Mean(HalfWidths(intervals));
            m <= h && Times(h, h) <= Times(|intervals| as real, Times(m, m))
  {
    var es, k := StandardErrors(intervals), |intervals| as real;
    ErrorsNonNegative(intervals);
    SquaresNonNegative(es);
    SumsNonNegative(es);
    SquaresBelowSquare(es);
    SquareOfSum(es);
    SumScaled(intervals);
    var r, s := sqrt(SumSquares(es)), Sum(es);
    assert r >= 0.0 && Times(r, r) == SumSquares(es);
    SquareOrder(r, s);
    MarginAlgebra(WILSON_Z_95, r, s, k);
  }

  lemma {:induction false} MarginAlgebra(z: real, r: real, s: real, k: real)
    requires z > 0.0 && k > 0.0 && 0.0 <= r <= s
    requires Times(s, s) <= Times(k, Times(r, r))
    ensures z * (r / k) <= Times(z, s) / k
    ensures Times(Times(z, s) / k, Times(z, s) / k) <= Times(k, Times(z * (r / k), z * (r / k)))
  {
    var c := z / k;
    QuotientPositive(z, k);
    assert z * (r / k) == Times(c, r) by { DivideLater(z, r, k); }
    assert Times(z, s) / k == Times(c, s) by { assert Times(z, s) / k == (z / k) * s; }
    ScaleOrder(c, r, s);
    MulPositive(c, c);
    assert Times(Times(c, s), Times(c, s)) == Times(Times(c, c), Times(s, s));
    assert Times(k, Times(Times(c, r), Times(c, r))) == Times(Times(c, c), Times(k, Times(r, r)));
    ScaleOrder(Times(c, c), Times(s, s), Times(k, Times(r, r)));
  }

  lemma {:induction false} QuotientPositive(a: real, b: real)
    requires a > 0.0
    requires b > 0.0
    ensures a / b > 0.0
  {}
}
