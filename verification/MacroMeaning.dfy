/** Where the interval of a macro average lies, told of the bounds it averages. */
module MacroMeaning {
  import opened Wilson
  import opened MacroAverage

  // ---- sums over intervals, in any order ----

  function SumBy(intervals: seq<Interval>, f: Interval -> real): real {
    if intervals == [] then 0.0 else f(intervals[0]) + SumBy(intervals[1..], f)
  }

  lemma {:induction false} SumSplit(a: seq<Interval>, b: seq<Interval>, f: Interval -> real)
    ensures SumBy(a + b, f) == SumBy(a, f) + SumBy(b, f)
  {
    if a == [] {
      assert a + b == b;
    } else {
      assert (a + b)[1..] == a[1..] + b;
      SumSplit(a[1..], b, f);
    }
  }

  lemma {:induction false} SameRest(x: Interval, a: seq<Interval>, left: seq<Interval>, right: seq<Interval>)
    requires multiset([x] + a) == multiset(left + [x] + right)
    ensures multiset(a) == multiset(left + right)
  {
    assert multiset([x] + a) == multiset{x} + multiset(a);
    assert multiset(left + [x] + right) == multiset(left) + multiset{x} + multiset(right);
    assert multiset(a) == multiset([x] + a) - multiset{x};
    assert multiset(left + right) == multiset(left + [x] + right) - multiset{x};
  }

  lemma {:induction false} SumTakesOut(left: seq<Interval>, x: Interval, right: seq<Interval>, f: Interval -> real)
    ensures SumBy(left + [x] + right, f) == f(x) + SumBy(left + right, f)
  {
    SumSplit(left, right, f);
    SumSplit(left, [x] + right, f);
    assert left + [x] + right == left + ([x] + right);
    assert ([x] + right)[1..] == right;
  }

  lemma {:induction false} SumPermutes(a: seq<Interval>, b: seq<Interval>, f: Interval -> real)
    requires multiset(a) == multiset(b)
    ensures SumBy(a, f) == SumBy(b, f)
  {
    if a == [] {
      assert |multiset(b)| == 0;
    } else {
      var x := a[0];
      assert x in multiset(b);
      var j :| 0 <= j < |b| && b[j] == x;
      assert a == [x] + a[1..] && b == b[..j] + [x] + b[j + 1..];
      SameRest(x, a[1..], b[..j], b[j + 1..]);
      SumPermutes(a[1..], b[..j] + b[j + 1..], f);
      SumTakesOut(b[..j], x, b[j + 1..], f);
    }
  }

  // ---- the three sums the interval is made of ----

  function Ends(i: Interval): real { i.low + i.high }

  function SquaredWidth(i: Interval): real { Times(i.high - i.low, i.high - i.low) }

  function Cases(i: Interval): real { i.n as real }

  lemma {:induction false} CentresSum(intervals: seq<Interval>)
    ensures 2.0 * Sum(Centres(intervals)) == SumBy(intervals, Ends)
  {
    if intervals != [] {
      CentresSum(intervals[1..]);
      assert Centres(intervals)[1..] == Centres(intervals[1..]);
    }
  }

  lemma {:induction false} ErrorsSum(intervals: seq<Interval>)
    ensures Times(4.0 * Times(WILSON_Z_95, WILSON_Z_95), SumSquares(StandardErrors(intervals))) == SumBy(intervals, SquaredWidth)
  {
    if intervals != [] {
      ErrorsSum(intervals[1..]);
      assert StandardErrors(intervals)[1..] == StandardErrors(intervals[1..]);
      ErrorStep(intervals[0].high - intervals[0].low, SumSquares(StandardErrors(intervals[1..])));
    }
  }

  lemma {:induction false} ErrorStep(w: real, rest: real)
    ensures var z, e := WILSON_Z_95, w / (2.0 * WILSON_Z_95);
            Times(4.0 * Times(z, z), Times(e, e) + rest) == Times(w, w) + Times(4.0 * Times(z, z), rest)
  {
    var z, e := WILSON_Z_95, w / (2.0 * WILSON_Z_95);
    assert 2.0 * z * e == w;
    assert Times(4.0 * Times(z, z), Times(e, e)) == Times(2.0 * z * e, 2.0 * z * e);
    Distribute(4.0 * Times(z, z), Times(e, e), rest);
  }

  lemma {:induction false} CasesSum(intervals: seq<Interval>)
    ensures SumN(intervals) as real == SumBy(intervals, Cases)
  {
    if intervals != [] { CasesSum(intervals[1..]); }
  }

  // ---- the interval ----

  lemma {:induction false} CentreOf(intervals: seq<Interval>, c: real)
    requires intervals != [] && Times(2.0 * |intervals| as real, c) == SumBy(intervals, Ends)
    ensures Mean(Centres(intervals)) == c
  {
    CentresSum(intervals);
    var k := |intervals| as real;
    var s := Sum(Centres(intervals));
    assert |Centres(intervals)| == |intervals|;
    assert s == k * c;
    assert s / k == c;
  }

  lemma {:induction false} MarginOf(sqrt: real -> real, intervals: seq<Interval>, m: real)
    requires IsSqrt(sqrt) && intervals != [] && m >= 0.0
    requires Times(4.0 * Times(|intervals| as real, |intervals| as real), Times(m, m)) == SumBy(intervals, SquaredWidth)
    ensures MacroMargin(sqrt, intervals) == m
  {
    var es, k, z := StandardErrors(intervals), |intervals| as real, WILSON_Z_95;
    ErrorsSum(intervals);
    SquaresNonNegative(es);
    var r := sqrt(SumSquares(es));
    assert r >= 0.0 && Times(r, r) == SumSquares(es);
    MarginRoot(z, k, r, m);
  }

  /** Squares that agree up to scale have roots that do. */
  lemma {:induction false} MarginRoot(z: real, k: real, r: real, m: real)
    requires z > 0.0
    requires k > 0.0
    requires r >= 0.0
    requires m >= 0.0
    requires Times(4.0 * Times(k, k), Times(m, m)) == Times(4.0 * Times(z, z), Times(r, r))
    ensures z * (r / k) == m
  {
    var a, b := Times(k, m), Times(z, r);
    assert Times(a, a) == Times(Times(k, k), Times(m, m)) && Times(b, b) == Times(Times(z, z), Times(r, r));
    assert Times(4.0 * Times(k, k), Times(m, m)) == 4.0 * Times(a, a);
    assert Times(4.0 * Times(z, z), Times(r, r)) == 4.0 * Times(b, b);
    MulNonNegative(k, m);
    MulNonNegative(z, r);
    SameRoot(a, b);
    DivideLater(z, r, k);
    assert z * r == k * m;
    assert z * (r / k) == (z * r) / k;
    assert (k * m) / k == m;
  }

  /** With k intervals, the centre is the average of their mid-points, and the half-width m has k m
      squared equal to the sum of their squared half-widths; both bounds are clamped into [0, 1]. */
  lemma {:induction false} MacroIntervalMeans(sqrt: real -> real, intervals: seq<Interval>, c: real, m: real)
    requires IsSqrt(sqrt) && intervals != [] && m >= 0.0
    requires Times(2.0 * |intervals| as real, c) == SumBy(intervals, Ends)
    requires Times(4.0 * Times(|intervals| as real, |intervals| as real), Times(m, m)) == SumBy(intervals, SquaredWidth)
    ensures MacroInterval(sqrt, intervals).low == (if c - m >= 0.0 then c - m else 0.0)
    ensures MacroInterval(sqrt, intervals).high == (if c + m <= 1.0 then c + m else 1.0)
    ensures MacroInterval(sqrt, intervals).n as real == SumBy(intervals, Cases)
  {
    CentreOf(intervals, c);
    MarginOf(sqrt, intervals, m);
    CasesSum(intervals);
  }

  /** Such a centre and half-width there are. */
  lemma {:induction false} CentreAndMargin(sqrt: real -> real, intervals: seq<Interval>) returns (c: real, m: real)
    requires IsSqrt(sqrt) && intervals != []
    ensures m >= 0.0 && Times(2.0 * |intervals| as real, c) == SumBy(intervals, Ends)
    ensures Times(4.0 * Times(|intervals| as real, |intervals| as real), Times(m, m)) == SumBy(intervals, SquaredWidth)
  {
    var k, w := |intervals| as real, SumBy(intervals, SquaredWidth);
    c := SumBy(intervals, Ends) / (2.0 * k);
    WidthsNonNegative(intervals);
    var root := sqrt(w);
    m := root / (2.0 * k);
    QuotientNonNegative(root, 2.0 * k);
    assert root >= 0.0 && Times(root, root) == w;
    assert 2.0 * k * m == root;
    assert Times(2.0 * k * m, 2.0 * k * m) == Times(4.0 * Times(k, k), Times(m, m));
  }

  /** The interval is centred on the average of the mid-points, and with k intervals k times its
      half-width is the root of the sum of their squared half-widths; it stays inside [0, 1], and its
      n is the sum of theirs. */
  ghost predicate IsAverage(i: Interval, intervals: seq<Interval>) {
    exists c: real, m: real :: CentredAt(i, intervals, c, m)
  }

  ghost predicate CentredAt(i: Interval, intervals: seq<Interval>, c: real, m: real) {
    var k := |intervals| as real;
    && m >= 0.0 && Times(2.0 * k, c) == SumBy(intervals, Ends) && Times(4.0 * Times(k, k), Times(m, m)) == SumBy(intervals, SquaredWidth)
    && i.low == (if c - m >= 0.0 then c - m else 0.0)
    && i.high == (if c + m <= 1.0 then c + m else 1.0)
    && i.n as real == SumBy(intervals, Cases)
  }

  lemma {:induction false} MacroIntervalAverages(sqrt: real -> real, intervals: seq<Interval>)
    requires IsSqrt(sqrt) && intervals != []
    ensures IsAverage(MacroInterval(sqrt, intervals), intervals)
  {
    var c, m := CentreAndMargin(sqrt, intervals);
    MacroIntervalMeans(sqrt, intervals, c, m);
    assert CentredAt(MacroInterval(sqrt, intervals), intervals, c, m);
  }

  lemma {:induction false} WidthsNonNegative(intervals: seq<Interval>)
    ensures SumBy(intervals, SquaredWidth) >= 0.0
  {
    if intervals != [] {
      WidthsNonNegative(intervals[1..]);
      SquareNonNegative(intervals[0].high - intervals[0].low);
    }
  }

  /** Where no clamp acts, k times the sum of the two bounds is the sum of all bounds, and k times the
      width, squared, is the sum of all squared widths. */
  lemma {:induction false} UnclampedMacroInterval(sqrt: real -> real, intervals: seq<Interval>)
    requires IsSqrt(sqrt) && intervals != []
    requires MacroInterval(sqrt, intervals).low > 0.0 && MacroInterval(sqrt, intervals).high < 1.0
    ensures var i, k := MacroInterval(sqrt, intervals), |intervals| as real;
            && Times(k, i.low + i.high) == SumBy(intervals, Ends)
            && Times(Times(k, k), SquaredWidth(i)) == SumBy(intervals, SquaredWidth)
  {
    var c, m := CentreAndMargin(sqrt, intervals);
    MacroIntervalMeans(sqrt, intervals, c, m);
    var i, k := MacroInterval(sqrt, intervals), |intervals| as real;
    assert i.low + i.high == 2.0 * c && i.high - i.low == 2.0 * m;
    assert Times(k, 2.0 * c) == Times(2.0 * k, c);
    assert Times(Times(k, k), Times(2.0 * m, 2.0 * m)) == Times(4.0 * Times(k, k), Times(m, m));
  }

  /** The order of the features does not matter. */
  lemma {:induction false} MacroIntervalIgnoresOrder(sqrt: real -> real, a: seq<Interval>, b: seq<Interval>)
    requires IsSqrt(sqrt) && a != [] && multiset(a) == multiset(b)
    ensures b != [] && MacroInterval(sqrt, a) == MacroInterval(sqrt, b)
  {
    assert |a| == |multiset(a)| == |multiset(b)| == |b|;
    SumPermutes(a, b, Ends);
    SumPermutes(a, b, SquaredWidth);
    SumPermutes(a, b, Cases);
    var c, m := CentreAndMargin(sqrt, a);
    MacroIntervalMeans(sqrt, a, c, m);
    MacroIntervalMeans(sqrt, b, c, m);
  }

  /** The macro average times the number of features is the sum of their values. */
  lemma {:induction false} MacroMeans(values: seq<real>)
    requires values != []
    ensures Macro(values).Some? && Times(|values| as real, Macro(values).value) == Sum(values)
  {
    var k, s := |values| as real, Sum(values);
    assert Times(k, s / k) == s;
  }
}
