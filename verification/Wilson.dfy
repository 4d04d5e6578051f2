/** The Wilson score interval, as an inverted score test. */
module Wilson {

  const WILSON_Z_95: real := 1.959963985

  datatype Interval = Interval(low: real, high: real, n: nat)

  const EMPTY_INTERVAL := Interval(0.0, 1.0, 0)

  /** A product under a name, so that its sign can be carried along as a linear fact. */
  function Times(a: real, b: real): real { a * b }

  /** `math.sqrt`, as far as it is relied on: non-negative, and its square is its argument. */
  ghost predicate IsSqrt(sqrt: real -> real) {
    forall x | x >= 0.0 :: sqrt(x) >= 0.0 && Times(sqrt(x), sqrt(x)) == x
  }

  function Max(a: real, b: real): real { if a >= b then a else b }

  function Min(a: real, b: real): real { if a <= b then a else b }

  function Proportion(successes: nat, n: nat): real
    requires n > 0
  {
    successes as real / n as real
  }

  function Radicand(p: real, n: real, z: real): real
    requires n > 0.0
  {
    p * (1.0 - p) / n + z * z / (4.0 * n * n)
  }

  function Centre(p: real, n: real, z: real): real
    requires n > 0.0
  {
    var denominator := 1.0 + z * z / n;
    assert z * z >= 0.0;
    (p + z * z / (2.0 * n)) / denominator
  }

  function Margin(n: real, z: real, spread: real): real
    requires n > 0.0
  {
    assert z * z >= 0.0;
    (z / (1.0 + z * z / n)) * spread
  }

  function Wilson(sqrt: real -> real, successes: nat, n: nat, z: real): Interval {
    if n == 0 then EMPTY_INTERVAL
    else
      var p := Proportion(successes, n);
      var spread := sqrt(Radicand(p, n as real, z));
      var centre, margin := Centre(p, n as real, z), Margin(n as real, z, spread);
      Interval(Max(0.0, centre - margin), Min(1.0, centre + margin), n)
  }

  /** The score test at `p`: the observed share is within `z` standard errors of `p`. */
  ghost predicate ScoreTest(share: real, p: real, n: real, z: real) {
    Times(n, Times(share - p, share - p)) <= Times(z * z, Times(p, 1.0 - p))
  }

  // ---- the algebra, with w standing for z*z/n and d for 1 + w ----

  lemma {:induction false} MulPositive(a: real, b: real)
    requires a > 0.0
    requires b > 0.0
    ensures Times(a, b) > 0.0
  {}

  lemma {:induction false} MulNonNegative(a: real, b: real)
    requires a >= 0.0 && b >= 0.0
    ensures Times(a, b) >= 0.0
  {}

  lemma {:induction false} SquareNonNegative(a: real)
    ensures Times(a, a) >= 0.0
  {}

  lemma {:induction false} NegatedProduct(a: real, b: real)
    ensures Times(-a, b) == -Times(a, b) == Times(a, -b)
  {}

  lemma {:induction false} FourSquaresPositive(n: real)
    requires n > 0.0
    ensures Times(4.0 * n, n) > 0.0
  {
    MulPositive(4.0 * n, n);
  }

  lemma {:induction false} DifferenceOfSquares(a: real, b: real)
    ensures (a - b) * (a + b) == a * a - b * b
  {}

  lemma {:induction false} SquareOrder(a: real, b: real)
    requires b >= 0.0
    ensures Times(a, a) <= Times(b, b) <==> -b <= a <= b
  {
    DifferenceOfSquares(b, a);
    DifferenceOfSquares(a, b);
    DifferenceOfSquares(-a, b);
    assert (-a) * (-a) == a * a;
    if -b <= a <= b {
      MulNonNegative(b - a, b + a);
    } else if a > b {
      MulPositive(a - b, a + b);
    } else {
      MulPositive(-a - b, -a + b);
    }
  }

  lemma {:induction false} Distribute(d: real, a: real, b: real)
    ensures Times(d, a + b) == Times(d, a) + Times(d, b)
    ensures Times(d, a - b) == Times(d, a) - Times(d, b)
  {}

  lemma {:induction false} ScaleOrder(d: real, a: real, b: real)
    requires d > 0.0
    ensures Times(d, a) <= Times(d, b) <==> a <= b
  {
    Distribute(d, a, b);
    Distribute(d, b, a);
    if a <= b { MulNonNegative(d, b - a); } else { MulPositive(d, a - b); }
  }

  lemma {:induction false} SameRoot(a: real, b: real)
    requires a >= 0.0 && b >= 0.0 && a * a == b * b
    ensures a == b
  {
    SquareOrder(a, b);
    SquareOrder(b, a);
  }

  /** Completing the square of the score test. */
  lemma {:induction false} CompleteSquare(share: real, p: real, w: real, d: real, b: real)
    requires d == 1.0 + w && b == share + w / 2.0
    ensures Times(Times(d, p) - b, Times(d, p) - b) - Times(w, share * (1.0 - share) + w / 4.0)
         == Times(d, Times(share - p, share - p) - Times(w, Times(p, 1.0 - p)))
  {}

  /** Between two bounds around `c`, once scaled by `d`, is a comparison of squares. */
  lemma {:induction false} WithinMargin(d: real, c: real, m: real, p: real, b: real, e: real)
    requires d > 0.0 && m >= 0.0
    requires Times(d, c) == b
    requires Times(d, m) == e
    ensures c - m <= p <= c + m <==> Times(Times(d, p) - b, Times(d, p) - b) <= Times(e, e)
  {
    MulNonNegative(d, m);
    SquareOrder(Times(d, p) - b, e);
    ScaleOrder(d, c - m, p);
    ScaleOrder(d, p, c + m);
    Distribute(d, c, m);
  }

  lemma {:induction false} CentreScaled(share: real, n: real, z: real)
    requires n > 0.0
    ensures var w := z * z / n; w >= 0.0 && Times(1.0 + w, Centre(share, n, z)) == share + w / 2.0
  {
    SquareNonNegative(z);
    QuotientNonNegative(z * z, n);
    assert z * z / (2.0 * n) == (z * z / n) / 2.0;
  }

  lemma {:induction false} DivideLater(x: real, a: real, n: real)
    requires n > 0.0
    ensures x * (a / n) == (x / n) * a
  {}

  lemma {:induction false} Quotient(a: real, b: real, q: real)
    requires b > 0.0
    requires q * b == a
    ensures a / b == q
  {}

  lemma {:induction false} DivideTwice(y: real, n: real)
    requires n > 0.0
    ensures y * (y / (4.0 * n * n)) == (y / n) * ((y / n) / 4.0)
  {
    var w := y / n;
    var q := w / 4.0 / n;
    assert q * (4.0 * n * n) == y by {
      assert q * n == w / 4.0;
      assert q * (4.0 * n * n) == 4.0 * (q * n) * n;
    }
    FourSquaresPositive(n);
    Quotient(y, 4.0 * n * n, q);
    assert y * q == (w * n) * q == w * (q * n);
  }

  lemma {:induction false} MarginScaled(share: real, n: real, z: real, spread: real)
    requires n > 0.0 && Times(spread, spread) == Radicand(share, n, z)
    ensures var w := z * z / n;
            && Times(1.0 + w, Margin(n, z, spread)) == z * spread
            && Times(z * spread, z * spread) == Times(w, share * (1.0 - share) + w / 4.0)
  {
    assert z * z >= 0.0;
    var w, y, v := z * z / n, z * z, share * (1.0 - share);
    DivideLater(y, v, n);
    DivideTwice(y, n);
    calc {
      (z * spread) * (z * spread);
      y * (spread * spread);
      y * (v / n + y / (4.0 * n * n));
      y * (v / n) + y * (y / (4.0 * n * n));
      w * v + w * (w / 4.0);
      w * (v + w / 4.0);
    }
  }

  lemma {:induction false} Share(successes: nat, n: nat)
    requires 0 < n && successes <= n
    ensures 0.0 <= Proportion(successes, n) <= 1.0
  {}

  lemma {:induction false} QuotientNonNegative(a: real, b: real)
    requires a >= 0.0
    requires b > 0.0
    ensures a / b >= 0.0
  {}

  lemma {:induction false} RadicandNonNegative(share: real, n: real, z: real)
    requires 0.0 <= share <= 1.0 && n > 0.0
    ensures Radicand(share, n, z) >= 0.0
  {
    MulNonNegative(share, 1.0 - share);
    SquareNonNegative(z);
    FourSquaresPositive(n);
    QuotientNonNegative(z * z, 4.0 * n * n);
    QuotientNonNegative(share * (1.0 - share), n);
  }

  lemma {:induction false} MarginNonNegative(n: real, z: real, spread: real)
    requires n > 0.0 && z > 0.0 && spread >= 0.0
    ensures Margin(n, z, spread) >= 0.0
  {
    assert z * z / n >= 0.0;
    MulNonNegative(z / (1.0 + z * z / n), spread);
  }

  /** The bounds before they are clamped. */
  function Spread(sqrt: real -> real, share: real, n: real, z: real): real
    requires n > 0.0
  {
    Margin(n, z, sqrt(Radicand(share, n, z)))
  }

  lemma {:induction false} TestScaled(share: real, p: real, n: real, z: real)
    requires n > 0.0
    ensures ScoreTest(share, p, n, z) <==>
              Times(share - p, share - p) <= Times(z * z / n, Times(p, 1.0 - p))
  {
    var a, b := Times(share - p, share - p), Times(z * z / n, Times(p, 1.0 - p));
    ScaleOrder(n, a, b);
    DivideLater(z * z, Times(p, 1.0 - p), n);
    assert Times(n, b) == Times(z * z, Times(p, 1.0 - p));
  }

  /** Centre plus or minus margin is exactly the set of shares that pass the score test. */
  lemma {:induction false} UnclampedInvertsTest(sqrt: real -> real, share: real, p: real, n: real, z: real)
    requires IsSqrt(sqrt) && n > 0.0 && z > 0.0 && 0.0 <= share <= 1.0
    ensures Spread(sqrt, share, n, z) >= 0.0
    ensures Centre(share, n, z) - Spread(sqrt, share, n, z) <= p <= Centre(share, n, z) + Spread(sqrt, share, n, z)
       <==> ScoreTest(share, p, n, z)
  {
    RadicandNonNegative(share, n, z);
    var spread := sqrt(Radicand(share, n, z));
    var w := z * z / n;
    var d, b, e := 1.0 + w, share + w / 2.0, z * spread;
    CentreScaled(share, n, z);
    MarginScaled(share, n, z, spread);
    MarginNonNegative(n, z, spread);
    WithinMargin(d, Centre(share, n, z), Margin(n, z, spread), p, b, e);
    CompleteSquare(share, p, w, d, b);
    ScaleOrder(d, Times(share - p, share - p) - Times(w, Times(p, 1.0 - p)), 0.0);
    assert Times(d, 0.0) == 0.0;
    TestScaled(share, p, n, z);
  }

  // ---- the interval ----

  ghost predicate Sampled(sqrt: real -> real, successes: nat, n: nat, z: real) {
    IsSqrt(sqrt) && n > 0 && successes <= n && z > 0.0
  }

  lemma {:induction false} TestFailsOutside(share: real, p: real, n: real, z: real)
    requires 0.0 <= share <= 1.0 && n > 0.0 && z > 0.0 && (p < 0.0 || p > 1.0)
    ensures !ScoreTest(share, p, n, z)
  {
    MulPositive(z, z);
    if p < 0.0 { MulPositive(-p, 1.0 - p); } else { MulPositive(p, -(1.0 - p)); }
    NegatedProduct(p, 1.0 - p);
    MulPositive(z * z, -Times(p, 1.0 - p));
    NegatedProduct(z * z, Times(p, 1.0 - p));
    SquareNonNegative(share - p);
    MulNonNegative(n, Times(share - p, share - p));
  }

  /** The bounds never leave [0, 1], so clamping them changes nothing. */
  lemma {:induction false} ClampsChangeNothing(sqrt: real -> real, successes: nat, n: nat, z: real)
    requires Sampled(sqrt, successes, n, z)
    ensures var share, nr := Proportion(successes, n), n as real;
            && Wilson(sqrt, successes, n, z).low == Centre(share, nr, z) - Spread(sqrt, share, nr, z)
            && Wilson(sqrt, successes, n, z).high == Centre(share, nr, z) + Spread(sqrt, share, nr, z)
  {
    var share, nr := Proportion(successes, n), n as real;
    Share(successes, n);
    var low, high := Centre(share, nr, z) - Spread(sqrt, share, nr, z), Centre(share, nr, z) + Spread(sqrt, share, nr, z);
    UnclampedInvertsTest(sqrt, share, low, nr, z);
    UnclampedInvertsTest(sqrt, share, high, nr, z);
    if low < 0.0 { TestFailsOutside(share, low, nr, z); }
    if high > 1.0 { TestFailsOutside(share, high, nr, z); }
    assert low >= 0.0 && high <= 1.0;
  }

  /** The Wilson interval is the inverted score test: it holds exactly the shares in [0, 1] that
      the test does not reject. */
  lemma {:induction false} WilsonInvertsScoreTest(sqrt: real -> real, successes: nat, n: nat, z: real, p: real)
    requires Sampled(sqrt, successes, n, z)
    ensures var i := Wilson(sqrt, successes, n, z);
            i.low <= p <= i.high <==> ScoreTest(Proportion(successes, n), p, n as real, z)
  {
    Share(successes, n);
    ClampsChangeNothing(sqrt, successes, n, z);
    UnclampedInvertsTest(sqrt, Proportion(successes, n), p, n as real, z);
  }

  /** The observed share lies inside, and the bounds inside [0, 1]. */
  lemma {:induction false} WilsonHoldsItsShare(sqrt: real -> real, successes: nat, n: nat, z: real)
    requires Sampled(sqrt, successes, n, z)
    ensures var i := Wilson(sqrt, successes, n, z);
            0.0 <= i.low <= Proportion(successes, n) <= i.high <= 1.0
  {
    var share := Proportion(successes, n);
    Share(successes, n);
    MulNonNegative(share, 1.0 - share);
    SquareNonNegative(z);
    MulNonNegative(z * z, Times(share, 1.0 - share));
    assert Times(n as real, Times(share - share, share - share)) == 0.0;
    WilsonInvertsScoreTest(sqrt, successes, n, z, share);
  }

  /** A share that passes the test against the farther of two observations passes it against the nearer. */
  lemma {:induction false} NearerPasses(near: real, far: real, p: real, n: real, z: real)
    requires n > 0.0 && ScoreTest(far, p, n, z)
    requires p <= near <= far || far <= near <= p
    ensures ScoreTest(near, p, n, z)
  {
    SquareOrder(near - p, if far >= p then far - p else p - far);
    assert Times(p - far, p - far) == Times(far - p, far - p);
    ScaleOrder(n, Times(near - p, near - p), Times(far - p, far - p));
  }

  /** More successes out of the same number never lower either bound. */
  lemma {:induction false} WilsonIsMonotone(sqrt: real -> real, fewer: nat, more: nat, n: nat, z: real)
    requires Sampled(sqrt, more, n, z) && fewer <= more
    ensures Wilson(sqrt, fewer, n, z).low <= Wilson(sqrt, more, n, z).low
    ensures Wilson(sqrt, fewer, n, z).high <= Wilson(sqrt, more, n, z).high
  {
    var a, b := Wilson(sqrt, fewer, n, z), Wilson(sqrt, more, n, z);
    var s, t := Proportion(fewer, n), Proportion(more, n);
    ProportionOrder(fewer, more, n);
    WilsonHoldsItsShare(sqrt, fewer, n, z);
    WilsonHoldsItsShare(sqrt, more, n, z);
    if b.low < s {
      WilsonInvertsScoreTest(sqrt, more, n, z, b.low);
      NearerPasses(s, t, b.low, n as real, z);
      WilsonInvertsScoreTest(sqrt, fewer, n, z, b.low);
    }
    if t < a.high {
      WilsonInvertsScoreTest(sqrt, fewer, n, z, a.high);
      NearerPasses(t, s, a.high, n as real, z);
      WilsonInvertsScoreTest(sqrt, more, n, z, a.high);
    }
  }

  lemma {:induction false} ProportionOrder(fewer: nat, more: nat, n: nat)
    requires n > 0 && fewer <= more
    ensures Proportion(fewer, n) <= Proportion(more, n)
  {}

  lemma {:induction false} ProportionMirrors(successes: nat, n: nat)
    requires n > 0 && successes <= n
    ensures Proportion(n - successes, n) == 1.0 - Proportion(successes, n)
  {
    var a, b := successes as real, n as real;
    assert (n - successes) as real == b - a;
    assert (1.0 - a / b) * b == b - a;
    Quotient(b - a, b, 1.0 - a / b);
  }

  lemma {:induction false} SumOfCentres(share: real, n: real, z: real)
    requires n > 0.0
    ensures Centre(share, n, z) + Centre(1.0 - share, n, z) == 1.0
  {
    CentreScaled(share, n, z);
    CentreScaled(1.0 - share, n, z);
    SquareNonNegative(z);
    QuotientNonNegative(z * z, n);
    Halves(1.0 + z * z / n, Centre(share, n, z), Centre(1.0 - share, n, z));
  }

  lemma {:induction false} Halves(d: real, a: real, b: real)
    requires d > 0.0
    requires Times(d, a) + Times(d, b) == d
    ensures a + b == 1.0
  {
    Distribute(d, a, b);
    assert Times(d, 1.0) == d;
    ScaleOrder(d, a + b, 1.0);
    ScaleOrder(d, 1.0, a + b);
  }

  lemma {:induction false} SameRadicand(share: real, n: real, z: real)
    requires n > 0.0
    ensures Radicand(1.0 - share, n, z) == Radicand(share, n, z)
  {
    assert (1.0 - share) * (1.0 - (1.0 - share)) == share * (1.0 - share);
  }

  /** Failures mirror successes. */
  lemma {:induction false} WilsonMirrors(sqrt: real -> real, successes: nat, n: nat, z: real)
    requires Sampled(sqrt, successes, n, z)
    ensures Wilson(sqrt, n - successes, n, z).low == 1.0 - Wilson(sqrt, successes, n, z).high
    ensures Wilson(sqrt, n - successes, n, z).high == 1.0 - Wilson(sqrt, successes, n, z).low
  {
    var share := Proportion(successes, n);
    ProportionMirrors(successes, n);
    ClampsChangeNothing(sqrt, successes, n, z);
    ClampsChangeNothing(sqrt, n - successes, n, z);
    SameRadicand(share, n as real, z);
    SumOfCentres(share, n as real, z);
  }
}
