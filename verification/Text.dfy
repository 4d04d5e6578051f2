/** Strings as the source uses them: decimal numerals, `" ".join`, and code point order. */
module Text {

  function Digit(n: nat): char
    requires n < 10
  {
    '0' + (n as char)
  }

  predicate IsDigit(c: char) { '0' <= c <= '9' }

  /** `str(n)` of a natural number. */
  function Decimal(n: nat): string {
    if n < 10 then [Digit(n)] else Decimal(n / 10) + [Digit(n % 10)]
  }

  lemma {:induction false} DecimalIsDigits(n: nat)
    ensures Decimal(n) != [] && forall i | 0 <= i < |Decimal(n)| :: IsDigit(Decimal(n)[i])
  {
    if n >= 10 { DecimalIsDigits(n / 10); }
  }

  lemma {:induction false} DigitInjective(m: nat, n: nat)
    requires m < 10 && n < 10 && Digit(m) == Digit(n)
    ensures m == n
  {}

  lemma {:induction false} DecimalInjective(m: nat, n: nat)
    requires Decimal(m) == Decimal(n)
    ensures m == n
  {
    var a, b := Decimal(m), Decimal(n);
    DecimalIsDigits(m / 10);
    DecimalIsDigits(n / 10);
    assert a[|a| - 1] == Digit(m % 10) && b[|b| - 1] == Digit(n % 10);
    DigitInjective(m % 10, n % 10);
    if m >= 10 && n >= 10 {
      assert a[..|a| - 1] == Decimal(m / 10) && b[..|b| - 1] == Decimal(n / 10);
      DecimalInjective(m / 10, n / 10);
    }
  }

  /** `" ".join(parts)`. */
  function Join(parts: seq<string>): string {
    if parts == [] then ""
    else if |parts| == 1 then parts[0]
    else parts[0] + " " + Join(parts[1..])
  }

  predicate SpaceFree(s: string) { s != [] && ' ' !in s }

  function FirstSpace(s: string): nat {
    if s == [] || s[0] == ' ' then 0 else 1 + FirstSpace(s[1..])
  }

  lemma {:induction false} FirstSpaceAfterWord(w: string, rest: string)
    requires ' ' !in w && (rest == [] || rest[0] == ' ')
    ensures FirstSpace(w + rest) == |w|
  {
    if w == [] {
      assert w + rest == rest;
    } else {
      assert (w + rest)[1..] == w[1..] + rest;
      FirstSpaceAfterWord(w[1..], rest);
    }
  }

  lemma {:induction false} FirstWord(a: seq<string>)
    requires a != [] && SpaceFree(a[0])
    ensures FirstSpace(Join(a)) == |a[0]| <= |Join(a)| && a[0] == Join(a)[..|a[0]|] && Join(a) != []
    ensures |Join(a)| == |a[0]| <==> |a| == 1
    ensures |a| > 1 ==> Join(a)[|a[0]| + 1..] == Join(a[1..])
  {
    var rest := if |a| == 1 then "" else " " + Join(a[1..]);
    assert Join(a) == a[0] + rest;
    FirstSpaceAfterWord(a[0], rest);
  }

  /** The first word of a joined list can be read back, so joining loses nothing. */
  lemma {:induction false} JoinInjective(a: seq<string>, b: seq<string>)
    requires forall i | 0 <= i < |a| :: SpaceFree(a[i])
    requires forall i | 0 <= i < |b| :: SpaceFree(b[i])
    requires Join(a) == Join(b)
    ensures a == b
  {
    if a != [] { FirstWord(a); }
    if b != [] { FirstWord(b); }
    if |a| > 1 {
      JoinInjective(a[1..], b[1..]);
      assert a == [a[0]] + a[1..] && b == [b[0]] + b[1..];
    }
  }

  /** Python compares strings by code point, position by position, a prefix first. */
  predicate Leq(a: string, b: string) {
    a == [] || (b != [] && (a[0] < b[0] || (a[0] == b[0] && Leq(a[1..], b[1..]))))
  }

  lemma {:induction false} LeqTotal(a: string, b: string)
    ensures Leq(a, b) || Leq(b, a)
    ensures Leq(a, b) && Leq(b, a) ==> a == b
  {
    if a != [] && b != [] {
      LeqTotal(a[1..], b[1..]);
      assert a == [a[0]] + a[1..] && b == [b[0]] + b[1..];
    }
  }

  lemma {:induction false} LeqTransitive(a: string, b: string, c: string)
    requires Leq(a, b) && Leq(b, c)
    ensures Leq(a, c)
  {
    if a != [] && a[0] == b[0] && b[0] == c[0] {
      LeqTransitive(a[1..], b[1..], c[1..]);
    }
  }

  ghost predicate FirstDifference(a: string, b: string, k: nat) {
    k < |a| && k < |b| && a[..k] == b[..k] && a[k] != b[k]
  }

  /** A string comes before another when it begins it, or has the smaller character where they first differ. */
  lemma {:induction false} LeqMeans(a: string, b: string)
    ensures Leq(a, b) <==> a <= b || exists k: nat :: FirstDifference(a, b, k) && a[k] < b[k]
  {
    if a != [] && b != [] {
      if a[0] != b[0] {
        assert a[..0] == b[..0];
        if Leq(a, b) { assert FirstDifference(a, b, 0); }
        if k: nat :| FirstDifference(a, b, k) && a[k] < b[k] {
          if k > 0 { assert a[..k][0] == b[..k][0]; }
        }
      } else {
        LeqMeans(a[1..], b[1..]);
        assert a[1..] <= b[1..] <==> a <= b by { assert a == [a[0]] + a[1..] && b == [b[0]] + b[1..]; }
        LaterDifference(a, b);
      }
    }
  }

  lemma {:induction false} LaterDifference(a: string, b: string)
    requires a != [] && b != [] && a[0] == b[0]
    ensures (exists k: nat :: FirstDifference(a, b, k) && a[k] < b[k])
       <==> exists k: nat :: FirstDifference(a[1..], b[1..], k) && a[1..][k] < b[1..][k]
  {
    if k: nat :| FirstDifference(a, b, k) && a[k] < b[k] {
      assert k > 0;
      assert a[1..][..k - 1] == a[..k][1..] && b[1..][..k - 1] == b[..k][1..];
      assert FirstDifference(a[1..], b[1..], k - 1);
    }
    if k: nat :| FirstDifference(a[1..], b[1..], k) && a[1..][k] < b[1..][k] {
      assert a[..k + 1] == [a[0]] + a[1..][..k] && b[..k + 1] == [b[0]] + b[1..][..k];
      assert FirstDifference(a, b, k + 1);
    }
  }
}
