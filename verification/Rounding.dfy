/** Python's `round` of a real number. */
module Rounding {

  /** `round`: to the nearest integer, ties to the even one. */
  function Round(x: real): int {
    var below := x.Floor;
    var rest := x - below as real;
    if rest < 0.5 then below
    else if rest > 0.5 then below + 1
    else if below % 2 == 0 then below else below + 1
  }

  lemma {:induction false} RoundIsNear(x: real)
    ensures -0.5 <= Round(x) as real - x <= 0.5
  {}

  lemma {:induction false} RoundIsMonotone(x: real, y: real)
    requires x <= y
    ensures Round(x) <= Round(y)
  {}

  lemma {:induction false} RoundOfInteger(n: int)
    ensures Round(n as real) == n
  {}

  /** The nearest integer, and of two the even one. */
  lemma {:induction false} RoundIff(x: real, r: int)
    ensures Round(x) == r <==> -0.5 < r as real - x < 0.5 || ((r as real - x == 0.5 || x - r as real == 0.5) && r % 2 == 0)
  {
    var below := x.Floor;
    assert below as real <= x < below as real + 1.0;
    if r < below { assert r as real <= below as real - 1.0; }
    if r > below + 1 { assert r as real >= below as real + 2.0; }
  }
}
