/** `str.isspace` and `str.strip` of Python. */
module PythonText {

  predicate IsPythonSpace(c: char) {
    || '\U{0009}' <= c <= '\U{000D}' || '\U{001C}' <= c <= '\U{0020}'
    || c == '\U{0085}' || c == '\U{00A0}' || c == '\U{1680}' || '\U{2000}' <= c <= '\U{200A}'
    || c == '\U{2028}' || c == '\U{2029}' || c == '\U{202F}' || c == '\U{205F}' || c == '\U{3000}'
  }

  predicate Blank(s: string) { forall i | 0 <= i < |s| :: IsPythonSpace(s[i]) }

  function LeftTrim(s: string): string {
    if s != [] && IsPythonSpace(s[0]) then LeftTrim(s[1..]) else s
  }

  function RightTrim(s: string): string {
    if s != [] && IsPythonSpace(s[|s| - 1]) then RightTrim(s[..|s| - 1]) else s
  }

  function Trim(s: string): string { RightTrim(LeftTrim(s)) }

  lemma {:induction false} LeftTrimFacts(s: string) returns (a: nat)
    ensures a <= |s| && LeftTrim(s) == s[a..] && (a < |s| ==> !IsPythonSpace(s[a])) && forall i | 0 <= i < a :: IsPythonSpace(s[i])
  {
    if s != [] && IsPythonSpace(s[0]) {
      a := LeftTrimFacts(s[1..]);
      a := a + 1;
    } else {
      a := 0;
    }
  }

  lemma {:induction false} RightTrimFacts(s: string) returns (b: nat)
    ensures b <= |s| && RightTrim(s) == s[..b] && (b > 0 ==> !IsPythonSpace(s[b - 1])) && forall i | b <= i < |s| :: IsPythonSpace(s[i])
  {
    if s != [] && IsPythonSpace(s[|s| - 1]) {
      b := RightTrimFacts(s[..|s| - 1]);
    } else {
      b := |s|;
    }
  }

  /** Both ends of `s` outside the stretch from `a` to `b` are whitespace, and the stretch has none at its ends. */
  ghost predicate TrimsTo(s: string, a: nat, b: nat) {
    && a <= b <= |s|
    && (forall i | 0 <= i < |s| && !(a <= i < b) :: IsPythonSpace(s[i]))
    && (a < b ==> !IsPythonSpace(s[a]) && !IsPythonSpace(s[b - 1]))
  }

  lemma {:induction false} BlankIff(s: string, a: nat, b: nat)
    requires TrimsTo(s, a, b)
    ensures Blank(s) <==> a == b
  {}

  lemma {:induction false} TrimmedStretch(s: string) returns (a: nat, b: nat)
    ensures TrimsTo(s, a, b) && Trim(s) == s[a..b]
  {
    a := LeftTrimFacts(s);
    var t := s[a..];
    var e := RightTrimFacts(t);
    b := a + e;
    forall i | b <= i < |s| ensures IsPythonSpace(s[i]) {
      assert s[i] == t[i - a];
    }
    if e > 0 { assert t[e - 1] == s[b - 1] && t[0] == s[a]; }
    assert t[..e] == s[a..b];
  }

  /** What is trimmed is whitespace at the ends and nothing else; blank text trims to nothing. */
  lemma {:induction false} TrimFacts(s: string) returns (a: nat, b: nat)
    ensures TrimsTo(s, a, b) && Trim(s) == s[a..b]
    ensures Trim(s) == "" <==> Blank(s)
  {
    a, b := TrimmedStretch(s);
    BlankIff(s, a, b);
  }
}
