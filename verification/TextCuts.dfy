/** Names never reach across the characters a placeholder is marked with: a text cut at one of them
    is searched piece by piece. */
module TextCuts {
  import opened ScrubTypes
  import opened Text
  import opened WindowSearch
  import opened NameMatching
  import opened Scrubbing
  import opened ScrubTwice

  predicate IsCut(c: char) { c == '<' || c == '>' || c == '_' }

  function Shifted(spans: seq<Span>, offset: nat): seq<Span> {
    seq(|spans|, i requires 0 <= i < |spans| => Span(spans[i].start + offset, spans[i].end + offset))
  }

  ghost predicate SameHonors(e: Engine, u: string, v: string, text: string) {
    && (forall i: nat | i <= |u| :: e.honorific(text, i) == e.honorific(u, i))
    && (forall i: nat {:trigger e.honorific(v, i)} | i <= |v| :: e.honorific(text, |u| + 1 + i) == e.honorific(v, i))
  }

  /** The character of `text` between `u` and `v` belongs to no token, and honorifics are not looked
      for across it. */
  ghost predicate CutsAt(e: Engine, u: string, v: string, text: string) {
    e.tokens(text) == e.tokens(u) + Shifted(e.tokens(v), |u| + 1) && SameHonors(e, u, v, text)
  }

  /** What the patterns of the source give: letters and marks make tokens, whitespace, apostrophes
      and hyphens join them, and an honorific is letters, dots and whitespace. */
  ghost predicate CutsEverywhere(e: Engine) {
    && (forall u, c, v {:trigger u + [c] + v} | IsCut(c) :: CutsAt(e, u, v, u + [c] + v))
    && (forall s, i | e.separator(s) && 0 <= i < |s| :: !IsCut(s[i]))
    && (forall n: nat :: e.tokens(Decimal(n)) == [])
  }

  // ---- a reading of two pieces ----

  ghost predicate SameToken(x: Token, y: Token) { x.stripped == y.stripped && x.transliterated == y.transliterated }

  ghost predicate SameTokensFrom(whole: seq<Token>, part: seq<Token>, at: nat) {
    at + |part| <= |whole| && forall i {:trigger part[i]} | 0 <= i < |part| :: SameToken(whole[at + i], part[i])
  }

  ghost predicate SameFlagsFrom(whole: seq<bool>, part: seq<bool>, at: nat) {
    part == [] || (at + |part| <= |whole| && forall i {:trigger part[i]} | 0 <= i < |part| :: whole[at + i] == part[i])
  }

  /** `ab` reads as `a` and then `b`, with nothing joined between them. */
  ghost predicate Beside(ab: Reading, a: Reading, b: Reading) {
    && ab.WellFormed() && a.WellFormed() && b.WellFormed()
    && ab.lists == a.lists == b.lists && |ab.tokens| == |a.tokens| + |b.tokens|
    && SameTokensFrom(ab.tokens, a.tokens, 0) && SameTokensFrom(ab.tokens, b.tokens, |a.tokens|)
    && SameFlagsFrom(ab.honored, a.honored, 0) && SameFlagsFrom(ab.honored, b.honored, |a.tokens|)
    && SameFlagsFrom(ab.joined, a.joined, 0) && SameFlagsFrom(ab.joined, b.joined, |a.tokens|)
    && (a.tokens != [] && b.tokens != [] ==> !ab.joined[|a.tokens| - 1])
  }

  lemma {:induction false} LeftForms(ab: Reading, a: Reading, b: Reading, i: nat, n: nat)
    requires Beside(ab, a, b) && i + n <= |a.tokens|
    ensures ab.Stripped(i, n) == a.Stripped(i, n) && ab.Transliterated(i, n) == a.Transliterated(i, n)
  {
    forall k | i <= k < i + n ensures SameToken(ab.tokens[k], a.tokens[k]) { var _ := a.tokens[k]; }
    assert seq(n, k requires 0 <= k < n => ab.tokens[i + k].stripped) == seq(n, k requires 0 <= k < n => a.tokens[i + k].stripped);
    assert seq(n, k requires 0 <= k < n => ab.tokens[i + k].transliterated) == seq(n, k requires 0 <= k < n => a.tokens[i + k].transliterated);
  }

  lemma {:induction false} RightForms(ab: Reading, a: Reading, b: Reading, i: nat, n: nat)
    requires Beside(ab, a, b) && i + n <= |b.tokens|
    ensures ab.Stripped(|a.tokens| + i, n) == b.Stripped(i, n) && ab.Transliterated(|a.tokens| + i, n) == b.Transliterated(i, n)
  {
    var m := |a.tokens|;
    forall k | i <= k < i + n ensures SameToken(ab.tokens[m + k], b.tokens[k]) { var _ := b.tokens[k]; }
    assert seq(n, k requires 0 <= k < n => ab.tokens[m + i + k].stripped) == seq(n, k requires 0 <= k < n => b.tokens[i + k].stripped);
    assert seq(n, k requires 0 <= k < n => ab.tokens[m + i + k].transliterated) == seq(n, k requires 0 <= k < n => b.tokens[i + k].transliterated);
  }

  lemma {:induction false} LeftListed(ab: Reading, a: Reading, b: Reading, i: nat, n: nat)
    requires Beside(ab, a, b) && 1 <= n && i + n <= |a.tokens|
    ensures ab.Listed(i, n) <==> a.Listed(i, n)
  {
    LeftForms(ab, a, b, i, n);
    assert ab.honored[i] == a.honored[i];
    forall k | i <= k < i + n - 1 ensures ab.joined[k] == a.joined[k] {}
  }

  lemma {:induction false} RightListed(ab: Reading, a: Reading, b: Reading, i: nat, n: nat)
    requires Beside(ab, a, b) && 1 <= n && i + n <= |b.tokens|
    ensures ab.Listed(|a.tokens| + i, n) <==> b.Listed(i, n)
  {
    var m := |a.tokens|;
    RightForms(ab, a, b, i, n);
    assert ab.honored[m + i] == b.honored[i];
    forall k | i <= k < i + n - 1 ensures ab.joined[m + k] == b.joined[k] {}
    if b.Listed(i, n) {
      forall k | m + i <= k < m + i + n - 1 ensures ab.joined[k] {
        assert ab.joined[m + (k - m)] == b.joined[k - m];
      }
    }
  }

  /** A listed window of the whole lies in one piece. */
  lemma {:induction false} NoneAcross(ab: Reading, a: Reading, b: Reading, i: nat, n: nat)
    requires Beside(ab, a, b) && ab.Listed(i, n)
    ensures i + n <= |a.tokens| || |a.tokens| <= i
  {}

  lemma {:induction false} QualifiesInPiece(ab: Reading, a: Reading, b: Reading, i: nat, n: nat)
    requires Beside(ab, a, b) && ab.Search().Qualifies(i, n)
    ensures a.Search().Qualifies(i, n) || (|a.tokens| <= i && b.Search().Qualifies(i - |a.tokens|, n))
  {
    NoneAcross(ab, a, b, i, n);
    if i + n <= |a.tokens| {
      LeftListed(ab, a, b, i, n);
    } else {
      RightListed(ab, a, b, i - |a.tokens|, n);
    }
  }

  lemma {:induction false} QualifiesLeft(ab: Reading, a: Reading, b: Reading, i: nat, n: nat)
    requires Beside(ab, a, b) && a.Search().Qualifies(i, n)
    ensures ab.Search().Qualifies(i, n)
  {
    LeftListed(ab, a, b, i, n);
  }

  lemma {:induction false} QualifiesRight(ab: Reading, a: Reading, b: Reading, i: nat, n: nat)
    requires Beside(ab, a, b) && b.Search().Qualifies(i, n)
    ensures ab.Search().Qualifies(|a.tokens| + i, n)
  {
    RightListed(ab, a, b, i, n);
  }

  /** Nobody is named in the whole exactly when nobody is named in either piece. */
  lemma {:induction false} NobodyBesideIff(ab: Reading, a: Reading, b: Reading)
    requires Beside(ab, a, b)
    ensures NobodyIsNamed(ab.Search()) <==> NobodyIsNamed(a.Search()) && NobodyIsNamed(b.Search())
  {
    if !NobodyIsNamed(ab.Search()) {
      var i, n :| ab.Search().Qualifies(i, n);
      QualifiesInPiece(ab, a, b, i, n);
    }
    if !NobodyIsNamed(a.Search()) {
      var i, n :| a.Search().Qualifies(i, n);
      QualifiesLeft(ab, a, b, i, n);
    }
    if !NobodyIsNamed(b.Search()) {
      var i, n :| b.Search().Qualifies(i, n);
      QualifiesRight(ab, a, b, i, n);
    }
  }

  // ---- a text cut at one character ----

  /** `text` is `u`, one more character, and `v`. */
  ghost predicate Cut(text: string, u: string, v: string) {
    && |text| == |u| + 1 + |v|
    && (forall k {:trigger u[k]} | 0 <= k < |u| :: text[k] == u[k])
    && (forall k {:trigger v[k]} | 0 <= k < |v| :: text[|u| + 1 + k] == v[k])
  }

  lemma {:induction false} CutOf(u: string, c: char, v: string)
    ensures Cut(u + [c] + v, u, v) && (u + [c] + v)[|u|] == c
  {}

  lemma {:induction false} LeftSlice(text: string, u: string, v: string, a: nat, b: nat)
    requires Cut(text, u, v) && a <= b <= |u|
    ensures text[a..b] == u[a..b]
  {}

  lemma {:induction false} RightSlice(text: string, u: string, v: string, a: nat, b: nat)
    requires Cut(text, u, v) && a <= b <= |v|
    ensures text[|u| + 1 + a..|u| + 1 + b] == v[a..b]
  {
    var x, y := text[|u| + 1 + a..|u| + 1 + b], v[a..b];
    forall k | 0 <= k < |x| ensures x[k] == y[k] {
      assert text[|u| + 1 + (a + k)] == v[a + k];
    }
  }

  /** The spans of the whole: those of `u`, and behind the cut those of `v`. */
  ghost predicate CutSpans(all: seq<Span>, p: seq<Span>, q: seq<Span>, offset: nat) {
    && |all| == |p| + |q|
    && (forall i {:trigger p[i]} | 0 <= i < |p| :: all[i] == p[i])
    && (forall i {:trigger q[i]} | 0 <= i < |q| :: all[|p| + i] == Span(q[i].start + offset, q[i].end + offset))
  }

  lemma {:induction false} RightSpan(all: seq<Span>, p: seq<Span>, q: seq<Span>, offset: nat, i: nat)
    requires CutSpans(all, p, q, offset) && i < |q|
    ensures |p| + i < |all| && all[|p| + i] == Span(q[i].start + offset, q[i].end + offset)
  {}

  /** What lies between span `i` and the next, or span `i` itself, is the same in `v` and behind the cut. */
  lemma {:induction false} RightBetween(text: string, u: string, v: string, all: seq<Span>, p: seq<Span>, q: seq<Span>, i: nat)
    requires Cut(text, u, v) && CutSpans(all, p, q, |u| + 1) && i + 1 < |q| && q[i].end <= q[i + 1].start <= |v|
    ensures |p| + i + 1 < |all| && all[|p| + i].end <= all[|p| + i + 1].start <= |text|
    ensures text[all[|p| + i].end..all[|p| + i + 1].start] == v[q[i].end..q[i + 1].start]
  {
    RightSpan(all, p, q, |u| + 1, i);
    RightSpan(all, p, q, |u| + 1, i + 1);
    RightSlice(text, u, v, q[i].end, q[i + 1].start);
  }

  lemma {:induction false} SameWord(e: Engine, text: string, i: nat, part: string, k: nat)
    requires Ordered(e.tokens(text), |text|) && i < |e.tokens(text)| && Ordered(e.tokens(part), |part|) && k < |e.tokens(part)|
    requires text[e.tokens(text)[i].start..e.tokens(text)[i].end] == part[e.tokens(part)[k].start..e.tokens(part)[k].end]
    ensures SameToken(TokensIn(e, text)[i], TokensIn(e, part)[k]) && TokensIn(e, text)[i].start == e.tokens(text)[i].start
  {}

  lemma {:induction false} JoinedCount(e: Engine, text: string)
    requires Ordered(e.tokens(text), |text|)
    ensures |JoinedIn(e, text)| == if e.tokens(text) == [] then 0 else |e.tokens(text)| - 1
  {}

  lemma {:induction false} JoinedAt(e: Engine, text: string, i: nat)
    requires Ordered(e.tokens(text), |text|) && i + 1 < |e.tokens(text)| && i < |JoinedIn(e, text)|
    ensures JoinedIn(e, text)[i] == e.separator(text[e.tokens(text)[i].end..e.tokens(text)[i + 1].start])
  {}

  lemma {:induction false} JoinedIs(e: Engine, text: string, i: nat, between: string)
    requires Ordered(e.tokens(text), |text|) && i + 1 < |e.tokens(text)|
    requires between == text[e.tokens(text)[i].end..e.tokens(text)[i + 1].start]
    ensures i < |JoinedIn(e, text)| && JoinedIn(e, text)[i] == e.separator(between)
  {
    JoinedCount(e, text);
    JoinedAt(e, text, i);
  }

  lemma {:induction false} SameJoin(e: Engine, text: string, i: nat, part: string, k: nat)
    requires Ordered(e.tokens(text), |text|) && i + 1 < |e.tokens(text)| && Ordered(e.tokens(part), |part|) && k + 1 < |e.tokens(part)|
    requires text[e.tokens(text)[i].end..e.tokens(text)[i + 1].start] == part[e.tokens(part)[k].end..e.tokens(part)[k + 1].start]
    ensures JoinedIn(e, text)[i] == JoinedIn(e, part)[k]
  {
    var between := text[e.tokens(text)[i].end..e.tokens(text)[i + 1].start];
    JoinedIs(e, text, i, between);
    JoinedIs(e, part, k, between);
  }

  ghost predicate Pieces(e: Engine, u: string, v: string, text: string) {
    && Cut(text, u, v) && SameHonors(e, u, v, text)
    && Ordered(e.tokens(text), |text|) && Ordered(e.tokens(u), |u|) && Ordered(e.tokens(v), |v|)
    && CutSpans(e.tokens(text), e.tokens(u), e.tokens(v), |u| + 1)
  }

  lemma {:induction false} ShiftedCuts(all: seq<Span>, p: seq<Span>, q: seq<Span>, offset: nat)
    requires all == p + Shifted(q, offset)
    ensures CutSpans(all, p, q, offset)
  {
    forall i | 0 <= i < |q| ensures all[|p| + i] == Span(q[i].start + offset, q[i].end + offset) {
      assert all[|p| + i] == Shifted(q, offset)[i];
    }
  }

  lemma {:induction false} PiecesOf(e: Engine, u: string, v: string, text: string)
    requires Cut(text, u, v) && CutsAt(e, u, v, text)
    requires Ordered(e.tokens(text), |text|) && Ordered(e.tokens(u), |u|) && Ordered(e.tokens(v), |v|)
    ensures Pieces(e, u, v, text)
  {
    ShiftedCuts(e.tokens(text), e.tokens(u), e.tokens(v), |u| + 1);
  }

  lemma {:induction false} LeftTokens(e: Engine, u: string, v: string, text: string)
    requires Pieces(e, u, v, text)
    ensures SameTokensFrom(TokensIn(e, text), TokensIn(e, u), 0)
    ensures forall i | 0 <= i < |e.tokens(u)| :: TokensIn(e, text)[i].start == TokensIn(e, u)[i].start
  {
    forall i: nat | i < |e.tokens(u)|
      ensures SameToken(TokensIn(e, text)[i], TokensIn(e, u)[i]) && TokensIn(e, text)[i].start == TokensIn(e, u)[i].start
    {
      assert e.tokens(text)[i] == e.tokens(u)[i];
      LeftSlice(text, u, v, e.tokens(u)[i].start, e.tokens(u)[i].end);
      SameWord(e, text, i, u, i);
    }
  }

  lemma {:induction false} RightToken(e: Engine, u: string, v: string, text: string, i: nat)
    requires Pieces(e, u, v, text) && i < |e.tokens(v)|
    ensures SameToken(TokensIn(e, text)[|e.tokens(u)| + i], TokensIn(e, v)[i])
    ensures TokensIn(e, text)[|e.tokens(u)| + i].start == |u| + 1 + TokensIn(e, v)[i].start
  {
    RightSpan(e.tokens(text), e.tokens(u), e.tokens(v), |u| + 1, i);
    RightSlice(text, u, v, e.tokens(v)[i].start, e.tokens(v)[i].end);
    SameWord(e, text, |e.tokens(u)| + i, v, i);
  }

  lemma {:induction false} RightTokens(e: Engine, u: string, v: string, text: string)
    requires Pieces(e, u, v, text)
    ensures SameTokensFrom(TokensIn(e, text), TokensIn(e, v), |e.tokens(u)|)
  {
    var b := TokensIn(e, v);
    forall i | 0 <= i < |b| ensures SameToken(TokensIn(e, text)[|e.tokens(u)| + i], b[i]) {
      RightToken(e, u, v, text, i);
    }
  }

  lemma {:induction false} LeftJoins(e: Engine, u: string, v: string, text: string)
    requires Pieces(e, u, v, text)
    ensures SameFlagsFrom(JoinedIn(e, text), JoinedIn(e, u), 0)
  {
    forall i: nat | i + 1 < |e.tokens(u)| ensures JoinedIn(e, text)[i] == JoinedIn(e, u)[i] {
      assert e.tokens(text)[i] == e.tokens(u)[i] && e.tokens(text)[i + 1] == e.tokens(u)[i + 1];
      LeftSlice(text, u, v, e.tokens(u)[i].end, e.tokens(u)[i + 1].start);
      SameJoin(e, text, i, u, i);
    }
  }

  lemma {:induction false} RightJoin(e: Engine, u: string, v: string, text: string, i: nat)
    requires Pieces(e, u, v, text) && i + 1 < |e.tokens(v)|
    ensures |e.tokens(u)| + i < |JoinedIn(e, text)| && JoinedIn(e, text)[|e.tokens(u)| + i] == JoinedIn(e, v)[i]
  {
    RightBetween(text, u, v, e.tokens(text), e.tokens(u), e.tokens(v), i);
    SameJoin(e, text, |e.tokens(u)| + i, v, i);
  }

  lemma {:induction false} RightJoins(e: Engine, u: string, v: string, text: string)
    requires Pieces(e, u, v, text)
    ensures SameFlagsFrom(JoinedIn(e, text), JoinedIn(e, v), |e.tokens(u)|)
  {
    var j, q, m := JoinedIn(e, text), JoinedIn(e, v), |e.tokens(u)|;
    forall i: nat {:trigger q[i]} | i < |q| ensures m + i < |j| && j[m + i] == q[i] {
      RightJoin(e, u, v, text, i);
    }
    FlagsFrom(j, q, m);
  }

  lemma {:induction false} CutIsBetween(text: string, at: nat, a: nat, b: nat)
    requires a <= at < b <= |text| && IsCut(text[at])
    ensures exists k :: 0 <= k < |text[a..b]| && IsCut(text[a..b][k])
  {
    assert text[a..b][at - a] == text[at];
  }

  lemma {:induction false} NoJoinAcross(e: Engine, u: string, v: string, text: string)
    requires Pieces(e, u, v, text) && e.tokens(u) != [] && e.tokens(v) != []
    requires IsCut(text[|u|]) && forall s, k | e.separator(s) && 0 <= k < |s| :: !IsCut(s[k])
    ensures |e.tokens(u)| - 1 < |JoinedIn(e, text)| && !JoinedIn(e, text)[|e.tokens(u)| - 1]
  {
    var m, all := |e.tokens(u)|, e.tokens(text);
    assert all[m - 1] == e.tokens(u)[m - 1];
    RightSpan(all, e.tokens(u), e.tokens(v), |u| + 1, 0);
    JoinedIs(e, text, m - 1, text[all[m - 1].end..all[m].start]);
    CutIsBetween(text, |u|, all[m - 1].end, all[m].start);
  }

  // ---- the reading of a cut text ----

  function HonorsIn(e: Engine, text: string): seq<bool>
    requires Ordered(e.tokens(text), |text|)
  {
    var tokens := TokensIn(e, text);
    seq(|tokens|, i requires 0 <= i < |tokens| => e.honorific(text, tokens[i].start))
  }

  function PartsOf(e: Engine, lists: Lists, text: string): Reading
    requires Ordered(e.tokens(text), |text|)
  {
    Reading(lists, TokensIn(e, text), JoinedIn(e, text), HonorsIn(e, text))
  }

  lemma {:induction false} ReadingParts(e: Engine, rules: ScrubRules, text: string)
    requires Sound(e)
    ensures Ordered(e.tokens(text), |text|) && ReadingOf(e, rules, text) == PartsOf(e, ListsOf(e, rules), text)
  {}

  lemma {:induction false} LeftHonors(e: Engine, u: string, v: string, text: string)
    requires Pieces(e, u, v, text)
    ensures SameFlagsFrom(HonorsIn(e, text), HonorsIn(e, u), 0)
  {
    LeftTokens(e, u, v, text);
    forall i: nat | i < |e.tokens(u)| ensures HonorsIn(e, text)[i] == HonorsIn(e, u)[i] {
      assert TokensIn(e, u)[i].start == e.tokens(u)[i].start <= |u|;
    }
  }

  lemma {:induction false} HonorIs(e: Engine, text: string, i: nat)
    requires Ordered(e.tokens(text), |text|) && i < |e.tokens(text)|
    ensures i < |HonorsIn(e, text)| && HonorsIn(e, text)[i] == e.honorific(text, e.tokens(text)[i].start)
  {}

  lemma {:induction false} RightHonor(e: Engine, u: string, v: string, text: string, i: nat)
    requires Pieces(e, u, v, text) && i < |e.tokens(v)|
    ensures |e.tokens(u)| + i < |HonorsIn(e, text)| && HonorsIn(e, text)[|e.tokens(u)| + i] == HonorsIn(e, v)[i]
  {
    RightSpan(e.tokens(text), e.tokens(u), e.tokens(v), |u| + 1, i);
    HonorIs(e, text, |e.tokens(u)| + i);
    HonorIs(e, v, i);
  }

  lemma {:induction false} FlagsFrom(whole: seq<bool>, part: seq<bool>, at: nat)
    requires forall i: nat {:trigger part[i]} | i < |part| :: at + i < |whole| && whole[at + i] == part[i]
    ensures SameFlagsFrom(whole, part, at)
  {
    if part != [] { var _ := part[|part| - 1]; }
  }

  lemma {:induction false} RightHonors(e: Engine, u: string, v: string, text: string)
    requires Pieces(e, u, v, text)
    ensures SameFlagsFrom(HonorsIn(e, text), HonorsIn(e, v), |e.tokens(u)|)
  {
    var h, g, m := HonorsIn(e, text), HonorsIn(e, v), |e.tokens(u)|;
    forall i: nat {:trigger g[i]} | i < |g| ensures m + i < |h| && h[m + i] == g[i] {
      RightHonor(e, u, v, text, i);
    }
    FlagsFrom(h, g, m);
  }

  lemma {:induction false} PiecesBeside(e: Engine, lists: Lists, u: string, v: string, text: string)
    requires Pieces(e, u, v, text)
    requires IsCut(text[|u|]) && forall s, k | e.separator(s) && 0 <= k < |s| :: !IsCut(s[k])
    ensures Beside(PartsOf(e, lists, text), PartsOf(e, lists, u), PartsOf(e, lists, v))
  {
    LeftTokens(e, u, v, text);
    RightTokens(e, u, v, text);
    LeftJoins(e, u, v, text);
    RightJoins(e, u, v, text);
    LeftHonors(e, u, v, text);
    RightHonors(e, u, v, text);
    if e.tokens(u) != [] && e.tokens(v) != [] { NoJoinAcross(e, u, v, text); }
  }

  lemma {:induction false} CutReading(e: Engine, rules: ScrubRules, u: string, c: char, v: string, text: string)
    requires Sound(e) && CutsEverywhere(e) && IsCut(c) && text == u + [c] + v
    ensures Beside(ReadingOf(e, rules, text), ReadingOf(e, rules, u), ReadingOf(e, rules, v))
  {
    CutOf(u, c, v);
    ReadingParts(e, rules, text);
    ReadingParts(e, rules, u);
    ReadingParts(e, rules, v);
    PiecesOf(e, u, v, text);
    PiecesBeside(e, ListsOf(e, rules), u, v, text);
  }

  /** Nobody is named in a text. */
  ghost predicate Nameless(e: Engine, rules: ScrubRules, text: string)
    requires Sound(e)
  {
    NobodyIsNamed(ReadingOf(e, rules, text).Search())
  }

  /** Nobody is named in a text exactly when nobody is named on either side of a cut. */
  lemma {:induction false} NamelessCutIff(e: Engine, rules: ScrubRules, u: string, c: char, v: string)
    requires Sound(e) && CutsEverywhere(e) && IsCut(c)
    ensures Nameless(e, rules, u + [c] + v) <==> Nameless(e, rules, u) && Nameless(e, rules, v)
  {
    CutReading(e, rules, u, c, v, u + [c] + v);
    NobodyBesideIff(ReadingOf(e, rules, u + [c] + v), ReadingOf(e, rules, u), ReadingOf(e, rules, v));
  }
}
