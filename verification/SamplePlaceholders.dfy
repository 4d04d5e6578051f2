/** Rules that match in placeholders, on concrete texts; and the sample engine cuts where the
    placeholders are marked. */
module SamplePlaceholders {
  import opened Wrappers
  import opened ScrubTypes
  import opened Text
  import opened NameIndexes
  import opened NameMatching
  import opened RegexClaims
  import opened Numbering
  import opened Replacement
  import opened Scrubbing
  import opened ScrubTheorems
  import opened ScrubTwice
  import opened TextCuts
  import opened UnchangedText
  import opened Sorting
  import opened SampleEngine
  import opened SampleTexts
  import S = Splicing

  // ---- the sample engine cuts at marks ----

  lemma {:induction false} RunEndCut(text: string, u: string, v: string, i: nat)
    requires Cut(text, u, v) && !IsLetter(text[|u|]) && i <= |u|
    ensures RunEnd(text, i) == RunEnd(u, i)
    decreases |u| - i
  {
    if i < |u| && IsLetter(u[i]) { RunEndCut(text, u, v, i + 1); }
  }

  lemma {:induction false} RunEndBehind(text: string, u: string, v: string, i: nat)
    requires Cut(text, u, v) && i <= |v|
    ensures RunEnd(text, |u| + 1 + i) == |u| + 1 + RunEnd(v, i)
    decreases |v| - i
  {
    if i < |v| {
      assert text[|u| + 1 + i] == v[i];
      if IsLetter(v[i]) { RunEndBehind(text, u, v, i + 1); }
    }
  }

  lemma {:induction false} ShiftedCons(first: Span, rest: seq<Span>, offset: nat)
    ensures Shifted([first] + rest, offset) == [Span(first.start + offset, first.end + offset)] + Shifted(rest, offset)
  {}

  lemma {:induction false} RunsStep(text: string, i: nat)
    requires i < |text|
    ensures IsLetter(text[i]) ==> Runs(text, i) == [Span(i, RunEnd(text, i + 1))] + Runs(text, RunEnd(text, i + 1))
    ensures !IsLetter(text[i]) ==> Runs(text, i) == Runs(text, i + 1)
  {}

  lemma {:induction false} RunsBehind(text: string, u: string, v: string, i: nat)
    requires Cut(text, u, v) && i <= |v|
    ensures Runs(text, |u| + 1 + i) == Shifted(Runs(v, i), |u| + 1)
    decreases |v| - i
  {
    if i < |v| {
      assert text[|u| + 1 + i] == v[i];
      RunsStep(text, |u| + 1 + i);
      RunsStep(v, i);
      if IsLetter(v[i]) {
        var end := RunEnd(v, i + 1);
        RunEndBehind(text, u, v, i + 1);
        RunsBehind(text, u, v, end);
        ShiftedCons(Span(i, end), Runs(v, end), |u| + 1);
      } else {
        RunsBehind(text, u, v, i + 1);
      }
    }
  }

  lemma {:induction false} RunsCut(text: string, u: string, v: string, i: nat)
    requires Cut(text, u, v) && !IsLetter(text[|u|]) && i <= |u|
    ensures Runs(text, i) == Runs(u, i) + Shifted(Runs(v, 0), |u| + 1)
    decreases |u| - i
  {
    if i == |u| {
      RunsBehind(text, u, v, 0);
    } else if IsLetter(u[i]) {
      RunsStep(text, i);
      RunsStep(u, i);
      RunEndCut(text, u, v, i + 1);
      RunsCut(text, u, v, RunEnd(u, i + 1));
    } else {
      RunsCut(text, u, v, i + 1);
    }
  }

  lemma {:induction false} NoLettersNoRuns(s: string, i: nat)
    requires i <= |s| && forall k | 0 <= k < |s| :: !IsLetter(s[k])
    ensures Runs(s, i) == []
    decreases |s| - i
  {
    if i < |s| { NoLettersNoRuns(s, i + 1); }
  }

  lemma {:induction false} SampleCutsEverywhere()
    ensures CutsEverywhere(SAMPLE)
  {
    forall u, c, v {:trigger u + [c] + v} | IsCut(c) ensures CutsAt(SAMPLE, u, v, u + [c] + v) {
      CutOf(u, c, v);
      RunsCut(u + [c] + v, u, v, 0);
    }
    forall n: nat ensures SAMPLE.tokens(Decimal(n)) == [] {
      DecimalIsDigits(n);
      NoLettersNoRuns(Decimal(n), 0);
    }
  }

  // ---- rules alone ----

  lemma {:induction false} NoListsNoNames(e: Engine, rules: ScrubRules, text: string)
    requires Sound(e) && rules.firstnames == [] && rules.lastnames == []
    ensures NamesIn(ReadingOf(e, rules, text)) == []
  {
    var r := ReadingOf(e, rules, text);
    assert Normalised(e, []) == [];
    assert r.lists.MaxTokens() == 0;
    NothingToSearch(r.Search(), 0);
    NamesCount(r);
  }

  lemma {:induction false} ClaimsOnly(e: Engine, rules: ScrubRules, text: string, claims: seq<Candidate>)
    requires Sound(e) && text != "" && rules.firstnames == [] && rules.lastnames == []
    requires Collected(e, rules.regexRules, text).Success? && Resolved(Collected(e, rules.regexRules, text).value) == claims
    ensures Disjoint(claims, |text|) && Scrubbed(e, rules, text) == Success(Replaced(text, claims))
  {
    NoListsNoNames(e, rules, text);
    ChosenFits(e, rules, text);
    SortedStays(claims, |text|);
    assert claims + [] == claims;
  }

  // ---- a rule that matches its own placeholder ----

  const OWN := "<Firm_1>"
  const OWN_RULES: ScrubRules := ScrubRules([RegexRule("own", "Firm", OWN, Imported)], [], [], [])
  const OWN_CLAIM: Candidate := Candidate(0, 8, "Firm", "own", Cleaned(OWN), None)

  lemma {:induction false} OwnFound()
    ensures |OWN| == 8 && OWN[0..8] == OWN && Literals(OWN, OWN, 0) == [Span(0, 8)]
  {
    assert Literals(OWN, OWN, 8) == [];
  }

  lemma {:induction false} OneRuleOneMatch(e: Engine, rule: RegexRule, text: string, span: Span)
    requires Sound(e) && e.find(rule.pattern, text) == Some([span]) && span.start < span.end <= |text|
    ensures Collected(e, [rule], text) == Success([Found(0, CandidateOf(e, rule, text, span))])
  {
    assert [rule][..0] == [] && [span][..0] == [];
    assert OfRule(e, rule, 0, text, []) == [];
    assert Collected(e, [], text) == Success([]);
    assert OfRule(e, rule, 0, text, [span]) == [Found(0, CandidateOf(e, rule, text, span))];
  }

  lemma {:induction false} OneClaim(c: Candidate)
    ensures Resolved([Found(0, c)]) == [c]
  {
    var found := [Found(0, c)];
    assert Sort(Before, found) == found;
    assert Kept(found, 0) && KeptUpTo(found, 0) == [];
  }

  /** A second scrub can have hits and still give back its text: the hit reads as its placeholder. */
  lemma {:induction false} OwnPlaceholderStays()
    ensures Sound(SAMPLE) && Scrubbed(SAMPLE, OWN_RULES, OWN).Success?
    ensures var r := Scrubbed(SAMPLE, OWN_RULES, OWN).value; r.text == OWN && |r.hits| == 1
    ensures !LeftAlone(SAMPLE, OWN_RULES, OWN) && !NoRuleMatches(SAMPLE, OWN_RULES.regexRules, OWN)
  {
    SampleIsSound();
    OwnFound();
    OneRuleOneMatch(SAMPLE, OWN_RULES.regexRules[0], OWN, Span(0, 8));
    assert OWN_RULES.regexRules == [OWN_RULES.regexRules[0]];
    OneClaim(OWN_CLAIM);
    ClaimsOnly(SAMPLE, OWN_RULES, OWN, [OWN_CLAIM]);
    OwnReplaced();
    assert !AllEmpty([Span(0, 8)]);
  }

  lemma {:induction false} OwnSpelled()
    ensures Placeholder("Firm", 1) == OWN && |OWN| == 8
  {
    assert Decimal(1) == "1";
  }

  lemma {:induction false} WholeTextIsPlaceholder(text: string, c: Candidate)
    requires c.start == 0 && c.end == |text| && text == Placeholder(c.tag, 1)
    ensures Disjoint([c], |text|) && Replaced(text, [c]).text == text && |Replaced(text, [c]).hits| == 1
  {
    OneReplaced(text, c);
    assert text[..0] == "" && text[|text|..] == "";
  }

  lemma {:induction false} OwnReplaced()
    ensures Disjoint([OWN_CLAIM], |OWN|) && Replaced(OWN, [OWN_CLAIM]).text == OWN && |Replaced(OWN, [OWN_CLAIM]).hits| == 1
  {
    OwnSpelled();
    WholeTextIsPlaceholder(OWN, OWN_CLAIM);
  }

  // ---- a text that comes back by coincidence ----

  const SHIFTED_TEXT := "<Ab_1><<Ab_2>"
  const SHIFTED_RULES: ScrubRules :=
    ScrubRules([RegexRule("long", "Ab", "<Ab_1><", Imported), RegexRule("short", "Ab", "Ab_2>", Imported)], [], [], [])
  const LONG_CLAIM: Candidate := Candidate(0, 7, "Ab", "long", Cleaned("<Ab_1><"), None)
  const SHORT_CLAIM: Candidate := Candidate(8, 13, "Ab", "short", Cleaned("Ab_2>"), None)

  lemma {:induction false} ShiftedSlices()
    ensures |SHIFTED_TEXT| == 13 && SHIFTED_TEXT[0..7] == "<Ab_1><" && SHIFTED_TEXT[8..13] == "Ab_2>" && SHIFTED_TEXT[7..8] == "<"
  {}

  lemma {:induction false} LongFound()
    ensures Literals("<Ab_1><", "<Ab_1><<Ab_2>", 0) == [Span(0, 7)]
  {
    assert |"<Ab_1><<Ab_2>"| == 13 && "<Ab_1><<Ab_2>"[0..7] == "<Ab_1><";
    assert Literals("<Ab_1><", "<Ab_1><<Ab_2>", 7) == [];
  }

  lemma {:induction false} ShortFound()
    ensures Literals("Ab_2>", "<Ab_1><<Ab_2>", 0) == [Span(8, 13)]
  {
    assert |"<Ab_1><<Ab_2>"| == 13 && "<Ab_1><<Ab_2>"[8..13] == "Ab_2>";
    assert Literals("Ab_2>", "<Ab_1><<Ab_2>", 13) == [];
    assert Literals("Ab_2>", "<Ab_1><<Ab_2>", 8) == [Span(8, 13)];
    assert "<Ab_1><<Ab_2>"[7..12][0] == '<' && "<Ab_1><<Ab_2>"[6..11][0] == '<' && "<Ab_1><<Ab_2>"[5..10][0] == '>';
    assert Literals("Ab_2>", "<Ab_1><<Ab_2>", 5) == [Span(8, 13)];
    assert "<Ab_1><<Ab_2>"[4..9][0] == '1' && "<Ab_1><<Ab_2>"[3..8][0] == '_' && "<Ab_1><<Ab_2>"[2..7][0] == 'b';
    assert Literals("Ab_2>", "<Ab_1><<Ab_2>", 2) == [Span(8, 13)];
    assert "<Ab_1><<Ab_2>"[1..6][3] == '1' && "<Ab_1><<Ab_2>"[0..5][0] == '<';
  }

  lemma {:induction false} TwoRulesOneMatchEach(e: Engine, a: RegexRule, b: RegexRule, text: string, s: Span, t: Span)
    requires Sound(e) && s.start < s.end <= |text| && t.start < t.end <= |text|
    requires e.find(a.pattern, text) == Some([s]) && e.find(b.pattern, text) == Some([t])
    ensures Collected(e, [a, b], text) == Success([Found(0, CandidateOf(e, a, text, s)), Found(1, CandidateOf(e, b, text, t))])
  {
    OneRuleOneMatch(e, a, text, s);
    assert [a, b][..1] == [a] && [t][..0] == [];
    assert OfRule(e, b, 1, text, []) == [];
    var x, y := Found(0, CandidateOf(e, a, text, s)), Found(1, CandidateOf(e, b, text, t));
    assert OfRule(e, b, 1, text, [t]) == [y];
    assert [x] + [y] == [x, y];
  }

  lemma {:induction false} TwoClaims(c: Candidate, d: Candidate)
    requires c.start < c.end <= d.start < d.end
    ensures Resolved([Found(0, c), Found(1, d)]) == [c, d]
  {
    var found := [Found(0, c), Found(1, d)];
    assert found[1..] == [Found(1, d)] && [Found(1, d)][1..] == [];
    assert Sort(Before, [Found(1, d)]) == [Found(1, d)];
    assert Sort(Before, found) == found;
    assert Kept(found, 0) && Kept(found, 1);
    assert KeptUpTo(found, 0) == [] && KeptUpTo(found, 1) == [c];
  }

  lemma {:induction false} TwoTagged(text: string, c: Candidate, d: Candidate)
    requires 0 == c.start < c.end <= d.start < d.end == |text| && c.tag == d.tag && c.valueKey != d.valueKey
    ensures Disjoint([c, d], |text|) && |Replaced(text, [c, d]).hits| == 2
    ensures Replaced(text, [c, d]).text == Placeholder(c.tag, 1) + text[c.end..d.start] + Placeholder(c.tag, 2)
  {
    var cs := [c, d];
    assert Values(cs) == [ValueOf(c), ValueOf(d)];
    TwoNumbers(Values(cs));
    var x, y := S.Edit(c.start, c.end, Placeholder(c.tag, 1)), S.Edit(d.start, d.end, Placeholder(c.tag, 2));
    assert Edits(cs, Numbers(cs)) == [x, y];
    TwoSpliced(text, x, y);
  }

  lemma {:induction false} AbSpelled()
    ensures Placeholder("Ab", 1) == "<Ab_1>" && Placeholder("Ab", 2) == "<Ab_2>"
  {
    assert Decimal(1) == "1" && Decimal(2) == "2";
  }

  lemma {:induction false} ShiftedSpelled()
    ensures "<Ab_1>" + "<" + "<Ab_2>" == SHIFTED_TEXT && "<Ab_1><" != "<Ab_1>"
  {
    assert |"<Ab_1>"| == 6 && |"<Ab_1><"| == 7;
  }

  lemma {:induction false} ShiftedValuesDiffer()
    ensures Cleaned("<Ab_1><") != Cleaned("Ab_2>")
  {
    assert Cleaned("<Ab_1><")[0] == '<' && Cleaned("Ab_2>")[0] == 'a';
  }

  lemma {:induction false} ShiftedCollected()
    requires Sound(SAMPLE)
    ensures Collected(SAMPLE, SHIFTED_RULES.regexRules, SHIFTED_TEXT) == Success([Found(0, LONG_CLAIM), Found(1, SHORT_CLAIM)])
  {
    ShiftedSlices();
    LongFound();
    ShortFound();
    var a, b := SHIFTED_RULES.regexRules[0], SHIFTED_RULES.regexRules[1];
    TwoRulesOneMatchEach(SAMPLE, a, b, SHIFTED_TEXT, Span(0, 7), Span(8, 13));
    assert SHIFTED_RULES.regexRules == [a, b];
  }

  /** No hit reads as its placeholder and the text still comes back: what one placeholder is shorter
      than its span, the text behind it and the next span make good. */
  lemma {:induction false} TextComesBackByCoincidence()
    ensures Sound(SAMPLE) && Scrubbed(SAMPLE, SHIFTED_RULES, SHIFTED_TEXT).Success?
    ensures var r := Scrubbed(SAMPLE, SHIFTED_RULES, SHIFTED_TEXT).value;
            r.text == SHIFTED_TEXT && |r.hits| == 2 && !AllReadAsThemselves(SHIFTED_TEXT, r.hits)
  {
    SampleIsSound();
    ShiftedCollected();
    TwoClaims(LONG_CLAIM, SHORT_CLAIM);
    ClaimsOnly(SAMPLE, SHIFTED_RULES, SHIFTED_TEXT, [LONG_CLAIM, SHORT_CLAIM]);
    ShiftedReplaced();
  }

  lemma {:induction false} ShiftedReplaced()
    ensures Disjoint([LONG_CLAIM, SHORT_CLAIM], |SHIFTED_TEXT|)
    ensures var r := Replaced(SHIFTED_TEXT, [LONG_CLAIM, SHORT_CLAIM]);
            r.text == SHIFTED_TEXT && |r.hits| == 2 && !AllReadAsThemselves(SHIFTED_TEXT, r.hits)
  {
    ShiftedSlices();
    AbSpelled();
    ShiftedSpelled();
    ShiftedValuesDiffer();
    TwoTagged(SHIFTED_TEXT, LONG_CLAIM, SHORT_CLAIM);
    HitOfChosen(SHIFTED_TEXT, [LONG_CLAIM, SHORT_CLAIM], 0);
    assert Numbers([LONG_CLAIM, SHORT_CLAIM])[0] == 1 by { TwoNumbers(Values([LONG_CLAIM, SHORT_CLAIM])); }
    assert !ReadsAsItself(SHIFTED_TEXT, Replaced(SHIFTED_TEXT, [LONG_CLAIM, SHORT_CLAIM]).hits[0]);
  }
}
