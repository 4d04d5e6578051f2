/** A name of which a rule claims one word, on a concrete text: the other word stays, and a second
    scrub finds it. */
module SampleClaims {
  import opened Wrappers
  import opened ScrubTypes
  import opened Text
  import opened NameIndexes
  import opened WindowSearch
  import opened NameMatching
  import opened NameTagging
  import opened RegexClaims
  import opened Numbering
  import opened Replacement
  import opened Scrubbing
  import opened ScrubTwice
  import opened Sorting
  import opened SampleEngine
  import opened SampleTexts

  // ---- a claim over part of a name ----

  const FIRM := "Van Dyk AG"
  const FIRM_ONCE := "Van <Firm_1>"
  const VAN_DYK := "Van Dyk"
  const FIRM_RULES: ScrubRules := ScrubRules([RegexRule("firm", "Firm", "Dyk AG", Imported)], [], [VAN_DYK, "Van"], [])
  const FIRM_CLAIM: Candidate := Candidate(4, 10, "Firm", "firm", Cleaned("Dyk AG"), None)

  lemma {:induction false} TwoWords(w: string, first: string, second: string)
    requires first != "" && second != "" && w == first + " " + second
    requires Runs(w, 0) == [Span(0, |first|), Span(|first| + 1, |w|)]
    ensures Normalise(SAMPLE, w) == Entry(Stripped(first) + " " + Stripped(second),
                                          Transliterated(first) + " " + Transliterated(second),
                                          |Stripped(first)| + |Stripped(second)|, 2)
  {
    assert w[0..|first|] == first && w[|first| + 1..|w|] == second;
    assert Words(w, Runs(w, 0)) == [first, second];
    var s := [Stripped(first), Stripped(second)];
    var t := [Transliterated(first), Transliterated(second)];
    assert Each(SAMPLE.stripped, [first, second]) == s && Each(SAMPLE.transliterated, [first, second]) == t;
    PairForms(s[0], s[1]);
    PairForms(t[0], t[1]);
  }

  lemma {:induction false} PairForms(a: string, b: string)
    ensures Join([a, b]) == a + " " + b && Letters([a, b]) == |a| + |b|
  {
    assert [a, b][1..] == [b] && [b][1..] == [];
    assert Letters([b]) == |b|;
  }

  lemma {:induction false} FirmNamesNormalise()
    requires Sound(SAMPLE)
    ensures Normalise(SAMPLE, VAN_DYK) == Entry("van dyk", "van dyk", 6, 2)
    ensures Normalise(SAMPLE, "Van") == Entry("van", "van", 3, 1)
  {
    NameWords();
    FirmForms();
    VanDykSpelled();
    TwoWords(VAN_DYK, "Van", "Dyk");
    OneWord("Van");
  }

  lemma {:induction false} FirmNamesIndexed()
    requires Sound(SAMPLE)
    ensures BuildIndex(SAMPLE, [VAN_DYK, "Van"]) == Index(map["van dyk" := "van dyk", "van" := "van"], 2)
  {
    FirmNamesNormalise();
    var x, y := Entry("van dyk", "van dyk", 6, 2), Entry("van", "van", 3, 1);
    assert Normalised(SAMPLE, [VAN_DYK, "Van"]) == [x, y];
    OneEntry(x);
    assert [x, y][..1] == [x];
    VanDykIsNotVan();
  }

  lemma {:induction false} VanDykIsNotVan()
    ensures "van dyk" != "van"
  {
    assert |"van dyk"| != |"van"|;
  }

  lemma {:induction false} VanDykSpelled()
    ensures VAN_DYK == "Van" + " " + "Dyk" && "van" + " " + "dyk" == "van dyk"
  {}

  lemma {:induction false} FirmTokens()
    ensures Ordered(SAMPLE.tokens(FIRM), |FIRM|)
    ensures TokensIn(SAMPLE, FIRM) == [Token(0, 3, "van", "van"), Token(4, 7, "dyk", "dyk"), Token(8, 10, "ag", "ag")]
    ensures JoinedIn(SAMPLE, FIRM) == [true, true]
  {
    FirmWords();
    FirmForms();
    FirmSlices();
    SampleIsSound();
  }

  lemma {:induction false} FirmSlices()
    ensures |FIRM| == 10 && FIRM[0..3] == "Van" && FIRM[4..7] == "Dyk" && FIRM[8..10] == "AG"
    ensures FIRM[3..4] == " " && FIRM[7..8] == " " && FIRM[4..10] == "Dyk AG" && FIRM[..4] == "Van " && FIRM[10..] == ""
  {}

  /** Three tokens, of which the first two are one listed last name and the third is on no list. */
  ghost predicate NameThenWord(r: Reading, key: string) {
    && r.WellFormed() && |r.tokens| == 3 && r.joined == [true, true]
    && r.lists.first == Index(map[], 0) && r.lists.white == Index(map[], 0) && r.lists.last.maxTokens == 2
    && r.Find(r.lists.last, 0, 2) == Some(key) && r.Find(r.lists.last, 2, 1) == None
  }

  lemma {:induction false} OneWindow(r: Reading, key: string)
    requires NameThenWord(r, key)
    ensures r.Search().SearchFrom(0) == [Window(0, 2)]
  {
    assert r.Listed(0, 2) && !r.Listed(2, 1);
    var w := r.Search();
    assert w.WidestAt(0) == 2 && w.WidestAt(2) == 1;
    assert w.Longest(0, 2) == 2 && w.Longest(2, 1) == 0;
    assert w.SearchFrom(3) == [];
    assert w.SearchFrom(2) == [];
  }

  lemma {:induction false} OneName(r: Reading, key: string)
    requires NameThenWord(r, key)
    ensures NamesIn(r) == [Candidate(r.tokens[0].start, r.tokens[1].end, "Lastname", LASTNAME_RULE_ID, key, Some(key))]
  {
    OneWindow(r, key);
    MatchesAreTaggable(r);
    assert r.Matches() == [NameMatch(0, 2, None, Some(key))];
    var ds := Decisions(r.Matches(), r.tokens, r.joined);
    assert ds == [Decision(Lastname, key)];
    CandidateAt(r.Matches(), ds, r.tokens, 1, 0);
  }

  lemma {:induction false} VanDykFound(r: Reading)
    requires r.WellFormed() && r.joined == [true, true]
    requires r.tokens == [Token(0, 3, "van", "van"), Token(4, 7, "dyk", "dyk"), Token(8, 10, "ag", "ag")]
    requires r.lists == Lists(Index(map[], 0), Index(map["van dyk" := "van dyk", "van" := "van"], 2), Index(map[], 0))
    ensures NameThenWord(r, "van dyk")
  {
    assert seq(2, k requires 0 <= k < 2 => r.tokens[0 + k].stripped) == ["van", "dyk"];
    assert seq(2, k requires 0 <= k < 2 => r.tokens[0 + k].transliterated) == ["van", "dyk"];
    VanDykJoins();
    assert r.Stripped(2, 1) == "ag" && r.Transliterated(2, 1) == "ag";
  }

  lemma {:induction false} VanDykJoins()
    ensures Join(["van", "dyk"]) == "van dyk" && "ag" != "van dyk" && "ag" != "van"
  {
    assert ["van", "dyk"][1..] == ["dyk"];
    assert |"ag"| != |"van dyk"| && |"ag"| != |"van"|;
  }

  lemma {:induction false} VanDykNamed()
    requires Sound(SAMPLE)
    ensures NamesIn(ReadingOf(SAMPLE, FIRM_RULES, FIRM)) == [Candidate(0, 7, "Lastname", LASTNAME_RULE_ID, "van dyk", Some("van dyk"))]
  {
    var r := ReadingOf(SAMPLE, FIRM_RULES, FIRM);
    NoNamesIndexed();
    FirmNamesIndexed();
    FirmTokens();
    VanDykFound(r);
    OneName(r, "van dyk");
  }

  lemma {:induction false} FirmClaimed()
    requires Sound(SAMPLE)
    ensures Collected(SAMPLE, FIRM_RULES.regexRules, FIRM) == Success([Found(0, FIRM_CLAIM)])
  {
    FirmFound();
    FirmSlices();
    var rule := FIRM_RULES.regexRules[0];
    assert [rule][..0] == [];
    assert [Span(4, 10)][..0] == [];
    assert OfRule(SAMPLE, rule, 0, FIRM, []) == [];
    assert OfRule(SAMPLE, rule, 0, FIRM, [Span(4, 10)]) == [Found(0, FIRM_CLAIM)];
  }

  lemma {:induction false} ClaimWins(e: Engine, rules: ScrubRules, text: string, claim: Candidate, name: Candidate)
    requires Sound(e) && text != "" && claim.start < claim.end <= |text| && Overlap(name, claim)
    requires Collected(e, rules.regexRules, text) == Success([Found(0, claim)])
    requires NamesIn(ReadingOf(e, rules, text)) == [name]
    ensures Scrubbed(e, rules, text) == Success(Replaced(text, [claim]))
  {
    var found := [Found(0, claim)];
    assert Sort(Before, found) == found;
    assert Kept(found, 0) && KeptUpTo(found, 0) == [];
    assert Resolved(found) == [claim];
    assert Overlaps(name, [claim]) by { assert claim in [claim]; }
    assert NotOverlapping([name], [claim]) == [];
    assert Sort(ByStart, [claim]) == [claim];
  }

  /** A listed name of which a rule claims the second word: the first word stays in the text. */
  lemma {:induction false} FirstWordStays()
    ensures Sound(SAMPLE)
    ensures Scrubbed(SAMPLE, FIRM_RULES, FIRM).Success?
    ensures Scrubbed(SAMPLE, FIRM_RULES, FIRM).value.text == FIRM_ONCE
  {
    SampleIsSound();
    FirmClaimed();
    VanDykNamed();
    FirmSlices();
    ClaimWins(SAMPLE, FIRM_RULES, FIRM, FIRM_CLAIM, Candidate(0, 7, "Lastname", LASTNAME_RULE_ID, "van dyk", Some("van dyk")));
    OneReplaced(FIRM, FIRM_CLAIM);
    FirmSpelled();
  }

  lemma {:induction false} FirmSpelled()
    ensures "Van " + Placeholder("Firm", 1) + "" == "Van <Firm_1>"
  {
    assert Decimal(1) == "1";
  }

  // ---- and is found by a second scrub ----

  lemma {:induction false} OnceSlices()
    ensures |FIRM_ONCE| == 12 && FIRM_ONCE[0..3] == "Van" && FIRM_ONCE[5..9] == "Firm" && FIRM_ONCE[3..5] == " <"
    ensures FIRM_ONCE[3..] == " <Firm_1>"
  {}

  lemma {:induction false} OnceTokens()
    ensures Ordered(SAMPLE.tokens(FIRM_ONCE), |FIRM_ONCE|)
    ensures TokensIn(SAMPLE, FIRM_ONCE) == [Token(0, 3, "van", "van"), Token(5, 9, "firm", "firm")]
    ensures JoinedIn(SAMPLE, FIRM_ONCE) == [false]
  {
    OnceWords();
    FirmForms();
    OnceSlices();
    SampleIsSound();
    assert |" <"| != |" "|;
  }

  /** Two tokens apart from each other, of which only the first is a listed last name. */
  ghost predicate NameApart(r: Reading, key: string) {
    && r.WellFormed() && |r.tokens| == 2 && r.joined == [false]
    && r.lists.first == Index(map[], 0) && r.lists.white == Index(map[], 0) && r.lists.last.maxTokens == 2
    && r.Find(r.lists.last, 0, 1) == Some(key) && r.Find(r.lists.last, 1, 1) == None
  }

  lemma {:induction false} OneWindowApart(r: Reading, key: string)
    requires NameApart(r, key)
    ensures r.Search().SearchFrom(0) == [Window(0, 1)]
  {
    assert !r.joined[0];
    assert r.Find(r.lists.first, 1, 1) == None;
    assert r.Listed(0, 1) && !r.Listed(0, 2) && !r.Listed(1, 1);
    var w := r.Search();
    assert w.WidestAt(0) == 2 && w.WidestAt(1) == 1;
    assert w.Longest(0, 1) == 1 && w.Longest(0, 2) == 1 && w.Longest(1, 1) == 0;
    assert w.SearchFrom(2) == [];
    assert w.SearchFrom(1) == [];
  }

  lemma {:induction false} OneNameApart(r: Reading, key: string)
    requires NameApart(r, key)
    ensures NamesIn(r) == [LastnameOf(r.tokens[0], key)]
  {
    OneWindowApart(r, key);
    MatchesAreTaggable(r);
    assert r.Matches() == [NameMatch(0, 1, None, Some(key))];
    var ds := Decisions(r.Matches(), r.tokens, r.joined);
    assert ds == [Decision(Lastname, key)];
    CandidateAt(r.Matches(), ds, r.tokens, 1, 0);
  }

  lemma {:induction false} VanFound(r: Reading)
    requires r.WellFormed() && r.joined == [false]
    requires r.tokens == [Token(0, 3, "van", "van"), Token(5, 9, "firm", "firm")]
    requires r.lists == Lists(Index(map[], 0), Index(map["van dyk" := "van dyk", "van" := "van"], 2), Index(map[], 0))
    ensures NameApart(r, "van")
  {
    assert r.Stripped(0, 1) == "van" && r.Transliterated(0, 1) == "van";
    assert r.Stripped(1, 1) == "firm" && r.Transliterated(1, 1) == "firm";
    assert |"firm"| != |"van dyk"| && |"firm"| != |"van"|;
  }

  lemma {:induction false} VanNamed()
    requires Sound(SAMPLE)
    ensures NamesIn(ReadingOf(SAMPLE, FIRM_RULES, FIRM_ONCE)) == [LastnameOf(Token(0, 3, "van", "van"), "van")]
  {
    var r := ReadingOf(SAMPLE, FIRM_RULES, FIRM_ONCE);
    NoNamesIndexed();
    FirmNamesIndexed();
    OnceTokens();
    VanFound(r);
    OneNameApart(r, "van");
  }

  lemma {:induction false} OneRuleFindsNothing(e: Engine, rule: RegexRule, text: string)
    requires Sound(e) && e.find(rule.pattern, text) == Some([])
    ensures Collected(e, [rule], text) == Success([])
  {
    NothingCollectedIff(e, [rule], text);
    assert AllEmpty([]);
  }

  lemma {:induction false} NothingClaimedOnce()
    requires Sound(SAMPLE)
    ensures Collected(SAMPLE, FIRM_RULES.regexRules, FIRM_ONCE) == Success([])
  {
    OnceNotFound();
    OneRuleFindsNothing(SAMPLE, FIRM_RULES.regexRules[0], FIRM_ONCE);
    assert FIRM_RULES.regexRules == [FIRM_RULES.regexRules[0]];
  }

  lemma {:induction false} NameAlone(e: Engine, rules: ScrubRules, text: string, name: Candidate)
    requires Sound(e) && text != "" && name.start < name.end <= |text|
    requires Collected(e, rules.regexRules, text) == Success([])
    requires NamesIn(ReadingOf(e, rules, text)) == [name]
    ensures Scrubbed(e, rules, text) == Success(Replaced(text, [name]))
  {
    assert Resolved([]) == [];
    NothingClaimedKeeps([name]);
    SortedStays([name], |text|);
    assert [] + [name] == [name];
  }

  /** The text scrubbed once is not left alone by a second scrub: the word that stayed is a listed
      name by itself. */
  lemma {:induction false} SecondScrubFindsMore()
    ensures Sound(SAMPLE)
    ensures Scrubbed(SAMPLE, FIRM_RULES, FIRM).Success? && Scrubbed(SAMPLE, FIRM_RULES, FIRM).value.text == FIRM_ONCE
    ensures Scrubbed(SAMPLE, FIRM_RULES, FIRM_ONCE).Success?
    ensures Scrubbed(SAMPLE, FIRM_RULES, FIRM_ONCE).value.text == "<Lastname_1> <Firm_1>"
  {
    FirstWordStays();
    NothingClaimedOnce();
    VanNamed();
    OnceSlices();
    var name := LastnameOf(Token(0, 3, "van", "van"), "van");
    NameAlone(SAMPLE, FIRM_RULES, FIRM_ONCE, name);
    OneReplaced(FIRM_ONCE, name);
    LastnamePlaceholders();
    TwiceSpelled();
  }

  lemma {:induction false} TwiceSpelled()
    ensures FIRM_ONCE[..0] == "" && "" + "<Lastname_1>" + " <Firm_1>" == "<Lastname_1> <Firm_1>"
  {}
}
