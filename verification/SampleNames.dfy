/** A name on both lists with a last name behind it, on a concrete text. */
module SampleNames {
  import opened Wrappers
  import opened ScrubTypes
  import opened Text
  import opened NameIndexes
  import opened WindowSearch
  import opened NameMatching
  import opened NameTagging
  import opened Numbering
  import opened Replacement
  import opened Scrubbing
  import opened SampleEngine
  import opened SampleTexts
  import S = Splicing

  const PAIR := "Bar Van"
  const PAIR_RULES: ScrubRules := ScrubRules([], ["Bar"], ["Bar", "Van"], [])

  lemma {:induction false} PairWords()
    ensures Runs("Bar Van", 0) == [Span(0, 3), Span(4, 7)] && Runs("Van", 0) == [Span(0, 3)]
    ensures Stripped("Van") == "van" && Transliterated("Van") == "van" && PAIR == "Bar" + " " + "Van"
  {
    PairRuns();
    VanForms();
  }

  lemma {:induction false} PairRuns()
    ensures Runs("Bar Van", 0) == [Span(0, 3), Span(4, 7)]
  {}

  lemma {:induction false} VanForms()
    ensures Runs("Van", 0) == [Span(0, 3)] && Stripped("Van") == "van" && Transliterated("Van") == "van"
  {}

  lemma {:induction false} PairReads()
    ensures Ordered(SAMPLE.tokens(PAIR), |PAIR|)
    ensures TokensIn(SAMPLE, PAIR) == [Token(0, 3, "bar", "bar"), Token(4, 7, "van", "van")]
    ensures JoinedIn(SAMPLE, PAIR) == [true]
  {
    PairWords();
    PlainWord();
    TwoTokens(PAIR, "Bar", "Van");
  }

  lemma {:induction false} PairNormalises()
    requires Sound(SAMPLE)
    ensures Normalise(SAMPLE, "Bar") == Entry("bar", "bar", 3, 1) && Normalise(SAMPLE, "Van") == Entry("van", "van", 3, 1)
  {
    PairWords();
    PlainWord();
    OneWord("Bar");
    OneWord("Van");
  }

  lemma {:induction false} TwoEntries(x: Entry, y: Entry)
    requires x.Usable() && y.Usable() && x.stripped == x.key && y.stripped == y.key && x.key != y.key && x.width == y.width
    ensures IndexOf([x, y]) == Index(map[x.key := x.key, y.key := y.key], x.width)
  {
    assert [x, y][..1] == [x];
    OneEntry(x);
  }

  lemma {:induction false} PairIndexed()
    requires Sound(SAMPLE)
    ensures ListsOf(SAMPLE, PAIR_RULES)
         == Lists(Index(map["bar" := "bar"], 1), Index(map["bar" := "bar", "van" := "van"], 1), Index(map[], 0))
  {
    PairNormalises();
    NoNamesIndexed();
    var x, y := Entry("bar", "bar", 3, 1), Entry("van", "van", 3, 1);
    assert Normalised(SAMPLE, ["Bar"]) == [x] && Normalised(SAMPLE, ["Bar", "Van"]) == [x, y];
    assert "bar"[0] != "van"[0];
    OneEntry(x);
    TwoEntries(x, y);
  }

  /** The first token is on both lists, the second, joined to it, on that of last names. */
  ghost predicate PairOnLists(r: Reading) {
    && r.WellFormed() && |r.tokens| == 2 && r.joined == [true]
    && r.lists.white == Index(map[], 0) && r.lists.MaxTokens() == 1
    && r.Find(r.lists.first, 0, 1) == Some("bar") && r.Find(r.lists.last, 0, 1) == Some("bar")
    && r.Find(r.lists.first, 1, 1) == None && r.Find(r.lists.last, 1, 1) == Some("van")
  }

  lemma {:induction false} PairFound(r: Reading)
    requires r.WellFormed() && r.joined == [true]
    requires r.tokens == [Token(0, 3, "bar", "bar"), Token(4, 7, "van", "van")]
    requires r.lists == Lists(Index(map["bar" := "bar"], 1), Index(map["bar" := "bar", "van" := "van"], 1), Index(map[], 0))
    ensures PairOnLists(r)
  {
    assert r.Stripped(0, 1) == "bar" && r.Transliterated(0, 1) == "bar";
    assert r.Stripped(1, 1) == "van" && r.Transliterated(1, 1) == "van";
    assert "bar"[0] != "van"[0];
  }

  lemma {:induction false} PairWindows(r: Reading)
    requires PairOnLists(r)
    ensures r.Search().SearchFrom(0) == [Window(0, 1), Window(1, 1)]
  {
    assert r.Listed(0, 1) && r.Listed(1, 1);
    var w := r.Search();
    assert w.WidestAt(0) == 1 && w.WidestAt(1) == 1;
    assert w.Longest(0, 1) == 1 && w.Longest(1, 1) == 1;
    assert w.SearchFrom(2) == [];
    assert w.SearchFrom(1) == [Window(1, 1)];
  }

  function PairNames(r: Reading): seq<Candidate>
    requires |r.tokens| == 2
  {
    [Candidate(r.tokens[0].start, r.tokens[0].end, "Firstname", "firstnames", "bar", Some("bar")),
     Candidate(r.tokens[1].start, r.tokens[1].end, "Lastname", "lastnames", "van", Some("van"))]
  }

  lemma {:induction false} PairNamed(r: Reading)
    requires PairOnLists(r)
    ensures NamesIn(r) == PairNames(r)
  {
    PairWindows(r);
    MatchesAreTaggable(r);
    var ms := [NameMatch(0, 1, Some("bar"), Some("bar")), NameMatch(1, 1, None, Some("van"))];
    assert r.Matches() == ms;
    BeforeALastname(ms, r.tokens, r.joined, 0);
    OneListDecides(ms, r.tokens, r.joined, 1);
    var _, _ := TaggedSpan(ms, r.tokens, r.joined, 0);
    var _, _ := TaggedSpan(ms, r.tokens, r.joined, 1);
  }

  lemma {:induction false} PairNumbers(vs: seq<Value>)
    requires |vs| == 2 && vs[0].tag != vs[1].tag
    ensures Number(vs, 0) == 1 && Number(vs, 1) == 1
  {
    assert ValuesBefore(vs, 0, vs[0].tag) == 0 && ValuesBefore(vs, 0, vs[1].tag) == 0;
    assert ValuesBefore(vs, 1, vs[1].tag) == 0;
  }

  lemma {:induction false} PairPlaceholders()
    ensures Placeholder("Firstname", 1) == "<Firstname_1>" && Placeholder("Lastname", 1) == "<Lastname_1>"
    ensures "Firstname" != "Lastname"
  {
    assert Decimal(1) == "1";
    assert "Firstname"[0] != "Lastname"[0];
  }

  lemma {:induction false} PairReplaced(text: string, c: Candidate, d: Candidate)
    requires 0 == c.start < c.end <= d.start < d.end == |text| && c.tag != d.tag
    ensures Disjoint([c, d], |text|)
    ensures Replaced(text, [c, d]).text == Placeholder(c.tag, 1) + text[c.end..d.start] + Placeholder(d.tag, 1)
  {
    var cs := [c, d];
    assert Values(cs) == [ValueOf(c), ValueOf(d)];
    PairNumbers(Values(cs));
    var x, y := S.Edit(c.start, c.end, Placeholder(c.tag, 1)), S.Edit(d.start, d.end, Placeholder(d.tag, 1));
    assert Edits(cs, Numbers(cs)) == [x, y];
    TwoSpliced(text, x, y);
  }

  lemma {:induction false} PairSpelled()
    ensures |PAIR| == 7 && PAIR[3..4] == " "
    ensures "<Firstname_1>" + " " + "<Lastname_1>" == "<Firstname_1> <Lastname_1>"
  {}

  lemma {:induction false} PairReading()
    requires Sound(SAMPLE)
    ensures var r := ReadingOf(SAMPLE, PAIR_RULES, PAIR);
            |r.tokens| == 2 && r.tokens[0].start == 0 && r.tokens[0].end == 3 && r.tokens[1].start == 4 && r.tokens[1].end == 7
            && NamesIn(r) == PairNames(r)
  {
    PairReads();
    PairIndexed();
    PairFound(ReadingOf(SAMPLE, PAIR_RULES, PAIR));
    PairNamed(ReadingOf(SAMPLE, PAIR_RULES, PAIR));
  }

  /** The name on both lists is a first name, because a last name follows; both are numbered 1. */
  lemma {:induction false} LastnameMakesAFirstname()
    ensures Sound(SAMPLE) && Scrubbed(SAMPLE, PAIR_RULES, PAIR).Success?
    ensures Scrubbed(SAMPLE, PAIR_RULES, PAIR).value.text == "<Firstname_1> <Lastname_1>"
  {
    SampleIsSound();
    PairReading();
    var r := ReadingOf(SAMPLE, PAIR_RULES, PAIR);
    PairSpelled();
    NamesOnly(SAMPLE, PAIR_RULES, PAIR);
    PairPlaceholders();
    PairReplaced(PAIR, PairNames(r)[0], PairNames(r)[1]);
  }
}
