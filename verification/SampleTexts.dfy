/** Concrete texts scrubbed with the sample engine. */
module SampleTexts {
  import opened Wrappers
  import opened ScrubTypes
  import opened NameIndexes
  import opened WindowSearch
  import opened NameMatching
  import opened NameTagging
  import opened RegexClaims
  import opened Text
  import opened Numbering
  import opened Replacement
  import opened Scrubbing
  import opened Sorting
  import opened SampleEngine
  import S = Splicing

  // ---- a scrub with no regex rules ----

  lemma {:induction false} NothingClaimedKeeps(names: seq<Candidate>)
    ensures NotOverlapping(names, []) == names
  {
    if names != [] { NothingClaimedKeeps(names[1..]); }
  }

  lemma {:induction false} SortedStays(cs: seq<Candidate>, length: nat)
    requires Disjoint(cs, length)
    ensures Sort(ByStart, cs) == cs
  {
    if cs != [] {
      TailDisjoint(cs, length);
      SortedStays(cs[1..], length);
      assert |cs| > 1 ==> cs[1] in cs[1..];
    }
  }

  lemma {:induction false} NamesOnly(e: Engine, rules: ScrubRules, text: string)
    requires Sound(e) && text != "" && rules.regexRules == []
    ensures Disjoint(NamesIn(ReadingOf(e, rules, text)), |text|)
    ensures Scrubbed(e, rules, text) == Success(Replaced(text, NamesIn(ReadingOf(e, rules, text))))
  {
    var names := NamesIn(ReadingOf(e, rules, text));
    NamesAreDisjoint(e, rules, text);
    NothingClaimedKeeps(names);
    SortedStays(names, |text|);
    assert [] + names == names;
    assert Resolved([]) == [];
  }

  // ---- two spellings of one name ----

  const PLAIN := "Bar"
  const UMLAUTED := "B\U{00E4}r"
  const TWICE := "Bar B\U{00E4}r"

  function Lastnames(names: seq<string>): ScrubRules { ScrubRules([], [], names, []) }

  lemma {:induction false} OneWord(w: string)
    requires Runs(w, 0) == [Span(0, |w|)]
    ensures Normalise(SAMPLE, w) == Entry(Stripped(w), Transliterated(w), |Stripped(w)|, 1)
  {
    assert w[0..|w|] == w;
    assert Words(w, Runs(w, 0)) == [w];
    assert Each(SAMPLE.stripped, [w]) == [Stripped(w)] && Each(SAMPLE.transliterated, [w]) == [Transliterated(w)];
    assert Letters([Stripped(w)]) == |Stripped(w)| + Letters([]);
  }

  lemma {:induction false} SpellingsNormalise()
    requires Ordered(SAMPLE.tokens(PLAIN), |PLAIN|) && Ordered(SAMPLE.tokens(UMLAUTED), |UMLAUTED|)
    ensures Normalise(SAMPLE, PLAIN) == Entry("bar", "bar", 3, 1)
    ensures Normalise(SAMPLE, UMLAUTED) == Entry("bar", "baer", 3, 1)
  {
    PlainWord();
    UmlautWord();
    OneWord(PLAIN);
    OneWord(UMLAUTED);
  }

  lemma {:induction false} TwoTokens(text: string, first: string, second: string)
    requires first != "" && second != "" && text == first + " " + second
    requires Runs(text, 0) == [Span(0, |first|), Span(|first| + 1, |text|)]
    ensures Ordered(SAMPLE.tokens(text), |text|)
    ensures TokensIn(SAMPLE, text) == [Token(0, |first|, Stripped(first), Transliterated(first)),
                                       Token(|first| + 1, |text|, Stripped(second), Transliterated(second))]
    ensures JoinedIn(SAMPLE, text) == [true]
  {
    assert text[0..|first|] == first && text[|first| + 1..|text|] == second && text[|first|..|first| + 1] == " ";
  }

  lemma {:induction false} TwiceReads()
    ensures Ordered(SAMPLE.tokens(TWICE), |TWICE|)
    ensures TokensIn(SAMPLE, TWICE) == [Token(0, 3, "bar", "bar"), Token(4, 7, "bar", "baer")]
    ensures JoinedIn(SAMPLE, TWICE) == [true]
  {
    BothWords();
    PlainWord();
    UmlautWord();
    assert TWICE == PLAIN + " " + UMLAUTED;
    TwoTokens(TWICE, PLAIN, UMLAUTED);
  }

  // ---- two name tokens, two matches ----

  /** Two one-token last names beside each other, with no other list in use. */
  ghost predicate TwoLastnames(r: Reading, k: string, l: string) {
    && r.WellFormed() && |r.tokens| == 2 && r.joined == [true]
    && r.lists.first == Index(map[], 0) && r.lists.white == Index(map[], 0) && r.lists.last.maxTokens == 1
    && r.Find(r.lists.last, 0, 1) == Some(k) && r.Find(r.lists.last, 1, 1) == Some(l)
  }

  lemma {:induction false} TwoWindows(r: Reading, k: string, l: string)
    requires TwoLastnames(r, k, l)
    ensures r.Search().SearchFrom(0) == [Window(0, 1), Window(1, 1)]
  {
    assert r.Listed(0, 1) && r.Listed(1, 1);
    var w := r.Search();
    assert w.WidestAt(0) == 1 && w.WidestAt(1) == 1;
    assert w.Longest(0, 1) == 1 && w.Longest(1, 1) == 1;
    assert w.SearchFrom(2) == [];
    assert w.SearchFrom(1) == [Window(1, 1)];
  }

  lemma {:induction false} TwoNames(r: Reading, k: string, l: string)
    requires TwoLastnames(r, k, l)
    ensures NamesIn(r) == [LastnameOf(r.tokens[0], k), LastnameOf(r.tokens[1], l)]
  {
    TwoWindows(r, k, l);
    MatchesAreTaggable(r);
    var m, n := NameMatch(0, 1, None, Some(k)), NameMatch(1, 1, None, Some(l));
    assert r.Matches() == [m, n];
    var ds := Decisions(r.Matches(), r.tokens, r.joined);
    assert ds == [Decision(Lastname, k), Decision(Lastname, l)];
    CandidateAt(r.Matches(), ds, r.tokens, 2, 0);
    CandidateAt(r.Matches(), ds, r.tokens, 2, 1);
  }

  function LastnameOf(t: Token, key: string): Candidate {
    Candidate(t.start, t.end, "Lastname", LASTNAME_RULE_ID, key, Some(key))
  }

  lemma {:induction false} TwoNumbers(vs: seq<Value>)
    requires |vs| == 2 && vs[0].tag == vs[1].tag
    ensures Number(vs, 0) == 1 && Number(vs, 1) == if vs[0] == vs[1] then 1 else 2
  {
    assert ValuesBefore(vs, 0, vs[0].tag) == 0;
    assert IsFirst(vs, 0) && ValuesBefore(vs, 1, vs[0].tag) == 1;
  }

  lemma {:induction false} TwoSpliced(text: string, first: S.Edit, second: S.Edit)
    requires 0 == first.start < first.end <= second.start < second.end == |text|
    ensures S.Spliced(text, [first, second]) == first.put + text[first.end..second.start] + second.put
  {
    var edits := [first, second];
    assert S.Out(text, edits, 0) == "" && S.Gap(text, edits, 0) == "";
    assert S.Out(text, edits, 1) == first.put;
    assert S.Gap(text, edits, 1) == text[first.end..second.start] && S.Gap(text, edits, 2) == "";
  }

  lemma {:induction false} OneReplaced(text: string, c: Candidate)
    requires c.start < c.end <= |text|
    ensures Replaced(text, [c]).text == text[..c.start] + Placeholder(c.tag, 1) + text[c.end..]
  {
    assert Values([c]) == [ValueOf(c)];
    var edit := S.Edit(c.start, c.end, Placeholder(c.tag, 1));
    assert Edits([c], Numbers([c])) == [edit];
    assert S.Out(text, [edit], 1) == S.Gap(text, [edit], 0) + edit.put;
  }

  lemma {:induction false} LastnamePlaceholders()
    ensures Placeholder("Lastname", 1) == "<Lastname_1>" && Placeholder("Lastname", 2) == "<Lastname_2>"
  {
    assert Decimal(1) == "1" && Decimal(2) == "2";
  }

  lemma {:induction false} TwoReplaced(text: string, first: Token, second: Token, k: string, l: string)
    requires 0 == first.start < first.end <= second.start < second.end == |text|
    ensures var cs := [LastnameOf(first, k), LastnameOf(second, l)];
            Disjoint(cs, |text|) &&
            Replaced(text, cs).text == "<Lastname_1>" + text[first.end..second.start]
                                     + if k == l then "<Lastname_1>" else "<Lastname_2>"
  {
    var cs := [LastnameOf(first, k), LastnameOf(second, l)];
    var vs := Values(cs);
    assert vs == [Value("Lastname", k), Value("Lastname", l)];
    TwoNumbers(vs);
    LastnamePlaceholders();
    var put := if k == l then "<Lastname_1>" else "<Lastname_2>";
    assert Edits(cs, Numbers(cs)) == [S.Edit(first.start, first.end, "<Lastname_1>"), S.Edit(second.start, second.end, put)];
    TwoSpliced(text, S.Edit(first.start, first.end, "<Lastname_1>"), S.Edit(second.start, second.end, put));
  }

  // ---- the order of two spellings decides a number ----

  lemma {:induction false} OneEntry(x: Entry)
    requires x.Usable()
    ensures IndexOf([x]) == Index(map[x.stripped := x.key][x.key := x.key], x.width)
  {
    assert [x][..0] == [];
  }

  lemma {:induction false} SpellingsIndexed(names: seq<string>, key: string)
    requires Sound(SAMPLE)
    requires (names == [PLAIN, UMLAUTED] && key == "bar") || (names == [UMLAUTED, PLAIN] && key == "baer")
    ensures BuildIndex(SAMPLE, names) == Index(map["bar" := key, "baer" := "baer"], 1)
  {
    SpellingsNormalise();
    var plain, umlaut := Entry("bar", "bar", 3, 1), Entry("bar", "baer", 3, 1);
    var all := Normalised(SAMPLE, names);
    if key == "bar" {
      assert all == [plain, umlaut];
      assert all[..1] == [plain] && [plain][..0] == [];
      assert IndexOf([plain]) == Index(map["bar" := "bar"], 1);
    } else {
      assert all == [umlaut, plain];
      assert all[..1] == [umlaut] && [umlaut][..0] == [];
      assert IndexOf([umlaut]) == Index(map["bar" := "baer", "baer" := "baer"], 1);
    }
  }

  lemma {:induction false} NoNamesIndexed()
    requires Sound(SAMPLE)
    ensures BuildIndex(SAMPLE, []) == Index(map[], 0)
  {
    assert Normalised(SAMPLE, []) == [];
  }

  lemma {:induction false} TwoFound(r: Reading, key: string)
    requires r.WellFormed() && key != ""
    requires r.tokens == [Token(0, 3, "bar", "bar"), Token(4, 7, "bar", "baer")] && r.joined == [true]
    requires r.lists == Lists(Index(map[], 0), Index(map["bar" := key, "baer" := "baer"], 1), Index(map[], 0))
    ensures TwoLastnames(r, key, "baer")
  {
    assert r.Stripped(0, 1) == "bar" && r.Transliterated(0, 1) == "bar";
    assert r.Stripped(1, 1) == "bar" && r.Transliterated(1, 1) == "baer";
  }

  lemma {:induction false} TwiceNames(names: seq<string>, key: string)
    requires Sound(SAMPLE)
    requires (names == [PLAIN, UMLAUTED] && key == "bar") || (names == [UMLAUTED, PLAIN] && key == "baer")
    ensures NamesIn(ReadingOf(SAMPLE, Lastnames(names), TWICE))
         == [LastnameOf(Token(0, 3, "bar", "bar"), key), LastnameOf(Token(4, 7, "bar", "baer"), "baer")]
  {
    var r := ReadingOf(SAMPLE, Lastnames(names), TWICE);
    SpellingsIndexed(names, key);
    NoNamesIndexed();
    TwiceReads();
    TwoFound(r, key);
    TwoNames(r, key, "baer");
  }

  lemma {:induction false} TwoSpelled()
    ensures "<Lastname_1>" + " " + "<Lastname_1>" == "<Lastname_1> <Lastname_1>"
    ensures "<Lastname_1>" + " " + "<Lastname_2>" == "<Lastname_1> <Lastname_2>"
  {}

  lemma {:induction false} TwoScrubbed(e: Engine, rules: ScrubRules, text: string, first: Token, second: Token, k: string, l: string)
    requires Sound(e) && rules.regexRules == []
    requires 0 == first.start < first.end <= second.start < second.end == |text|
    requires text[first.end..second.start] == " "
    requires NamesIn(ReadingOf(e, rules, text)) == [LastnameOf(first, k), LastnameOf(second, l)]
    ensures Scrubbed(e, rules, text).Success?
    ensures Scrubbed(e, rules, text).value.text == if k == l then "<Lastname_1> <Lastname_1>" else "<Lastname_1> <Lastname_2>"
  {
    NamesOnly(e, rules, text);
    TwoReplaced(text, first, second, k, l);
    TwoSpelled();
  }

  lemma {:induction false} TheSpace()
    ensures |TWICE| == 7 && TWICE[3..4] == " "
  {}

  lemma {:induction false} TwiceScrubbed(names: seq<string>, key: string)
    requires Sound(SAMPLE)
    requires (names == [PLAIN, UMLAUTED] && key == "bar") || (names == [UMLAUTED, PLAIN] && key == "baer")
    ensures Scrubbed(SAMPLE, Lastnames(names), TWICE).Success?
    ensures Scrubbed(SAMPLE, Lastnames(names), TWICE).value.text
         == if key == "baer" then "<Lastname_1> <Lastname_1>" else "<Lastname_1> <Lastname_2>"
  {
    TwiceNames(names, key);
    TheSpace();
    TwoScrubbed(SAMPLE, Lastnames(names), TWICE, Token(0, 3, "bar", "bar"), Token(4, 7, "bar", "baer"), key, "baer");
  }

  /** The same two last names, listed the other way round: one text gets two numbers, or one. */
  lemma {:induction false} ListOrderDecidesANumber()
    ensures Sound(SAMPLE)
    ensures var one := Scrubbed(SAMPLE, Lastnames([PLAIN, UMLAUTED]), TWICE);
            one.Success? && one.value.text == "<Lastname_1> <Lastname_2>"
    ensures var other := Scrubbed(SAMPLE, Lastnames([UMLAUTED, PLAIN]), TWICE);
            other.Success? && other.value.text == "<Lastname_1> <Lastname_1>"
  {
    SampleIsSound();
    TwiceScrubbed([PLAIN, UMLAUTED], "bar");
    TwiceScrubbed([UMLAUTED, PLAIN], "baer");
  }
}
