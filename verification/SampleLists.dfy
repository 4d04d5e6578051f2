/** Two spellings with one key, on concrete lists: what reading and hashing a list do not tell. */
module SampleLists {
  import opened Wrappers
  import opened PythonText
  import opened ScrubTypes
  import opened NameIndexes
  import opened WindowSearch
  import opened NameMatching
  import opened NameTagging
  import opened Replacement
  import opened Scrubbing
  import opened NameLists
  import opened Fingerprints
  import opened SampleEngine
  import opened SampleTexts

  const SPELT_OUT := "Baer"

  lemma {:induction false} SpeltOutNormalises()
    requires Ordered(SAMPLE.tokens(SPELT_OUT), |SPELT_OUT|)
    ensures Normalise(SAMPLE, SPELT_OUT) == Entry("baer", "baer", 4, 1)
  {
    TransliteratedWord();
    OneWord(SPELT_OUT);
  }

  // ---- reading a list ----

  lemma {:induction false} NothingToTrim()
    ensures Trim(SPELT_OUT) == SPELT_OUT && Trim(UMLAUTED) == UMLAUTED
    ensures SPELT_OUT != "" && SPELT_OUT[0] != '#' && UMLAUTED != "" && UMLAUTED[0] != '#'
  {}

  lemma {:induction false} LinesRead(lines: seq<string>, i: nat, j: nat)
    requires Sound(SAMPLE) && |lines| == 2 && i < 2 && j == 1 - i && lines[i] == SPELT_OUT && lines[j] == UMLAUTED
    ensures LineEntries(SAMPLE, lines)[i] == Some(Entry("baer", "baer", 4, 1))
    ensures LineEntries(SAMPLE, lines)[j] == Some(Entry("bar", "baer", 3, 1))
  {
    NothingToTrim();
    SpeltOutNormalises();
    SpellingsNormalise();
  }

  lemma {:induction false} StrippedFormLost(all: seq<Option<Entry>>)
    requires all == [Some(Entry("baer", "baer", 4, 1)), Some(Entry("bar", "baer", 3, 1))]
    ensures !StrippedFormsListed(all)
  {
    assert !FirstWithKey(all, 1) by { assert NameLists.HasKey(all[0], "baer"); }
    assert |"bar"| != |"baer"|;
    assert !HasForm(all[0], "bar");
    assert !SomeFirstHas(all, "bar");
    assert all[1].value.stripped == "bar";
  }

  lemma {:induction false} BothFormsKept(all: seq<Option<Entry>>)
    requires all == [Some(Entry("bar", "baer", 3, 1)), Some(Entry("baer", "baer", 4, 1))]
    ensures StrippedFormsListed(all)
  {
    assert FirstWithKey(all, 0) && HasForm(all[0], "bar") && HasForm(all[0], "baer");
  }

  lemma {:induction false} SpeltOutFirst()
    requires Sound(SAMPLE)
    ensures !FindsEveryLine(SAMPLE, [SPELT_OUT, UMLAUTED])
  {
    var lines := [SPELT_OUT, UMLAUTED];
    LinesRead(lines, 0, 1);
    StrippedFormLost(LineEntries(SAMPLE, lines));
    ParsedListFindsIff(SAMPLE, lines);
  }

  lemma {:induction false} UmlautedFirst()
    requires Sound(SAMPLE)
    ensures FindsEveryLine(SAMPLE, [UMLAUTED, SPELT_OUT])
  {
    var lines := [UMLAUTED, SPELT_OUT];
    LinesRead(lines, 1, 0);
    BothFormsKept(LineEntries(SAMPLE, lines));
    ParsedListFindsIff(SAMPLE, lines);
  }

  /** One file, two lines: with the transliterated spelling first, the accepted list does not find
      the stripped form of the other; the other way round nothing is lost. */
  lemma {:induction false} TransliteratedFirstLosesAForm()
    ensures Sound(SAMPLE)
    ensures !FindsEveryLine(SAMPLE, [SPELT_OUT, UMLAUTED])
    ensures FindsEveryLine(SAMPLE, [UMLAUTED, SPELT_OUT])
  {
    SampleIsSound();
    SpeltOutFirst();
    UmlautedFirst();
  }

  // ---- hashing a list ----

  lemma {:induction false} PlainReads()
    ensures Ordered(SAMPLE.tokens(PLAIN), |PLAIN|)
    ensures TokensIn(SAMPLE, PLAIN) == [Token(0, 3, "bar", "bar")] && JoinedIn(SAMPLE, PLAIN) == []
  {
    PlainWord();
    SampleIsSound();
    assert PLAIN[0..3] == PLAIN;
  }

  lemma {:induction false} SpellingIndexed()
    requires Sound(SAMPLE)
    ensures BuildIndex(SAMPLE, [SPELT_OUT]) == Index(map["baer" := "baer"], 1)
    ensures BuildIndex(SAMPLE, [UMLAUTED]) == Index(map["bar" := "baer", "baer" := "baer"], 1)
  {
    SpeltOutNormalises();
    SpellingsNormalise();
    OneEntry(Entry("baer", "baer", 4, 1));
    OneEntry(Entry("bar", "baer", 3, 1));
    assert Normalised(SAMPLE, [SPELT_OUT]) == [Entry("baer", "baer", 4, 1)];
    assert Normalised(SAMPLE, [UMLAUTED]) == [Entry("bar", "baer", 3, 1)];
  }

  /** One token, which the last-name list may know; no other list is in use. */
  ghost predicate OneToken(r: Reading, found: Option<string>) {
    && r.WellFormed() && |r.tokens| == 1 && r.joined == []
    && r.lists.first == Index(map[], 0) && r.lists.white == Index(map[], 0) && r.lists.last.maxTokens == 1
    && r.Find(r.lists.last, 0, 1) == found
  }

  lemma {:induction false} OneTokenWindows(r: Reading, found: Option<string>)
    requires OneToken(r, found)
    ensures r.Search().SearchFrom(0) == if found.Some? then [Window(0, 1)] else []
  {
    assert r.Listed(0, 1) <==> found.Some?;
    var w := r.Search();
    assert w.WidestAt(0) == 1 && w.Longest(0, 1) == if found.Some? then 1 else 0;
    assert w.SearchFrom(1) == [];
  }

  lemma {:induction false} OneTokenNames(r: Reading, found: Option<string>)
    requires OneToken(r, found)
    ensures NamesIn(r) == if found.Some? then [LastnameOf(r.tokens[0], found.value)] else []
  {
    OneTokenWindows(r, found);
    MatchesAreTaggable(r);
    if found.Some? {
      assert r.Matches() == [NameMatch(0, 1, None, found)];
      var ds := Decisions(r.Matches(), r.tokens, r.joined);
      assert ds == [Decision(Lastname, found.value)];
      CandidateAt(r.Matches(), ds, r.tokens, 1, 0);
    } else {
      assert r.Matches() == [];
    }
  }

  lemma {:induction false} PlainFound(r: Reading, keys: map<string, string>)
    requires r.WellFormed() && r.joined == [] && r.tokens == [Token(0, 3, "bar", "bar")]
    requires r.lists == Lists(Index(map[], 0), Index(keys, 1), Index(map[], 0)) && ("bar" in keys ==> keys["bar"] != "")
    ensures OneToken(r, if "bar" in keys then Some(keys["bar"]) else None)
  {
    assert r.Stripped(0, 1) == "bar" && r.Transliterated(0, 1) == "bar";
  }

  lemma {:induction false} PlainNames(name: string, keys: map<string, string>)
    requires Sound(SAMPLE) && BuildIndex(SAMPLE, [name]) == Index(keys, 1) && ("bar" in keys ==> keys["bar"] != "")
    ensures NamesIn(ReadingOf(SAMPLE, Lastnames([name]), PLAIN))
         == if "bar" in keys then [LastnameOf(Token(0, 3, "bar", "bar"), keys["bar"])] else []
  {
    var r := ReadingOf(SAMPLE, Lastnames([name]), PLAIN);
    NoNamesIndexed();
    PlainReads();
    PlainFound(r, keys);
    OneTokenNames(r, if "bar" in keys then Some(keys["bar"]) else None);
  }

  lemma {:induction false} OneKey(e: Engine, x: string)
    requires Sound(e)
    ensures KeysOfAll(e, [x]) == {KeyOf(e, x)}
  {
    assert [] + [x] == [x];
    KeysNext(e, [], x);
  }

  lemma {:induction false} SamePayload()
    requires Sound(SAMPLE)
    ensures PayloadOf(SAMPLE, Lastnames([SPELT_OUT])) == PayloadOf(SAMPLE, Lastnames([UMLAUTED]))
  {
    SpeltOutNormalises();
    SpellingsNormalise();
    OneKey(SAMPLE, SPELT_OUT);
    OneKey(SAMPLE, UMLAUTED);
  }

  lemma {:induction false} WholeTextReplaced(text: string, t: Token, key: string)
    requires text != "" && t.start == 0 && t.end == |text|
    ensures Replaced(text, [LastnameOf(t, key)]).text == "<Lastname_1>"
  {
    OneReplaced(text, LastnameOf(t, key));
    LastnamePlaceholders();
    assert text[..0] == "" && text[|text|..] == "";
  }

  /** The payload names lists by keys alone: two rule sets with one payload, of which only the
      second finds the stripped form. */
  lemma {:induction false} SamePayloadOtherScrub()
    ensures Sound(SAMPLE)
    ensures PayloadOf(SAMPLE, Lastnames([SPELT_OUT])) == PayloadOf(SAMPLE, Lastnames([UMLAUTED]))
    ensures var kept := Scrubbed(SAMPLE, Lastnames([SPELT_OUT]), PLAIN); kept.Success? && kept.value.text == PLAIN
    ensures var found := Scrubbed(SAMPLE, Lastnames([UMLAUTED]), PLAIN); found.Success? && found.value.text == "<Lastname_1>"
  {
    SampleIsSound();
    SamePayload();
    SpellingIndexed();
    PlainIsNoOtherForm();
    PlainNames(SPELT_OUT, map["baer" := "baer"]);
    PlainNames(UMLAUTED, map["bar" := "baer", "baer" := "baer"]);
    NamesOnly(SAMPLE, Lastnames([SPELT_OUT]), PLAIN);
    NamesOnly(SAMPLE, Lastnames([UMLAUTED]), PLAIN);
    NothingReplaced(PLAIN);
    WholeTextReplaced(PLAIN, Token(0, 3, "bar", "bar"), "baer");
  }

  lemma {:induction false} PlainIsNoOtherForm()
    ensures "bar" != "baer" && |PLAIN| == 3
  {
    assert |"bar"| != |"baer"|;
  }
}
