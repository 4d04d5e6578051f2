/** A normal form with a space in it, on a concrete list and text: the name is there and no window
    wide enough is tried. */
module SampleSpaces {
  import opened Wrappers
  import opened ScrubTypes
  import opened Text
  import opened NameIndexes
  import opened NameMatching
  import opened Scrubbing
  import opened ScrubTwice
  import opened SampleEngine
  import opened SampleTexts

  const LIGATURE := "\U{FDFA}"
  const WRITTEN_OUT := "Sa al"

  lemma {:induction false} LigatureIndexed()
    requires Sound(SAMPLE)
    ensures BuildIndex(SAMPLE, [LIGATURE]) == Index(map["sa al" := "sa al"], 1)
  {
    Ligature();
    OneWord(LIGATURE);
    assert Normalised(SAMPLE, [LIGATURE]) == [Entry("sa al", "sa al", 5, 1)];
    OneEntry(Entry("sa al", "sa al", 5, 1));
  }

  lemma {:induction false} WrittenOutReads()
    ensures Ordered(SAMPLE.tokens(WRITTEN_OUT), |WRITTEN_OUT|)
    ensures TokensIn(SAMPLE, WRITTEN_OUT) == [Token(0, 2, "sa", "sa"), Token(3, 5, "al", "al")]
    ensures JoinedIn(SAMPLE, WRITTEN_OUT) == [true]
  {
    LigatureWords();
    assert WRITTEN_OUT == "Sa" + " " + "al";
    TwoTokens(WRITTEN_OUT, "Sa", "al");
  }

  lemma {:induction false} FormsDiffer()
    ensures "sa" != "sa al" && "al" != "sa al"
  {
    assert |"sa al"| == 5 && |"sa"| == 2 && |"al"| == 2;
  }

  /** Neither token is a name by itself, and at most one is tried at a time. */
  lemma {:induction false} NothingTried(r: Reading)
    requires r.WellFormed() && r.tokens == [Token(0, 2, "sa", "sa"), Token(3, 5, "al", "al")]
    requires r.lists == Lists(Index(map[], 0), Index(map["sa al" := "sa al"], 1), Index(map[], 0))
    ensures NobodyIsNamed(r.Search())
  {
    FormsDiffer();
    assert r.Stripped(0, 1) == "sa" && r.Transliterated(0, 1) == "sa";
    assert r.Stripped(1, 1) == "al" && r.Transliterated(1, 1) == "al";
    assert !r.Listed(0, 1) && !r.Listed(1, 1);
  }

  lemma {:induction false} TwoFormsJoin(r: Reading)
    requires r.tokens == [Token(0, 2, "sa", "sa"), Token(3, 5, "al", "al")]
    requires r.lists.last == Index(map["sa al" := "sa al"], 1)
    ensures r.Find(r.lists.last, 0, 2) == Some("sa al")
  {
    assert seq(2, k requires 0 <= k < 2 => r.tokens[0 + k].stripped) == ["sa", "al"];
    assert seq(2, k requires 0 <= k < 2 => r.tokens[0 + k].transliterated) == ["sa", "al"];
    assert ["sa", "al"][1..] == ["al"];
    assert Join(["sa", "al"]) == "sa" + " " + "al" == "sa al";
  }

  /** The two tokens of the text together have the form of the listed ligature, and the text is left
      alone: the list holds one token, so two are never tried. */
  lemma {:induction false} SpacedNameIsMissed()
    ensures Sound(SAMPLE)
    ensures LeftAlone(SAMPLE, Lastnames([LIGATURE]), WRITTEN_OUT)
    ensures var r := ReadingOf(SAMPLE, Lastnames([LIGATURE]), WRITTEN_OUT);
            |r.tokens| == 2 && r.Find(r.lists.last, 0, 2).Some? && r.lists.MaxTokens() == 1
  {
    SampleIsSound();
    var rules := Lastnames([LIGATURE]);
    var r := ReadingOf(SAMPLE, rules, WRITTEN_OUT);
    NoNamesIndexed();
    LigatureIndexed();
    WrittenOutReads();
    NothingTried(r);
    LeftAloneIff(SAMPLE, rules, WRITTEN_OUT);
    TwoFormsJoin(r);
  }
}
