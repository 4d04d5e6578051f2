/** Scrubbing a scrubbed text: what a second scrub can still find, and when the text stays as it is. */
module SecondScrub {
  import opened Wrappers
  import opened ScrubTypes
  import opened Text
  import opened WindowSearch
  import opened NameMatching
  import opened RegexClaims
  import opened Numbering
  import opened Replacement
  import opened Reversal
  import opened Scrubbing
  import opened ScrubTheorems
  import opened ScrubTwice
  import opened TextCuts
  import opened UnchangedText
  import S = Splicing

  // ---- the names of a scrubbed text ----

  lemma {:induction false} NoTokensNoNames(e: Engine, rules: ScrubRules, text: string)
    requires Sound(e) && e.tokens(text) == []
    ensures Nameless(e, rules, text)
  {}

  lemma {:induction false} PlaceholderSplit(u: string, tag: string, digits: string, v: string)
    ensures u + ("<" + tag + "_" + digits + ">") + v == u + ['<'] + (tag + ['_'] + (digits + ['>'] + v))
  {}

  /** A placeholder between two texts adds no name to theirs but its own tag. */
  lemma {:induction false} NamelessAroundPlaceholder(e: Engine, rules: ScrubRules, u: string, tag: string, number: nat, v: string)
    requires Sound(e) && CutsEverywhere(e)
    ensures Nameless(e, rules, u + Placeholder(tag, number) + v)
       <==> Nameless(e, rules, u) && Nameless(e, rules, tag) && Nameless(e, rules, v)
  {
    var digits := Decimal(number);
    PlaceholderSplit(u, tag, digits, v);
    var inner := digits + ['>'] + v;
    NamelessCutIff(e, rules, u, '<', tag + ['_'] + inner);
    NamelessCutIff(e, rules, tag, '_', inner);
    NamelessCutIff(e, rules, digits, '>', v);
    NoTokensNoNames(e, rules, digits);
  }

  ghost predicate GapsNameless(e: Engine, rules: ScrubRules, text: string, edits: seq<S.Edit>, n: nat)
    requires Sound(e) && S.Fits(edits, |text|) && n <= |edits|
  {
    forall i: nat | i <= n :: Nameless(e, rules, S.Gap(text, edits, i))
  }

  ghost predicate TagsNameless(e: Engine, rules: ScrubRules, cs: seq<Candidate>, n: nat)
    requires Sound(e) && n <= |cs|
  {
    forall i: nat | i < n :: Nameless(e, rules, cs[i].tag)
  }

  lemma {:induction false} OutputNamesIff(e: Engine, rules: ScrubRules, text: string, cs: seq<Candidate>, ns: seq<nat>, n: nat)
    requires Sound(e) && CutsEverywhere(e) && |ns| == |cs| && S.Fits(Edits(cs, ns), |text|) && n <= |cs|
    ensures var edits := Edits(cs, ns);
            Nameless(e, rules, S.Out(text, edits, n) + S.Gap(text, edits, n))
            <==> GapsNameless(e, rules, text, edits, n) && TagsNameless(e, rules, cs, n)
  {
    var edits := Edits(cs, ns);
    if n == 0 {
      assert S.Out(text, edits, 0) + S.Gap(text, edits, 0) == S.Gap(text, edits, 0);
    } else {
      var m := n - 1;
      OutputNamesIff(e, rules, text, cs, ns, m);
      EditOfChosen(cs, ns, m);
      var before := S.Out(text, edits, m) + S.Gap(text, edits, m);
      assert S.Out(text, edits, n) == before + Placeholder(cs[m].tag, ns[m]);
      NamelessAroundPlaceholder(e, rules, before, cs[m].tag, ns[m], S.Gap(text, edits, n));
      GapsNext(e, rules, text, edits, m);
      TagsNext(e, rules, cs, m);
    }
  }

  lemma {:induction false} GapsNext(e: Engine, rules: ScrubRules, text: string, edits: seq<S.Edit>, n: nat)
    requires Sound(e) && S.Fits(edits, |text|) && n < |edits|
    ensures GapsNameless(e, rules, text, edits, n + 1)
       <==> GapsNameless(e, rules, text, edits, n) && Nameless(e, rules, S.Gap(text, edits, n + 1))
  {}

  lemma {:induction false} TagsNext(e: Engine, rules: ScrubRules, cs: seq<Candidate>, n: nat)
    requires Sound(e) && n < |cs|
    ensures TagsNameless(e, rules, cs, n + 1) <==> TagsNameless(e, rules, cs, n) && Nameless(e, rules, cs[n].tag)
  {}

  /** What a scrub kept of the text before hit `i`, back to the hit before it; after the last hit, the rest. */
  function KeptPiece(text: string, hits: seq<Hit>, i: nat): string
    requires i <= |hits|
  {
    var a, b := EndOf(hits, i), if i < |hits| then hits[i].start else |text|;
    if a <= b <= |text| then text[a..b] else ""
  }

  ghost predicate PiecesNameless(e: Engine, rules: ScrubRules, text: string, hits: seq<Hit>)
    requires Sound(e)
  {
    && (forall i: nat | i <= |hits| :: Nameless(e, rules, KeptPiece(text, hits, i)))
    && (forall i: nat | i < |hits| :: Nameless(e, rules, hits[i].tag))
  }

  ghost predicate SameSpans(hits: seq<Hit>, edits: seq<S.Edit>) {
    |hits| == |edits| && forall i {:trigger hits[i]} | 0 <= i < |hits| :: hits[i].start == edits[i].start && hits[i].end == edits[i].end
  }

  lemma {:induction false} HitsSpanEdits(text: string, cs: seq<Candidate>)
    requires Disjoint(cs, |text|)
    ensures SameSpans(Replaced(text, cs).hits, Edits(cs, Numbers(cs)))
  {
    if cs == [] {
      assert Replaced(text, cs).hits == [] && Edits(cs, Numbers(cs)) == [];
    } else {
      EditOfHit(text, cs, 0);
    }
    var hits, edits := Replaced(text, cs).hits, Edits(cs, Numbers(cs));
    forall i {:trigger hits[i]} | 0 <= i < |hits| ensures hits[i].start == edits[i].start && hits[i].end == edits[i].end {
      EditOfHit(text, cs, i);
    }
  }

  lemma {:induction false} PieceIsGap(text: string, hits: seq<Hit>, edits: seq<S.Edit>, i: nat)
    requires S.Fits(edits, |text|) && SameSpans(hits, edits) && i <= |edits|
    ensures KeptPiece(text, hits, i) == S.Gap(text, edits, i)
  {
    if i > 0 { assert hits[i - 1].end == edits[i - 1].end; }
    if i < |edits| { assert hits[i].start == edits[i].start; }
  }

  lemma {:induction false} PiecesAreGaps(e: Engine, rules: ScrubRules, text: string, cs: seq<Candidate>)
    requires Sound(e) && Disjoint(cs, |text|)
    ensures S.Fits(Edits(cs, Numbers(cs)), |text|) && |Edits(cs, Numbers(cs))| == |cs|
    ensures PiecesNameless(e, rules, text, Replaced(text, cs).hits)
       <==> GapsNameless(e, rules, text, Edits(cs, Numbers(cs)), |cs|) && TagsNameless(e, rules, cs, |cs|)
  {
    var hits, edits := Replaced(text, cs).hits, Edits(cs, Numbers(cs));
    EditsFit(cs, Numbers(cs), |text|);
    HitsSpanEdits(text, cs);
    forall i: nat | i <= |cs| ensures KeptPiece(text, hits, i) == S.Gap(text, edits, i) {
      PieceIsGap(text, hits, edits, i);
    }
    forall i: nat | i < |cs| ensures hits[i].tag == cs[i].tag {
      HitOfChosen(text, cs, i);
    }
  }

  lemma {:induction false} ReplacedNamesIff(e: Engine, rules: ScrubRules, text: string, cs: seq<Candidate>)
    requires Sound(e) && CutsEverywhere(e) && Disjoint(cs, |text|)
    ensures Nameless(e, rules, Replaced(text, cs).text) <==> PiecesNameless(e, rules, text, Replaced(text, cs).hits)
  {
    EditsFit(cs, Numbers(cs), |text|);
    OutputNamesIff(e, rules, text, cs, Numbers(cs), |cs|);
    PiecesAreGaps(e, rules, text, cs);
  }

  /** In a scrubbed text nobody is named exactly when no piece that was kept of the first text names
      anybody and no tag that was put in is a name. */
  lemma {:induction false} SecondNamesIff(e: Engine, rules: ScrubRules, text: string)
    requires Sound(e) && CutsEverywhere(e) && text != "" && Scrubbed(e, rules, text).Success?
    ensures var once := Scrubbed(e, rules, text).value;
            Nameless(e, rules, once.text) <==> PiecesNameless(e, rules, text, once.hits)
  {
    ChosenFits(e, rules, text);
    ReplacedNamesIff(e, rules, text, ChosenIn(e, rules, text, Collected(e, rules.regexRules, text).value));
  }

  lemma {:induction false} OutputNotEmpty(text: string, r: ScrubResult)
    requires ReadsAs(text, r) && text != ""
    ensures r.text != ""
  {
    if r.hits != [] {
      assert HitReads(text, r, 0);
    } else {
      assert r.text[0..] == text[0..];
      assert r.text == r.text[0..] && text == text[0..];
    }
  }

  /** A second scrub finds nothing exactly when no rule matches in the scrubbed text, no kept piece of
      the first text names anybody and no tag is a name. */
  lemma {:induction false} SecondScrubFindsNothingIff(e: Engine, rules: ScrubRules, text: string)
    requires Sound(e) && CutsEverywhere(e) && text != "" && Scrubbed(e, rules, text).Success?
    ensures var once := Scrubbed(e, rules, text).value;
            LeftAlone(e, rules, once.text) <==> NoRuleMatches(e, rules.regexRules, once.text) && PiecesNameless(e, rules, text, once.hits)
  {
    ScrubIsReversible(e, rules, text);
    OutputNotEmpty(text, Scrubbed(e, rules, text).value);
    LeftAloneIff(e, rules, Scrubbed(e, rules, text).value.text);
    SecondNamesIff(e, rules, text);
  }

  // ---- names hold no mark ----

  lemma {:induction false} SpansAside(all: seq<Span>, p: seq<Span>, q: seq<Span>, at: nat, k: nat)
    requires all == p + Shifted(q, at + 1) && k < |all| && Ordered(p, at)
    ensures k < |p| ==> all[k].end <= at
    ensures |p| <= k ==> at < all[k].start
  {
    if |p| <= k { assert all[k] == Shifted(q, at + 1)[k - |p|]; }
  }

  lemma {:induction false} CutAt(text: string, at: nat)
    requires at < |text|
    ensures text == text[..at] + [text[at]] + text[at + 1..]
  {}

  lemma {:induction false} WindowAside(e: Engine, rules: ScrubRules, text: string, u: string, c: char, v: string, w: Window)
    requires Sound(e) && CutsEverywhere(e) && IsCut(c) && text == u + [c] + v
    requires ReadingOf(e, rules, text).Search().Qualifies(w.first, w.count)
    ensures w.count >= 1 && w.first + w.count <= |e.tokens(text)|
    ensures e.tokens(text)[w.first + w.count - 1].end <= |u| || |u| < e.tokens(text)[w.first].start
  {
    CutReading(e, rules, u, c, v, text);
    NoneAcross(ReadingOf(e, rules, text), ReadingOf(e, rules, u), ReadingOf(e, rules, v), w.first, w.count);
    var all, p, q := e.tokens(text), e.tokens(u), e.tokens(v);
    assert Ordered(p, |u|);
    SpansAside(all, p, q, |u|, w.first);
    SpansAside(all, p, q, |u|, w.first + w.count - 1);
  }

  lemma {:induction false} FoundQualifies(w: Windows, k: nat)
    requires k < |w.SearchFrom(0)|
    ensures w.Qualifies(w.SearchFrom(0)[k].first, w.SearchFrom(0)[k].count)
  {
    w.SearchIsLeftmostLongest(0);
    var x := w.SearchFrom(0)[k];
    assert x in w.SearchFrom(0);
    assert w.Proper(x);
  }

  lemma {:induction false} TokenSpan(e: Engine, text: string, i: nat)
    requires Ordered(e.tokens(text), |text|) && i < |e.tokens(text)|
    ensures |TokensIn(e, text)| == |e.tokens(text)|
    ensures TokensIn(e, text)[i].start == e.tokens(text)[i].start && TokensIn(e, text)[i].end == e.tokens(text)[i].end
  {}

  lemma {:induction false} WindowOfName(e: Engine, text: string, r: Reading, k: nat) returns (c: Candidate, w: Window)
    requires Ordered(e.tokens(text), |text|) && r.WellFormed() && r.tokens == TokensIn(e, text) && k < |NamesIn(r)|
    ensures c == NamesIn(r)[k] && r.Search().Qualifies(w.first, w.count)
    ensures w.count >= 1 && w.first + w.count <= |e.tokens(text)|
    ensures c.start == e.tokens(text)[w.first].start && c.end == e.tokens(text)[w.first + w.count - 1].end
  {
    NamesCount(r);
    c, w := NameSpan(r, k);
    FoundQualifies(r.Search(), k);
    TokenSpan(e, text, w.first);
    TokenSpan(e, text, w.first + w.count - 1);
  }

  lemma {:induction false} NameHoldsNoCut(e: Engine, rules: ScrubRules, text: string, k: nat, c: Candidate, at: nat)
    requires Sound(e) && CutsEverywhere(e) && k < |NamesIn(ReadingOf(e, rules, text))|
    requires c == NamesIn(ReadingOf(e, rules, text))[k] && c.start <= at < c.end <= |text|
    ensures !IsCut(text[at])
  {
    var _, w := WindowOfName(e, text, ReadingOf(e, rules, text), k);
    if IsCut(text[at]) {
      CutAt(text, at);
      WindowAside(e, rules, text, text[..at], text[at], text[at + 1..], w);
    }
  }

  lemma {:induction false} UncutSlice(text: string, a: nat, b: nat)
    requires a <= b <= |text| && forall at | a <= at < b :: !IsCut(text[at])
    ensures '<' !in text[a..b]
  {}

  lemma {:induction false} NamesTakeNoMark(e: Engine, rules: ScrubRules, text: string, c: Candidate)
    requires Sound(e) && CutsEverywhere(e) && c in NamesIn(ReadingOf(e, rules, text))
    ensures TakesNoMark(text, c)
  {
    var names := NamesIn(ReadingOf(e, rules, text));
    NamesAreDisjoint(e, rules, text);
    var k: nat :| k < |names| && names[k] == c;
    forall at: nat | c.start <= at < c.end ensures !IsCut(text[at]) {
      NameHoldsNoCut(e, rules, text, k, c, at);
    }
    UncutSlice(text, c.start, c.end);
  }

  // ---- the text comes back ----

  /** No match of a rule holds the mark a placeholder begins with. */
  ghost predicate MatchesHoldNoMark(e: Engine, rules: seq<RegexRule>, text: string)
    requires Sound(e)
  {
    forall i | 0 <= i < |rules| && e.find(rules[i].pattern, text).Some? :: MarkFreeSpans(e.find(rules[i].pattern, text).value, text)
  }

  ghost predicate MarkFreeSpans(spans: seq<Span>, text: string)
    requires forall k | 0 <= k < |spans| :: spans[k].start <= spans[k].end <= |text|
  {
    forall k | 0 <= k < |spans| :: '<' !in text[spans[k].start..spans[k].end]
  }

  lemma {:induction false} OfRuleMarkFree(e: Engine, rule: RegexRule, order: nat, text: string, spans: seq<Span>)
    requires (forall k | 0 <= k < |spans| :: spans[k].start <= spans[k].end <= |text|) && MarkFreeSpans(spans, text)
    ensures forall x | x in OfRule(e, rule, order, text, spans) :: TakesNoMark(text, x.candidate)
  {
    if spans != [] { OfRuleMarkFree(e, rule, order, text, spans[..|spans| - 1]); }
  }

  lemma {:induction false} CollectedMarkFree(e: Engine, rules: seq<RegexRule>, text: string)
    requires Sound(e) && Collected(e, rules, text).Success? && MatchesHoldNoMark(e, rules, text)
    ensures forall x | x in Collected(e, rules, text).value :: TakesNoMark(text, x.candidate)
  {
    if rules != [] {
      var n := |rules| - 1;
      assert forall i | 0 <= i < n :: rules[..n][i] == rules[i];
      CollectedMarkFree(e, rules[..n], text);
      OfRuleMarkFree(e, rules[n], n, text, e.find(rules[n].pattern, text).value);
    }
  }

  lemma {:induction false} ChosenTakeNoMark(e: Engine, rules: ScrubRules, text: string, c: Candidate)
    requires Sound(e) && CutsEverywhere(e) && Collected(e, rules.regexRules, text).Success?
    requires MatchesHoldNoMark(e, rules.regexRules, text)
    requires c in ChosenIn(e, rules, text, Collected(e, rules.regexRules, text).value)
    ensures TakesNoMark(text, c)
  {
    var found := Collected(e, rules.regexRules, text).value;
    ChosenFits(e, rules, text);
    NamesAreDisjoint(e, rules, text);
    ChosenIsDisjoint(Resolved(found), NamesIn(ReadingOf(e, rules, text)), |text|);
    if c in Resolved(found) {
      CollectedFacts(e, rules.regexRules, text);
      ClaimsAreDisjointAndMaximal(found, |text|);
      CollectedMarkFree(e, rules.regexRules, text);
    } else {
      NamesTakeNoMark(e, rules, text, c);
    }
  }

  /** Where no match of a rule holds a `<`, a scrub gives back its text only when it finds nothing. */
  lemma {:induction false} TextComesBackIff(e: Engine, rules: ScrubRules, text: string)
    requires Sound(e) && CutsEverywhere(e) && text != "" && MatchesHoldNoMark(e, rules.regexRules, text)
    ensures Scrubbed(e, rules, text).Success? && Scrubbed(e, rules, text).value.text == text <==> LeftAlone(e, rules, text)
  {
    if Scrubbed(e, rules, text).Success? {
      var chosen := ChosenIn(e, rules, text, Collected(e, rules.regexRules, text).value);
      ChosenFits(e, rules, text);
      forall c | c in chosen ensures TakesNoMark(text, c) {
        ChosenTakeNoMark(e, rules, text, c);
      }
      MarkFreeIff(text, chosen);
      LeftAloneIffNothingChosen(e, rules, text);
    }
  }

  /** Scrubbing a scrubbed text gives it back if and only if no rule matches in it, no kept piece of
      the first text names anybody and no tag is a name, given that no match in it holds a `<`. */
  lemma {:induction false} ScrubbingTwiceIff(e: Engine, rules: ScrubRules, text: string)
    requires Sound(e) && CutsEverywhere(e) && text != "" && Scrubbed(e, rules, text).Success?
    requires MatchesHoldNoMark(e, rules.regexRules, Scrubbed(e, rules, text).value.text)
    ensures var once := Scrubbed(e, rules, text).value;
            var twice := Scrubbed(e, rules, once.text);
            twice.Success? && twice.value.text == once.text
            <==> NoRuleMatches(e, rules.regexRules, once.text) && PiecesNameless(e, rules, text, once.hits)
  {
    ScrubIsReversible(e, rules, text);
    OutputNotEmpty(text, Scrubbed(e, rules, text).value);
    TextComesBackIff(e, rules, Scrubbed(e, rules, text).value.text);
    SecondScrubFindsNothingIff(e, rules, text);
  }

  /** Matches with a `<` in them do not matter where every hit of the second scrub reads as its
      placeholder already. */
  lemma {:induction false} PlaceholdersAreScrubbedToThemselves(e: Engine, rules: ScrubRules, text: string)
    requires Sound(e) && text != "" && Scrubbed(e, rules, text).Success?
    requires AllReadAsThemselves(text, Scrubbed(e, rules, text).value.hits)
    ensures Scrubbed(e, rules, text).value.text == text
  {
    ChosenFits(e, rules, text);
    PlaceholdersStay(text, ChosenIn(e, rules, text, Collected(e, rules.regexRules, text).value));
  }

  /** And where every hit is as long as its placeholder, only then does the text come back. */
  lemma {:induction false} SameLengthTextComesBackIff(e: Engine, rules: ScrubRules, text: string)
    requires Sound(e) && text != "" && Scrubbed(e, rules, text).Success?
    requires AllSameLength(Scrubbed(e, rules, text).value.hits)
    ensures Scrubbed(e, rules, text).value.text == text <==> AllReadAsThemselves(text, Scrubbed(e, rules, text).value.hits)
  {
    ChosenFits(e, rules, text);
    SameLengthIff(text, ChosenIn(e, rules, text, Collected(e, rules.regexRules, text).value));
  }
}
