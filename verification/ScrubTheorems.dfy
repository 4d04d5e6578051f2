/** What a whole scrub guarantees, for every text, rule set and engine. */
module ScrubTheorems {
  import opened Wrappers
  import opened ScrubTypes
  import opened Text
  import opened NameIndexes
  import opened WindowSearch
  import opened NameMatching
  import opened NameTagging
  import opened RegexClaims
  import opened Replacement
  import opened Reversal
  import opened Scrubbing

  // ---- reversible, numbered, fail closed ----

  /** Nothing but the hits changes, and the hits with their original slices give the text back. */
  lemma {:induction false} ScrubIsReversible(e: Engine, rules: ScrubRules, text: string)
    requires Sound(e) && Scrubbed(e, rules, text).Success?
    ensures Reversible(text, Scrubbed(e, rules, text).value)
  {
    if text == "" {
      ReadsIsReversible(text, ScrubResult(text, []));
    } else {
      ChosenFits(e, rules, text);
      var chosen := ChosenIn(e, rules, text, Collected(e, rules.regexRules, text).value);
      OnlyTheHitsChange(text, chosen);
      ReadsIsReversible(text, Replaced(text, chosen));
    }
  }

  /** A scrub fails exactly when some rule runs out of time, and then there is no text. */
  lemma {:induction false} ScrubFailsClosed(e: Engine, rules: ScrubRules, text: string)
    requires Sound(e) && text != ""
    ensures Scrubbed(e, rules, text).Failure? <==>
              exists i :: 0 <= i < |rules.regexRules| && e.find(rules.regexRules[i].pattern, text).None?
  {
    FailsClosed(e, rules.regexRules, text);
  }

  /** The hits are the chosen candidates, numbered by value. */
  lemma {:induction false} ScrubNumbersValues(e: Engine, rules: ScrubRules, text: string)
    requires Sound(e) && text != "" && Scrubbed(e, rules, text).Success?
    ensures NumbersValues(ChosenIn(e, rules, text, Collected(e, rules.regexRules, text).value),
                          Scrubbed(e, rules, text).value.hits)
  {
    ChosenFits(e, rules, text);
    ReplacedNumbersValues(text, ChosenIn(e, rules, text, Collected(e, rules.regexRules, text).value));
  }

  // ---- no listed name is missed ----

  ghost predicate CoversToken(c: Candidate, t: Token) { c.start <= t.start && t.end <= c.end }

  /** Name candidate `k` spans exactly the tokens of window `k`. */
  lemma {:induction false} NameSpan(r: Reading, k: nat) returns (c: Candidate, w: Window)
    requires r.WellFormed() && k < |r.Search().SearchFrom(0)|
    ensures k < |NamesIn(r)| && c == NamesIn(r)[k] && w == r.Search().SearchFrom(0)[k]
    ensures w.count >= 1 && w.first + w.count <= |r.tokens|
    ensures c.start == r.tokens[w.first].start && c.end == r.tokens[w.first + w.count - 1].end
    ensures c.entry.Some?
  {
    MatchesAreTaggable(r);
    w := MatchIsWindow(r, k);
    var m;
    c, m := TaggedSpan(r.Matches(), r.tokens, r.joined, k);
    assert m.first == w.first && m.count == w.count;
  }

  lemma {:induction false} NamesCount(r: Reading)
    requires r.WellFormed()
    ensures |NamesIn(r)| == |r.Search().SearchFrom(0)|
  {}

  lemma {:induction false} MatchIsWindow(r: Reading, k: nat) returns (w: Window)
    requires r.WellFormed() && k < |r.Search().SearchFrom(0)|
    ensures w == r.Search().SearchFrom(0)[k] && k < |r.Matches()|
    ensures r.Matches()[k].first == w.first && r.Matches()[k].count == w.count
  {
    w := r.Search().SearchFrom(0)[k];
  }

  lemma {:induction false} CoveringWindow(w: Windows, t: nat, n: nat) returns (k: nat)
    requires w.Qualifies(t, n)
    ensures k < |w.SearchFrom(0)| && w.SearchFrom(0)[k].Covers(t)
  {
    w.QualifyingWindowIsCovered(t, n);
    var x :| x in w.SearchFrom(0) && x.Covers(t);
    k :| 0 <= k < |w.SearchFrom(0)| && w.SearchFrom(0)[k] == x;
  }

  lemma {:induction false} SpanCovers(tokens: seq<Token>, length: nat, c: Candidate, w: Window, t: nat)
    requires Increasing(tokens, length) && w.count >= 1 && w.first + w.count <= |tokens| && w.Covers(t)
    requires c.start == tokens[w.first].start && c.end == tokens[w.first + w.count - 1].end
    ensures t < |tokens| && CoversToken(c, tokens[t])
  {
    TokenSpans(tokens, length, w.first, t, w.first + w.count - 1);
  }

  lemma {:induction false} CoveringName(r: Reading, t: nat, n: nat, length: nat) returns (k: nat)
    requires r.WellFormed() && r.Search().Qualifies(t, n) && Increasing(r.tokens, length)
    ensures k < |NamesIn(r)| && CoversToken(NamesIn(r)[k], r.tokens[t]) && NamesIn(r)[k].entry.Some?
  {
    k := CoveringWindow(r.Search(), t, n);
    var c, w := NameSpan(r, k);
    SpanCovers(r.tokens, length, c, w, t);
  }

  lemma {:induction false} TokenSpans(tokens: seq<Token>, length: nat, i: nat, t: nat, j: nat)
    requires Increasing(tokens, length) && i <= t <= j < |tokens|
    ensures tokens[i].start <= tokens[t].start && tokens[t].end <= tokens[j].end
  {}

  /** Every window that names somebody has its first token inside a name candidate; that candidate
      is replaced if and only if no regex claim overlaps it. */
  lemma {:induction false} ListedNameIsReplacedUnlessClaimed(e: Engine, rules: ScrubRules, text: string, t: nat, n: nat) returns (c: Candidate)
    requires Sound(e) && Collected(e, rules.regexRules, text).Success?
    requires ReadingOf(e, rules, text).Search().Qualifies(t, n)
    ensures var found := Collected(e, rules.regexRules, text).value;
            && c in NamesIn(ReadingOf(e, rules, text)) && CoversToken(c, TokensIn(e, text)[t])
            && (c in ChosenIn(e, rules, text, found) <==> !Overlaps(c, Resolved(found)))
  {
    var r := ReadingOf(e, rules, text);
    var claimed := Resolved(Collected(e, rules.regexRules, text).value);
    TokensIncrease(e, text);
    var k := CoveringName(r, t, n, |text|);
    c := NamesIn(r)[k];
    ChosenFits(e, rules, text);
    NamesAreDisjoint(e, rules, text);
    ClaimsHaveNoEntry(e, rules.regexRules, text);
    ChosenDecides(claimed, NamesIn(r), |text|, c);
  }

  lemma {:induction false} ClaimsHaveNoEntry(e: Engine, rules: seq<RegexRule>, text: string)
    requires Sound(e) && Collected(e, rules, text).Success?
    ensures forall c | c in Resolved(Collected(e, rules, text).value) ::
              c.entry == None && exists i :: 0 <= i < |rules| && c.ruleId == rules[i].ruleId
  {
    CollectedFacts(e, rules, text);
    ClaimsAreDisjointAndMaximal(Collected(e, rules, text).value, |text|);
  }

  lemma {:induction false} ChosenDecides(claimed: seq<Candidate>, names: seq<Candidate>, length: nat, c: Candidate)
    requires Disjoint(claimed, length) && Disjoint(names, length) && c in names && c !in claimed
    ensures c in Chosen(claimed, names) <==> !Overlaps(c, claimed)
  {
    ChosenIsDisjoint(claimed, names, length);
  }

  ghost predicate AllSpaceFree(words: seq<string>) { forall k | 0 <= k < |words| :: SpaceFree(words[k]) }

  lemma {:induction false} FormWidth(e: Engine, entry: string, window: seq<string>)
    requires Ordered(e.tokens(entry), |entry|) && AllSpaceFree(window)
    requires var words := Words(entry, e.tokens(entry));
             AllSpaceFree(Each(e.stripped, words)) && AllSpaceFree(Each(e.transliterated, words))
    requires var x := Normalise(e, entry); Join(window) == x.stripped || Join(window) == x.key
    ensures |window| == Normalise(e, entry).width
  {
    var words := Words(entry, e.tokens(entry));
    if Join(window) == Normalise(e, entry).stripped {
      JoinInjective(window, Each(e.stripped, words));
    } else {
      JoinInjective(window, Each(e.transliterated, words));
    }
  }

  lemma {:induction false} WindowFits(e: Engine, entries: seq<string>, window: seq<string>)
    requires Sound(e) && AllSpaceFree(window) && Join(window) in BuildIndex(e, entries).keys
    requires forall x | x in entries :: AllSpaceFree(Each(e.stripped, Words(x, e.tokens(x))))
    requires forall x | x in entries :: AllSpaceFree(Each(e.transliterated, Words(x, e.tokens(x))))
    ensures |window| <= BuildIndex(e, entries).maxTokens
  {
    var all := Normalised(e, entries);
    var k := KeyComesFrom(all, Join(window));
    assert all[k] == Normalise(e, entries[k]) && entries[k] in entries && all[k] in all;
    FormWidth(e, entries[k], window);
    IndexWidth(all);
  }

  /** When no normal form holds a space, a window of more than `max_tokens` tokens is on no list:
      the bound on the search loses no name. */
  lemma {:induction false} WiderWindowsAreOnNoList(e: Engine, entries: seq<string>, stripped: seq<string>, transliterated: seq<string>)
    requires Sound(e) && |stripped| == |transliterated| && AllSpaceFree(stripped) && AllSpaceFree(transliterated)
    requires forall x | x in entries :: AllSpaceFree(Each(e.stripped, Words(x, e.tokens(x))))
    requires forall x | x in entries :: AllSpaceFree(Each(e.transliterated, Words(x, e.tokens(x))))
    requires BuildIndex(e, entries).Lookup(Join(stripped), Join(transliterated)).Some?
    ensures |stripped| <= BuildIndex(e, entries).maxTokens
  {
    if Join(stripped) in BuildIndex(e, entries).keys {
      WindowFits(e, entries, stripped);
    } else {
      WindowFits(e, entries, transliterated);
    }
  }
}
