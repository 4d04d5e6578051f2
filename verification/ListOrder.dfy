/** What the order of a list's entries decides: never a span, and the names given to the spans only
    where one form has two keys. */
module ListOrder {
  import opened Wrappers
  import opened ScrubTypes
  import opened NameIndexes
  import opened WindowSearch
  import opened NameMatching
  import opened RegexClaims
  import opened Scrubbing
  import opened ScrubTheorems
  import opened Sorting

  // ---- the spans ----

  function Spans(cs: seq<Candidate>): seq<Span> {
    seq(|cs|, i requires 0 <= i < |cs| => cs[i].AsSpan())
  }

  ghost predicate SameEntries(a: seq<string>, b: seq<string>) {
    forall x :: x in a <==> x in b
  }

  lemma {:induction false} SameSpansSameSurvivors(a: seq<Candidate>, b: seq<Candidate>, claimed: seq<Candidate>)
    requires Spans(a) == Spans(b)
    ensures Spans(NotOverlapping(a, claimed)) == Spans(NotOverlapping(b, claimed))
  {
    assert |a| == |b| by { assert |Spans(a)| == |Spans(b)|; }
    if a != [] {
      assert Spans(a)[0] == Spans(b)[0];
      assert Spans(a[1..]) == Spans(a)[1..] == Spans(b)[1..] == Spans(b[1..]);
      SameSpansSameSurvivors(a[1..], b[1..], claimed);
      var s, t := NotOverlapping(a[1..], claimed), NotOverlapping(b[1..], claimed);
      assert Spans([a[0]] + s) == [a[0].AsSpan()] + Spans(s);
      assert Spans([b[0]] + t) == [b[0].AsSpan()] + Spans(t);
    }
  }

  lemma {:induction false} SameSpansInsert(c: Candidate, d: Candidate, a: seq<Candidate>, b: seq<Candidate>)
    requires Spans(a) == Spans(b) && c.AsSpan() == d.AsSpan()
    ensures Spans(Insert(ByStart, c, a)) == Spans(Insert(ByStart, d, b))
  {
    assert |a| == |b| by { assert |Spans(a)| == |Spans(b)|; }
    SpansCons(c, a);
    SpansCons(d, b);
    if a != [] {
      assert Spans(a)[0] == Spans(b)[0];
      assert Spans(a[1..]) == Spans(a)[1..] == Spans(b)[1..] == Spans(b[1..]);
      SameSpansInsert(c, d, a[1..], b[1..]);
      SpansCons(a[0], Insert(ByStart, c, a[1..]));
      SpansCons(b[0], Insert(ByStart, d, b[1..]));
    }
  }

  lemma {:induction false} SpansCons(c: Candidate, rest: seq<Candidate>)
    ensures Spans([c] + rest) == [c.AsSpan()] + Spans(rest)
  {}

  lemma {:induction false} SameSpansSort(a: seq<Candidate>, b: seq<Candidate>)
    requires Spans(a) == Spans(b)
    ensures Spans(Sort(ByStart, a)) == Spans(Sort(ByStart, b))
  {
    assert |a| == |b| by { assert |Spans(a)| == |Spans(b)|; }
    if a != [] {
      assert Spans(a)[0] == Spans(b)[0];
      assert Spans(a[1..]) == Spans(a)[1..] == Spans(b)[1..] == Spans(b[1..]);
      SameSpansSort(a[1..], b[1..]);
      SameSpansInsert(a[0], b[0], Sort(ByStart, a[1..]), Sort(ByStart, b[1..]));
    }
  }

  function SpanOf(tokens: seq<Token>, w: Window): Span {
    if w.count >= 1 && w.first + w.count <= |tokens| then Span(tokens[w.first].start, tokens[w.first + w.count - 1].end)
    else Span(0, 0)
  }

  function WindowSpans(tokens: seq<Token>, ws: seq<Window>): seq<Span> {
    seq(|ws|, k requires 0 <= k < |ws| => SpanOf(tokens, ws[k]))
  }

  lemma {:induction false} NamesSpanWindows(r: Reading)
    requires r.WellFormed()
    ensures Spans(NamesIn(r)) == WindowSpans(r.tokens, r.Search().SearchFrom(0))
  {
    var ws, names := r.Search().SearchFrom(0), NamesIn(r);
    NamesCount(r);
    forall k: nat | k < |ws| ensures names[k].AsSpan() == SpanOf(r.tokens, ws[k]) {
      var _, _ := NameSpan(r, k);
    }
  }

  lemma {:induction false} SameSearchSameSpans(a: Reading, b: Reading)
    requires a.WellFormed() && b.WellFormed() && a.tokens == b.tokens
    requires a.Search().SearchFrom(0) == b.Search().SearchFrom(0)
    ensures Spans(NamesIn(a)) == Spans(NamesIn(b))
  {
    NamesSpanWindows(a);
    NamesSpanWindows(b);
  }

  lemma {:induction false} SameChosenSpans(claimed: seq<Candidate>, a: seq<Candidate>, b: seq<Candidate>)
    requires Spans(a) == Spans(b)
    ensures Spans(Chosen(claimed, a)) == Spans(Chosen(claimed, b))
  {
    SameSpansSameSurvivors(a, b, claimed);
    var s, t := NotOverlapping(a, claimed), NotOverlapping(b, claimed);
    assert Spans(claimed + s) == Spans(claimed) + Spans(s);
    assert Spans(claimed + t) == Spans(claimed) + Spans(t);
    SameSpansSort(claimed + s, claimed + t);
  }

  lemma {:induction false} SameLookups(e: Engine, a: seq<string>, b: seq<string>)
    requires Sound(e) && SameEntries(a, b) && KeysNeverEmpty(Normalised(e, a))
    ensures forall s, t :: BuildIndex(e, a).Lookup(s, t).Some? <==> BuildIndex(e, b).Lookup(s, t).Some?
    ensures BuildIndex(e, a).maxTokens == BuildIndex(e, b).maxTokens
  {
    SameEntriesSameForms(e, a, b);
    ListOrderDecidesNothing(Normalised(e, a), Normalised(e, b));
  }

  /** Permuting or repeating the entries of the name lists never changes which spans are replaced. */
  lemma {:induction false} ListOrderNeverMovesASpan(e: Engine, rules: ScrubRules, other: ScrubRules, text: string)
    requires Sound(e) && rules.regexRules == other.regexRules
    requires SameEntries(rules.firstnames, other.firstnames) && KeysNeverEmpty(Normalised(e, rules.firstnames))
    requires SameEntries(rules.lastnames, other.lastnames) && KeysNeverEmpty(Normalised(e, rules.lastnames))
    requires SameEntries(rules.whitelist, other.whitelist) && KeysNeverEmpty(Normalised(e, rules.whitelist))
    requires Collected(e, rules.regexRules, text).Success?
    ensures var found := Collected(e, rules.regexRules, text).value;
            Spans(ChosenIn(e, rules, text, found)) == Spans(ChosenIn(e, other, text, found))
  {
    SameLookups(e, rules.firstnames, other.firstnames);
    SameLookups(e, rules.lastnames, other.lastnames);
    SameLookups(e, rules.whitelist, other.whitelist);
    var a, b := ReadingOf(e, rules, text), ReadingOf(e, other, text);
    SameListsSameSpans(a, b);
    SameSearchSameSpans(a, b);
    SameChosenSpans(Resolved(Collected(e, rules.regexRules, text).value), NamesIn(a), NamesIn(b));
  }

  // ---- tags, keys and numbers ----

  lemma {:induction false} SameNameIndex(e: Engine, a: seq<string>, b: seq<string>)
    requires Sound(e) && SameEntries(a, b) && OneKeyPerForm(Normalised(e, a))
    ensures BuildIndex(e, a) == BuildIndex(e, b)
  {
    SameEntriesSameForms(e, a, b);
    SameEntriesSameIndex(Normalised(e, a), Normalised(e, b));
  }

  lemma {:induction false} SameSearchSameNames(a: Reading, b: Reading)
    requires a.WellFormed() && b.WellFormed() && a.tokens == b.tokens && a.joined == b.joined
    requires a.lists.first == b.lists.first && a.lists.last == b.lists.last
    requires a.Search().SearchFrom(0) == b.Search().SearchFrom(0)
    ensures NamesIn(a) == NamesIn(b)
  {
    forall w: Window ensures a.MatchAt(w) == b.MatchAt(w) {
      if w.first + w.count <= |a.tokens| {
        assert a.Stripped(w.first, w.count) == b.Stripped(w.first, w.count);
        assert a.Transliterated(w.first, w.count) == b.Transliterated(w.first, w.count);
      }
    }
    assert a.Matches() == b.Matches();
  }

  /** Where no form of the name lists has two keys, lists of the same entries, in any order and
      with any repeats, give one scrub: the same spans, tags, keys, numbers and text. */
  lemma {:induction false} SameEntriesSameScrub(e: Engine, rules: ScrubRules, other: ScrubRules, text: string)
    requires Sound(e) && rules.regexRules == other.regexRules
    requires SameEntries(rules.firstnames, other.firstnames) && OneKeyPerForm(Normalised(e, rules.firstnames))
    requires SameEntries(rules.lastnames, other.lastnames) && OneKeyPerForm(Normalised(e, rules.lastnames))
    requires SameEntries(rules.whitelist, other.whitelist) && KeysNeverEmpty(Normalised(e, rules.whitelist))
    ensures Scrubbed(e, rules, text) == Scrubbed(e, other, text)
  {
    SameNameIndex(e, rules.firstnames, other.firstnames);
    SameNameIndex(e, rules.lastnames, other.lastnames);
    SameLookups(e, rules.whitelist, other.whitelist);
    var a, b := ReadingOf(e, rules, text), ReadingOf(e, other, text);
    SameListsSameSpans(a, b);
    SameSearchSameNames(a, b);
  }
}
