/** Which windows of a text name somebody, told of the text and the entries of the lists. */
module NamesInText {
  import opened Wrappers
  import opened ScrubTypes
  import opened Text
  import opened NameIndexes
  import opened NameMatching
  import opened NameLists
  import opened Scrubbing

  /** Some entry of the list, of three letters or more, has one of the two forms. */
  ghost predicate OnList(e: Engine, list: seq<string>, stripped: string, transliterated: string)
    requires Sound(e)
  {
    exists i :: 0 <= i < |list| && Named(e, list[i], stripped, transliterated)
  }

  ghost predicate Named(e: Engine, entry: string, stripped: string, transliterated: string)
    requires Sound(e)
  {
    var words := Words(entry, e.tokens(entry));
    var forms := {Join(Each(e.stripped, words)), Join(Each(e.transliterated, words))};
    Letters(Each(e.stripped, words)) >= 3 && (stripped in forms || transliterated in forms)
  }

  lemma {:induction false} OnListIff(e: Engine, list: seq<string>, stripped: string, transliterated: string)
    requires Sound(e) && KeysNeverEmpty(Normalised(e, list))
    ensures BuildIndex(e, list).Lookup(stripped, transliterated).Some? <==> OnList(e, list, stripped, transliterated)
  {
    var all := Normalised(e, list);
    FoundBySome(all, stripped, transliterated);
    forall i: nat | i < |list| ensures Named(e, list[i], stripped, transliterated) <==> (all[i].HasForm(stripped) || all[i].HasForm(transliterated)) {
      NamedIff(e, list[i], stripped, transliterated);
    }
    SomeEntryIff(all, stripped);
    SomeEntryIff(all, transliterated);
  }

  lemma {:induction false} SomeEntryIff(all: seq<Entry>, form: string)
    ensures SomeEntryHas(all, form) <==> exists i :: 0 <= i < |all| && all[i].HasForm(form)
  {}

  lemma {:induction false} NamedIff(e: Engine, entry: string, stripped: string, transliterated: string)
    requires Sound(e)
    ensures Named(e, entry, stripped, transliterated)
       <==> Normalise(e, entry).HasForm(stripped) || Normalise(e, entry).HasForm(transliterated)
  {}

  function WordAt(e: Engine, text: string, i: nat): string
    requires Ordered(e.tokens(text), |text|) && i < |e.tokens(text)|
  {
    text[e.tokens(text)[i].start..e.tokens(text)[i].end]
  }

  /** The window of `n` tokens from token `i` on: nothing but separators between them, on the first-name
      or the last-name list, and off the whitelist or right behind an honorific. */
  ghost predicate NamesSomebody(e: Engine, rules: ScrubRules, text: string, i: nat, n: nat)
    requires Sound(e)
  {
    var tokens := e.tokens(text);
    && n >= 1 && i + n <= |tokens|
    && (forall k | i <= k < i + n - 1 :: e.separator(text[tokens[k].end..tokens[k + 1].start]))
    && var s := Join(seq(n, k requires 0 <= k < n => e.stripped(WordAt(e, text, i + k))));
       var t := Join(seq(n, k requires 0 <= k < n => e.transliterated(WordAt(e, text, i + k))));
       && (OnList(e, rules.firstnames, s, t) || OnList(e, rules.lastnames, s, t))
       && (OnList(e, rules.whitelist, s, t) ==> e.honorific(text, tokens[i].start))
  }

  ghost predicate KeysHeld(e: Engine, rules: ScrubRules)
    requires Sound(e)
  {
    && KeysNeverEmpty(Normalised(e, rules.firstnames)) && KeysNeverEmpty(Normalised(e, rules.lastnames))
    && KeysNeverEmpty(Normalised(e, rules.whitelist))
  }

  lemma {:induction false} WindowForms(e: Engine, rules: ScrubRules, text: string, i: nat, n: nat)
    requires Sound(e) && i + n <= |e.tokens(text)|
    ensures |ReadingOf(e, rules, text).tokens| == |e.tokens(text)|
    ensures ReadingOf(e, rules, text).Stripped(i, n) == Join(seq(n, k requires 0 <= k < n => e.stripped(WordAt(e, text, i + k))))
    ensures ReadingOf(e, rules, text).Transliterated(i, n) == Join(seq(n, k requires 0 <= k < n => e.transliterated(WordAt(e, text, i + k))))
  {
    var r := ReadingOf(e, rules, text);
    forall j: nat | j < |r.tokens| ensures r.tokens[j].stripped == e.stripped(WordAt(e, text, j)) && r.tokens[j].transliterated == e.transliterated(WordAt(e, text, j)) {
      TokenWord(e, text, j);
    }
    var a, b := seq(n, k requires 0 <= k < n => r.tokens[i + k].stripped), seq(n, k requires 0 <= k < n => e.stripped(WordAt(e, text, i + k)));
    forall k | 0 <= k < n ensures a[k] == b[k] {}
    assert a == b;
    var c, d := seq(n, k requires 0 <= k < n => r.tokens[i + k].transliterated), seq(n, k requires 0 <= k < n => e.transliterated(WordAt(e, text, i + k)));
    forall k | 0 <= k < n ensures c[k] == d[k] {}
    assert c == d;
  }

  lemma {:induction false} TokenWord(e: Engine, text: string, j: nat)
    requires Ordered(e.tokens(text), |text|) && j < |e.tokens(text)|
    ensures |TokensIn(e, text)| == |e.tokens(text)|
    ensures TokensIn(e, text)[j].stripped == e.stripped(WordAt(e, text, j)) && TokensIn(e, text)[j].transliterated == e.transliterated(WordAt(e, text, j))
  {}

  lemma {:induction false} JoinedAt(e: Engine, text: string, k: nat)
    requires Ordered(e.tokens(text), |text|) && k + 1 < |e.tokens(text)|
    ensures |JoinedIn(e, text)| == |e.tokens(text)| - 1
    ensures JoinedIn(e, text)[k] == e.separator(text[e.tokens(text)[k].end..e.tokens(text)[k + 1].start])
  {}

  lemma {:induction false} ReadAs(e: Engine, rules: ScrubRules, text: string)
    requires Sound(e)
    ensures ReadingOf(e, rules, text).tokens == TokensIn(e, text) && ReadingOf(e, rules, text).joined == JoinedIn(e, text)
    ensures |TokensIn(e, text)| == |e.tokens(text)|
  {}

  lemma {:induction false} HonoredAt(e: Engine, rules: ScrubRules, text: string, i: nat)
    requires Sound(e) && i < |e.tokens(text)|
    ensures |ReadingOf(e, rules, text).honored| == |e.tokens(text)|
    ensures ReadingOf(e, rules, text).honored[i] == e.honorific(text, e.tokens(text)[i].start)
  {}

  lemma {:induction false} AllJoined(e: Engine, text: string, i: nat, n: nat)
    requires Ordered(e.tokens(text), |text|) && n >= 1 && i + n <= |e.tokens(text)|
    ensures |JoinedIn(e, text)| == |e.tokens(text)| - 1
    ensures (forall k | i <= k < i + n - 1 :: JoinedIn(e, text)[k])
       <==> forall k | i <= k < i + n - 1 :: e.separator(text[e.tokens(text)[k].end..e.tokens(text)[k + 1].start])
  {
    forall k: nat | i <= k < i + n - 1
      ensures JoinedIn(e, text)[k] == e.separator(text[e.tokens(text)[k].end..e.tokens(text)[k + 1].start])
    {
      JoinedAt(e, text, k);
    }
  }

  lemma {:induction false} WindowJoined(e: Engine, rules: ScrubRules, text: string, i: nat, n: nat)
    requires Sound(e) && n >= 1 && i + n <= |e.tokens(text)|
    ensures |ReadingOf(e, rules, text).tokens| == |e.tokens(text)|
    ensures ReadingOf(e, rules, text).honored[i] == e.honorific(text, e.tokens(text)[i].start)
    ensures (forall k | i <= k < i + n - 1 :: ReadingOf(e, rules, text).joined[k])
       <==> forall k | i <= k < i + n - 1 :: e.separator(text[e.tokens(text)[k].end..e.tokens(text)[k + 1].start])
  {
    ReadAs(e, rules, text);
    HonoredAt(e, rules, text, i);
    AllJoined(e, text, i, n);
  }

  /** Such windows, and no others, are listed for the search. */
  lemma {:induction false} ListedIff(e: Engine, rules: ScrubRules, text: string, i: nat, n: nat)
    requires Sound(e) && KeysHeld(e, rules)
    ensures ReadingOf(e, rules, text).Listed(i, n) <==> NamesSomebody(e, rules, text, i, n)
  {
    var r := ReadingOf(e, rules, text);
    assert |r.tokens| == |e.tokens(text)|;
    if n >= 1 && i + n <= |e.tokens(text)| {
      WindowForms(e, rules, text, i, n);
      WindowJoined(e, rules, text, i, n);
      OnListIff(e, rules.firstnames, r.Stripped(i, n), r.Transliterated(i, n));
      OnListIff(e, rules.lastnames, r.Stripped(i, n), r.Transliterated(i, n));
      OnListIff(e, rules.whitelist, r.Stripped(i, n), r.Transliterated(i, n));
    }
  }
}
