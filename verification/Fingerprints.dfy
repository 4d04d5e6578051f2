/** What the payload of a rule set's fingerprint tells about what the rule set finds. */
module Fingerprints {
  import opened Wrappers
  import opened ScrubTypes
  import opened NameIndexes
  import opened NameMatching
  import opened NameLists
  import opened RegexClaims
  import opened Scrubbing
  import opened ScrubTheorems
  import opened ListOrder

  /** The part of the payload that differs between rule sets, before it is hashed: the rules in
      order, and each list as the set of its entries' keys. */
  datatype Payload = Payload(regexRules: seq<RegexRule>, firstnames: set<string>, lastnames: set<string>, whitelist: set<string>)

  ghost function PayloadOf(e: Engine, rules: ScrubRules): Payload
    requires Sound(e)
  {
    Payload(rules.regexRules, KeysOfAll(e, rules.firstnames), KeysOfAll(e, rules.lastnames), KeysOfAll(e, rules.whitelist))
  }

  // ---- lists with the same forms ----

  ghost predicate SameForms(a: seq<Entry>, b: seq<Entry>) {
    forall form :: SomeEntryHas(a, form) <==> SomeEntryHas(b, form)
  }

  ghost predicate SameFound(a: seq<Entry>, b: seq<Entry>) {
    forall s, t :: IndexOf(a).Lookup(s, t).Some? <==> IndexOf(b).Lookup(s, t).Some?
  }

  /** Two lists find the same if and only if their usable entries have the same forms. */
  lemma {:induction false} SameFoundIff(a: seq<Entry>, b: seq<Entry>)
    requires KeysNeverEmpty(a) && KeysNeverEmpty(b)
    ensures SameFound(a, b) <==> SameForms(a, b)
  {
    if SameForms(a, b) {
      forall s, t ensures IndexOf(a).Lookup(s, t).Some? <==> IndexOf(b).Lookup(s, t).Some? {
        FoundBySome(a, s, t);
        FoundBySome(b, s, t);
      }
    }
    if SameFound(a, b) {
      forall form ensures SomeEntryHas(a, form) <==> SomeEntryHas(b, form) {
        FoundBySome(a, form, form);
        FoundBySome(b, form, form);
      }
    }
  }

  // ---- and the same widths ----

  /** No normal form of a token of these entries holds a space. */
  ghost predicate SpaceFreeForms(e: Engine, entries: seq<string>)
    requires Sound(e)
  {
    forall x | x in entries ::
      AllSpaceFree(Each(e.stripped, Words(x, e.tokens(x)))) && AllSpaceFree(Each(e.transliterated, Words(x, e.tokens(x))))
  }

  lemma {:induction false} SharedFormSameWidth(e: Engine, x: string, y: string, form: string)
    requires Sound(e) && SpaceFreeForms(e, [x]) && SpaceFreeForms(e, [y])
    requires Normalise(e, x).HasForm(form) && Normalise(e, y).HasForm(form)
    ensures Normalise(e, x).width == Normalise(e, y).width
  {
    assert x in [x] && y in [y];
    var words := Words(x, e.tokens(x));
    if form == Normalise(e, x).stripped {
      FormWidth(e, y, Each(e.stripped, words));
    } else {
      FormWidth(e, y, Each(e.transliterated, words));
    }
  }

  lemma {:induction false} SpeltAs(e: Engine, entries: seq<string>, x: Entry) returns (spelling: string)
    requires Sound(e) && SpaceFreeForms(e, entries) && x in Normalised(e, entries)
    ensures x == Normalise(e, spelling) && SpaceFreeForms(e, [spelling])
  {
    var all := Normalised(e, entries);
    var i :| 0 <= i < |all| && all[i] == x;
    spelling := entries[i];
    assert spelling in entries;
  }

  lemma {:induction false} WidestEntry(entries: seq<Entry>) returns (x: Entry)
    requires IndexOf(entries).maxTokens > 0
    ensures x in entries && x.Usable() && x.width == IndexOf(entries).maxTokens
  {
    IndexWidth(entries);
    x :| x in entries && x.Usable() && x.width == IndexOf(entries).maxTokens;
  }

  lemma {:induction false} EntryWith(a: seq<Entry>, b: seq<Entry>, x: Entry) returns (y: Entry)
    requires SameForms(a, b) && x in a && x.Usable()
    ensures y in b && y.HasForm(x.key) && y.width <= IndexOf(b).maxTokens
  {
    assert SomeEntryHas(a, x.key);
    assert SomeEntryHas(b, x.key);
    y :| y in b && y.HasForm(x.key);
    IndexWidth(b);
  }

  lemma {:induction false} WidthReached(e: Engine, a: seq<string>, b: seq<string>)
    requires Sound(e) && SpaceFreeForms(e, a) && SpaceFreeForms(e, b)
    requires SameForms(Normalised(e, a), Normalised(e, b))
    ensures BuildIndex(e, a).maxTokens <= BuildIndex(e, b).maxTokens
  {
    if BuildIndex(e, a).maxTokens > 0 {
      var x := WidestEntry(Normalised(e, a));
      var y := EntryWith(Normalised(e, a), Normalised(e, b), x);
      var inA := SpeltAs(e, a, x);
      var inB := SpeltAs(e, b, y);
      SharedFormSameWidth(e, inA, inB, x.key);
    }
  }

  lemma {:induction false} SameFormsSameWidth(e: Engine, a: seq<string>, b: seq<string>)
    requires Sound(e) && SpaceFreeForms(e, a) && SpaceFreeForms(e, b)
    requires SameForms(Normalised(e, a), Normalised(e, b))
    ensures BuildIndex(e, a).maxTokens == BuildIndex(e, b).maxTokens
  {
    WidthReached(e, a, b);
    WidthReached(e, b, a);
  }

  // ---- and the same spans ----

  ghost predicate Interchangeable(e: Engine, a: seq<string>, b: seq<string>)
    requires Sound(e)
  {
    && SameForms(Normalised(e, a), Normalised(e, b))
    && KeysNeverEmpty(Normalised(e, a)) && KeysNeverEmpty(Normalised(e, b))
    && SpaceFreeForms(e, a) && SpaceFreeForms(e, b)
  }

  lemma {:induction false} InterchangeableLists(e: Engine, a: seq<string>, b: seq<string>)
    requires Sound(e) && Interchangeable(e, a, b)
    ensures forall s, t :: BuildIndex(e, a).Lookup(s, t).Some? <==> BuildIndex(e, b).Lookup(s, t).Some?
    ensures BuildIndex(e, a).maxTokens == BuildIndex(e, b).maxTokens
  {
    SameFoundIff(Normalised(e, a), Normalised(e, b));
    SameFormsSameWidth(e, a, b);
  }

  /** With equal payloads, rule sets whose lists have the same forms replace the same spans. */
  lemma {:induction false} SamePayloadAndFormsSameSpans(e: Engine, rules: ScrubRules, other: ScrubRules, text: string)
    requires Sound(e) && PayloadOf(e, rules) == PayloadOf(e, other)
    requires Interchangeable(e, rules.firstnames, other.firstnames)
    requires Interchangeable(e, rules.lastnames, other.lastnames)
    requires Interchangeable(e, rules.whitelist, other.whitelist)
    requires Collected(e, rules.regexRules, text).Success?
    ensures rules.regexRules == other.regexRules
    ensures var found := Collected(e, rules.regexRules, text).value;
            Spans(ChosenIn(e, rules, text, found)) == Spans(ChosenIn(e, other, text, found))
  {
    InterchangeableLists(e, rules.firstnames, other.firstnames);
    InterchangeableLists(e, rules.lastnames, other.lastnames);
    InterchangeableLists(e, rules.whitelist, other.whitelist);
    var a, b := ReadingOf(e, rules, text), ReadingOf(e, other, text);
    SameListsSameSpans(a, b);
    SameSearchSameSpans(a, b);
    SameChosenSpans(Resolved(Collected(e, rules.regexRules, text).value), NamesIn(a), NamesIn(b));
  }

  // ---- and the same whole scrub ----

  lemma {:induction false} SameKeyOfForm(a: seq<Entry>, b: seq<Entry>, form: string)
    requires OneKeyPerForm(a + b) && form in IndexOf(a).keys && form in IndexOf(b).keys
    ensures IndexOf(a).keys[form] == IndexOf(b).keys[form]
  {
    var i := KeyComesFrom(a, form);
    var j := KeyComesFrom(b, form);
    assert a[i] == (a + b)[i] && b[j] == (a + b)[|a| + j];
  }

  lemma {:induction false} FormIndexedIff(a: seq<Entry>, form: string)
    ensures form in IndexOf(a).keys <==> SomeEntryHas(a, form)
  {
    IndexHoldsForms(a);
  }

  /** Lists with the same forms, no form of which has two keys in the one or the other, are indexed alike. */
  lemma {:induction false} SameFormsSameIndex(e: Engine, a: seq<string>, b: seq<string>)
    requires Sound(e) && Interchangeable(e, a, b) && OneKeyPerForm(Normalised(e, a) + Normalised(e, b))
    ensures BuildIndex(e, a) == BuildIndex(e, b)
  {
    var p, q := Normalised(e, a), Normalised(e, b);
    InterchangeableLists(e, a, b);
    forall form ensures form in IndexOf(p).keys <==> form in IndexOf(q).keys {
      FormIndexedIff(p, form);
      FormIndexedIff(q, form);
    }
    forall form | form in IndexOf(p).keys ensures IndexOf(p).keys[form] == IndexOf(q).keys[form] {
      SameKeyOfForm(p, q, form);
    }
    assert IndexOf(p).keys == IndexOf(q).keys;
  }

  /** Where besides no form of a name list has two keys, they give one scrub of every text: the same
      text, tags, keys and numbers. */
  lemma {:induction false} SamePayloadAndFormsSameScrub(e: Engine, rules: ScrubRules, other: ScrubRules, text: string)
    requires Sound(e) && PayloadOf(e, rules) == PayloadOf(e, other)
    requires Interchangeable(e, rules.firstnames, other.firstnames)
    requires Interchangeable(e, rules.lastnames, other.lastnames)
    requires Interchangeable(e, rules.whitelist, other.whitelist)
    requires OneKeyPerForm(Normalised(e, rules.firstnames) + Normalised(e, other.firstnames))
    requires OneKeyPerForm(Normalised(e, rules.lastnames) + Normalised(e, other.lastnames))
    ensures Scrubbed(e, rules, text) == Scrubbed(e, other, text)
  {
    SameFormsSameIndex(e, rules.firstnames, other.firstnames);
    SameFormsSameIndex(e, rules.lastnames, other.lastnames);
    InterchangeableLists(e, rules.whitelist, other.whitelist);
    var a, b := ReadingOf(e, rules, text), ReadingOf(e, other, text);
    SameListsSameSpans(a, b);
    SameSearchSameNames(a, b);
  }
}
