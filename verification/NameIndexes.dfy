/** The index of one name list: two normal forms lead to the key of an entry. */
module NameIndexes {
  import opened Wrappers
  import opened ScrubTypes
  import opened Text

  function Words(text: string, spans: seq<Span>): seq<string>
    requires forall i | 0 <= i < |spans| :: spans[i].start <= spans[i].end <= |text|
  {
    seq(|spans|, i requires 0 <= i < |spans| => text[spans[i].start..spans[i].end])
  }

  function Each(f: string -> string, words: seq<string>): seq<string> {
    seq(|words|, i requires 0 <= i < |words| => f(words[i]))
  }

  function Letters(words: seq<string>): nat {
    if words == [] then 0 else |words[0]| + Letters(words[1..])
  }

  /** A list entry once tokenised: its two forms, its letters and its tokens.
      The transliterated form is the key the entry is known by. */
  datatype Entry = Entry(stripped: string, key: string, letters: nat, width: nat) {
    predicate Usable() { letters >= MIN_ENTRY_LETTERS }

    predicate HasForm(form: string) { Usable() && (form == stripped || form == key) }
  }

  function Normalise(e: Engine, entry: string): Entry
    requires Ordered(e.tokens(entry), |entry|)
  {
    var words := Words(entry, e.tokens(entry));
    Entry(Join(Each(e.stripped, words)), Join(Each(e.transliterated, words)),
          Letters(Each(e.stripped, words)), |words|)
  }

  datatype Index = Index(keys: map<string, string>, maxTokens: nat) {
    /** `keys.get(transliterated) or keys.get(stripped)`: an empty key falls through too. */
    function Lookup(stripped: string, transliterated: string): Option<string> {
      if transliterated in keys && keys[transliterated] != "" then Some(keys[transliterated])
      else if stripped in keys then Some(keys[stripped])
      else None
    }
  }

  function SetDefault(m: map<string, string>, k: string, v: string): map<string, string> {
    if k in m then m else m[k := v]
  }

  function Max(a: nat, b: nat): nat { if a >= b then a else b }

  function Add(index: Index, entry: Entry): Index {
    if !entry.Usable() then index
    else Index(SetDefault(SetDefault(index.keys, entry.stripped, entry.key), entry.key, entry.key),
               Max(index.maxTokens, entry.width))
  }

  function IndexOf(entries: seq<Entry>): Index {
    if entries == [] then Index(map[], 0) else Add(IndexOf(entries[..|entries| - 1]), entries[|entries| - 1])
  }

  ghost function Normalised(e: Engine, entries: seq<string>): seq<Entry>
    requires Sound(e)
  {
    seq(|entries|, i requires 0 <= i < |entries| => Normalise(e, entries[i]))
  }

  ghost function BuildIndex(e: Engine, entries: seq<string>): Index
    requires Sound(e)
  {
    IndexOf(Normalised(e, entries))
  }

  class NameIndex {
    var keys: map<string, string>
    var maxTokens: nat

    ghost function Contents(): Index
      reads this
    {
      Index(keys, maxTokens)
    }

    constructor (e: Engine, entries: seq<string>)
      requires Sound(e)
      ensures Contents() == BuildIndex(e, entries)
    {
      keys := map[];
      maxTokens := 0;
      new;
      ghost var all := Normalised(e, entries);
      for n := 0 to |entries|
        invariant Contents() == IndexOf(all[..n])
      {
        assert all[..n + 1][..n] == all[..n] && all[n] == Normalise(e, entries[n]);
        var entry := entries[n];
        var tokens := Words(entry, e.tokens(entry));
        var strippedTokens := Each(e.stripped, tokens);
        if Letters(strippedTokens) < MIN_ENTRY_LETTERS {
          continue;
        }
        var key := Join(Each(e.transliterated, tokens));
        keys := SetDefault(keys, Join(strippedTokens), key);
        keys := SetDefault(keys, key, key);
        maxTokens := Max(maxTokens, |tokens|);
      }
      assert all[..|entries|] == all;
    }

    /** `len(index) > 0`. */
    predicate NonEmpty()
      reads this
    {
      keys != map[]
    }

    method Lookup(stripped: string, transliterated: string) returns (key: Option<string>)
      ensures key == Contents().Lookup(stripped, transliterated)
    {
      if transliterated in keys && keys[transliterated] != "" {
        return Some(keys[transliterated]);
      }
      return if stripped in keys then Some(keys[stripped]) else None;
    }
  }

  // ---- what the index holds, whatever the order of the entries ----

  lemma {:induction false} FormsAreIndexed(entries: seq<Entry>, n: nat, form: string)
    requires n < |entries| && entries[n].HasForm(form)
    ensures form in IndexOf(entries).keys
    decreases |entries|
  {
    if n < |entries| - 1 {
      FormsAreIndexed(entries[..|entries| - 1], n, form);
    }
  }

  lemma {:induction false} KeyComesFrom(entries: seq<Entry>, form: string) returns (n: nat)
    requires form in IndexOf(entries).keys
    ensures n < |entries| && entries[n].HasForm(form) && IndexOf(entries).keys[form] == entries[n].key
  {
    n := |entries| - 1;
    if form in IndexOf(entries[..n]).keys {
      n := KeyComesFrom(entries[..n], form);
    }
  }

  /** The index holds the forms of the usable entries and nothing else, each leading to the key
      of an entry that has the form. */
  lemma {:induction false} IndexHoldsForms(entries: seq<Entry>)
    ensures forall form :: form in IndexOf(entries).keys <==> exists x :: x in entries && x.HasForm(form)
    ensures forall form | form in IndexOf(entries).keys ::
              exists x :: x in entries && x.HasForm(form) && IndexOf(entries).keys[form] == x.key
  {
    forall form, x: Entry | x in entries && x.HasForm(form) ensures form in IndexOf(entries).keys {
      var n :| 0 <= n < |entries| && entries[n] == x;
      FormsAreIndexed(entries, n, form);
    }
    forall form | form in IndexOf(entries).keys
      ensures exists x :: x in entries && x.HasForm(form) && IndexOf(entries).keys[form] == x.key
    {
      var n := KeyComesFrom(entries, form);
      assert entries[n] in entries;
    }
  }

  lemma {:induction false} IndexWidth(entries: seq<Entry>)
    ensures forall x | x in entries && x.Usable() :: x.width <= IndexOf(entries).maxTokens
    ensures IndexOf(entries).maxTokens == 0
         || exists x :: x in entries && x.Usable() && x.width == IndexOf(entries).maxTokens
  {
    if entries != [] {
      var before, last := entries[..|entries| - 1], entries[|entries| - 1];
      IndexWidth(before);
      assert forall x :: x in entries <==> x in before || x == last;
    }
  }

  /** Holds of real entries: what has letters has a token, and a token has a transliteration. */
  ghost predicate KeysNeverEmpty(entries: seq<Entry>) {
    forall x | x in entries && x.Usable() :: x.key != ""
  }

  /** A window is on the list exactly when one of its two forms is a form of a usable entry. */
  lemma {:induction false} LookupFinds(entries: seq<Entry>, stripped: string, transliterated: string)
    requires KeysNeverEmpty(entries)
    ensures IndexOf(entries).Lookup(stripped, transliterated).Some? <==>
              exists x :: x in entries && (x.HasForm(stripped) || x.HasForm(transliterated))
  {
    IndexHoldsForms(entries);
  }

  /** Reordering or repeating entries changes neither what is found nor the longest window tried. */
  lemma {:induction false} ListOrderDecidesNothing(entries: seq<Entry>, other: seq<Entry>)
    requires KeysNeverEmpty(entries)
    requires forall x :: x in entries <==> x in other
    ensures forall s, t :: IndexOf(entries).Lookup(s, t).Some? <==> IndexOf(other).Lookup(s, t).Some?
    ensures IndexOf(entries).maxTokens == IndexOf(other).maxTokens
  {
    IndexWidth(entries);
    IndexWidth(other);
    forall s, t ensures IndexOf(entries).Lookup(s, t).Some? <==> IndexOf(other).Lookup(s, t).Some? {
      LookupFinds(entries, s, t);
      LookupFinds(other, s, t);
    }
  }

  // ---- which key a form leads to ----

  /** A form leads to the key of the first entry that has it. */
  lemma {:induction false} FirstEntryNamesTheForm(entries: seq<Entry>, n: nat, form: string)
    requires n < |entries| && entries[n].HasForm(form)
    requires forall k | 0 <= k < n :: !entries[k].HasForm(form)
    ensures form in IndexOf(entries).keys && IndexOf(entries).keys[form] == entries[n].key
    decreases |entries|
  {
    var before := entries[..|entries| - 1];
    if n < |before| {
      FirstEntryNamesTheForm(before, n, form);
    } else if form in IndexOf(before).keys {
      var _ := KeyComesFrom(before, form);
      assert false;
    }
  }

  /** Two entries that can be mistaken for each other are known by one key. */
  ghost predicate OneKeyPerForm(entries: seq<Entry>) {
    forall x, y, form | x in entries && y in entries && x.HasForm(form) && y.HasForm(form) :: x.key == y.key
  }

  ghost predicate OrderIsFree(entries: seq<Entry>) {
    forall other | multiset(other) == multiset(entries) :: IndexOf(other).keys == IndexOf(entries).keys
  }

  /** Where a form has one key, lists of the same entries give the same index. */
  lemma {:induction false} SameEntriesSameIndex(entries: seq<Entry>, other: seq<Entry>)
    requires OneKeyPerForm(entries) && forall x :: x in entries <==> x in other
    ensures IndexOf(entries) == IndexOf(other)
  {
    var a, b := IndexOf(entries), IndexOf(other);
    IndexHoldsForms(entries);
    IndexHoldsForms(other);
    assert a.keys.Keys == b.keys.Keys;
    forall form | form in a.keys ensures a.keys[form] == b.keys[form] {
      var x :| x in entries && x.HasForm(form) && a.keys[form] == x.key;
      var y :| y in other && y.HasForm(form) && b.keys[form] == y.key;
      assert y in entries;
    }
    IndexWidth(entries);
    IndexWidth(other);
  }

  lemma {:induction false} MovedToFront(entries: seq<Entry>, x: Entry) returns (other: seq<Entry>)
    requires x in entries
    ensures multiset(other) == multiset(entries) && other != [] && other[0] == x
  {
    var n :| 0 <= n < |entries| && entries[n] == x;
    other := [x] + entries[..n] + entries[n + 1..];
    assert entries == entries[..n] + [x] + entries[n + 1..];
  }

  /** The keys are the same in every order of the entries if and only if no form is shared by two
      usable entries with different keys. */
  lemma {:induction false} OrderIsFreeIff(entries: seq<Entry>)
    ensures OrderIsFree(entries) <==> OneKeyPerForm(entries)
  {
    if OneKeyPerForm(entries) {
      forall other | multiset(other) == multiset(entries) ensures IndexOf(other).keys == IndexOf(entries).keys {
        assert forall x :: x in entries <==> multiset(entries)[x] > 0;
        assert forall x :: x in other <==> multiset(other)[x] > 0;
        SameEntriesSameIndex(entries, other);
      }
    }
    if OrderIsFree(entries) {
      forall x, y, form | x in entries && y in entries && x.HasForm(form) && y.HasForm(form) ensures x.key == y.key {
        var xFirst := MovedToFront(entries, x);
        var yFirst := MovedToFront(entries, y);
        FirstEntryNamesTheForm(xFirst, 0, form);
        FirstEntryNamesTheForm(yFirst, 0, form);
        assert IndexOf(xFirst).keys == IndexOf(yFirst).keys;
      }
    }
  }

  /** `muller` and its umlaut spelling share a form and have two keys: the first one listed names it. */
  lemma {:induction false} UmlautSpellingOrderDecides()
    ensures var plain, umlaut := Entry("muller", "muller", 6, 1), Entry("muller", "mueller", 6, 1);
            && IndexOf([plain, umlaut]).Lookup("muller", "muller") == Some("muller")
            && IndexOf([umlaut, plain]).Lookup("muller", "muller") == Some("mueller")
            && !OneKeyPerForm([plain, umlaut])
  {
    var plain, umlaut := Entry("muller", "muller", 6, 1), Entry("muller", "mueller", 6, 1);
    FirstEntryNamesTheForm([plain, umlaut], 0, "muller");
    FirstEntryNamesTheForm([umlaut, plain], 0, "muller");
    assert plain.HasForm("muller") && umlaut.HasForm("muller");
  }

  lemma {:induction false} SameEntriesSameForms(e: Engine, entries: seq<string>, other: seq<string>)
    requires Sound(e)
    requires forall x :: x in entries <==> x in other
    ensures forall x :: x in Normalised(e, entries) <==> x in Normalised(e, other)
  {
    forall x ensures x in Normalised(e, entries) <==> x in Normalised(e, other) {
      SubsetOfForms(e, entries, other, x);
      SubsetOfForms(e, other, entries, x);
    }
  }

  lemma {:induction false} SubsetOfForms(e: Engine, entries: seq<string>, other: seq<string>, x: Entry)
    requires Sound(e)
    requires forall y | y in entries :: y in other
    ensures x in Normalised(e, entries) ==> x in Normalised(e, other)
  {
    var all, others := Normalised(e, entries), Normalised(e, other);
    if x in all {
      var i :| 0 <= i < |all| && all[i] == x;
      assert entries[i] in other;
      var j :| 0 <= j < |other| && other[j] == entries[i];
      assert others[j] == x;
    }
  }
}
