/** What the tallies count, told of the hits themselves and where in the run they stand. */
module TallyMeaning {
  import opened Wrappers
  import opened ScrubTypes
  import opened Numbering
  import opened ScrubCounting
  import opened Places
  import V = ValueExamples

  // ---- places in a run ----

  function OfRule(log: seq<Event>, ruleId: string): seq<bool> {
    seq(|log|, i requires 0 <= i < |log| => log[i].hit.ruleId == ruleId)
  }

  function OfEntry(log: seq<Event>, entry: string): seq<bool> {
    seq(|log|, i requires 0 <= i < |log| => log[i].hit.entry == Some(entry))
  }

  /** The rule's hits whose original text is at hand. */
  function ShownOfRule(log: seq<Event>, ruleId: string): seq<bool> {
    seq(|log|, i requires 0 <= i < |log| => log[i].hit.ruleId == ruleId && log[i].original.Some?)
  }

  /** The key was not met before this place. */
  ghost predicate NewAt(ms: seq<V.Match>, i: nat)
    requires i < |ms|
  {
    forall j | 0 <= j < i :: ms[j].key != ms[i].key
  }

  function OfValue(ms: seq<V.Match>, key: string): seq<bool> {
    seq(|ms|, i requires 0 <= i < |ms| => ms[i].key == key)
  }

  // ---- the hits of one rule ----

  /** The hits of a rule are counted one by one. */
  lemma {:induction false} RuleCounts(log: seq<Event>, ruleId: string) returns (at: seq<nat>)
    ensures PlacesOf(OfRule(log, ruleId), at) && HitCount(log, ruleId) == |at|
  {
    at := [];
    if log != [] {
      var n := |log| - 1;
      at := RuleCounts(log[..n], ruleId);
      assert OfRule(log, ruleId) == OfRule(log[..n], ruleId) + [log[n].hit.ruleId == ruleId];
      OneMorePlace(OfRule(log[..n], ruleId), log[n].hit.ruleId == ruleId, at);
      at := AndThen(at, log[n].hit.ruleId == ruleId, n);
    }
  }

  /** The records of a rule are those of its hits. */
  lemma {:induction false} RuleRecords(log: seq<Event>, ruleId: string, r: string)
    ensures r in RecordSet(log, ruleId) <==> exists i :: 0 <= i < |log| && log[i].hit.ruleId == ruleId && log[i].recordKey == r
  {
    if log != [] {
      var n := |log| - 1;
      RuleRecords(log[..n], ruleId, r);
      if i :| 0 <= i < |log| && log[i].hit.ruleId == ruleId && log[i].recordKey == r {
        if i < n { assert log[..n][i].hit.ruleId == ruleId; }
      }
      if r in RecordSet(log[..n], ruleId) {
        var i :| 0 <= i < |log[..n]| && log[..n][i].hit.ruleId == ruleId && log[..n][i].recordKey == r;
        assert log[i].hit.ruleId == ruleId;
      }
    }
  }

  lemma {:induction false} EntryCounts(log: seq<Event>, entry: string) returns (at: seq<nat>)
    ensures PlacesOf(OfEntry(log, entry), at) && EntryCount(log, entry) == |at|
  {
    at := [];
    if log != [] {
      var n := |log| - 1;
      at := EntryCounts(log[..n], entry);
      assert OfEntry(log, entry) == OfEntry(log[..n], entry) + [log[n].hit.entry == Some(entry)];
      OneMorePlace(OfEntry(log[..n], entry), log[n].hit.entry == Some(entry), at);
      at := AndThen(at, log[n].hit.entry == Some(entry), n);
    }
  }

  /** A record is changed when it has a hit. */
  lemma {:induction false} ChangedIff(log: seq<Event>, r: string)
    ensures r in ChangedRecords(log) <==> exists i :: 0 <= i < |log| && log[i].recordKey == r
  {
    if log != [] {
      var n := |log| - 1;
      ChangedIff(log[..n], r);
      if i :| 0 <= i < |log| && log[i].recordKey == r {
        if i < n { assert log[..n][i].recordKey == r; }
      }
      if r in ChangedRecords(log[..n]) {
        var i :| 0 <= i < |log[..n]| && log[..n][i].recordKey == r;
        assert log[i].recordKey == r;
      }
    }
  }

  /** Adding a result adds its hits, in order, each with the record, the texts and itself. */
  lemma {:induction false} EventsAre(recordKey: string, r: ScrubResult, original: Option<string>, n: nat)
    requires n <= |r.hits|
    ensures |EventsOf(recordKey, r, original, n)| == n
    ensures forall i | 0 <= i < n :: EventsOf(recordKey, r, original, n)[i] == Event(recordKey, r.hits[i], r.text, original)
  {
    if n > 0 { EventsAre(recordKey, r, original, n - 1); }
  }

  // ---- the examples of one rule ----

  /** The matches are those of the rule's hits with their original text, in order. */
  lemma {:induction false} MatchesAre(c: Cleaner, log: seq<Event>, ruleId: string) returns (at: seq<nat>)
    ensures PlacesOf(ShownOfRule(log, ruleId), at) && |MatchesFor(c, log, ruleId)| == |at|
    ensures forall k | 0 <= k < |at| :: log[at[k]].original.Some? && MatchesFor(c, log, ruleId)[k] == c.Match(log[at[k]])
  {
    at := [];
    if log != [] {
      var n := |log| - 1;
      var before := MatchesAre(c, log[..n], ruleId);
      var shown := log[n].hit.ruleId == ruleId && log[n].original.Some?;
      assert ShownOfRule(log, ruleId) == ShownOfRule(log[..n], ruleId) + [shown];
      OneMorePlace(ShownOfRule(log[..n], ruleId), shown, before);
      at := AndThen(before, shown, n);
      forall k | 0 <= k < |at| ensures log[at[k]].original.Some? && MatchesFor(c, log, ruleId)[k] == c.Match(log[at[k]]) {
        if k < |before| { assert log[..n][before[k]] == log[at[k]]; }
      }
    }
  }

  /** `part` is what stands at the end of `whole`, forty characters of it or all there are. */
  ghost predicate LastForty(whole: string, part: string) {
    |part| <= |whole| && whole[|whole| - |part|..] == part && |part| == if |whole| < 40 then |whole| else 40
  }

  ghost predicate FirstForty(whole: string, part: string) {
    part <= whole && |part| == if |whole| < 40 then |whole| else 40
  }

  /** The hit's placeholder stands in the scrubbed text, and its span in the original. */
  ghost predicate Stands(ev: Event) {
    && ev.original.Some? && ev.hit.start <= ev.hit.end <= |ev.original.value|
    && ev.hit.outStart + |Placeholder(ev.hit.tag, ev.hit.number)| <= |ev.text|
  }

  /** A snippet shows what was replaced, in the original, and its surroundings in the scrubbed text, so
      that no other hit is shown; it is grouped under the list entry or else under the cleaned match. */
  lemma {:induction false} MatchShows(c: Cleaner, ev: Event, before: string, after: string)
    requires Stands(ev)
    requires LastForty(ev.text[..ev.hit.outStart], before)
    requires FirstForty(ev.text[ev.hit.outStart + |Placeholder(ev.hit.tag, ev.hit.number)|..], after)
    ensures var m, matched := c.Match(ev), c.oneLine(ev.original.value[ev.hit.start..ev.hit.end]);
            && m.matched == matched && m.recordKey == ev.recordKey
            && m.key == (if ev.hit.entry.Some? then ev.hit.entry.value else c.clean(matched))
            && m.example == V.Example(ev.recordKey, Placeholder(ev.hit.tag, ev.hit.number), c.oneLine(before), matched, c.oneLine(after))
  {
    var mark := Placeholder(ev.hit.tag, ev.hit.number);
    var end := ev.hit.outStart + |mark|;
    var from := if ev.hit.outStart < 40 then 0 else ev.hit.outStart - 40;
    assert Slice(ev.text, from, ev.hit.outStart) == before;
    assert Slice(ev.text, end, end + 40) == after;
  }

  // ---- the hits of one value ----

  function ExamplesAt(ms: seq<V.Match>, at: seq<nat>): seq<V.Example>
    requires forall k | 0 <= k < |at| :: at[k] < |ms|
  {
    seq(|at|, k requires 0 <= k < |at| => ms[at[k]].example)
  }

  lemma {:induction false} ValueHits(ms: seq<V.Match>, key: string) returns (at: seq<nat>)
    ensures PlacesOf(OfValue(ms, key), at) && V.CountKey(ms, key) == |at|
    ensures V.SnippetsOf(ms, key) == ExamplesAt(ms, at)
  {
    at := [];
    if ms != [] {
      var n := |ms| - 1;
      var before := ValueHits(ms[..n], key);
      assert OfValue(ms, key) == OfValue(ms[..n], key) + [ms[n].key == key];
      OneMorePlace(OfValue(ms[..n], key), ms[n].key == key, before);
      at := AndThen(before, ms[n].key == key, n);
      ExamplesOfPrefix(ms, before);
    }
  }

  lemma {:induction false} ExamplesOfPrefix(ms: seq<V.Match>, at: seq<nat>)
    requires ms != [] && forall k | 0 <= k < |at| :: at[k] < |ms| - 1
    ensures ExamplesAt(ms, at) == ExamplesAt(ms[..|ms| - 1], at)
    ensures ExamplesAt(ms, at + [|ms| - 1]) == ExamplesAt(ms, at) + [ms[|ms| - 1].example]
  {}

  lemma {:induction false} SpellingIsFirst(ms: seq<V.Match>, key: string, i: nat)
    requires i < |ms| && ms[i].key == key && NewAt(ms, i)
    ensures V.CountKey(ms, key) > 0 && V.FirstSpelling(ms, key) == ms[i].matched
  {
    var n := |ms| - 1;
    if i < n {
      SpellingIsFirst(ms[..n], key, i);
    } else {
      assert V.CountKey(ms[..n], key) == 0 by { NoneYet(ms[..n], key); }
    }
  }

  lemma {:induction false} NoneYet(ms: seq<V.Match>, key: string)
    requires forall j | 0 <= j < |ms| :: ms[j].key != key
    ensures V.CountKey(ms, key) == 0
  {
    if ms != [] { NoneYet(ms[..|ms| - 1], key); }
  }

  /** A value's row: its spelling where it was first met, the number of its hits, and the snippets of
      the first three. */
  lemma {:induction false} ValueShows(ms: seq<V.Match>, key: string) returns (at: seq<nat>)
    requires key in V.FirstMet(ms)
    ensures PlacesOf(OfValue(ms, key), at) && at != []
    ensures var row := RowFor(ms, key);
            && row.value == ms[at[0]].matched && row.hits == |at|
            && |row.examples| == (if |at| < 3 then |at| else 3)
            && forall k | 0 <= k < |row.examples| :: row.examples[k] == ms[at[k]].example
  {
    V.FirstMetKeys(ms, key);
    at := ValueHits(ms, key);
    forall j | 0 <= j < at[0] ensures ms[j].key != key {
      assert OfValue(ms, key)[j] <==> ms[j].key == key;
    }
    SpellingIsFirst(ms, key, at[0]);
  }

  lemma {:induction false} ValueRecords(ms: seq<V.Match>, key: string, r: string)
    ensures r in V.RecordsOf(ms, key) <==> exists i :: 0 <= i < |ms| && ms[i].key == key && ms[i].recordKey == r
  {
    if ms != [] {
      var n := |ms| - 1;
      ValueRecords(ms[..n], key, r);
      if i :| 0 <= i < |ms| && ms[i].key == key && ms[i].recordKey == r {
        if i < n { assert ms[..n][i].key == key; }
      }
      if r in V.RecordsOf(ms[..n], key) {
        var i :| 0 <= i < |ms[..n]| && ms[..n][i].key == key && ms[..n][i].recordKey == r;
        assert ms[i].key == key;
      }
    }
  }

  ghost function NewKeys(ms: seq<V.Match>): seq<bool> {
    seq(|ms|, i requires 0 <= i < |ms| => NewAt(ms, i))
  }

  lemma {:induction false} MetIff(ms: seq<V.Match>, key: string)
    ensures key in V.FirstMet(ms) <==> exists i :: 0 <= i < |ms| && ms[i].key == key
  {
    if ms != [] {
      var n := |ms| - 1;
      MetIff(ms[..n], key);
      if i :| 0 <= i < |ms| && ms[i].key == key {
        if i < n { assert ms[..n][i].key == key; }
      }
      if key in V.FirstMet(ms[..n]) {
        var i :| 0 <= i < |ms[..n]| && ms[..n][i].key == key;
        assert ms[i].key == key;
      }
    }
  }

  lemma {:induction false} NewLast(ms: seq<V.Match>)
    requires ms != []
    ensures NewAt(ms, |ms| - 1) <==> ms[|ms| - 1].key !in V.FirstMet(ms[..|ms| - 1])
    ensures NewKeys(ms) == NewKeys(ms[..|ms| - 1]) + [NewAt(ms, |ms| - 1)]
  {
    var n := |ms| - 1;
    MetIff(ms[..n], ms[n].key);
    if NewAt(ms, n) {
      forall i | 0 <= i < |ms[..n]| ensures ms[..n][i].key != ms[n].key { assert ms[i].key != ms[n].key; }
    } else {
      var j :| 0 <= j < n && ms[j].key == ms[n].key;
      assert ms[..n][j].key == ms[n].key;
    }
    forall i: nat | i < n ensures NewAt(ms, i) <==> NewAt(ms[..n], i) {}
  }

  /** The values are listed in the order in which they were first met. */
  lemma {:induction false} FirstMetAre(ms: seq<V.Match>) returns (at: seq<nat>)
    ensures PlacesOf(NewKeys(ms), at) && |V.FirstMet(ms)| == |at|
    ensures forall k | 0 <= k < |at| :: V.FirstMet(ms)[k] == ms[at[k]].key
  {
    at := [];
    if ms != [] {
      var n := |ms| - 1;
      var before := FirstMetAre(ms[..n]);
      NewLast(ms);
      OneMorePlace(NewKeys(ms[..n]), NewAt(ms, n), before);
      at := AndThen(before, NewAt(ms, n), n);
      forall k | 0 <= k < |at| ensures V.FirstMet(ms)[k] == ms[at[k]].key {
        if k < |before| { assert ms[..n][before[k]] == ms[at[k]]; }
      }
    }
  }

  // ---- the rows of the tally ----

  /** One row for each regex rule as declared, then those of the name lists in use, the row of names on
      both lists last. */
  lemma {:induction false} RowsInOrder(rules: seq<RegexRule>, hasFirstnames: bool, hasLastnames: bool)
    ensures var order, n := RowOrder(rules, hasFirstnames, hasLastnames), |rules|;
            && |order| == n + (if hasFirstnames && hasLastnames then 3 else if hasFirstnames || hasLastnames then 1 else 0)
            && (forall i | 0 <= i < n :: order[i] == (rules[i].ruleId, rules[i].tag, rules[i].source))
            && (hasFirstnames ==> order[n] == ("firstnames", "Firstname", NameList))
            && (hasLastnames ==> order[if hasFirstnames then n + 1 else n] == ("lastnames", "Lastname", NameList))
            && (hasFirstnames && hasLastnames ==> order[n + 2] == ("both-lists", "Name", NameList))
  {
    assert FIRSTNAME_RULE_ID == "firstnames" && LASTNAME_RULE_ID == "lastnames" && BOTH_LISTS_RULE_ID == "both-lists";
  }
}
