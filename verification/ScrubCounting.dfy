/** The running totals of many scrubs: by rule, by record, by list entry and by value. */
module ScrubCounting {
  import opened Wrappers
  import opened ScrubTypes
  import opened Numbering
  import opened Sorting
  import opened Text
  import V = ValueExamples

  const EXAMPLE_CONTEXT_CHARS: nat := 40

  /** One hit as it was added: with its record, the scrubbed text and the text it was made from. */
  datatype Event = Event(recordKey: string, hit: Hit, text: string, original: Option<string>)

  datatype RuleTally = RuleTally(ruleId: string, tag: string, source: RuleSource, hits: nat, records: nat)

  datatype ValueRow = ValueRow(value: string, hits: nat, records: nat, examples: seq<V.Example>)

  datatype RuleExamples = RuleExamples(ruleId: string, values: seq<ValueRow>, otherHits: nat)

  /** `s[a:b]`, which clamps both ends to the string. */
  function Slice(s: string, a: nat, b: nat): string {
    var hi := if b <= |s| then b else |s|;
    s[if a <= hi then a else hi..hi]
  }

  /** The two text functions of the module: white space folded to one line, separators removed. */
  datatype Cleaner = Cleaner(oneLine: string -> string, clean: string -> string) {
    function Match(ev: Event): V.Match
      requires ev.original.Some?
    {
      var h := ev.hit;
      var matched := oneLine(Slice(ev.original.value, h.start, h.end));
      var key := match h.entry case Some(entry) => entry case None => clean(matched);
      var mark := Placeholder(h.tag, h.number);
      var end := h.outStart + |mark|;
      var from := if h.outStart < EXAMPLE_CONTEXT_CHARS then 0 else h.outStart - EXAMPLE_CONTEXT_CHARS;
      V.Match(key, matched, ev.recordKey,
              V.Example(ev.recordKey, mark, oneLine(Slice(ev.text, from, h.outStart)), matched,
                        oneLine(Slice(ev.text, end, end + EXAMPLE_CONTEXT_CHARS))))
    }
  }

  // ---- what a run of `add` means: the list of all hits so far ----

  function EventsOf(recordKey: string, r: ScrubResult, original: Option<string>, n: nat): seq<Event>
    requires n <= |r.hits|
  {
    if n == 0 then [] else EventsOf(recordKey, r, original, n - 1) + [Event(recordKey, r.hits[n - 1], r.text, original)]
  }

  function HitCount(log: seq<Event>, ruleId: string): nat {
    if log == [] then 0 else HitCount(log[..|log| - 1], ruleId) + if log[|log| - 1].hit.ruleId == ruleId then 1 else 0
  }

  function RecordSet(log: seq<Event>, ruleId: string): set<string> {
    if log == [] then {}
    else RecordSet(log[..|log| - 1], ruleId) + if log[|log| - 1].hit.ruleId == ruleId then {log[|log| - 1].recordKey} else {}
  }

  function EntryCount(log: seq<Event>, entry: string): nat {
    if log == [] then 0
    else EntryCount(log[..|log| - 1], entry) + if log[|log| - 1].hit.entry == Some(entry) then 1 else 0
  }

  function ChangedRecords(log: seq<Event>): set<string> {
    if log == [] then {} else ChangedRecords(log[..|log| - 1]) + {log[|log| - 1].recordKey}
  }

  function MatchesFor(c: Cleaner, log: seq<Event>, ruleId: string): seq<V.Match> {
    if log == [] then []
    else
      var before, last := MatchesFor(c, log[..|log| - 1], ruleId), log[|log| - 1];
      if last.hit.ruleId == ruleId && last.original.Some? then before + [c.Match(last)] else before
  }

  function CountOf(m: map<string, nat>, key: string): nat { if key in m then m[key] else 0 }

  function SetOf(m: map<string, set<string>>, key: string): set<string> { if key in m then m[key] else {} }

  function AccOf(m: map<string, V.RuleAcc>, key: string): V.RuleAcc { if key in m then m[key] else V.NOTHING }

  ghost predicate CountsHits(hits: map<string, nat>, log: seq<Event>) {
    forall ruleId :: CountOf(hits, ruleId) == HitCount(log, ruleId)
  }

  ghost predicate CountsRecords(records: map<string, set<string>>, log: seq<Event>) {
    forall ruleId :: SetOf(records, ruleId) == RecordSet(log, ruleId)
  }

  ghost predicate CountsEntries(entries: map<string, nat>, log: seq<Event>) {
    forall entry :: CountOf(entries, entry) == EntryCount(log, entry)
  }

  ghost predicate GathersExamples(c: Cleaner, collect: bool, examples: map<string, V.RuleAcc>, log: seq<Event>) {
    forall ruleId :: AccOf(examples, ruleId) == if collect then V.Gather(MatchesFor(c, log, ruleId)) else V.NOTHING
  }

  datatype State = State(
    hits: map<string, nat>, recordsByRule: map<string, set<string>>, entries: map<string, nat>,
    changed: set<string>, examples: map<string, V.RuleAcc>)

  /** The counter's dictionaries say what the hits so far add up to. */
  ghost predicate Counts(c: Cleaner, collect: bool, s: State, log: seq<Event>) {
    && CountsHits(s.hits, log) && CountsRecords(s.recordsByRule, log) && CountsEntries(s.entries, log)
    && s.changed == ChangedRecords(log)
    && GathersExamples(c, collect, s.examples, log)
  }

  class ScrubCounter {
    const cleaner: Cleaner
    const collect: bool
    const order: seq<(string, string, RuleSource)>
    var examples: map<string, V.RuleAcc>
    var hits: map<string, nat>
    var recordsByRule: map<string, set<string>>
    var entries: map<string, nat>
    var seen: set<string>
    var changed: set<string>
    ghost var log: seq<Event>

    ghost predicate Valid()
      reads this
    {
      Counts(cleaner, collect, Now(), log)
    }

    constructor (cleaner: Cleaner, collect: bool, rules: seq<RegexRule>, hasFirstnames: bool, hasLastnames: bool)
      ensures Valid() && log == [] && seen == {}
      ensures this.cleaner == cleaner && this.collect == collect && order == RowOrder(rules, hasFirstnames, hasLastnames)
    {
      this.cleaner := cleaner;
      this.collect := collect;
      order := RowOrder(rules, hasFirstnames, hasLastnames);
      examples, hits, recordsByRule, entries := map[], map[], map[], map[];
      seen, changed, log := {}, {}, [];
    }

    ghost function Now(): State
      reads this
    {
      State(hits, recordsByRule, entries, changed, examples)
    }

    method CountHit(recordKey: string, text: string, original: Option<string>, hit: Hit)
      modifies this`hits, this`recordsByRule, this`entries, this`changed, this`examples
      ensures Now() == After(cleaner, collect, old(Now()), Event(recordKey, hit, text, original))
    {
      hits := hits[hit.ruleId := CountOf(hits, hit.ruleId) + 1];
      recordsByRule := recordsByRule[hit.ruleId := SetOf(recordsByRule, hit.ruleId) + {recordKey}];
      entries := BumpEntry(entries, hit.entry);
      changed := changed + {recordKey};
      CollectExample(recordKey, text, original, hit);
    }

    method AddHit(recordKey: string, r: ScrubResult, original: Option<string>, hit: Hit)
      requires Valid()
      modifies this`hits, this`recordsByRule, this`entries, this`changed, this`examples, this`log
      ensures Valid() && log == old(log) + [Event(recordKey, hit, r.text, original)]
    {
      HitAdded(cleaner, collect, Now(), log, Event(recordKey, hit, r.text, original));
      CountHit(recordKey, r.text, original, hit);
      log := log + [Event(recordKey, hit, r.text, original)];
    }

    method CollectExample(recordKey: string, scrubbed: string, original: Option<string>, hit: Hit)
      modifies this`examples
      ensures examples == AddExample(cleaner, collect, old(examples), Event(recordKey, hit, scrubbed, original))
    {
      if collect && original.Some? {
        var m := cleaner.Match(Event(recordKey, hit, scrubbed, original));
        var grouped := GroupUnder(AccOf(examples, hit.ruleId), m);
        examples := examples[hit.ruleId := grouped];
      }
    }

    /** Group one hit under its value, or only count it once the rule lists enough values. */
    method GroupUnder(rule: V.RuleAcc, m: V.Match) returns (grouped: V.RuleAcc)
      ensures grouped == rule.Add(m)
    {
      grouped := rule;
      var acc: V.ValueAcc;
      if m.key in rule.values {
        acc := rule.values[m.key];
      } else if |rule.values| >= V.MAX_VALUES_PER_RULE {
        return rule.(otherHits := rule.otherHits + 1);
      } else {
        acc := V.ValueAcc(m.matched, 0, {}, []);
        grouped := rule.(order := rule.order + [m.key]);
      }
      var examples := if |acc.examples| < V.EXAMPLES_PER_VALUE then acc.examples + [m.example] else acc.examples;
      acc := V.ValueAcc(acc.value, acc.hits + 1, acc.records + {m.recordKey}, examples);
      return grouped.(values := rule.values[m.key := acc]);
    }

    /** Count one result for one record; a record may be added more than once. */
    method Add(recordKey: string, r: ScrubResult, original: Option<string>)
      requires Valid()
      modifies this
      ensures Valid() && log == old(log) + EventsOf(recordKey, r, original, |r.hits|)
      ensures seen == old(seen) + {recordKey}
    {
      seen := seen + {recordKey};
      ghost var before := log;
      for n := 0 to |r.hits|
        invariant Valid() && log == before + EventsOf(recordKey, r, original, n)
        invariant seen == old(seen) + {recordKey}
      {
        AddHit(recordKey, r, original, r.hits[n]);
        assert EventsOf(recordKey, r, original, n + 1) == EventsOf(recordKey, r, original, n) + [Event(recordKey, r.hits[n], r.text, original)];
      }
    }

    /** The totals of each rule in the fixed row order, zeros too. */
    method TallyRows() returns (rows: seq<RuleTally>)
      requires Valid()
      ensures |rows| == |order|
      ensures forall i | 0 <= i < |rows| ::
                rows[i] == RuleTally(order[i].0, order[i].1, order[i].2,
                                     HitCount(log, order[i].0), |RecordSet(log, order[i].0)|)
    {
      rows := [];
      for i := 0 to |order|
        invariant |rows| == i
        invariant forall k | 0 <= k < i ::
                    rows[k] == RuleTally(order[k].0, order[k].1, order[k].2,
                                         HitCount(log, order[k].0), |RecordSet(log, order[k].0)|)
      {
        var (ruleId, tag, source) := order[i];
        rows := rows + [RuleTally(ruleId, tag, source, CountOf(hits, ruleId), |SetOf(recordsByRule, ruleId)|)];
      }
    }

    /** How many records were added, and how many of them have a hit. */
    method TallyRecords() returns (added: nat, changedOnes: nat)
      requires Valid()
      ensures added == |seen| && changedOnes == |ChangedRecords(log)|
    {
      added, changedOnes := |seen|, |changed|;
    }

    /** The listed values of every rule, most hits first, then by value. */
    method TallyExamples() returns (rows: seq<RuleExamples>)
      requires Valid() && collect
      ensures |rows| == |order|
      ensures forall i | 0 <= i < |rows| ::
                rows[i] == ExamplesRow(order[i].0, V.Gather(MatchesFor(cleaner, log, order[i].0)))
    {
      rows := [];
      for i := 0 to |order|
        invariant |rows| == i
        invariant forall k | 0 <= k < i ::
                    rows[k] == ExamplesRow(order[k].0, V.Gather(MatchesFor(cleaner, log, order[k].0)))
      {
        rows := rows + [ExamplesRow(order[i].0, AccOf(examples, order[i].0))];
      }
    }
  }

  function RowOrder(rules: seq<RegexRule>, hasFirstnames: bool, hasLastnames: bool): seq<(string, string, RuleSource)> {
    seq(|rules|, i requires 0 <= i < |rules| => (rules[i].ruleId, rules[i].tag, rules[i].source))
    + (if hasFirstnames then [(FIRSTNAME_RULE_ID, "Firstname", NameList)] else [])
    + (if hasLastnames then [(LASTNAME_RULE_ID, "Lastname", NameList)] else [])
    + (if hasFirstnames && hasLastnames then [(BOTH_LISTS_RULE_ID, "Name", NameList)] else [])
  }

  predicate MoreHitsFirst(a: ValueRow, b: ValueRow) {
    a.hits > b.hits || (a.hits == b.hits && Leq(a.value, b.value))
  }

  function Row(acc: V.ValueAcc): ValueRow { ValueRow(acc.value, acc.hits, |acc.records|, acc.examples) }

  function ListedRows(order: seq<string>, values: map<string, V.ValueAcc>): seq<ValueRow> {
    if order == [] then []
    else
      var key := order[|order| - 1];
      ListedRows(order[..|order| - 1], values) + if key in values then [Row(values[key])] else []
  }

  function ExamplesRow(ruleId: string, acc: V.RuleAcc): RuleExamples {
    RuleExamples(ruleId, Sort(MoreHitsFirst, ListedRows(acc.order, acc.values)), acc.otherHits)
  }

  // ---- what a row of examples says ----

  lemma {:induction false} MoreHitsFirstIsTotal()
    ensures TotalPreorder(MoreHitsFirst)
  {
    forall a: ValueRow, b: ValueRow ensures MoreHitsFirst(a, b) || MoreHitsFirst(b, a) { LeqTotal(a.value, b.value); }
    forall a: ValueRow, b: ValueRow, c: ValueRow ensures MoreHitsFirst(a, b) && MoreHitsFirst(b, c) ==> MoreHitsFirst(a, c) {
      if MoreHitsFirst(a, b) && MoreHitsFirst(b, c) && a.hits == c.hits { LeqTransitive(a.value, b.value, c.value); }
    }
  }

  /** The value under `key`: its first spelling, its hits and records, and its first snippets. */
  function RowFor(ms: seq<V.Match>, key: string): ValueRow {
    ValueRow(V.FirstSpelling(ms, key), V.CountKey(ms, key), |V.RecordsOf(ms, key)|, V.FirstSnippets(V.SnippetsOf(ms, key)))
  }

  function RowsFor(ms: seq<V.Match>, keys: seq<string>): seq<ValueRow> {
    seq(|keys|, i requires 0 <= i < |keys| => RowFor(ms, keys[i]))
  }

  lemma {:induction false} ListedAre(keys: seq<string>, values: map<string, V.ValueAcc>, rows: seq<ValueRow>)
    requires |rows| == |keys| && forall i | 0 <= i < |keys| :: keys[i] in values && Row(values[keys[i]]) == rows[i]
    ensures ListedRows(keys, values) == rows
  {
    if keys != [] {
      var n := |keys| - 1;
      ListedAre(keys[..n], values, rows[..n]);
      assert rows == rows[..n] + [rows[n]];
    }
  }

  lemma {:induction false} GatheredAreListed(ms: seq<V.Match>)
    ensures ListedRows(V.Gather(ms).order, V.Gather(ms).values) == RowsFor(ms, V.Gather(ms).order)
  {
    var acc := V.Gather(ms);
    V.GatherGroups(ms);
    forall i | 0 <= i < |acc.order| ensures acc.order[i] in acc.values && Row(acc.values[acc.order[i]]) == RowFor(ms, acc.order[i]) {
      assert acc.order[i] in acc.order;
      assert V.Shows(acc.values[acc.order[i]], ms, acc.order[i]);
    }
    ListedAre(acc.order, acc.values, RowsFor(ms, acc.order));
  }

  /** The rows of one rule: the values first met, up to the cap, each with what `RowFor` says of it,
      sorted by most hits and then by value. */
  lemma {:induction false} ExamplesRowMeans(ruleId: string, ms: seq<V.Match>)
    ensures var rows := ExamplesRow(ruleId, V.Gather(ms)).values;
            && (forall i, j | 0 <= i < j < |rows| ::
                  rows[i].hits > rows[j].hits || (rows[i].hits == rows[j].hits && Leq(rows[i].value, rows[j].value)))
            && multiset(rows) == multiset(RowsFor(ms, V.AtMost(V.FirstMet(ms), 2000)))
  {
    var acc := V.Gather(ms);
    V.GatherGroups(ms);
    GatheredAreListed(ms);
    MoreHitsFirstIsTotal();
    SortSorts(MoreHitsFirst, ListedRows(acc.order, acc.values));
    var rows := ExamplesRow(ruleId, acc).values;
    forall i, j | 0 <= i < j < |rows|
      ensures rows[i].hits > rows[j].hits || (rows[i].hits == rows[j].hits && Leq(rows[i].value, rows[j].value))
    {
      assert MoreHitsFirst(rows[i], rows[j]);
    }
  }

  // ---- one hit more ----

  lemma {:induction false} Snoc(c: Cleaner, log: seq<Event>, ev: Event, key: string)
    ensures HitCount(log + [ev], key) == HitCount(log, key) + if ev.hit.ruleId == key then 1 else 0
    ensures RecordSet(log + [ev], key) == RecordSet(log, key) + if ev.hit.ruleId == key then {ev.recordKey} else {}
    ensures EntryCount(log + [ev], key) == EntryCount(log, key) + if ev.hit.entry == Some(key) then 1 else 0
    ensures ChangedRecords(log + [ev]) == ChangedRecords(log) + {ev.recordKey}
    ensures MatchesFor(c, log + [ev], key)
         == MatchesFor(c, log, key) + if ev.hit.ruleId == key && ev.original.Some? then [c.Match(ev)] else []
  {}

  lemma {:induction false} HitCounted(c: Cleaner, hits: map<string, nat>, log: seq<Event>, ev: Event)
    requires CountsHits(hits, log)
    ensures CountsHits(hits[ev.hit.ruleId := CountOf(hits, ev.hit.ruleId) + 1], log + [ev])
  {
    var next := hits[ev.hit.ruleId := CountOf(hits, ev.hit.ruleId) + 1];
    forall ruleId ensures CountOf(next, ruleId) == HitCount(log + [ev], ruleId) {
      Snoc(c, log, ev, ruleId);
      assert CountOf(hits, ruleId) == HitCount(log, ruleId);
    }
  }

  lemma {:induction false} RecordCounted(c: Cleaner, records: map<string, set<string>>, log: seq<Event>, ev: Event)
    requires CountsRecords(records, log)
    ensures CountsRecords(records[ev.hit.ruleId := SetOf(records, ev.hit.ruleId) + {ev.recordKey}], log + [ev])
  {
    var next := records[ev.hit.ruleId := SetOf(records, ev.hit.ruleId) + {ev.recordKey}];
    forall ruleId ensures SetOf(next, ruleId) == RecordSet(log + [ev], ruleId) {
      Snoc(c, log, ev, ruleId);
      assert SetOf(records, ruleId) == RecordSet(log, ruleId);
    }
  }

  function BumpEntry(entries: map<string, nat>, entry: Option<string>): map<string, nat> {
    match entry case None => entries case Some(key) => entries[key := CountOf(entries, key) + 1]
  }

  lemma {:induction false} EntryCounted(c: Cleaner, entries: map<string, nat>, log: seq<Event>, ev: Event)
    requires CountsEntries(entries, log)
    ensures CountsEntries(BumpEntry(entries, ev.hit.entry), log + [ev])
  {}

  function AddExample(c: Cleaner, collect: bool, examples: map<string, V.RuleAcc>, ev: Event): map<string, V.RuleAcc> {
    if collect && ev.original.Some? then
      examples[ev.hit.ruleId := AccOf(examples, ev.hit.ruleId).Add(c.Match(ev))]
    else examples
  }

  lemma {:induction false} ExampleGathered(c: Cleaner, collect: bool, examples: map<string, V.RuleAcc>, log: seq<Event>, ev: Event)
    requires GathersExamples(c, collect, examples, log)
    ensures GathersExamples(c, collect, AddExample(c, collect, examples, ev), log + [ev])
  {}

  function After(c: Cleaner, collect: bool, s: State, ev: Event): State {
    State(s.hits[ev.hit.ruleId := CountOf(s.hits, ev.hit.ruleId) + 1],
          s.recordsByRule[ev.hit.ruleId := SetOf(s.recordsByRule, ev.hit.ruleId) + {ev.recordKey}],
          BumpEntry(s.entries, ev.hit.entry),
          s.changed + {ev.recordKey},
          AddExample(c, collect, s.examples, ev))
  }

  lemma {:induction false} HitAdded(c: Cleaner, collect: bool, s: State, log: seq<Event>, ev: Event)
    requires Counts(c, collect, s, log)
    ensures Counts(c, collect, After(c, collect, s, ev), log + [ev])
  {
    HitCounted(c, s.hits, log, ev);
    RecordCounted(c, s.recordsByRule, log, ev);
    EntryCounted(c, s.entries, log, ev);
    ExampleGathered(c, collect, s.examples, log, ev);
    Snoc(c, log, ev, "");
  }
}
