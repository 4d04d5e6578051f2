/** The values one rule replaced, grouped: listed up to a cap, counted past it. */
module ValueExamples {

  const EXAMPLES_PER_VALUE: nat := 3
  const MAX_VALUES_PER_RULE: nat := 2000

  datatype Example = Example(recordKey: string, placeholder: string, before: string, matched: string, after: string)

  datatype ValueAcc = ValueAcc(value: string, hits: nat, records: set<string>, examples: seq<Example>) {
    function Count(recordKey: string, example: Example): ValueAcc {
      ValueAcc(value, hits + 1, records + {recordKey},
               if |examples| < EXAMPLES_PER_VALUE then examples + [example] else examples)
    }
  }

  /** `order` are the keys of the dictionary `values`, first met first. */
  datatype RuleAcc = RuleAcc(order: seq<string>, values: map<string, ValueAcc>, otherHits: nat) {
    function Add(m: Match): RuleAcc {
      if m.key in values then this.(values := values[m.key := values[m.key].Count(m.recordKey, m.example)])
      else if |values| >= MAX_VALUES_PER_RULE then this.(otherHits := otherHits + 1)
      else this.(order := order + [m.key],
                 values := values[m.key := ValueAcc(m.matched, 0, {}, []).Count(m.recordKey, m.example)])
    }
  }

  const NOTHING := RuleAcc([], map[], 0)

  /** One hit of the rule: the key it is grouped under, its spelling, its record and its snippet. */
  datatype Match = Match(key: string, matched: string, recordKey: string, example: Example)

  function Gather(ms: seq<Match>): RuleAcc {
    if ms == [] then NOTHING else Gather(ms[..|ms| - 1]).Add(ms[|ms| - 1])
  }

  // ---- the declarative reading ----

  function CountKey(ms: seq<Match>, key: string): nat {
    if ms == [] then 0 else CountKey(ms[..|ms| - 1], key) + if ms[|ms| - 1].key == key then 1 else 0
  }

  function RecordsOf(ms: seq<Match>, key: string): set<string> {
    if ms == [] then {}
    else RecordsOf(ms[..|ms| - 1], key) + if ms[|ms| - 1].key == key then {ms[|ms| - 1].recordKey} else {}
  }

  /** The different keys in the order they are first met. */
  function FirstMet(ms: seq<Match>): seq<string> {
    if ms == [] then []
    else
      var before, key := FirstMet(ms[..|ms| - 1]), ms[|ms| - 1].key;
      if key in before then before else before + [key]
  }

  /** How the value was spelt where it was first met. */
  function FirstSpelling(ms: seq<Match>, key: string): string {
    if ms == [] then ""
    else if CountKey(ms[..|ms| - 1], key) > 0 then FirstSpelling(ms[..|ms| - 1], key)
    else ms[|ms| - 1].matched
  }

  /** The snippets of a value's hits, in the order they were met. */
  function SnippetsOf(ms: seq<Match>, key: string): seq<Example> {
    if ms == [] then []
    else SnippetsOf(ms[..|ms| - 1], key) + if ms[|ms| - 1].key == key then [ms[|ms| - 1].example] else []
  }

  function FirstSnippets(snippets: seq<Example>): seq<Example> {
    if |snippets| <= EXAMPLES_PER_VALUE then snippets else snippets[..EXAMPLES_PER_VALUE]
  }

  function AtMost(s: seq<string>, n: nat): seq<string> { if |s| <= n then s else s[..n] }

  lemma {:induction false} FirstMetKeys(ms: seq<Match>, key: string)
    ensures key in FirstMet(ms) <==> CountKey(ms, key) > 0
    ensures |FirstMet(ms)| <= |ms|
  {
    if ms != [] { FirstMetKeys(ms[..|ms| - 1], key); }
  }

  /** What a listed value shows: its first spelling, all its hits and their records, and the first
      few snippets. */
  ghost predicate Shows(acc: ValueAcc, ms: seq<Match>, key: string) {
    && acc.value == FirstSpelling(ms, key)
    && acc.hits == CountKey(ms, key) > 0
    && acc.records == RecordsOf(ms, key)
    && acc.examples == FirstSnippets(SnippetsOf(ms, key))
  }

  /** Everything about a grouping: the listed values are the first ones met up to the cap, each
      with all of its hits, and the rest is counted. */
  ghost predicate Groups(acc: RuleAcc, ms: seq<Match>) {
    && acc.order == AtMost(FirstMet(ms), MAX_VALUES_PER_RULE)
    && |acc.order| == |acc.values|
    && (forall key :: key in acc.values <==> key in acc.order)
    && (forall key {:trigger acc.values[key]} | key in acc.values :: Shows(acc.values[key], ms, key))
  }

  lemma {:induction false} Snoc(ms: seq<Match>, m: Match, key: string)
    ensures CountKey(ms + [m], key) == CountKey(ms, key) + if m.key == key then 1 else 0
    ensures RecordsOf(ms + [m], key) == RecordsOf(ms, key) + if m.key == key then {m.recordKey} else {}
    ensures FirstMet(ms + [m]) == if m.key in FirstMet(ms) then FirstMet(ms) else FirstMet(ms) + [m.key]
    ensures FirstSpelling(ms + [m], key) == if CountKey(ms, key) > 0 then FirstSpelling(ms, key) else m.matched
    ensures SnippetsOf(ms + [m], key) == SnippetsOf(ms, key) + if m.key == key then [m.example] else []
  {
    assert (ms + [m])[..|ms|] == ms;
  }

  lemma {:induction false} NoRecords(ms: seq<Match>, key: string)
    requires CountKey(ms, key) == 0
    ensures RecordsOf(ms, key) == {} && SnippetsOf(ms, key) == []
  {
    if ms != [] { NoRecords(ms[..|ms| - 1], key); }
  }

  lemma {:induction false} ShowsCounted(acc: ValueAcc, ms: seq<Match>, m: Match)
    requires Shows(acc, ms, m.key)
    ensures Shows(acc.Count(m.recordKey, m.example), ms + [m], m.key)
  {
    Snoc(ms, m, m.key);
  }

  lemma {:induction false} ShowsNew(ms: seq<Match>, m: Match)
    requires CountKey(ms, m.key) == 0
    ensures Shows(ValueAcc(m.matched, 0, {}, []).Count(m.recordKey, m.example), ms + [m], m.key)
  {
    Snoc(ms, m, m.key);
    NoRecords(ms, m.key);
  }

  lemma {:induction false} ShowsStill(acc: RuleAcc, ms: seq<Match>, m: Match, key: string)
    requires Groups(acc, ms) && key in acc.values && key != m.key
    ensures Shows(acc.values[key], ms + [m], key)
  {
    Snoc(ms, m, key);
    assert Shows(acc.values[key], ms, key);
  }

  lemma {:induction false} OrderAfter(acc: RuleAcc, ms: seq<Match>, m: Match)
    requires Groups(acc, ms)
    ensures acc.Add(m).order == AtMost(FirstMet(ms + [m]), MAX_VALUES_PER_RULE)
  {}

  lemma {:induction false} AddGroups(acc: RuleAcc, ms: seq<Match>, m: Match)
    requires Groups(acc, ms)
    ensures Groups(acc.Add(m), ms + [m])
  {
    var next := acc.Add(m);
    OrderAfter(acc, ms, m);
    FirstMetKeys(ms, m.key);
    forall key | key in next.values ensures Shows(next.values[key], ms + [m], key) {
      if key != m.key {
        ShowsStill(acc, ms, m, key);
      } else if key in acc.values {
        ShowsCounted(acc.values[key], ms, m);
      } else {
        assert acc.order == FirstMet(ms);
        ShowsNew(ms, m);
      }
    }
  }

  lemma {:induction false} AddGroupsTo(acc: RuleAcc, before: seq<Match>, m: Match, ms: seq<Match>)
    requires Groups(acc, before) && ms == before + [m]
    ensures Groups(acc.Add(m), ms)
  {
    AddGroups(acc, before, m);
  }

  lemma {:induction false} NothingGroups(ms: seq<Match>)
    requires ms == []
    ensures Groups(Gather(ms), ms)
  {}

  lemma {:induction false} GatherNext(ms: seq<Match>)
    requires ms != [] && Groups(Gather(ms[..|ms| - 1]), ms[..|ms| - 1])
    ensures Groups(Gather(ms), ms)
  {
    var before, last := ms[..|ms| - 1], ms[|ms| - 1];
    assert before + [last] == ms;
    AddGroupsTo(Gather(before), before, last, ms);
  }

  lemma {:induction false} GatherGroups(ms: seq<Match>)
    ensures Groups(Gather(ms), ms)
  {
    if ms == [] {
      NothingGroups(ms);
    } else {
      GatherGroups(ms[..|ms| - 1]);
      GatherNext(ms);
    }
  }

  lemma {:induction false} RecordsNeverExceedHits(ms: seq<Match>, key: string)
    ensures |RecordsOf(ms, key)| <= CountKey(ms, key)
  {
    if ms != [] { RecordsNeverExceedHits(ms[..|ms| - 1], key); }
  }

  /** Every hit has a snippet, so a listed value shows as many as it has hits, up to the cap. */
  lemma {:induction false} SnippetsAreHits(ms: seq<Match>, key: string)
    ensures |SnippetsOf(ms, key)| == CountKey(ms, key)
    ensures |FirstSnippets(SnippetsOf(ms, key))| == if CountKey(ms, key) <= EXAMPLES_PER_VALUE then CountKey(ms, key) else EXAMPLES_PER_VALUE
  {
    if ms != [] { SnippetsAreHits(ms[..|ms| - 1], key); }
  }

  // ---- listed hits plus the rest are all hits ----

  function SumHits(order: seq<string>, values: map<string, ValueAcc>): nat
    requires forall key | key in order :: key in values
  {
    if order == [] then 0 else SumHits(order[..|order| - 1], values) + values[order[|order| - 1]].hits
  }

  lemma {:induction false} SumUnchanged(order: seq<string>, a: map<string, ValueAcc>, b: map<string, ValueAcc>)
    requires forall key | key in order :: key in a && key in b && a[key].hits == b[key].hits
    ensures SumHits(order, a) == SumHits(order, b)
  {
    if order != [] { SumUnchanged(order[..|order| - 1], a, b); }
  }

  ghost predicate NoRepeats(s: seq<string>) { forall i, j | 0 <= i < j < |s| :: s[i] != s[j] }

  lemma {:induction false} SumBumped(order: seq<string>, a: map<string, ValueAcc>, b: map<string, ValueAcc>, key: string)
    requires NoRepeats(order) && key in order
    requires forall k | k in order :: k in a && k in b && b[k].hits == a[k].hits + if k == key then 1 else 0
    ensures SumHits(order, b) == SumHits(order, a) + 1
  {
    var n := |order| - 1;
    if order[n] == key {
      assert forall k | k in order[..n] :: k != key;
      SumUnchanged(order[..n], a, b);
    } else {
      SumBumped(order[..n], a, b, key);
    }
  }

  ghost predicate Adds(acc: RuleAcc, n: nat) {
    && NoRepeats(acc.order) && |acc.order| == |acc.values|
    && (forall key :: key in acc.values <==> key in acc.order)
    && SumHits(acc.order, acc.values) + acc.otherHits == n
  }

  lemma {:induction false} AddKnown(acc: RuleAcc, n: nat, m: Match)
    requires Adds(acc, n) && m.key in acc.values
    ensures Adds(acc.Add(m), n + 1)
  {
    SumBumped(acc.order, acc.values, acc.Add(m).values, m.key);
  }

  lemma {:induction false} AddNew(acc: RuleAcc, n: nat, m: Match)
    requires Adds(acc, n) && m.key !in acc.values && |acc.values| < MAX_VALUES_PER_RULE
    ensures Adds(acc.Add(m), n + 1)
  {
    var next := acc.Add(m);
    assert next.order[..|acc.order|] == acc.order;
    assert SumHits(next.order, next.values) == SumHits(acc.order, next.values) + 1;
    SumUnchanged(acc.order, acc.values, next.values);
  }

  lemma {:induction false} AddAdds(acc: RuleAcc, n: nat, m: Match)
    requires Adds(acc, n)
    ensures Adds(acc.Add(m), n + 1)
  {
    if m.key in acc.values {
      AddKnown(acc, n, m);
    } else if |acc.values| < MAX_VALUES_PER_RULE {
      AddNew(acc, n, m);
    }
  }

  /** The hits of the listed values and the hits past the cap are all the hits there are. */
  lemma {:induction false} GatherAddsUp(ms: seq<Match>)
    ensures Adds(Gather(ms), |ms|)
  {
    if ms != [] {
      GatherAddsUp(ms[..|ms| - 1]);
      AddAdds(Gather(ms[..|ms| - 1]), |ms| - 1, ms[|ms| - 1]);
    }
  }
}
