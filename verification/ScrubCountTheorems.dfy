/** The tally of any run of `add`: every hit lands on exactly one row, and every value is accounted for. */
module ScrubCountTheorems {
  import opened Wrappers
  import opened ScrubTypes
  import opened WindowSearch
  import opened NameMatching
  import opened NameTagging
  import opened RegexClaims
  import opened Replacement
  import opened Scrubbing
  import opened ScrubTheorems
  import opened ScrubCounting
  import opened RuleChecks
  import opened Sorting
  import V = ValueExamples

  function Ids(order: seq<(string, string, RuleSource)>): seq<string> {
    seq(|order|, i requires 0 <= i < |order| => order[i].0)
  }

  function SumOver(ids: seq<string>, log: seq<Event>): nat {
    if ids == [] then 0 else HitCount(log, ids[0]) + SumOver(ids[1..], log)
  }

  lemma {:induction false} SumOfNothing(ids: seq<string>)
    ensures SumOver(ids, []) == 0
  {
    if ids != [] { SumOfNothing(ids[1..]); }
  }

  lemma {:induction false} SumSkips(ids: seq<string>, log: seq<Event>, ev: Event)
    requires ev.hit.ruleId !in ids
    ensures SumOver(ids, log + [ev]) == SumOver(ids, log)
  {
    if ids != [] {
      SumSkips(ids[1..], log, ev);
      assert (log + [ev])[..|log|] == log;
    }
  }

  lemma {:induction false} SumCounts(ids: seq<string>, log: seq<Event>, ev: Event)
    requires V.NoRepeats(ids) && ev.hit.ruleId in ids
    ensures SumOver(ids, log + [ev]) == SumOver(ids, log) + 1
  {
    assert (log + [ev])[..|log|] == log;
    if ids[0] == ev.hit.ruleId {
      assert ev.hit.ruleId !in ids[1..];
      SumSkips(ids[1..], log, ev);
    } else {
      SumCounts(ids[1..], log, ev);
    }
  }

  /** When rows have different ids and every hit's rule has a row, the rows add up to all hits. */
  lemma {:induction false} RowsAddUp(ids: seq<string>, log: seq<Event>)
    requires V.NoRepeats(ids)
    requires forall ev | ev in log :: ev.hit.ruleId in ids
    ensures SumOver(ids, log) == |log|
  {
    if log == [] {
      SumOfNothing(ids);
    } else {
      var before, last := log[..|log| - 1], log[|log| - 1];
      RowsAddUp(ids, before);
      assert log == before + [last];
      SumCounts(ids, before, last);
    }
  }

  /** In a rule set the checks accept, no two rows of the tally share an id. */
  lemma {:induction false} AcceptedRulesHaveOwnRows(rules: seq<RegexRule>, hasFirstnames: bool, hasLastnames: bool)
    requires WellIdentified(rules)
    ensures V.NoRepeats(Ids(RowOrder(rules, hasFirstnames, hasLastnames)))
  {
    var ids, n := Ids(RowOrder(rules, hasFirstnames, hasLastnames)), |rules|;
    forall i, j | 0 <= i < j < |ids| ensures ids[i] != ids[j] {
      if i < n {
        assert ids[i] == rules[i].ruleId && Identified(rules[i]);
        if j < n { assert ids[j] == rules[j].ruleId; } else { assert ids[j] in RESERVED_RULE_IDS; }
      } else {
        ListIdsDiffer(hasFirstnames, hasLastnames, i - n, j - n);
      }
    }
  }

  function ListIds(hasFirstnames: bool, hasLastnames: bool): seq<string> {
    (if hasFirstnames then [FIRSTNAME_RULE_ID] else []) + (if hasLastnames then [LASTNAME_RULE_ID] else [])
    + (if hasFirstnames && hasLastnames then [BOTH_LISTS_RULE_ID] else [])
  }

  lemma {:induction false} ListIdsDiffer(hasFirstnames: bool, hasLastnames: bool, i: nat, j: nat)
    requires i < j < |ListIds(hasFirstnames, hasLastnames)|
    ensures ListIds(hasFirstnames, hasLastnames)[i] != ListIds(hasFirstnames, hasLastnames)[j]
  {
    assert |FIRSTNAME_RULE_ID| == 10 && |LASTNAME_RULE_ID| == 9 && |BOTH_LISTS_RULE_ID| == 10;
    assert FIRSTNAME_RULE_ID[0] != BOTH_LISTS_RULE_ID[0];
  }

  // ---- every hit of a scrub has a row ----

  lemma {:induction false} NameHasRow(r: Reading, k: nat)
    requires r.WellFormed() && k < |NamesIn(r)|
    ensures NamesIn(r)[k].ruleId in ListIds(r.lists.first.keys != map[], r.lists.last.keys != map[])
  {
    MatchesAreTaggable(r);
    NamesCount(r);
    MatchNeedsLists(r, k);
    var tag := TaggedAs(r.Matches(), r.tokens, r.joined, k);
    RuleIdListed(tag, r.lists.first.keys != map[], r.lists.last.keys != map[]);
  }

  lemma {:induction false} MatchNeedsLists(r: Reading, k: nat)
    requires k < |r.Matches()|
    ensures r.Matches()[k].firstname.Some? ==> r.lists.first.keys != map[]
    ensures r.Matches()[k].lastname.Some? ==> r.lists.last.keys != map[]
  {
    assert r.Matches()[k] == r.MatchAt(r.Search().SearchFrom(0)[k]);
  }

  lemma {:induction false} RuleIdListed(tag: NameTag, hasFirstnames: bool, hasLastnames: bool)
    requires tag == Firstname ==> hasFirstnames
    requires tag == Lastname ==> hasLastnames
    requires tag == Name ==> hasFirstnames && hasLastnames
    ensures tag.RuleId() in ListIds(hasFirstnames, hasLastnames)
  {}

  lemma {:induction false} IdsOfRows(rules: seq<RegexRule>, hasFirstnames: bool, hasLastnames: bool)
    ensures var ids := Ids(RowOrder(rules, hasFirstnames, hasLastnames));
            && (forall i | 0 <= i < |rules| :: rules[i].ruleId in ids)
            && (forall id | id in ListIds(hasFirstnames, hasLastnames) :: id in ids)
  {
    var ids, listed := Ids(RowOrder(rules, hasFirstnames, hasLastnames)), ListIds(hasFirstnames, hasLastnames);
    forall i | 0 <= i < |rules| ensures rules[i].ruleId in ids { assert ids[i] == rules[i].ruleId; }
    forall i | 0 <= i < |listed| ensures listed[i] in ids { assert ids[|rules| + i] == listed[i]; }
  }

  /** A hit of some scrub of the rule set. */
  ghost predicate FromScrub(e: Engine, rules: ScrubRules, hit: Hit, text: string)
    requires Sound(e)
  {
    text != "" && Scrubbed(e, rules, text).Success? && hit in Scrubbed(e, rules, text).value.hits
  }

  lemma {:induction false} HitHasRow(e: Engine, rules: ScrubRules, hit: Hit, text: string)
    requires Sound(e) && FromScrub(e, rules, hit, text)
    ensures hit.ruleId in Ids(RowOrder(rules.regexRules, ListsOf(e, rules).first.keys != map[], ListsOf(e, rules).last.keys != map[]))
  {
    var r := ReadingOf(e, rules, text);
    var found := Collected(e, rules.regexRules, text).value;
    ChosenFits(e, rules, text);
    NamesAreDisjoint(e, rules, text);
    ChosenIsDisjoint(Resolved(found), NamesIn(r), |text|);
    ClaimsHaveNoEntry(e, rules.regexRules, text);
    IdsOfRows(rules.regexRules, r.lists.first.keys != map[], r.lists.last.keys != map[]);
    var c := HitCandidate(text, ChosenIn(e, rules, text, found), hit);
    if c !in Resolved(found) {
      var k :| 0 <= k < |NamesIn(r)| && NamesIn(r)[k] == c;
      NameHasRow(r, k);
    }
  }

  lemma {:induction false} HitCandidate(text: string, cs: seq<Candidate>, hit: Hit) returns (c: Candidate)
    requires Disjoint(cs, |text|) && hit in Replaced(text, cs).hits
    ensures c in cs && c.ruleId == hit.ruleId
  {
    var i :| 0 <= i < |Replaced(text, cs).hits| && Replaced(text, cs).hits[i] == hit;
    c := cs[i];
  }

  /** Over any run of `add` on scrubs of an accepted rule set, the row hits sum to all hits: every
      hit lands on exactly one row. */
  lemma {:induction false} EveryHitOnOneRow(e: Engine, rules: ScrubRules, log: seq<Event>)
    requires Sound(e) && WellIdentified(rules.regexRules)
    requires forall ev | ev in log :: exists text :: FromScrub(e, rules, ev.hit, text)
    ensures var ids := Ids(RowOrder(rules.regexRules, ListsOf(e, rules).first.keys != map[], ListsOf(e, rules).last.keys != map[]));
            V.NoRepeats(ids) && SumOver(ids, log) == |log|
  {
    var ids := Ids(RowOrder(rules.regexRules, ListsOf(e, rules).first.keys != map[], ListsOf(e, rules).last.keys != map[]));
    AcceptedRulesHaveOwnRows(rules.regexRules, ListsOf(e, rules).first.keys != map[], ListsOf(e, rules).last.keys != map[]);
    forall ev | ev in log ensures ev.hit.ruleId in ids {
      var text :| FromScrub(e, rules, ev.hit, text);
      HitHasRow(e, rules, ev.hit, text);
    }
    RowsAddUp(ids, log);
  }

  // ---- the examples of a rule account for all its hits ----

  function SumRows(rows: seq<ValueRow>): nat {
    if rows == [] then 0 else rows[0].hits + SumRows(rows[1..])
  }

  lemma {:induction false} SumRowsInsert(row: ValueRow, rows: seq<ValueRow>)
    ensures SumRows(Insert(MoreHitsFirst, row, rows)) == row.hits + SumRows(rows)
  {
    if rows != [] && !MoreHitsFirst(row, rows[0]) {
      SumRowsInsert(row, rows[1..]);
      assert Insert(MoreHitsFirst, row, rows)[1..] == Insert(MoreHitsFirst, row, rows[1..]);
    }
  }

  lemma {:induction false} SumRowsSort(rows: seq<ValueRow>)
    ensures SumRows(Sort(MoreHitsFirst, rows)) == SumRows(rows)
  {
    if rows != [] {
      SumRowsSort(rows[1..]);
      SumRowsInsert(rows[0], Sort(MoreHitsFirst, rows[1..]));
    }
  }

  lemma {:induction false} SumRowsSnoc(rows: seq<ValueRow>, row: ValueRow)
    ensures SumRows(rows + [row]) == SumRows(rows) + row.hits
  {
    if rows != [] {
      SumRowsSnoc(rows[1..], row);
      assert (rows + [row])[1..] == rows[1..] + [row];
    }
  }

  lemma {:induction false} ListedSum(order: seq<string>, values: map<string, V.ValueAcc>)
    requires forall key | key in order :: key in values
    ensures SumRows(ListedRows(order, values)) == V.SumHits(order, values)
  {
    if order != [] {
      var n := |order| - 1;
      assert order[n] in order;
      ListedSum(order[..n], values);
      SumRowsSnoc(ListedRows(order[..n], values), Row(values[order[n]]));
    }
  }

  lemma {:induction false} AllGathered(c: Cleaner, log: seq<Event>, ruleId: string)
    requires forall ev | ev in log :: ev.original.Some?
    ensures |MatchesFor(c, log, ruleId)| == HitCount(log, ruleId)
  {
    if log != [] {
      assert log[|log| - 1] in log;
      AllGathered(c, log[..|log| - 1], ruleId);
    }
  }

  /** With every original collected, a rule's listed value hits and its other hits are its row's
      hits; its listed values are the first ones met up to the cap, each with all of its hits. */
  lemma {:induction false} ExamplesAddUp(c: Cleaner, log: seq<Event>, ruleId: string)
    requires forall ev | ev in log :: ev.original.Some?
    ensures var acc := V.Gather(MatchesFor(c, log, ruleId));
            && SumRows(ExamplesRow(ruleId, acc).values) + ExamplesRow(ruleId, acc).otherHits == HitCount(log, ruleId)
            && V.Groups(acc, MatchesFor(c, log, ruleId))
  {
    var ms := MatchesFor(c, log, ruleId);
    V.GatherAddsUp(ms);
    V.GatherGroups(ms);
    var acc := V.Gather(ms);
    ListedSum(acc.order, acc.values);
    SumRowsSort(ListedRows(acc.order, acc.values));
    AllGathered(c, log, ruleId);
  }
}
