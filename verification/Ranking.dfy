/** The ranking table: macro F1 per model, and ranks shared by overlap. */
module Ranking {
  import opened Wrappers
  import opened Wilson
  import opened Ties
  import opened MacroAverage
  import opened MacroMeaning
  import opened RankGroups
  import opened Sorting
  import opened Text

  datatype FeatureCell = FeatureCell(featureId: string, f1: real, interval: Interval, suppressed: bool, mark: TieMark)

  /** One item of the mapping from model to cells; a mapping is its items in iteration order. */
  datatype Entry = Entry(modelId: string, cells: seq<FeatureCell>)

  datatype ModelRanking = ModelRanking(modelId: string, rank: nat, macroF1: real, interval: Interval, best: nat, tied: nat, worse: nat)

  datatype RankingError = NothingToRank

  function EntryId(e: Entry): string { e.modelId }

  function SummaryId(s: Summary): string { s.modelId }

  ghost predicate DistinctModels(entries: seq<Entry>) { DistinctKeys(EntryId, entries) }

  ghost predicate ProperCells(cells: seq<FeatureCell>) {
    forall i | 0 <= i < |cells| :: Proper(cells[i].interval)
  }

  ghost predicate ProperEntries(entries: seq<Entry>) {
    forall i | 0 <= i < |entries| :: ProperCells(entries[i].cells)
  }

  // ---- one model's summary ----

  function Scored(cells: seq<FeatureCell>): (s: seq<FeatureCell>)
    ensures forall c :: c in s <==> c in cells && !c.suppressed
    ensures ProperCells(cells) ==> ProperCells(s)
  {
    if cells == [] then []
    else
      assert cells == [cells[0]] + cells[1..];
      (if cells[0].suppressed then [] else [cells[0]]) + Scored(cells[1..])
  }

  function Values(cells: seq<FeatureCell>): seq<real> {
    seq(|cells|, i requires 0 <= i < |cells| => cells[i].f1)
  }

  function Intervals(cells: seq<FeatureCell>): seq<Interval> {
    seq(|cells|, i requires 0 <= i < |cells| => cells[i].interval)
  }

  function CountMark(cells: seq<FeatureCell>, mark: TieMark): nat {
    if cells == [] then 0 else CountMark(cells[1..], mark) + if cells[0].mark == mark then 1 else 0
  }

  function Summarise(sqrt: real -> real, modelId: string, cells: seq<FeatureCell>): Summary
    requires cells != []
  {
    Summary(modelId, Mean(Values(cells)), MacroInterval(sqrt, Intervals(cells)),
            CountMark(cells, Best), CountMark(cells, Tied), CountMark(cells, NoMark))
  }

  /** The three counts sum to the number of scored features. */
  lemma {:induction false} MarksAddUp(cells: seq<FeatureCell>)
    ensures CountMark(cells, Best) + CountMark(cells, Tied) + CountMark(cells, NoMark) == |cells|
  {
    if cells != [] { MarksAddUp(cells[1..]); }
  }

  function Summaries(sqrt: real -> real, entries: seq<Entry>): seq<Summary> {
    if entries == [] then []
    else
      (if Scored(entries[0].cells) == [] then [] else [Summarise(sqrt, entries[0].modelId, Scored(entries[0].cells))])
      + Summaries(sqrt, entries[1..])
  }

  // ---- the table ----

  predicate ById(a: Entry, b: Entry) { Leq(a.modelId, b.modelId) }

  /** Highest macro first, then model id. */
  predicate ByMacro(a: Summary, b: Summary) {
    a.macroF1 > b.macroF1 || (a.macroF1 == b.macroF1 && Leq(a.modelId, b.modelId))
  }

  function Table(sqrt: real -> real, entries: seq<Entry>): seq<Summary> {
    Sort(ByMacro, Summaries(sqrt, Sort(ById, entries)))
  }

  lemma {:induction false} OrdersAreTotal()
    ensures TotalPreorder(ById) && TotalPreorder(ByMacro)
  {
    forall a: Entry, b: Entry ensures ById(a, b) || ById(b, a) { LeqTotal(a.modelId, b.modelId); }
    forall a: Entry, b: Entry, c: Entry ensures ById(a, b) && ById(b, c) ==> ById(a, c) {
      if ById(a, b) && ById(b, c) { LeqTransitive(a.modelId, b.modelId, c.modelId); }
    }
    forall a: Summary, b: Summary ensures ByMacro(a, b) || ByMacro(b, a) { LeqTotal(a.modelId, b.modelId); }
    forall a: Summary, b: Summary, c: Summary ensures ByMacro(a, b) && ByMacro(b, c) ==> ByMacro(a, c) {
      if ByMacro(a, b) && ByMacro(b, c) && a.macroF1 == c.macroF1 { LeqTransitive(a.modelId, b.modelId, c.modelId); }
    }
  }

  /** A row of the table is the summary of one model that has a scored feature, and no other. */
  ghost predicate RowOf(sqrt: real -> real, row: Summary, entries: seq<Entry>) {
    exists e :: e in entries && Scored(e.cells) != [] && row == Summarise(sqrt, e.modelId, Scored(e.cells))
  }

  lemma {:induction false} SummariesAreRows(sqrt: real -> real, entries: seq<Entry>, row: Summary)
    ensures row in Summaries(sqrt, entries) <==> RowOf(sqrt, row, entries)
  {
    if entries != [] {
      var e, rest := entries[0], entries[1..];
      SummariesAreRows(sqrt, rest, row);
      assert entries == [e] + rest;
      if RowOf(sqrt, row, rest) {
        var x :| x in rest && Scored(x.cells) != [] && row == Summarise(sqrt, x.modelId, Scored(x.cells));
        assert x in entries;
      }
      if RowOf(sqrt, row, entries) {
        var x :| x in entries && Scored(x.cells) != [] && row == Summarise(sqrt, x.modelId, Scored(x.cells));
        assert x == e || x in rest;
      }
    }
  }

  lemma {:induction false} SummariesAreDistinct(sqrt: real -> real, entries: seq<Entry>)
    requires DistinctModels(entries)
    ensures DistinctIds(Summaries(sqrt, entries))
  {
    if entries != [] {
      var e, rest := entries[0], entries[1..];
      assert DistinctModels(rest);
      SummariesAreDistinct(sqrt, rest);
      forall row | row in Summaries(sqrt, rest) ensures row.modelId != e.modelId {
        SummariesAreRows(sqrt, rest, row);
        var x :| x in rest && Scored(x.cells) != [] && row == Summarise(sqrt, x.modelId, Scored(x.cells));
        assert EntryId(x) != EntryId(e);
      }
    }
  }

  predicate Rankable(e: Entry) { Scored(e.cells) != [] }

  lemma {:induction false} ScoredGivesSummary(sqrt: real -> real, entries: seq<Entry>, k: nat)
    requires k < |entries| && Rankable(entries[k])
    ensures Summaries(sqrt, entries) != []
  {
    if k > 0 { ScoredGivesSummary(sqrt, entries[1..], k - 1); }
  }

  lemma {:induction false} UnscoredGiveNone(sqrt: real -> real, entries: seq<Entry>)
    requires forall k | 0 <= k < |entries| :: !Rankable(entries[k])
    ensures Summaries(sqrt, entries) == []
  {
    if entries != [] {
      assert !Rankable(entries[0]);
      UnscoredGiveNone(sqrt, entries[1..]);
    }
  }

  lemma {:induction false} NoSummaryIff(sqrt: real -> real, entries: seq<Entry>)
    ensures Summaries(sqrt, entries) == [] <==> forall e | e in entries :: !Rankable(e)
  {
    if forall e | e in entries :: !Rankable(e) {
      UnscoredGiveNone(sqrt, entries);
    }
    if e :| e in entries && Rankable(e) {
      var k :| 0 <= k < |entries| && entries[k] == e;
      ScoredGivesSummary(sqrt, entries, k);
    }
  }

  lemma {:induction false} SortedEntries(entries: seq<Entry>)
    requires DistinctModels(entries)
    ensures DistinctModels(Sort(ById, entries))
    ensures forall e :: e in Sort(ById, entries) <==> e in entries
  {
    OrdersAreTotal();
    SortSorts(ById, entries);
    SameElements(entries, Sort(ById, entries));
    DistinctKeysPermute(EntryId, entries, Sort(ById, entries));
  }

  lemma {:induction false} SortedRows(rows: seq<Summary>)
    requires DistinctIds(rows)
    ensures DistinctIds(Sort(ByMacro, rows)) && SortedBy(ByMacro, Sort(ByMacro, rows))
    ensures forall row :: row in Sort(ByMacro, rows) <==> row in rows
    ensures Sort(ByMacro, rows) == [] <==> rows == []
  {
    OrdersAreTotal();
    SortSorts(ByMacro, rows);
    SameElements(rows, Sort(ByMacro, rows));
    assert DistinctKeys(SummaryId, rows);
    DistinctKeysPermute(SummaryId, rows, Sort(ByMacro, rows));
  }

  lemma {:induction false} RowsOfSorted(sqrt: real -> real, entries: seq<Entry>, sorted: seq<Entry>, row: Summary)
    requires forall e :: e in sorted <==> e in entries
    ensures row in Summaries(sqrt, sorted) <==> RowOf(sqrt, row, entries)
  {
    SummariesAreRows(sqrt, sorted, row);
  }

  /** What every caller of the table relies on. */
  lemma {:induction false} TableFacts(sqrt: real -> real, entries: seq<Entry>)
    requires IsSqrt(sqrt) && DistinctModels(entries) && ProperEntries(entries)
    ensures DistinctIds(Table(sqrt, entries)) && Ordered(Table(sqrt, entries)) && SortedBy(ByMacro, Table(sqrt, entries))
    ensures forall row :: row in Table(sqrt, entries) <==> RowOf(sqrt, row, entries)
    ensures Table(sqrt, entries) == [] <==> forall e | e in entries :: !Rankable(e)
  {
    var sorted := Sort(ById, entries);
    var rows := Summaries(sqrt, sorted);
    var table := Table(sqrt, entries);
    SortedEntries(entries);
    SummariesAreDistinct(sqrt, sorted);
    NoSummaryIff(sqrt, sorted);
    SortedRows(rows);
    forall row ensures row in table <==> RowOf(sqrt, row, entries) { RowsOfSorted(sqrt, entries, sorted, row); }
    forall i | 0 <= i < |table| ensures table[i].interval.low <= table[i].interval.high {
      assert table[i] in table;
      RowIsProper(sqrt, table[i], entries);
    }
  }

  lemma {:induction false} RowIsProper(sqrt: real -> real, row: Summary, entries: seq<Entry>)
    requires IsSqrt(sqrt) && ProperEntries(entries) && RowOf(sqrt, row, entries)
    ensures Proper(row.interval)
  {
    var e :| e in entries && Scored(e.cells) != [] && row == Summarise(sqrt, e.modelId, Scored(e.cells));
    assert ProperCells(Scored(e.cells));
    MacroIntervalIsProper(sqrt, Intervals(Scored(e.cells)));
  }

  /** The table does not depend on the order in which the mapping lists its models. */
  lemma {:induction false} TableIgnoresMappingOrder(sqrt: real -> real, a: seq<Entry>, b: seq<Entry>)
    requires DistinctModels(a) && multiset(a) == multiset(b)
    ensures Table(sqrt, a) == Table(sqrt, b)
  {
    OrdersAreTotal();
    forall x, y | x in a && y in a && ById(x, y) && ById(y, x) ensures x == y {
      LeqTotal(x.modelId, y.modelId);
    }
    SortIgnoresOrder(ById, a, b);
  }

  // ---- handing out the ranks ----

  /** Each row's leader, as a list, so that the rounds can be followed without looking at intervals. */
  ghost function Leaders(t: seq<Summary>): (ls: seq<nat>)
    ensures |ls| == |t|
  {
    seq(|t|, i requires 0 <= i < |t| => LeaderOf(t, i))
  }

  /** The rows from `i` on whose leader is not above `l`. */
  ghost function From(t: seq<Summary>, ls: seq<nat>, l: nat, i: nat): seq<Summary>
    requires i <= |t| == |ls|
    decreases |t| - i
  {
    if i == |t| then []
    else if ls[i] >= l then [t[i]] + From(t, ls, l, i + 1)
    else From(t, ls, l, i + 1)
  }

  ghost function RankedIds(t: seq<Summary>, ls: seq<nat>, l: nat, n: nat): set<string>
    requires n <= |t| == |ls|
  {
    if n == 0 then {} else RankedIds(t, ls, l, n - 1) + if ls[n - 1] < l then {t[n - 1].modelId} else {}
  }

  lemma {:induction false} RankedIdsFacts(t: seq<Summary>, l: nat, n: nat)
    requires n <= |t| && DistinctIds(t)
    ensures |RankedIds(t, Leaders(t), l, n)| == CountBelow(t, l, n)
  {
    if n > 0 {
      RankedIdsFacts(t, l, n - 1);
      RankedIdsAreIds(t, Leaders(t), l, n - 1, t[n - 1].modelId);
    }
  }

  lemma {:induction false} RankedIdsAreIds(t: seq<Summary>, ls: seq<nat>, l: nat, n: nat, id: string)
    requires n <= |t| == |ls|
    ensures id in RankedIds(t, ls, l, n) <==> exists i: nat :: i < n && t[i].modelId == id && ls[i] < l
  {
    if n > 0 { RankedIdsAreIds(t, ls, l, n - 1, id); }
  }

  lemma {:induction false} FromHead(t: seq<Summary>, ls: seq<nat>, l: nat, i: nat) returns (k: nat)
    requires i <= |t| == |ls| && From(t, ls, l, i) != []
    ensures i <= k < |t| && From(t, ls, l, i)[0] == t[k] && ls[k] >= l
    ensures forall j: nat | i <= j < k :: ls[j] < l
    decreases |t| - i
  {
    if ls[i] >= l { k := i; } else { k := FromHead(t, ls, l, i + 1); }
  }

  lemma {:induction false} FromLater(t: seq<Summary>, ls: seq<nat>, l: nat, m: nat, i: nat)
    requires i <= |t| == |ls|
    requires forall j: nat | i <= j < |t| :: ls[j] >= l <==> ls[j] >= m
    ensures From(t, ls, l, i) == From(t, ls, m, i)
    decreases |t| - i
  {
    if i < |t| { FromLater(t, ls, l, m, i + 1); }
  }

  lemma {:induction false} LeftRow(t: seq<Summary>, ls: seq<nat>, l: nat, i: nat, s: Summary) returns (j: nat)
    requires i <= |t| == |ls| && s in From(t, ls, l, i)
    ensures i <= j < |t| && s == t[j] && ls[j] >= l
    decreases |t| - i
  {
    if ls[i] >= l && s == t[i] { j := i; } else { j := LeftRow(t, ls, l, i + 1, s); }
  }

  lemma {:induction false} RowIsLeft(t: seq<Summary>, ls: seq<nat>, l: nat, i: nat, j: nat)
    requires i <= j < |t| == |ls| && ls[j] >= l
    ensures t[j] in From(t, ls, l, i)
    decreases |t| - i
  {
    if i < j { RowIsLeft(t, ls, l, i + 1, j); }
  }

  /** All the rounds need to know of the leaders: each leads itself, and of the rows with a leader
      not above it those it overlaps are its own. */
  ghost predicate Led(t: seq<Summary>, ls: seq<nat>) {
    && |ls| == |t|
    && (forall i: nat {:trigger ls[i]} | i < |t| :: ls[i] <= i && ls[ls[i]] == ls[i])
    && (forall i: nat, k: nat {:trigger Touch(t, i, k)} | i < |t| && k < |t| && ls[k] == k && k <= ls[i] ::
          Touch(t, i, k) <==> ls[i] == k)
  }

  lemma {:induction false} LeadersLead(t: seq<Summary>)
    requires Ordered(t)
    ensures Led(t, Leaders(t))
  {
    var ls := Leaders(t);
    forall i: nat | i < |t| ensures ls[i] <= i && ls[ls[i]] == ls[i] { LeaderLeads(t, i); }
    forall i: nat, k: nat | i < |t| && k < |t| && ls[k] == k && k <= ls[i] ensures Touch(t, i, k) <==> ls[i] == k {
      LeaderLeads(t, i);
      LeaderLeads(t, k);
    }
  }

  /** The first row left is a leader, and nobody left has an earlier one. */
  lemma {:induction false} FirstLeftLeads(t: seq<Summary>, ls: seq<nat>, l: nat) returns (k: nat)
    requires Led(t, ls) && From(t, ls, l, 0) != []
    ensures l <= k < |t| && From(t, ls, l, 0)[0] == t[k] && ls[k] == k
    ensures From(t, ls, l, 0) == From(t, ls, k, 0)
    ensures forall i: nat | i < |t| && l <= ls[i] :: k <= ls[i]
  {
    k := FromHead(t, ls, l, 0);
    forall i: nat | i < |t| && l <= ls[i] ensures k <= ls[i] {
      assert ls[ls[i]] == ls[i];
    }
    FromLater(t, ls, l, k, 0);
  }

  function Group(rows: seq<Summary>, leader: Interval): (g: seq<Summary>)
    ensures forall s :: s in g <==> s in rows && Overlaps(s.interval, leader)
  {
    if rows == [] then []
    else
      assert rows == [rows[0]] + rows[1..];
      (if Overlaps(rows[0].interval, leader) then [rows[0]] else []) + Group(rows[1..], leader)
  }

  function Unranked(rows: seq<Summary>, ranked: map<string, nat>): seq<Summary> {
    if rows == [] then []
    else if rows[0].modelId in ranked then Unranked(rows[1..], ranked)
    else [rows[0]] + Unranked(rows[1..], ranked)
  }

  lemma {:induction false} UnrankedStep(s: Summary, rest: seq<Summary>, ranked: map<string, nat>)
    ensures Unranked([s] + rest, ranked) == if s.modelId in ranked then Unranked(rest, ranked) else [s] + Unranked(rest, ranked)
  {}

  lemma {:induction false} FromStep(t: seq<Summary>, ls: seq<nat>, l: nat, i: nat)
    requires i < |t| == |ls|
    ensures From(t, ls, l, i) == if ls[i] >= l then [t[i]] + From(t, ls, l, i + 1) else From(t, ls, l, i + 1)
  {}

  lemma {:induction false} UnrankedIsFrom(t: seq<Summary>, ls: seq<nat>, k: nat, i: nat, ranked: map<string, nat>)
    requires i <= |t| == |ls|
    requires forall j: nat | j < |t| :: t[j].modelId in ranked <==> ls[j] <= k
    ensures Unranked(From(t, ls, k, i), ranked) == From(t, ls, k + 1, i)
    decreases |t| - i
  {
    if i < |t| {
      UnrankedIsFrom(t, ls, k, i + 1, ranked);
      assert t[i].modelId in ranked <==> ls[i] <= k;
      UnrankedFromStep(t, ls, k, i, ranked);
    }
  }

  lemma {:induction false} UnrankedFromStep(t: seq<Summary>, ls: seq<nat>, k: nat, i: nat, ranked: map<string, nat>)
    requires i < |t| == |ls| && (t[i].modelId in ranked <==> ls[i] <= k)
    requires Unranked(From(t, ls, k, i + 1), ranked) == From(t, ls, k + 1, i + 1)
    ensures Unranked(From(t, ls, k, i), ranked) == From(t, ls, k + 1, i)
  {
    FromStep(t, ls, k, i);
    FromStep(t, ls, k + 1, i);
    if ls[i] >= k { UnrankedStep(t[i], From(t, ls, k, i + 1), ranked); }
  }

  ghost predicate Named(rows: seq<Summary>, id: string) {
    exists s :: s in rows && s.modelId == id
  }

  ghost predicate Shared(ranked: map<string, nat>, group: seq<Summary>, rank: nat, after: map<string, nat>) {
    && (forall id :: id in after <==> id in ranked || Named(group, id))
    && (forall id | Named(group, id) :: after[id] == rank)
    && (forall id | id in ranked && !Named(group, id) :: after[id] == ranked[id])
  }

  /** Every member of the group gets the rank. */
  method ShareRank(ranked: map<string, nat>, group: seq<Summary>, rank: nat) returns (after: map<string, nat>)
    ensures Shared(ranked, group, rank, after)
  {
    after := ranked;
    for i := 0 to |group|
      invariant Shared(ranked, group[..i], rank, after)
    {
      after := after[group[i].modelId := rank];
      SharedStep(group[..i], group[i]);
      assert group[..i + 1] == group[..i] + [group[i]];
    }
    assert group[..|group|] == group;
  }

  lemma {:induction false} SharedStep(rows: seq<Summary>, s: Summary)
    ensures forall id :: Named(rows + [s], id) <==> Named(rows, id) || id == s.modelId
  {}

  ghost predicate RankedUpTo(t: seq<Summary>, ls: seq<nat>, ranks: seq<nat>, l: nat, ranked: map<string, nat>)
    requires |ls| == |t| == |ranks|
  {
    && (forall i: nat | i < |t| :: t[i].modelId in ranked <==> ls[i] < l)
    && (forall i: nat | i < |t| && ls[i] < l :: ranked[t[i].modelId] == ranks[i])
    && ranked.Keys == RankedIds(t, ls, l, |t|)
  }

  lemma {:induction false} InGroupIsLed(t: seq<Summary>, ls: seq<nat>, k: nat, group: seq<Summary>, s: Summary) returns (j: nat)
    requires Led(t, ls) && k < |t| && ls[k] == k && s in group
    requires group == Group(From(t, ls, k, 0), t[k].interval)
    ensures j < |t| && s == t[j] && ls[j] == k
  {
    j := LeftRow(t, ls, k, 0, s);
    assert Touch(t, j, k);
  }

  lemma {:induction false} LedIffInGroup(t: seq<Summary>, ls: seq<nat>, k: nat, i: nat, group: seq<Summary>)
    requires DistinctIds(t) && Led(t, ls) && k < |t| && ls[k] == k && i < |t|
    requires group == Group(From(t, ls, k, 0), t[k].interval)
    ensures Named(group, t[i].modelId) <==> ls[i] == k
  {
    if ls[i] == k {
      RowIsLeft(t, ls, k, 0, i);
      assert Touch(t, i, k);
      assert t[i] in group;
    }
    if Named(group, t[i].modelId) {
      var s :| s in group && s.modelId == t[i].modelId;
      var j := InGroupIsLed(t, ls, k, group, s);
      assert i == j;
    }
  }

  /** Those left who overlap a leader are exactly those it leads. */
  lemma {:induction false} GroupIsLed(t: seq<Summary>, ls: seq<nat>, k: nat, group: seq<Summary>)
    requires DistinctIds(t) && Led(t, ls) && k < |t| && ls[k] == k
    requires group == Group(From(t, ls, k, 0), t[k].interval)
    ensures forall i: nat | i < |t| :: Named(group, t[i].modelId) <==> ls[i] == k
    ensures forall id | Named(group, id) :: exists i: nat | i < |t| :: t[i].modelId == id
  {
    forall i: nat | i < |t| ensures Named(group, t[i].modelId) <==> ls[i] == k {
      LedIffInGroup(t, ls, k, i, group);
    }
    forall id | Named(group, id) ensures exists i: nat | i < |t| :: t[i].modelId == id {
      var s :| s in group && s.modelId == id;
      var j := InGroupIsLed(t, ls, k, group, s);
      assert t[j].modelId == id;
    }
  }

  lemma {:induction false} RankOfLed(t: seq<Summary>, i: nat)
    requires i < |t| && DistinctIds(t)
    ensures Rank(t, i) == |RankedIds(t, Leaders(t), Leaders(t)[i], |t|)| + 1
  {
    RankedIdsFacts(t, Leaders(t)[i], |t|);
  }

  ghost predicate RanksFit(t: seq<Summary>, ls: seq<nat>, ranks: seq<nat>)
    requires |ls| == |t| == |ranks|
  {
    forall i: nat | i < |t| :: ranks[i] == |RankedIds(t, ls, ls[i], |t|)| + 1
  }

  /** One round: the group of the first row left is ranked, and it is exactly the rows that row leads. */
  lemma {:induction false} RoundRanksOneGroup(t: seq<Summary>, ls: seq<nat>, ranks: seq<nat>, k: nat, ranked: map<string, nat>,
                           group: seq<Summary>, after: map<string, nat>)
    requires |ls| == |t| == |ranks| && RankedUpTo(t, ls, ranks, k, ranked) && RanksFit(t, ls, ranks)
    requires Shared(ranked, group, |ranked| + 1, after)
    requires forall i: nat | i < |t| :: Named(group, t[i].modelId) <==> ls[i] == k
    requires forall id | Named(group, id) :: exists i: nat | i < |t| :: t[i].modelId == id
    ensures RankedUpTo(t, ls, ranks, k + 1, after)
  {
    forall id ensures id in after <==> id in RankedIds(t, ls, k + 1, |t|) {
      RankedIdsAreIds(t, ls, k, |t|, id);
      RankedIdsAreIds(t, ls, k + 1, |t|, id);
    }
  }

  lemma {:induction false} RoundIsRight(t: seq<Summary>, ls: seq<nat>, ranks: seq<nat>, l: nat, k: nat, ranked: map<string, nat>,
                     group: seq<Summary>, after: map<string, nat>)
    requires DistinctIds(t) && Led(t, ls) && |ranks| == |t| && RanksFit(t, ls, ranks)
    requires l <= k < |t| && ls[k] == k && From(t, ls, l, 0) == From(t, ls, k, 0)
    requires forall i: nat | i < |t| && l <= ls[i] :: k <= ls[i]
    requires RankedUpTo(t, ls, ranks, l, ranked)
    requires group == Group(From(t, ls, l, 0), t[k].interval) && Shared(ranked, group, |ranked| + 1, after)
    ensures RankedUpTo(t, ls, ranks, k + 1, after)
    ensures Unranked(From(t, ls, l, 0), after) == From(t, ls, k + 1, 0)
  {
    SameRanked(t, ls, ranks, l, k, ranked);
    GroupIsLed(t, ls, k, group);
    RoundRanksOneGroup(t, ls, ranks, k, ranked, group, after);
    UnrankedIsFrom(t, ls, k, 0, after);
  }

  /** The body of the loop: the first model left and all it overlaps share the next rank. */
  method RankGroup(remaining: seq<Summary>, ranked: map<string, nat>)
    returns (left: seq<Summary>, after: map<string, nat>, ghost group: seq<Summary>)
    requires remaining != []
    ensures group == Group(remaining, remaining[0].interval)
    ensures Shared(ranked, group, |ranked| + 1, after)
    ensures left == Unranked(remaining, after)
  {
    var leader := remaining[0];
    var sharing := Group(remaining, leader.interval);
    group := sharing;
    after := ShareRank(ranked, sharing, |ranked| + 1);
    left := Unranked(remaining, after);
  }

  /** Ranks every row of the table; terminates because a leader overlaps itself. */
  method AssignRanks(t: seq<Summary>) returns (ranked: map<string, nat>)
    requires DistinctIds(t) && Ordered(t)
    ensures forall i: nat | i < |t| :: t[i].modelId in ranked && ranked[t[i].modelId] == Rank(t, i)
  {
    ghost var ls, ranks := Leaders(t), seq(|t|, i requires 0 <= i < |t| => Rank(t, i));
    forall i: nat | i < |t| ensures ranks[i] == |RankedIds(t, ls, ls[i], |t|)| + 1 { RankOfLed(t, i); }
    LeadersLead(t);
    ranked := RankAll(t, ls, ranks);
  }

  method RankAll(t: seq<Summary>, ghost ls: seq<nat>, ghost ranks: seq<nat>) returns (ranked: map<string, nat>)
    requires DistinctIds(t) && Led(t, ls) && |ranks| == |t| && RanksFit(t, ls, ranks)
    ensures forall i: nat | i < |t| :: t[i].modelId in ranked && ranked[t[i].modelId] == ranks[i]
  {
    ranked := map[];
    var remaining := t;
    ghost var l := 0;
    EverythingIsLeft(t, ls, 0);
    NothingIsRanked(t, ls, |t|);
    while remaining != []
      invariant l <= |t| && remaining == From(t, ls, l, 0)
      invariant RankedUpTo(t, ls, ranks, l, ranked)
      decreases |t| - l
    {
      ghost var k := FirstLeftLeads(t, ls, l);
      ghost var before := ranked;
      ghost var group;
      remaining, ranked, group := RankGroup(remaining, ranked);
      RoundIsRight(t, ls, ranks, l, k, before, group, ranked);
      l := k + 1;
    }
    AllAreRanked(t, ls, ranks, l, ranked);
  }

  lemma {:induction false} AllAreRanked(t: seq<Summary>, ls: seq<nat>, ranks: seq<nat>, l: nat, ranked: map<string, nat>)
    requires |ls| == |t| == |ranks| && RankedUpTo(t, ls, ranks, l, ranked) && From(t, ls, l, 0) == []
    ensures forall i: nat | i < |t| :: t[i].modelId in ranked && ranked[t[i].modelId] == ranks[i]
  {
    forall i: nat | i < |t| ensures ls[i] < l {
      if ls[i] >= l { RowIsLeft(t, ls, l, 0, i); }
    }
  }

  lemma {:induction false} EverythingIsLeft(t: seq<Summary>, ls: seq<nat>, i: nat)
    requires i <= |t| == |ls|
    ensures From(t, ls, 0, i) == t[i..]
    decreases |t| - i
  {
    if i < |t| { EverythingIsLeft(t, ls, i + 1); }
  }

  lemma {:induction false} NothingIsRanked(t: seq<Summary>, ls: seq<nat>, n: nat)
    requires n <= |t| == |ls|
    ensures RankedIds(t, ls, 0, n) == {}
  {
    if n > 0 { NothingIsRanked(t, ls, n - 1); }
  }

  /** Between a leader and the next one left, nobody is ranked. */
  lemma {:induction false} SameRanked(t: seq<Summary>, ls: seq<nat>, ranks: seq<nat>, l: nat, k: nat, ranked: map<string, nat>)
    requires |ls| == |t| == |ranks| && l <= k && RankedUpTo(t, ls, ranks, l, ranked)
    requires forall i: nat | i < |t| && l <= ls[i] :: k <= ls[i]
    ensures RankedUpTo(t, ls, ranks, k, ranked)
  {
    SameIds(t, ls, l, k, |t|);
  }

  lemma {:induction false} SameIds(t: seq<Summary>, ls: seq<nat>, l: nat, k: nat, n: nat)
    requires l <= k && n <= |t| == |ls|
    requires forall i: nat | i < |t| && l <= ls[i] :: k <= ls[i]
    ensures RankedIds(t, ls, l, n) == RankedIds(t, ls, k, n)
  {
    if n > 0 { SameIds(t, ls, l, k, n - 1); }
  }

  ghost function Ranked(t: seq<Summary>, i: nat): ModelRanking
    requires i < |t|
  {
    ModelRanking(t[i].modelId, Rank(t, i), t[i].macroF1, t[i].interval, t[i].best, t[i].tied, t[i].worse)
  }

  /** The ranking, row for row in table order; refused exactly when no model has a scored feature. */
  method RankModels(sqrt: real -> real, entries: seq<Entry>) returns (r: Result<seq<ModelRanking>, RankingError>)
    requires IsSqrt(sqrt) && DistinctModels(entries) && ProperEntries(entries)
    ensures r.Failure? <==> forall e | e in entries :: !Rankable(e)
    ensures r.Success? ==> |r.value| == |Table(sqrt, entries)|
    ensures r.Success? ==> forall i: nat | i < |r.value| :: r.value[i] == Ranked(Table(sqrt, entries), i)
  {
    var t := Table(sqrt, entries);
    TableFacts(sqrt, entries);
    if t == [] {
      return Failure(NothingToRank);
    }
    var ranked := AssignRanks(t);
    var rows := [];
    for i := 0 to |t|
      invariant |rows| == i && forall j: nat | j < i :: rows[j] == Ranked(t, j)
    {
      rows := rows + [ModelRanking(t[i].modelId, ranked[t[i].modelId], t[i].macroF1, t[i].interval, t[i].best, t[i].tied, t[i].worse)];
    }
    return Success(rows);
  }

  // ---- what a row says of its model ----

  function Marks(cells: seq<FeatureCell>): seq<TieMark> {
    seq(|cells|, i requires 0 <= i < |cells| => cells[i].mark)
  }

  lemma {:induction false} CountMarkCounts(cells: seq<FeatureCell>, mark: TieMark)
    ensures CountMark(cells, mark) == multiset(Marks(cells))[mark]
  {
    if cells != [] {
      CountMarkCounts(cells[1..], mark);
      assert Marks(cells) == [cells[0].mark] + Marks(cells[1..]);
    }
  }

  /** Every cell that is not suppressed is scored, as often as it is listed. */
  lemma {:induction false} ScoredAsOften(cells: seq<FeatureCell>, c: FeatureCell)
    ensures multiset(Scored(cells))[c] == if c.suppressed then 0 else multiset(cells)[c]
  {
    if cells != [] {
      var x, rest := cells[0], cells[1..];
      assert cells == [x] + rest;
      ScoredAsOften(rest, c);
      ScoredCons(x, rest);
      OneMore(x, rest, c);
      if !x.suppressed { OneMore(x, Scored(rest), c); }
    }
  }

  lemma {:induction false} ScoredCons(x: FeatureCell, rest: seq<FeatureCell>)
    ensures Scored([x] + rest) == if x.suppressed then Scored(rest) else [x] + Scored(rest)
  {
    assert ([x] + rest)[1..] == rest;
  }

  lemma {:induction false} OneMore(x: FeatureCell, rest: seq<FeatureCell>, c: FeatureCell)
    ensures multiset([x] + rest)[c] == multiset(rest)[c] + if x == c then 1 else 0
  {}

  /** The macro F1 is the average of the values, and the interval the average of the intervals. */
  ghost predicate Averages(row: Summary, cells: seq<FeatureCell>) {
    && Times(|cells| as real, row.macroF1) == Sum(Values(cells))
    && IsAverage(row.interval, Intervals(cells))
  }

  /** The three counts are how often the cells carry each mark. */
  ghost predicate CountsMarks(row: Summary, marks: seq<TieMark>) {
    && row.best == multiset(marks)[Best] && row.tied == multiset(marks)[Tied] && row.worse == multiset(marks)[NoMark]
    && row.best + row.tied + row.worse == |marks|
  }

  /** The row is a model's, and averages and counts its scored features. */
  ghost predicate RowCounts(row: Summary, entries: seq<Entry>) {
    exists e :: e in entries && e.modelId == row.modelId && Scored(e.cells) != []
                && Averages(row, Scored(e.cells)) && CountsMarks(row, Marks(Scored(e.cells)))
  }

  /** What the ranking says, in the words of its own documentation: highest macro first, then model id;
      competition ranks; rank 1 for exactly the models the tie marks of the macro cells do not leave
      unmarked; and for each model the averages and the mark counts of its scored features. */
  lemma {:induction false} RankingMeans(sqrt: real -> real, entries: seq<Entry>, i: nat)
    requires IsSqrt(sqrt) && DistinctModels(entries) && ProperEntries(entries) && i < |Table(sqrt, entries)|
    ensures var t := Table(sqrt, entries);
            && Rank(t, i) == 1 + CountSmaller(t, Rank(t, i), |t|)
            && (Rank(t, i) == 1 <==> MarkTies(Cells(t))[i] != NoMark)
            && RowCounts(t[i], entries)
            && (i > 0 ==> t[i - 1].macroF1 > t[i].macroF1 || (t[i - 1].macroF1 == t[i].macroF1 && Leq(t[i - 1].modelId, t[i].modelId)))
  {
    var t := Table(sqrt, entries);
    TableFacts(sqrt, entries);
    RanksAreCompetitionRanks(t, i);
    MacrosFall(t);
    RankOneIffMarked(t, i);
    assert t[i] in t;
    RowMeans(sqrt, t[i], entries);
    if i > 0 { assert ByMacro(t[i - 1], t[i]); }
  }

  lemma {:induction false} MacrosFall(t: seq<Summary>)
    requires SortedBy(ByMacro, t)
    ensures forall a, b | 0 <= a < b < |t| :: t[a].macroF1 >= t[b].macroF1
  {}

  lemma {:induction false} RowMeans(sqrt: real -> real, row: Summary, entries: seq<Entry>)
    requires IsSqrt(sqrt) && RowOf(sqrt, row, entries)
    ensures RowCounts(row, entries)
  {
    var e :| e in entries && Scored(e.cells) != [] && row == Summarise(sqrt, e.modelId, Scored(e.cells));
    var cells := Scored(e.cells);
    MarksAddUp(cells);
    CountMarkCounts(cells, Best);
    CountMarkCounts(cells, Tied);
    CountMarkCounts(cells, NoMark);
    MacroMeans(Values(cells));
    MacroIntervalAverages(sqrt, Intervals(cells));
    assert Averages(row, cells) && CountsMarks(row, Marks(cells));
  }

  // ---- a ranking that is not in rank order ----

  function OneCell(modelId: string, f1: real, low: real, high: real, n: nat): Entry {
    Entry(modelId, [FeatureCell("f", f1, Interval(low, high, n), false, NoMark)])
  }

  /** One scored feature each: two narrow intervals, and a wide one below them that reaches the first. */
  function WideBelowNarrow(): seq<Entry> {
    [OneCell("a", 0.9, 0.85, 0.95, 400), OneCell("b", 0.8, 0.78, 0.82, 900), OneCell("c", 0.7, 0.5, 0.9, 12)]
  }

  lemma {:induction false} OneCellSummary(sqrt: real -> real, modelId: string, f1: real, low: real, high: real, n: nat)
    requires IsSqrt(sqrt) && 0.0 <= low <= high <= 1.0
    ensures var e := OneCell(modelId, f1, low, high, n);
            Scored(e.cells) == e.cells && Summarise(sqrt, modelId, e.cells) == Summary(modelId, f1, Interval(low, high, n), 0, 0, 1)
  {
    var cells := OneCell(modelId, f1, low, high, n).cells;
    assert cells[1..] == [];
    assert Values(cells) == [f1] && Intervals(cells) == [Interval(low, high, n)];
    assert Sum([f1]) == f1 by { assert [f1][1..] == []; }
    MacroOfOne(sqrt, Interval(low, high, n));
    assert CountMark(cells[1..], NoMark) == 0 && CountMark(cells[1..], Best) == 0 && CountMark(cells[1..], Tied) == 0;
  }

  lemma {:induction false} SummariesCons(sqrt: real -> real, e: Entry, rest: seq<Entry>)
    requires Scored(e.cells) == e.cells != []
    ensures Summaries(sqrt, [e] + rest) == [Summarise(sqrt, e.modelId, e.cells)] + Summaries(sqrt, rest)
  {
    assert ([e] + rest)[1..] == rest;
  }

  lemma {:induction false} SummariesOfTwo(sqrt: real -> real, a: Entry, b: Entry)
    requires Scored(a.cells) == a.cells != [] && Scored(b.cells) == b.cells != []
    ensures Summaries(sqrt, [a, b]) == [Summarise(sqrt, a.modelId, a.cells), Summarise(sqrt, b.modelId, b.cells)]
  {
    assert Summaries(sqrt, []) == [];
    SummariesCons(sqrt, b, []);
    assert [b] + [] == [b];
    SummariesCons(sqrt, a, [b]);
    assert [a] + [b] == [a, b];
  }

  lemma {:induction false} SummariesOfThree(sqrt: real -> real, a: Entry, b: Entry, c: Entry)
    requires Scored(a.cells) == a.cells != [] && Scored(b.cells) == b.cells != [] && Scored(c.cells) == c.cells != []
    ensures Summaries(sqrt, [a, b, c])
         == [Summarise(sqrt, a.modelId, a.cells), Summarise(sqrt, b.modelId, b.cells), Summarise(sqrt, c.modelId, c.cells)]
  {
    SummariesOfTwo(sqrt, b, c);
    SummariesCons(sqrt, a, [b, c]);
    assert [a] + [b, c] == [a, b, c];
  }

  lemma {:induction false} SortedThree<T>(le: (T, T) -> bool, a: T, b: T, c: T)
    requires le(a, b) && le(b, c)
    ensures Sort(le, [a, b, c]) == [a, b, c]
  {
    assert [a, b, c][1..] == [b, c] && [b, c][1..] == [c] && [c][1..] == [];
    assert Sort(le, [c]) == [c];
    assert Sort(le, [b, c]) == [b, c];
  }

  lemma {:induction false} TableOfThree(sqrt: real -> real)
    requires IsSqrt(sqrt)
    ensures Table(sqrt, WideBelowNarrow()) ==
            [Summary("a", 0.9, Interval(0.85, 0.95, 400), 0, 0, 1), Summary("b", 0.8, Interval(0.78, 0.82, 900), 0, 0, 1),
             Summary("c", 0.7, Interval(0.5, 0.9, 12), 0, 0, 1)]
  {
    var a, b, c := OneCell("a", 0.9, 0.85, 0.95, 400), OneCell("b", 0.8, 0.78, 0.82, 900), OneCell("c", 0.7, 0.5, 0.9, 12);
    assert Leq("a", "b") && Leq("b", "c");
    SortedThree(ById, a, b, c);
    OneCellSummary(sqrt, "a", 0.9, 0.85, 0.95, 400);
    OneCellSummary(sqrt, "b", 0.8, 0.78, 0.82, 900);
    OneCellSummary(sqrt, "c", 0.7, 0.5, 0.9, 12);
    SummariesOfThree(sqrt, a, b, c);
    SortedThree(ByMacro, Summarise(sqrt, "a", a.cells), Summarise(sqrt, "b", b.cells), Summarise(sqrt, "c", c.cells));
  }

  lemma {:induction false} WideBelowNarrowIsProper()
    ensures DistinctModels(WideBelowNarrow()) && ProperEntries(WideBelowNarrow())
  {
    assert "a"[0] != "b"[0] && "a"[0] != "c"[0] && "b"[0] != "c"[0];
  }

  lemma {:induction false} ThreeRowsRanked(t: seq<Summary>, high: Interval, middle: Interval, wide: Interval)
    requires |t| == 3 && t[0].interval == high && t[1].interval == middle && t[2].interval == wide
    requires wide.low <= middle.low <= middle.high < high.low <= wide.high <= high.high
    ensures Rank(t, 0) == 1 && Rank(t, 1) == 3 && Rank(t, 2) == 1 && !InRankOrder(t)
  {
    ThirdSharesFirst(t);
  }

  /** The model with the wide interval shares rank 1, below a model of rank 3. */
  lemma {:induction false} WideModelBreaksRankOrder(sqrt: real -> real)
    requires IsSqrt(sqrt)
    ensures DistinctModels(WideBelowNarrow()) && ProperEntries(WideBelowNarrow())
    ensures var t := Table(sqrt, WideBelowNarrow());
            && |t| == 3 && t[0].modelId == "a" && t[1].modelId == "b" && t[2].modelId == "c"
            && Rank(t, 0) == 1 && Rank(t, 1) == 3 && Rank(t, 2) == 1 && !InRankOrder(t)
  {
    WideBelowNarrowIsProper();
    TableOfThree(sqrt);
    ThreeRowsRanked(Table(sqrt, WideBelowNarrow()), Interval(0.85, 0.95, 400), Interval(0.78, 0.82, 900), Interval(0.5, 0.9, 12));
  }

  // ---- two features ----

  function TwoCells(modelId: string, low: real, high: real, low2: real, high2: real): Entry {
    Entry(modelId, [FeatureCell("f", (low + high) / 2.0, Interval(low, high, 100), false, NoMark),
                    FeatureCell("g", (low2 + high2) / 2.0, Interval(low2, high2, 100), false, NoMark)])
  }

  /** One model is good at both features, the other at the first only. */
  function GoodAndHalfGood(): seq<Entry> {
    [TwoCells("a", 0.8, 0.9, 0.8, 0.9), TwoCells("b", 0.8, 0.9, 0.2, 0.3)]
  }

  lemma {:induction false} SumOfTwo(a: Interval, b: Interval, f: Interval -> real)
    ensures SumBy([a, b], f) == f(a) + f(b)
  {
    assert [a, b][1..] == [b] && [b][1..] == [];
    assert SumBy([b], f) == f(b);
  }

  lemma {:induction false} MeanOfTwo(x: real, y: real)
    ensures Mean([x, y]) == (x + y) / 2.0
  {
    assert [x, y][1..] == [y] && [y][1..] == [];
    assert Sum([y]) == y;
  }

  /** Two equally wide intervals, 0.1 each, average to one about 0.07 wide. */
  lemma {:induction false} AverageOfTwo(sqrt: real -> real, a: Interval, b: Interval)
    requires IsSqrt(sqrt) && a.high == a.low + 0.1 && b.high == b.low + 0.1
    requires 0.2 < a.low + b.low && a.low + b.low < 1.7
    ensures var i, c := MacroInterval(sqrt, [a, b]), (a.low + b.low + 0.1) / 2.0;
            c - 0.04 <= i.low <= c - 0.03 && c + 0.03 <= i.high <= c + 0.04 && i.n == a.n + b.n
  {
    SumOfTwo(a, b, Ends);
    SumOfTwo(a, b, SquaredWidth);
    SumOfTwo(a, b, Cases);
    assert SquaredWidth(a) == 0.01 == SquaredWidth(b);
    var c, m := CentreAndMargin(sqrt, [a, b]);
    MacroIntervalMeans(sqrt, [a, b], c, m);
    SquaredHalf(m);
  }

  lemma {:induction false} SquaredHalf(m: real)
    requires m >= 0.0 && Times(4.0 * Times(2.0, 2.0), Times(m, m)) == 0.02
    ensures 0.03 <= m <= 0.04
  {
    assert Times(m, m) == 0.00125;
    SquareOrder(0.03, m);
    SquareOrder(m, 0.04);
  }

  lemma {:induction false} TwoCellsSummary(sqrt: real -> real, modelId: string, low: real, low2: real)
    requires IsSqrt(sqrt) && 0.2 < low + low2 && low + low2 < 1.7
    ensures var e, c := TwoCells(modelId, low, low + 0.1, low2, low2 + 0.1), (low + low2 + 0.1) / 2.0;
            && Scored(e.cells) == e.cells
            && var s := Summarise(sqrt, modelId, e.cells);
               && s.modelId == modelId && s.macroF1 == c
               && c - 0.04 <= s.interval.low <= c - 0.03 && c + 0.03 <= s.interval.high <= c + 0.04
  {
    var cells := TwoCells(modelId, low, low + 0.1, low2, low2 + 0.1).cells;
    assert cells[1..] == [cells[1]] && cells[1..][1..] == [];
    assert Scored(cells[1..]) == cells[1..];
    var x, y := cells[0].f1, cells[1].f1;
    assert Values(cells) == [x, y] && Intervals(cells) == [cells[0].interval, cells[1].interval];
    MeanOfTwo(x, y);
    AverageOfTwo(sqrt, cells[0].interval, cells[1].interval);
  }

  lemma {:induction false} TwoApart(t: seq<Summary>)
    requires |t| == 2 && t[1].interval.high < t[0].interval.low && Ordered(t)
    ensures Rank(t, 0) == 1 && Rank(t, 1) == 2
  {
    assert !Touch(t, 1, 0) && Leads(t, 0);
    assert LeaderOf(t, 0) == 0;
    assert LeaderFrom(t, 1, 1) == 1;
    assert LeaderOf(t, 1) == 1;
    assert CountBelow(t, 0, 1) == 0 && CountBelow(t, 0, 2) == 0;
    assert CountBelow(t, 1, 1) == 1 && CountBelow(t, 1, 2) == 1;
  }

  /** The second feature separates the two models: they get the ranks 1 and 2. */
  lemma {:induction false} SecondFeatureSeparates(sqrt: real -> real)
    requires IsSqrt(sqrt)
    ensures var t := Table(sqrt, GoodAndHalfGood());
            && |t| == 2 && t[0].modelId == "a" && t[1].modelId == "b" && t[0].macroF1 == 0.85 && t[1].macroF1 == 0.55
            && Rank(t, 0) == 1 && Rank(t, 1) == 2
  {
    var a, b := TwoCells("a", 0.8, 0.9, 0.8, 0.9), TwoCells("b", 0.8, 0.9, 0.2, 0.3);
    TwoCellsSummary(sqrt, "a", 0.8, 0.8);
    TwoCellsSummary(sqrt, "b", 0.8, 0.2);
    assert Leq("a", "b");
    SortedTwo(ById, a, b);
    SummariesOfTwo(sqrt, a, b);
    SortedTwo(ByMacro, Summarise(sqrt, "a", a.cells), Summarise(sqrt, "b", b.cells));
    TwoApart(Table(sqrt, GoodAndHalfGood()));
  }

  lemma {:induction false} SortedTwo<T>(le: (T, T) -> bool, a: T, b: T)
    requires le(a, b)
    ensures Sort(le, [a, b]) == [a, b]
  {
    assert [a, b][1..] == [b] && [b][1..] == [];
    assert Sort(le, [b]) == [b];
  }
}
