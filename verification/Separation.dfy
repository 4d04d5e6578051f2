/** The features on which the top two models of the ranking do not overlap. */
module Separation {
  import opened Wrappers
  import opened Wilson
  import opened Ties
  import opened Sorting
  import opened Text
  import opened Ranking

  datatype SeparatingFeature = SeparatingFeature(featureId: string, leaderModelId: string, delta: real, f1ByModel: map<string, real>)

  /** The cells of one model keyed by feature: a later cell for a feature replaces an earlier one. */
  function CellOn(cells: seq<FeatureCell>, featureId: string): Option<FeatureCell> {
    if cells == [] then None
    else if cells[|cells| - 1].featureId == featureId then Some(cells[|cells| - 1])
    else CellOn(cells[..|cells| - 1], featureId)
  }

  /** The keys in the order they were first met. */
  function Features(cells: seq<FeatureCell>): (keys: seq<string>)
    ensures forall f :: f in keys <==> CellOn(cells, f).Some?
    ensures forall i, j | 0 <= i < j < |keys| :: keys[i] != keys[j]
  {
    if cells == [] then []
    else
      var before, f := Features(cells[..|cells| - 1]), cells[|cells| - 1].featureId;
      if f in before then before else before + [f]
  }

  function CellsOf(entries: seq<Entry>, modelId: string): seq<FeatureCell> {
    if entries == [] then []
    else if entries[0].modelId == modelId then entries[0].cells
    else CellsOf(entries[1..], modelId)
  }

  /** The F1 of every model that could be scored on the feature. */
  function F1ByModel(entries: seq<Entry>, featureId: string): map<string, real> {
    if entries == [] then map[]
    else
      var rest, cell := F1ByModel(entries[1..], featureId), CellOn(entries[0].cells, featureId);
      if cell.Some? && !cell.value.suppressed then rest[entries[0].modelId := cell.value.f1] else rest
  }

  function Distance(a: real, b: real): real { if a >= b then a - b else b - a }

  /** The row for a feature of the first model, if the top two are distinguishable on it. */
  function RowFor(entries: seq<Entry>, first: string, second: string, featureId: string): Option<SeparatingFeature> {
    var l, r := CellOn(CellsOf(entries, first), featureId), CellOn(CellsOf(entries, second), featureId);
    if l.None? || r.None? then None
    else if l.value.suppressed || r.value.suppressed then None
    else if Overlaps(l.value.interval, r.value.interval) then None
    else Some(SeparatingFeature(featureId, if l.value.f1 >= r.value.f1 then first else second,
                                Distance(l.value.f1, r.value.f1), F1ByModel(entries, featureId)))
  }

  function RowsFor(entries: seq<Entry>, first: string, second: string, features: seq<string>): seq<SeparatingFeature> {
    if features == [] then []
    else
      var row := RowFor(entries, first, second, features[|features| - 1]);
      RowsFor(entries, first, second, features[..|features| - 1]) + if row.Some? then [row.value] else []
  }

  /** Widest gap first, then feature id. */
  predicate ByDelta(a: SeparatingFeature, b: SeparatingFeature) {
    a.delta > b.delta || (a.delta == b.delta && Leq(a.featureId, b.featureId))
  }

  function SeparatingRows(sqrt: real -> real, entries: seq<Entry>): seq<SeparatingFeature> {
    var t := Table(sqrt, entries);
    if |t| < 2 then []
    else Sort(ByDelta, RowsFor(entries, t[0].modelId, t[1].modelId, Features(CellsOf(entries, t[0].modelId))))
  }

  lemma {:induction false} RowsForNext(entries: seq<Entry>, first: string, second: string, features: seq<string>, i: nat)
    requires i < |features|
    ensures var row := RowFor(entries, first, second, features[i]);
            RowsFor(entries, first, second, features[..i + 1]) ==
            RowsFor(entries, first, second, features[..i]) + if row.Some? then [row.value] else []
  {
    assert features[..i + 1][..i] == features[..i];
  }

  method SeparatingFeatures(sqrt: real -> real, entries: seq<Entry>) returns (r: Result<seq<SeparatingFeature>, RankingError>)
    requires IsSqrt(sqrt) && DistinctModels(entries) && ProperEntries(entries)
    ensures r.Failure? <==> forall e | e in entries :: Scored(e.cells) == []
    ensures r.Success? ==> r.value == SeparatingRows(sqrt, entries)
  {
    var rankings := RankModels(sqrt, entries);
    if rankings.Failure? {
      return Failure(rankings.error);
    }
    if |rankings.value| < 2 {
      return Success([]);
    }
    var first, second := rankings.value[0].modelId, rankings.value[1].modelId;
    var features := Features(CellsOf(entries, first));
    var separating := [];
    for i := 0 to |features|
      invariant separating == RowsFor(entries, first, second, features[..i])
    {
      RowsForNext(entries, first, second, features, i);
      var row := RowFor(entries, first, second, features[i]);
      if row.Some? {
        separating := separating + [row.value];
      }
    }
    assert features[..|features|] == features;
    return Success(Sort(ByDelta, separating));
  }

  // ---- what a row says ----

  /** Each F1 lies in its own interval, as scoring guarantees. */
  ghost predicate PointsInside(cells: seq<FeatureCell>) {
    forall i | 0 <= i < |cells| :: cells[i].interval.low <= cells[i].f1 <= cells[i].interval.high
  }

  /** Of several cells on one feature the last counts. */
  ghost predicate IsLastOn(cells: seq<FeatureCell>, featureId: string, i: nat)
    requires i < |cells|
  {
    cells[i].featureId == featureId && forall j | i < j < |cells| :: cells[j].featureId != featureId
  }

  lemma {:induction false} CellOnIsACell(cells: seq<FeatureCell>, featureId: string)
    ensures CellOn(cells, featureId).Some? ==> CellOn(cells, featureId).value in cells
    ensures CellOn(cells, featureId).Some? ==> CellOn(cells, featureId).value.featureId == featureId
    ensures CellOn(cells, featureId).None? ==> forall c | c in cells :: c.featureId != featureId
    ensures forall i | 0 <= i < |cells| && IsLastOn(cells, featureId, i) :: CellOn(cells, featureId) == Some(cells[i])
  {
    if cells != [] {
      CellOnIsACell(cells[..|cells| - 1], featureId);
      assert cells == cells[..|cells| - 1] + [cells[|cells| - 1]];
      forall i: nat | i < |cells| && IsLastOn(cells, featureId, i) ensures CellOn(cells, featureId) == Some(cells[i]) {
        if i < |cells| - 1 { assert IsLastOn(cells[..|cells| - 1], featureId, i); }
      }
    }
  }

  lemma {:induction false} CellsOfIsAnEntry(entries: seq<Entry>, modelId: string)
    requires exists e :: e in entries && e.modelId == modelId
    ensures Entry(modelId, CellsOf(entries, modelId)) in entries
  {
    if entries[0].modelId == modelId {
      assert entries[0] == Entry(modelId, CellsOf(entries, modelId));
    } else {
      assert entries == [entries[0]] + entries[1..];
      CellsOfIsAnEntry(entries[1..], modelId);
    }
  }

  /** `modelId` is ahead of `rivalId` on the feature with its whole interval, by `delta`. */
  ghost predicate WhollyAhead(entries: seq<Entry>, modelId: string, rivalId: string, featureId: string, delta: real) {
    var a, b := CellOn(CellsOf(entries, modelId), featureId), CellOn(CellsOf(entries, rivalId), featureId);
    && a.Some? && b.Some? && !a.value.suppressed && !b.value.suppressed
    && a.value.interval.low > b.value.interval.high
    && delta == a.value.f1 - b.value.f1 && delta > 0.0
  }

  /** On this feature the intervals of the two models do not meet. */
  ghost predicate Distinguishable(entries: seq<Entry>, first: string, second: string, featureId: string) {
    exists delta :: WhollyAhead(entries, first, second, featureId, delta) || WhollyAhead(entries, second, first, featureId, delta)
  }

  lemma {:induction false} PointsOfModel(entries: seq<Entry>, modelId: string, featureId: string)
    requires forall e | e in entries :: PointsInside(e.cells)
    ensures var c := CellOn(CellsOf(entries, modelId), featureId);
            c.Some? ==> c.value.interval.low <= c.value.f1 <= c.value.interval.high
  {
    if e :| e in entries && e.modelId == modelId {
      CellsOfIsAnEntry(entries, modelId);
    } else {
      NoCells(entries, modelId);
    }
    CellOnIsACell(CellsOf(entries, modelId), featureId);
  }

  lemma {:induction false} NoCells(entries: seq<Entry>, modelId: string)
    requires forall e | e in entries :: e.modelId != modelId
    ensures CellsOf(entries, modelId) == []
  {
    if entries != [] {
      assert entries[0] in entries;
      NoCells(entries[1..], modelId);
    }
  }

  /** A row exists exactly when the two are distinguishable; it names the model whose whole
      interval is higher, and its delta is positive. */
  lemma {:induction false} RowMeansDistinguishable(entries: seq<Entry>, first: string, second: string, featureId: string)
    requires forall e | e in entries :: PointsInside(e.cells)
    ensures RowFor(entries, first, second, featureId).Some? <==> Distinguishable(entries, first, second, featureId)
    ensures var row := RowFor(entries, first, second, featureId);
            row.Some? ==> row.value.featureId == featureId &&
                          ((row.value.leaderModelId == first && WhollyAhead(entries, first, second, featureId, row.value.delta)) ||
                           (row.value.leaderModelId == second && WhollyAhead(entries, second, first, featureId, row.value.delta)))
  {
    PointsOfModel(entries, first, featureId);
    PointsOfModel(entries, second, featureId);
    var row := RowFor(entries, first, second, featureId);
    if row.Some? {
      assert WhollyAhead(entries, first, second, featureId, row.value.delta) || WhollyAhead(entries, second, first, featureId, row.value.delta);
    }
  }

  /** Both could be scored on the feature, and one interval lies wholly below the other. */
  ghost predicate Apart(entries: seq<Entry>, first: string, second: string, featureId: string) {
    var l, r := CellOn(CellsOf(entries, first), featureId), CellOn(CellsOf(entries, second), featureId);
    && l.Some? && r.Some? && !l.value.suppressed && !r.value.suppressed
    && (l.value.interval.high < r.value.interval.low || r.value.interval.high < l.value.interval.low)
  }

  /** The row names the model with the higher F1, of equal ones the first, and by how much it is higher. */
  ghost predicate NamesHigher(entries: seq<Entry>, first: string, second: string, row: SeparatingFeature) {
    var l, r := CellOn(CellsOf(entries, first), row.featureId), CellOn(CellsOf(entries, second), row.featureId);
    && Apart(entries, first, second, row.featureId)
    && row.f1ByModel == F1ByModel(entries, row.featureId)
    && if r.value.f1 <= l.value.f1 then row.leaderModelId == first && row.delta == l.value.f1 - r.value.f1
       else row.leaderModelId == second && row.delta == r.value.f1 - l.value.f1
  }

  lemma {:induction false} RowIffApart(entries: seq<Entry>, first: string, second: string, featureId: string)
    ensures RowFor(entries, first, second, featureId).Some? <==> Apart(entries, first, second, featureId)
    ensures RowFor(entries, first, second, featureId).Some? ==>
              var row := RowFor(entries, first, second, featureId).value;
              row.featureId == featureId && NamesHigher(entries, first, second, row)
  {}

  lemma {:induction false} RowsForMembers(entries: seq<Entry>, first: string, second: string, features: seq<string>)
    ensures forall row | row in RowsFor(entries, first, second, features) ::
              row.featureId in features && RowFor(entries, first, second, row.featureId) == Some(row)
    ensures forall f | f in features && RowFor(entries, first, second, f).Some? ::
              RowFor(entries, first, second, f).value in RowsFor(entries, first, second, features)
  {
    if features != [] {
      var n := |features| - 1;
      RowsForMembers(entries, first, second, features[..n]);
      assert features == features[..n] + [features[n]];
    }
  }

  function RowFeature(row: SeparatingFeature): string { row.featureId }

  lemma {:induction false} RowsForDistinct(entries: seq<Entry>, first: string, second: string, features: seq<string>)
    requires forall i, j | 0 <= i < j < |features| :: features[i] != features[j]
    ensures DistinctKeys(RowFeature, RowsFor(entries, first, second, features))
  {
    if features != [] {
      var n := |features| - 1;
      RowsForDistinct(entries, first, second, features[..n]);
      RowsForMembers(entries, first, second, features[..n]);
    }
  }

  lemma {:induction false} DeltasAreOrdered()
    ensures TotalPreorder(ByDelta)
  {
    forall a: SeparatingFeature, b: SeparatingFeature ensures ByDelta(a, b) || ByDelta(b, a) { LeqTotal(a.featureId, b.featureId); }
    forall a: SeparatingFeature, b: SeparatingFeature, c: SeparatingFeature ensures ByDelta(a, b) && ByDelta(b, c) ==> ByDelta(a, c) {
      if ByDelta(a, b) && ByDelta(b, c) && a.delta == c.delta { LeqTransitive(a.featureId, b.featureId, c.featureId); }
    }
  }

  /** A genuine row: ahead with the whole interval, by a positive delta. */
  ghost predicate Genuine(entries: seq<Entry>, first: string, second: string, row: SeparatingFeature) {
    || (row.leaderModelId == first && WhollyAhead(entries, first, second, row.featureId, row.delta))
    || (row.leaderModelId == second && WhollyAhead(entries, second, first, row.featureId, row.delta))
  }

  /** The rows are of different features, the wider gap first, and of equal gaps the smaller feature id. */
  ghost predicate WiderFirst(a: SeparatingFeature, b: SeparatingFeature) {
    a.featureId != b.featureId && a.delta >= b.delta && (a.delta == b.delta ==> Leq(a.featureId, b.featureId))
  }

  lemma {:induction false} SortedRows(rows: seq<SeparatingFeature>)
    requires DistinctKeys(RowFeature, rows)
    ensures forall row :: row in Sort(ByDelta, rows) <==> row in rows
    ensures forall i, j | 0 <= i < j < |Sort(ByDelta, rows)| :: WiderFirst(Sort(ByDelta, rows)[i], Sort(ByDelta, rows)[j])
  {
    var sorted := Sort(ByDelta, rows);
    DeltasAreOrdered();
    SortSorts(ByDelta, rows);
    SameElements(rows, sorted);
    DistinctKeysPermute(RowFeature, rows, sorted);
    forall i, j | 0 <= i < j < |sorted| ensures WiderFirst(sorted[i], sorted[j]) {
      assert ByDelta(sorted[i], sorted[j]) && RowFeature(sorted[i]) != RowFeature(sorted[j]);
    }
  }

  /** The list, whatever the cells are: one row for each feature on which the top two are apart, which names
      the model with the higher F1; no other row, and the widest gap first. */
  lemma {:induction false} SeparatingRowsAre(sqrt: real -> real, entries: seq<Entry>)
    requires |Table(sqrt, entries)| >= 2
    ensures var rows, t := SeparatingRows(sqrt, entries), Table(sqrt, entries);
            && (forall row | row in rows :: NamesHigher(entries, t[0].modelId, t[1].modelId, row))
            && (forall f | Apart(entries, t[0].modelId, t[1].modelId, f) :: exists row :: row in rows && row.featureId == f)
            && (forall i, j | 0 <= i < j < |rows| :: WiderFirst(rows[i], rows[j]))
  {
    var rows, t := SeparatingRows(sqrt, entries), Table(sqrt, entries);
    var first, second := t[0].modelId, t[1].modelId;
    var features := Features(CellsOf(entries, first));
    RowsForMembers(entries, first, second, features);
    RowsForDistinct(entries, first, second, features);
    SortedRows(RowsFor(entries, first, second, features));
    forall row | row in rows ensures NamesHigher(entries, first, second, row) {
      RowIffApart(entries, first, second, row.featureId);
    }
    forall f | Apart(entries, first, second, f) ensures exists row :: row in rows && row.featureId == f {
      RowIffApart(entries, first, second, f);
      assert RowFor(entries, first, second, f).value in rows;
    }
  }

  /** Where each F1 lies in its interval, every row is genuine and no distinguishable feature is missing. */
  lemma {:induction false} SeparatingRowsAreExact(sqrt: real -> real, entries: seq<Entry>)
    requires |Table(sqrt, entries)| >= 2 && forall e | e in entries :: PointsInside(e.cells)
    ensures var rows, t := SeparatingRows(sqrt, entries), Table(sqrt, entries);
            && (forall row | row in rows :: Genuine(entries, t[0].modelId, t[1].modelId, row))
            && (forall f | Distinguishable(entries, t[0].modelId, t[1].modelId, f) :: exists row :: row in rows && row.featureId == f)
  {
    var rows, t := SeparatingRows(sqrt, entries), Table(sqrt, entries);
    var first, second := t[0].modelId, t[1].modelId;
    SeparatingRowsAre(sqrt, entries);
    forall row | row in rows ensures Genuine(entries, first, second, row) {
      ApartIsDistinguishable(entries, first, second, row);
    }
    forall f | Distinguishable(entries, first, second, f) ensures exists row :: row in rows && row.featureId == f {
      RowMeansDistinguishable(entries, first, second, f);
      RowIffApart(entries, first, second, f);
    }
  }

  lemma {:induction false} ApartIsDistinguishable(entries: seq<Entry>, first: string, second: string, row: SeparatingFeature)
    requires NamesHigher(entries, first, second, row) && forall e | e in entries :: PointsInside(e.cells)
    ensures Genuine(entries, first, second, row)
  {
    PointsOfModel(entries, first, row.featureId);
    PointsOfModel(entries, second, row.featureId);
  }

  /** The F1s beside a row are those of every model that could be scored on the feature. */
  lemma {:induction false} F1ByModelIsComplete(entries: seq<Entry>, featureId: string, id: string)
    requires DistinctModels(entries)
    ensures id in F1ByModel(entries, featureId) <==> exists e :: e in entries && ScoredOn(e, id, featureId)
    ensures forall e | e in entries && ScoredOn(e, id, featureId) ::
              F1ByModel(entries, featureId)[id] == CellOn(e.cells, featureId).value.f1
  {
    if entries != [] {
      var e, rest := entries[0], entries[1..];
      assert entries == [e] + rest && DistinctModels(rest);
      F1ByModelIsComplete(rest, featureId, id);
      forall x | x in rest ensures x.modelId != e.modelId {
        assert EntryId(x) != EntryId(e);
      }
      assert forall x :: x in entries <==> x == e || x in rest;
    }
  }

  ghost predicate ScoredOn(e: Entry, modelId: string, featureId: string) {
    e.modelId == modelId && CellOn(e.cells, featureId).Some? && !CellOn(e.cells, featureId).value.suppressed
  }
}
