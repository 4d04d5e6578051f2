/** The object and person totals an accident declares, against the rows that were delivered. */
module DeclaredCounts {
  import opened Wrappers
  import opened DeliveryTypes
  import opened KeyChecks
  import opened DeclaredCells

  // ---- counting the children ----

  /** One `objekt` row: the accident it refers to and its own key. */
  datatype ObjektRow = ObjektRow(unfall: string, own: string)

  function RowsOf(f: ParsedFile, unfallColumn: string, objektColumn: string): seq<ObjektRow> {
    if f.column(unfallColumn).None? then []
    else
      seq(|f.rows|, i requires 0 <= i < |f.rows| =>
        ObjektRow(CellAt(f.rows[i], f.column(unfallColumn)), CellAt(f.rows[i], f.column(objektColumn))))
  }

  function AllRows(files: seq<ParsedFile>, unfallColumn: string, objektColumn: string): seq<ObjektRow> {
    if files == [] then []
    else AllRows(files[..|files| - 1], unfallColumn, objektColumn) + RowsOf(files[|files| - 1], unfallColumn, objektColumn)
  }

  function Get(counts: map<string, nat>, key: string): nat { if key in counts then counts[key] else 0 }

  function Bump(counts: map<string, nat>, key: string): map<string, nat> { counts[key := Get(counts, key) + 1] }

  function Counted(counts: map<string, nat>, row: ObjektRow): map<string, nat> {
    if row.unfall == "" then counts else Bump(counts, row.unfall)
  }

  function Owned(owner: map<string, string>, row: ObjektRow): map<string, string> {
    if row.unfall == "" || row.own == "" then owner else owner[row.own := row.unfall]
  }

  ghost function ObjektsPerUnfall(rows: seq<ObjektRow>): map<string, nat> {
    if rows == [] then map[] else Counted(ObjektsPerUnfall(rows[..|rows| - 1]), rows[|rows| - 1])
  }

  /** The accident each object belongs to; a later row for the same object replaces an earlier one. */
  ghost function OwnerOf(rows: seq<ObjektRow>): map<string, string> {
    if rows == [] then map[] else Owned(OwnerOf(rows[..|rows| - 1]), rows[|rows| - 1])
  }

  function Attached(counts: map<string, nat>, owner: map<string, string>, objekt: string): map<string, nat> {
    if objekt in owner && owner[objekt] != "" then Bump(counts, owner[objekt]) else counts
  }

  ghost function PersonsPerUnfall(refs: seq<string>, owner: map<string, string>): map<string, nat> {
    if refs == [] then map[] else Attached(PersonsPerUnfall(refs[..|refs| - 1], owner), owner, refs[|refs| - 1])
  }

  method CountObjekts(files: seq<ParsedFile>, unfallColumn: string, objektColumn: string)
    returns (counts: map<string, nat>, owner: map<string, string>)
    ensures counts == ObjektsPerUnfall(AllRows(files, unfallColumn, objektColumn))
    ensures owner == OwnerOf(AllRows(files, unfallColumn, objektColumn))
  {
    counts, owner := map[], map[];
    for n := 0 to |files|
      invariant counts == ObjektsPerUnfall(AllRows(files[..n], unfallColumn, objektColumn))
      invariant owner == OwnerOf(AllRows(files[..n], unfallColumn, objektColumn))
    {
      assert files[..n + 1][..n] == files[..n];
      counts, owner := CountRows(RowsOf(files[n], unfallColumn, objektColumn), counts, owner,
                                 AllRows(files[..n], unfallColumn, objektColumn));
    }
    assert files[..|files|] == files;
  }

  method CountRows(rows: seq<ObjektRow>, counts: map<string, nat>, owner: map<string, string>, ghost before: seq<ObjektRow>)
    returns (more: map<string, nat>, owners: map<string, string>)
    requires counts == ObjektsPerUnfall(before) && owner == OwnerOf(before)
    ensures more == ObjektsPerUnfall(before + rows) && owners == OwnerOf(before + rows)
  {
    more, owners := counts, owner;
    assert before + rows[..0] == before;
    for i := 0 to |rows|
      invariant more == ObjektsPerUnfall(before + rows[..i]) && owners == OwnerOf(before + rows[..i])
    {
      RowNext(before, rows, i);
      var row := rows[i];
      if row.unfall != "" {
        more := more[row.unfall := Get(more, row.unfall) + 1];
        if row.own != "" {
          owners := owners[row.own := row.unfall];
        }
      }
    }
    assert rows[..|rows|] == rows;
  }

  lemma {:induction false} RowNext(before: seq<ObjektRow>, rows: seq<ObjektRow>, i: nat)
    requires i < |rows|
    ensures ObjektsPerUnfall(before + rows[..i + 1]) == Counted(ObjektsPerUnfall(before + rows[..i]), rows[i])
    ensures OwnerOf(before + rows[..i + 1]) == Owned(OwnerOf(before + rows[..i]), rows[i])
  {
    var longer := before + rows[..i + 1];
    assert longer[..|longer| - 1] == before + rows[..i] && longer[|longer| - 1] == rows[i];
  }

  method CountPersons(refs: seq<string>, owner: map<string, string>) returns (counts: map<string, nat>)
    ensures counts == PersonsPerUnfall(refs, owner)
  {
    counts := map[];
    for i := 0 to |refs|
      invariant counts == PersonsPerUnfall(refs[..i], owner)
    {
      assert refs[..i + 1][..i] == refs[..i];
      if refs[i] in owner {
        var unfall := owner[refs[i]];
        if unfall != "" {
          counts := counts[unfall := Get(counts, unfall) + 1];
        }
      }
    }
    assert refs[..|refs|] == refs;
  }

  // ---- the counts are the counts of a join ----

  function ObjektCount(rows: seq<ObjektRow>, unfall: string): nat {
    if rows == [] then 0
    else ObjektCount(rows[..|rows| - 1], unfall) + if rows[|rows| - 1].unfall == unfall then 1 else 0
  }

  /** The object total compared is the number of delivered rows that refer to the accident. */
  lemma {:induction false} ObjektTotalIsRowCount(rows: seq<ObjektRow>, unfall: string)
    requires unfall != ""
    ensures Get(ObjektsPerUnfall(rows), unfall) == ObjektCount(rows, unfall)
  {
    if rows != [] { ObjektTotalIsRowCount(rows[..|rows| - 1], unfall); }
  }

  /** How many `objekt` rows join this person reference to this accident. */
  function JoinsOf(rows: seq<ObjektRow>, objekt: string, unfall: string): nat {
    if rows == [] then 0
    else
      JoinsOf(rows[..|rows| - 1], objekt, unfall) +
      if rows[|rows| - 1].own == objekt && rows[|rows| - 1].unfall == unfall then 1 else 0
  }

  /** The size of the join person - objekt - accident, over non-empty keys. */
  function JoinCount(refs: seq<string>, rows: seq<ObjektRow>, unfall: string): nat {
    if refs == [] then 0
    else
      JoinCount(refs[..|refs| - 1], rows, unfall) +
      if refs[|refs| - 1] == "" then 0 else JoinsOf(rows, refs[|refs| - 1], unfall)
  }

  function OwnKeys(rows: seq<ObjektRow>): seq<string> {
    seq(|rows|, i requires 0 <= i < |rows| => rows[i].own)
  }

  lemma {:induction false} NoJoinWithoutKey(rows: seq<ObjektRow>, objekt: string, unfall: string)
    requires Occurrences(OwnKeys(rows), objekt) == 0
    ensures JoinsOf(rows, objekt, unfall) == 0
    ensures objekt !in OwnerOf(rows)
  {
    if rows != [] {
      var n := |rows| - 1;
      assert OwnKeys(rows)[..n] == OwnKeys(rows[..n]);
      NoJoinWithoutKey(rows[..n], objekt, unfall);
    }
  }

  /** Where the object's key is unique, the dictionary holds exactly the row that joins. */
  lemma {:induction false} OwnerIsTheJoin(rows: seq<ObjektRow>, objekt: string, unfall: string)
    requires objekt != "" && unfall != "" && Occurrences(OwnKeys(rows), objekt) <= 1
    ensures JoinsOf(rows, objekt, unfall) == if objekt in OwnerOf(rows) && OwnerOf(rows)[objekt] == unfall then 1 else 0
  {
    if rows != [] {
      var n := |rows| - 1;
      assert OwnKeys(rows)[..n] == OwnKeys(rows[..n]);
      OwnerIsTheJoin(rows[..n], objekt, unfall);
      if rows[n].own == objekt { NoJoinWithoutKey(rows[..n], objekt, unfall); }
    }
  }

  lemma {:induction false} OwnersAreNamed(rows: seq<ObjektRow>)
    ensures forall o | o in OwnerOf(rows) :: o != "" && OwnerOf(rows)[o] != ""
  {
    if rows != [] { OwnersAreNamed(rows[..|rows| - 1]); }
  }

  /** With unique object keys, the person total compared is the size of the true join. */
  lemma {:induction false} PersonTotalIsJoinCount(refs: seq<string>, rows: seq<ObjektRow>, unfall: string)
    requires unfall != "" && forall o | o != "" :: Occurrences(OwnKeys(rows), o) <= 1
    ensures Get(PersonsPerUnfall(refs, OwnerOf(rows)), unfall) == JoinCount(refs, rows, unfall)
  {
    if refs != [] {
      var n := |refs| - 1;
      PersonTotalIsJoinCount(refs[..n], rows, unfall);
      OwnersAreNamed(rows);
      if refs[n] != "" { OwnerIsTheJoin(rows, refs[n], unfall); }
    }
  }

  lemma {:induction false} OwnKeysOfFile(f: ParsedFile, unfallColumn: string, objektColumn: string, o: string)
    requires o != ""
    ensures Occurrences(OwnKeys(RowsOf(f, unfallColumn, objektColumn)), o) <= Occurrences(f.Values(objektColumn), o)
  {
    if f.column(unfallColumn).Some? {
      if f.column(objektColumn).Some? {
        assert OwnKeys(RowsOf(f, unfallColumn, objektColumn)) == f.Values(objektColumn);
      } else {
        AllEmpty(OwnKeys(RowsOf(f, unfallColumn, objektColumn)), o);
      }
    }
  }

  /** Rows without the reference column do not count, so keys can only occur less often. */
  lemma {:induction false} OwnKeysOccur(files: seq<ParsedFile>, unfallColumn: string, objektColumn: string, o: string)
    requires o != ""
    ensures Occurrences(OwnKeys(AllRows(files, unfallColumn, objektColumn)), o) <= Occurrences(AllValues(files, objektColumn), o)
  {
    if files != [] {
      var n := |files| - 1;
      OwnKeysOccur(files[..n], unfallColumn, objektColumn, o);
      OwnKeysOfFile(files[n], unfallColumn, objektColumn, o);
      var before, here := AllRows(files[..n], unfallColumn, objektColumn), RowsOf(files[n], unfallColumn, objektColumn);
      OwnKeysAdd(before, here, o);
      OccurrencesAdd(AllValues(files[..n], objektColumn), files[n].Values(objektColumn), o);
    }
  }

  lemma {:induction false} OwnKeysAdd(a: seq<ObjektRow>, b: seq<ObjektRow>, o: string)
    ensures Occurrences(OwnKeys(a + b), o) == Occurrences(OwnKeys(a), o) + Occurrences(OwnKeys(b), o)
  {
    assert OwnKeys(a + b) == OwnKeys(a) + OwnKeys(b);
    OccurrencesAdd(OwnKeys(a), OwnKeys(b), o);
  }

  lemma {:induction false} OccurrencesAdd(a: seq<string>, b: seq<string>, v: string)
    ensures Occurrences(a + b, v) == Occurrences(a, v) + Occurrences(b, v)
  {
    if b == [] {
      assert a + b == a;
    } else {
      var n := |b| - 1;
      assert (a + b)[..|a + b| - 1] == a + b[..n];
      OccurrencesAdd(a, b[..n], v);
    }
  }

  lemma {:induction false} AllEmpty(values: seq<string>, v: string)
    requires v != "" && forall i | 0 <= i < |values| :: values[i] == ""
    ensures Occurrences(values, v) == 0
  {
    if values != [] { AllEmpty(values[..|values| - 1], v); }
  }

  /** Keys unique in the delivery make the person totals true join counts. */
  lemma {:induction false} UniqueKeysJoin(files: seq<ParsedFile>, unfallColumn: string, objektColumn: string, refs: seq<string>, unfall: string)
    requires unfall != "" && Unique(AllValues(files, objektColumn))
    ensures var rows := AllRows(files, unfallColumn, objektColumn);
            Get(PersonsPerUnfall(refs, OwnerOf(rows)), unfall) == JoinCount(refs, rows, unfall)
  {
    var rows := AllRows(files, unfallColumn, objektColumn);
    forall o | o != "" ensures Occurrences(OwnKeys(rows), o) <= 1 {
      OwnKeysOccur(files, unfallColumn, objektColumn, o);
      TwiceIff(AllValues(files, objektColumn), o);
    }
    PersonTotalIsJoinCount(refs, rows, unfall);
  }

  // ---- comparing with what was declared ----

  datatype CountError = CountError(fileId: string, key: string)

  datatype Totals = Totals(objekts: map<string, nat>, persons: map<string, nat>)

  function CountColumn(column: Option<string>): Option<string> {
    if column == Some("") then None else column
  }

  function ObjColumn(f: ParsedFile): Option<string> {
    if f.columnSet.Some? then CountColumn(f.columnSet.value.objCountColumn) else None
  }

  function PersColumn(f: ParsedFile): Option<string> {
    if f.columnSet.Some? then CountColumn(f.columnSet.value.persCountColumn) else None
  }

  function DeclaredIn(read: string -> Declared, f: ParsedFile, row: Row, column: string): Declared {
    read(CellAt(row, f.column(column)))
  }

  /** The findings of one column of one row. */
  function Mismatch(declared: Declared, actual: nat, column: string, f: ParsedFile, key: string, objekts: bool): Result<seq<Finding>, CountError> {
    match declared
    case NotANumber => Success([])
    case NotAnInteger => Failure(CountError(f.fileId, key))
    case Number(text, value) =>
      if value == actual then Success([])
      else if objekts then Success([CountMismatchObj(f.fileId, key, text, actual, column)])
      else Success([CountMismatchPers(f.fileId, key, text, actual, column)])
  }

  function RowMismatches(read: string -> Declared, f: ParsedFile, row: Row, key: string, totals: Totals): Result<seq<Finding>, CountError> {
    var o, p := ObjColumn(f), PersColumn(f);
    var first := if o.None? then Success([]) else Mismatch(DeclaredIn(read, f, row, o.value), Get(totals.objekts, key), o.value, f, key, true);
    if key == "" then Success([])
    else if first.Failure? then first
    else
      var second := if p.None? then Success([]) else Mismatch(DeclaredIn(read, f, row, p.value), Get(totals.persons, key), p.value, f, key, false);
      if second.Failure? then second else Success(first.value + second.value)
  }

  function MismatchesIn(read: string -> Declared, f: ParsedFile, rows: seq<Row>, keyColumn: string, totals: Totals): Result<seq<Finding>, CountError> {
    if rows == [] then Success([])
    else
      var before := MismatchesIn(read, f, rows[..|rows| - 1], keyColumn, totals);
      if before.Failure? then before
      else
        var row := rows[|rows| - 1];
        var here := RowMismatches(read, f, row, CellAt(row, f.column(keyColumn)), totals);
        if here.Failure? then here else Success(before.value + here.value)
  }

  function FileMismatches(read: string -> Declared, f: ParsedFile, keyColumn: string, totals: Totals): Result<seq<Finding>, CountError> {
    if f.column(keyColumn).None? then Success([]) else MismatchesIn(read, f, f.rows, keyColumn, totals)
  }

  function MismatchesOf(read: string -> Declared, files: seq<ParsedFile>, keyColumn: string, totals: Totals): Result<seq<Finding>, CountError> {
    if files == [] then Success([])
    else
      var before, f := MismatchesOf(read, files[..|files| - 1], keyColumn, totals), files[|files| - 1];
      if before.Failure? then before
      else
        var here := FileMismatches(read, f, keyColumn, totals);
        if here.Failure? then here else Success(before.value + here.value)
  }

  method CompareFile(read: string -> Declared, f: ParsedFile, keyColumn: string, totals: Totals) returns (r: Result<seq<Finding>, CountError>)
    ensures r == MismatchesIn(read, f, f.rows, keyColumn, totals)
  {
    var findings := [];
    for i := 0 to |f.rows|
      invariant MismatchesIn(read, f, f.rows[..i], keyColumn, totals) == Success(findings)
    {
      MismatchNext(read, f, i, keyColumn, totals);
      var here := RowMismatches(read, f, f.rows[i], CellAt(f.rows[i], f.column(keyColumn)), totals);
      if here.Failure? {
        return here;
      }
      findings := findings + here.value;
    }
    assert f.rows[..|f.rows|] == f.rows;
    return Success(findings);
  }

  lemma {:induction false} MismatchNext(read: string -> Declared, f: ParsedFile, i: nat, keyColumn: string, totals: Totals)
    requires i < |f.rows| && MismatchesIn(read, f, f.rows[..i], keyColumn, totals).Success?
    ensures var here := RowMismatches(read, f, f.rows[i], CellAt(f.rows[i], f.column(keyColumn)), totals);
            && (here.Failure? ==> MismatchesIn(read, f, f.rows, keyColumn, totals) == here)
            && MismatchesIn(read, f, f.rows[..i + 1], keyColumn, totals) ==
               if here.Failure? then here
               else Success(MismatchesIn(read, f, f.rows[..i], keyColumn, totals).value + here.value)
  {
    assert f.rows[..i + 1][..i] == f.rows[..i];
    if RowMismatches(read, f, f.rows[i], CellAt(f.rows[i], f.column(keyColumn)), totals).Failure? {
      FailureStays(read, f, i + 1, |f.rows|, keyColumn, totals);
      assert f.rows[..|f.rows|] == f.rows;
    }
  }

  lemma {:induction false} FailureStays(read: string -> Declared, f: ParsedFile, i: nat, n: nat, keyColumn: string, totals: Totals)
    requires i <= n <= |f.rows| && MismatchesIn(read, f, f.rows[..i], keyColumn, totals).Failure?
    ensures MismatchesIn(read, f, f.rows[..n], keyColumn, totals) == MismatchesIn(read, f, f.rows[..i], keyColumn, totals)
  {
    if i < n {
      FailureStays(read, f, i, n - 1, keyColumn, totals);
      assert f.rows[..n][..n - 1] == f.rows[..n - 1];
    }
  }

  method CompareCounts(read: string -> Declared, files: seq<ParsedFile>, keyColumn: string, totals: Totals)
    returns (r: Result<seq<Finding>, CountError>)
    ensures r == MismatchesOf(read, files, keyColumn, totals)
  {
    var findings := [];
    for n := 0 to |files|
      invariant MismatchesOf(read, files[..n], keyColumn, totals) == Success(findings)
    {
      FileNext(read, files, n, keyColumn, totals);
      if files[n].column(keyColumn).Some? {
        var here := CompareFile(read, files[n], keyColumn, totals);
        if here.Failure? {
          return here;
        }
        findings := findings + here.value;
      } else {
        assert findings + [] == findings;
      }
    }
    assert files[..|files|] == files;
    return Success(findings);
  }

  lemma {:induction false} FileNext(read: string -> Declared, files: seq<ParsedFile>, n: nat, keyColumn: string, totals: Totals)
    requires n < |files| && MismatchesOf(read, files[..n], keyColumn, totals).Success?
    ensures var here := FileMismatches(read, files[n], keyColumn, totals);
            && (here.Failure? ==> MismatchesOf(read, files, keyColumn, totals) == here)
            && MismatchesOf(read, files[..n + 1], keyColumn, totals) ==
               if here.Failure? then here
               else Success(MismatchesOf(read, files[..n], keyColumn, totals).value + here.value)
  {
    assert files[..n + 1][..n] == files[..n];
    if FileMismatches(read, files[n], keyColumn, totals).Failure? {
      FileFailureStays(read, files, n + 1, |files|, keyColumn, totals);
      assert files[..|files|] == files;
    }
  }

  lemma {:induction false} FileFailureStays(read: string -> Declared, files: seq<ParsedFile>, i: nat, n: nat, keyColumn: string, totals: Totals)
    requires i <= n <= |files| && MismatchesOf(read, files[..i], keyColumn, totals).Failure?
    ensures MismatchesOf(read, files[..n], keyColumn, totals) == MismatchesOf(read, files[..i], keyColumn, totals)
  {
    if i < n {
      FileFailureStays(read, files, i, n - 1, keyColumn, totals);
      assert files[..n][..n - 1] == files[..n - 1];
    }
  }

  // ---- when the comparison stops ----

  predicate Unreadable(read: string -> Declared, f: ParsedFile, row: Row, column: Option<string>) {
    column.Some? && column.value != "" && read(CellAt(row, f.column(column.value))) == NotAnInteger
  }

  /** The row has a key, and one of its two declared totals is no integer. */
  predicate Stops(read: string -> Declared, f: ParsedFile, row: Row, keyColumn: string) {
    && f.column(keyColumn).Some? && CellAt(row, f.column(keyColumn)) != ""
    && f.columnSet.Some?
    && (Unreadable(read, f, row, f.columnSet.value.objCountColumn) || Unreadable(read, f, row, f.columnSet.value.persCountColumn))
  }

  ghost predicate SomeRowStops(read: string -> Declared, files: seq<ParsedFile>, keyColumn: string) {
    exists f, i :: f in files && 0 <= i < |f.rows| && Stops(read, f, f.rows[i], keyColumn)
  }

  lemma {:induction false} FileStopsIff(read: string -> Declared, f: ParsedFile, n: nat, keyColumn: string, totals: Totals)
    requires f.column(keyColumn).Some? && n <= |f.rows|
    ensures MismatchesIn(read, f, f.rows[..n], keyColumn, totals).Failure?
       <==> exists i :: 0 <= i < n && Stops(read, f, f.rows[i], keyColumn)
  {
    if n > 0 {
      assert f.rows[..n][..n - 1] == f.rows[..n - 1];
      FileStopsIff(read, f, n - 1, keyColumn, totals);
    }
  }

  /** The comparison fails exactly when a row with a key declares a total that passes the digit
      test and is no integer. */
  lemma {:induction false} ComparisonStopsIff(read: string -> Declared, files: seq<ParsedFile>, keyColumn: string, totals: Totals)
    ensures MismatchesOf(read, files, keyColumn, totals).Failure? <==> SomeRowStops(read, files, keyColumn)
  {
    if files != [] {
      var n := |files| - 1;
      ComparisonStopsIff(read, files[..n], keyColumn, totals);
      FileStops(read, files[n], keyColumn, totals);
      assert files == files[..n] + [files[n]];
    }
  }

  lemma {:induction false} FileStops(read: string -> Declared, f: ParsedFile, keyColumn: string, totals: Totals)
    ensures FileMismatches(read, f, keyColumn, totals).Failure?
       <==> exists i :: 0 <= i < |f.rows| && Stops(read, f, f.rows[i], keyColumn)
  {
    if f.column(keyColumn).Some? {
      FileStopsIff(read, f, |f.rows|, keyColumn, totals);
      assert f.rows[..|f.rows|] == f.rows;
    }
  }

  // ---- a mismatch is reported exactly when there is one ----

  /** The row declares a number, and what was delivered is another. */
  ghost predicate Disagrees(read: string -> Declared, f: ParsedFile, row: Row, keyColumn: string, totals: Totals, finding: Finding) {
    && (finding.CountMismatchObj? || finding.CountMismatchPers?)
    && f.column(keyColumn).Some? && finding.fileId == f.fileId
    && finding.key == CellAt(row, f.column(keyColumn)) != ""
    && f.columnSet.Some? && finding.column != ""
    && (if finding.CountMismatchObj? then f.columnSet.value.objCountColumn else f.columnSet.value.persCountColumn) == Some(finding.column)
    && finding.actual == Get(if finding.CountMismatchObj? then totals.objekts else totals.persons, finding.key)
    && exists value: int :: read(CellAt(row, f.column(finding.column))) == Number(finding.declared, value) && value != finding.actual
  }

  lemma {:induction false} RowFindingIff(read: string -> Declared, f: ParsedFile, row: Row, keyColumn: string, totals: Totals, finding: Finding)
    requires f.column(keyColumn).Some? && RowMismatches(read, f, row, CellAt(row, f.column(keyColumn)), totals).Success?
    ensures finding in RowMismatches(read, f, row, CellAt(row, f.column(keyColumn)), totals).value
       <==> Disagrees(read, f, row, keyColumn, totals, finding)
  {}

  lemma {:induction false} FileFindingIff(read: string -> Declared, f: ParsedFile, n: nat, keyColumn: string, totals: Totals, finding: Finding)
    requires f.column(keyColumn).Some? && n <= |f.rows| && MismatchesIn(read, f, f.rows[..n], keyColumn, totals).Success?
    ensures finding in MismatchesIn(read, f, f.rows[..n], keyColumn, totals).value
       <==> exists i :: 0 <= i < n && Disagrees(read, f, f.rows[i], keyColumn, totals, finding)
  {
    if n > 0 {
      assert f.rows[..n][..n - 1] == f.rows[..n - 1];
      FileFindingIff(read, f, n - 1, keyColumn, totals, finding);
      RowFindingIff(read, f, f.rows[n - 1], keyColumn, totals, finding);
    }
  }

  ghost predicate SomeRowDisagrees(read: string -> Declared, f: ParsedFile, keyColumn: string, totals: Totals, finding: Finding) {
    exists i :: 0 <= i < |f.rows| && Disagrees(read, f, f.rows[i], keyColumn, totals, finding)
  }

  lemma {:induction false} InFileIff(read: string -> Declared, f: ParsedFile, keyColumn: string, totals: Totals, finding: Finding)
    requires FileMismatches(read, f, keyColumn, totals).Success?
    ensures finding in FileMismatches(read, f, keyColumn, totals).value <==> SomeRowDisagrees(read, f, keyColumn, totals, finding)
  {
    if f.column(keyColumn).Some? {
      assert f.rows[..|f.rows|] == f.rows;
      FileFindingIff(read, f, |f.rows|, keyColumn, totals, finding);
    }
  }

  lemma {:induction false} FindingInFilesIff(read: string -> Declared, files: seq<ParsedFile>, keyColumn: string, totals: Totals, finding: Finding)
    requires MismatchesOf(read, files, keyColumn, totals).Success?
    ensures finding in MismatchesOf(read, files, keyColumn, totals).value
       <==> exists f :: f in files && SomeRowDisagrees(read, f, keyColumn, totals, finding)
  {
    if files != [] {
      var n := |files| - 1;
      FindingInFilesIff(read, files[..n], keyColumn, totals, finding);
      InFileIff(read, files[n], keyColumn, totals, finding);
      assert files == files[..n] + [files[n]];
    }
  }

  /** A count finding is reported exactly when no total stops the comparison and a row of some
      accident file declares, as a number, something other than what was delivered. */
  lemma {:induction false} CountFindingIff(read: string -> Declared, files: seq<ParsedFile>, keyColumn: string, totals: Totals, finding: Finding)
    ensures MismatchesOf(read, files, keyColumn, totals).Success? && finding in MismatchesOf(read, files, keyColumn, totals).value
       <==> !SomeRowStops(read, files, keyColumn) && exists f :: f in files && SomeRowDisagrees(read, f, keyColumn, totals, finding)
  {
    ComparisonStopsIff(read, files, keyColumn, totals);
    if MismatchesOf(read, files, keyColumn, totals).Success? {
      FindingInFilesIff(read, files, keyColumn, totals, finding);
    }
  }
}
