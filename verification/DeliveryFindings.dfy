/** Which cross-file findings a delivery has, told of its files, rows and keys: these, and no others. */
module DeliveryFindings {
  import opened Wrappers
  import opened Sorting
  import opened Text
  import opened DeliveryTypes
  import opened KeyChecks
  import opened References
  import opened CantonalSets
  import opened DeclaredCells
  import opened DeclaredCounts
  import opened TextJoin
  import opened Places
  import opened DeliveryValidation

  // ---- files without a set ----

  lemma {:induction false} UnresolvedIff(files: seq<ParsedFile>, setOf: ParsedFile -> Option<string>, finding: Finding)
    ensures finding in Unresolved(files, setOf)
       <==> exists f :: f in files && setOf(f).None? && finding == SetUnresolved(f.fileId, f.filename, f.kind)
  {
    if files != [] {
      var n := |files| - 1;
      UnresolvedIff(files[..n], setOf, finding);
      assert files == files[..n] + [files[n]];
    }
  }

  /** An object file without an accident file it shares a key with, or a person file without an object
      file it shares a key with, or whose object file has no set. */
  ghost predicate HasNoSet(sel: seq<ParsedFile>, f: ParsedFile) {
    && f in sel && (f.kind == Objekt || f.kind == Person)
    && forall name :: if f.kind == Objekt then ObjektSet(f, OfKind(sel, Unfall), ColumnsOf(sel)) != Some(name)
                      else PersonSet(f, OfKind(sel, Unfall), OfKind(sel, Objekt), ColumnsOf(sel)) != Some(name)
  }

  lemma {:induction false} UnresolvedInIff(sel: seq<ParsedFile>, finding: Finding)
    ensures finding in UnresolvedIn(sel) <==> exists f :: HasNoSet(sel, f) && finding == SetUnresolved(f.fileId, f.filename, f.kind)
  {
    var unfalls, objekts, persons, columns := OfKind(sel, Unfall), OfKind(sel, Objekt), OfKind(sel, Person), ColumnsOf(sel);
    UnresolvedIff(objekts, OfObjekt(unfalls, columns), finding);
    UnresolvedIff(persons, OfPerson(unfalls, objekts, columns), finding);
    forall f ensures HasNoSet(sel, f) <==> || (f in objekts && OfObjekt(unfalls, columns)(f).None?)
                                           || (f in persons && OfPerson(unfalls, objekts, columns)(f).None?)
    {
      NoSetIff(sel, f);
    }
  }

  lemma {:induction false} NoSetIff(sel: seq<ParsedFile>, f: ParsedFile)
    ensures var unfalls, objekts, columns := OfKind(sel, Unfall), OfKind(sel, Objekt), ColumnsOf(sel);
            HasNoSet(sel, f) <==> || (f in objekts && ObjektSet(f, unfalls, columns).None?)
                                  || (f in OfKind(sel, Person) && PersonSet(f, unfalls, objekts, columns).None?)
  {
    var unfalls, objekts, columns := OfKind(sel, Unfall), OfKind(sel, Objekt), ColumnsOf(sel);
    OfKindAre(sel, Objekt, f);
    OfKindAre(sel, Person, f);
    var set1, set2 := ObjektSet(f, unfalls, columns), PersonSet(f, unfalls, objekts, columns);
    assert set1.Some? ==> set1 == Some(set1.value);
    assert set2.Some? ==> set2 == Some(set2.value);
  }

  // ---- keys met more than once ----

  /** The key stands in more than one row of the delivery, and the finding names the column, all the
      files it stands in, sorted and once each, and the number of rows. */
  ghost predicate IsDuplicate(sel: seq<ParsedFile>, kind: FileKind, finding: Finding) {
    && finding.DupKeyCrossSet? && finding.key != "" && finding.keyKind == KeyColumn(sel, kind)
    && finding.occurrences == multiset(KeysOf(sel, kind))[finding.key] > 1
    && SortedBy(Leq, finding.filenames) && (forall i, j | 0 <= i < j < |finding.filenames| :: finding.filenames[i] != finding.filenames[j])
    && (forall name :: name in finding.filenames <==> HoldsKey(sel, kind, finding.key, name))
  }

  ghost predicate HoldsKey(sel: seq<ParsedFile>, kind: FileKind, key: string, filename: string) {
    exists p :: p in sel && p.kind == kind && p.filename == filename && key in p.Values(KeyColumn(sel, kind))
  }

  lemma {:induction false} OccurrencesAreCount(values: seq<string>, v: string)
    ensures Occurrences(values, v) == multiset(values)[v]
  {
    if values != [] {
      var n := |values| - 1;
      OccurrencesAreCount(values[..n], v);
      assert values == values[..n] + [values[n]];
    }
  }

  lemma {:induction false} SomeDuplicate(met: seq<Met>, keys: seq<string>, column: string, key: string)
    requires key in keys && |Filenames(met, key)| > 1
    ensures exists f :: f in DupFindings(met, keys, column) && f.DupKeyCrossSet? && f.key == key
  {
    DupFindingsOf(met, keys, column);
  }

  lemma {:induction false} DuplicateHasItsColumn(met: seq<Met>, keys: seq<string>, column: string, finding: Finding)
    requires finding in DupFindings(met, keys, column)
    ensures finding.DupKeyCrossSet? && finding.keyKind == column
    ensures forall i, j | 0 <= i < j < |finding.filenames| :: finding.filenames[i] != finding.filenames[j]
  {
    var n := |keys| - 1;
    if finding in DupFindings(met, keys[..n], column) {
      DuplicateHasItsColumn(met, keys[..n], column, finding);
    } else {
      LeqIsTotal();
      var names := Distinct(Filenames(met, keys[n]));
      SortSorts(Leq, names);
      assert DistinctKeys(Itself, names);
      DistinctKeysPermute(Itself, names, Sort(Leq, names));
      forall i, j | 0 <= i < j < |finding.filenames| ensures finding.filenames[i] != finding.filenames[j] {
        assert Itself(finding.filenames[i]) != Itself(finding.filenames[j]);
      }
    }
  }

  function Itself(s: string): string { s }

  lemma {:induction false} DuplicateIsOne(sel: seq<ParsedFile>, kind: FileKind, finding: Finding)
    requires finding in Duplicates(sel, kind)
    ensures IsDuplicate(sel, kind, finding)
  {
    var met := AllMet(OfKind(sel, kind), KeyColumn(sel, kind));
    DuplicateNamesItsFiles(sel, kind, finding);
    DuplicateHasItsColumn(met, Order(met), KeyColumn(sel, kind), finding);
    OccurrencesAreCount(KeysOf(sel, kind), finding.key);
    forall name ensures name in finding.filenames <==> HoldsKey(sel, kind, finding.key, name) {}
  }

  lemma {:induction false} DuplicateIsReported(sel: seq<ParsedFile>, kind: FileKind, key: string)
    requires key != "" && multiset(KeysOf(sel, kind))[key] > 1
    ensures exists f :: f in Duplicates(sel, kind) && f.DupKeyCrossSet? && f.key == key
  {
    var chosen, column := OfKind(sel, kind), KeyColumn(sel, kind);
    var met, values := AllMet(chosen, column), AllValues(chosen, column);
    AllMetValues(chosen, column);
    OccurrencesAreCount(values, key);
    TwiceIff(values, key);
    FilenamesCount(met, values, key);
    var i, j :| 0 <= i < j < |values| && values[i] == key && values[j] == key;
    OrderHolds(met, i);
    SomeDuplicate(met, Order(met), column, key);
  }

  /** Two such findings for one key are one. */
  lemma {:induction false} OneDuplicate(sel: seq<ParsedFile>, kind: FileKind, a: Finding, b: Finding)
    requires IsDuplicate(sel, kind, a) && IsDuplicate(sel, kind, b) && a.key == b.key
    ensures a == b
  {
    SameSorted(a.filenames, b.filenames);
  }

  lemma {:induction false} SameSorted(a: seq<string>, b: seq<string>)
    requires SortedBy(Leq, a) && (forall i, j | 0 <= i < j < |a| :: a[i] != a[j])
    requires SortedBy(Leq, b) && (forall i, j | 0 <= i < j < |b| :: b[i] != b[j])
    requires forall name :: name in a <==> name in b
    ensures a == b
  {
    assert b != [] ==> b[0] in a;
    if a != [] {
      assert a[0] in b && b[0] in a;
      LeqTotal(a[0], b[0]);
      assert a[0] == b[0];
      assert a == [a[0]] + a[1..] && b == [b[0]] + b[1..];
      forall name ensures name in a[1..] <==> name in b[1..] {
        assert name in a[1..] <==> name in a && name != a[0];
        assert name in b[1..] <==> name in b && name != b[0];
      }
      SameSorted(a[1..], b[1..]);
    }
  }

  lemma {:induction false} DuplicateIff(sel: seq<ParsedFile>, kind: FileKind, finding: Finding)
    ensures finding in Duplicates(sel, kind) <==> IsDuplicate(sel, kind, finding)
  {
    if finding in Duplicates(sel, kind) { DuplicateIsOne(sel, kind, finding); }
    if IsDuplicate(sel, kind, finding) {
      DuplicateIsReported(sel, kind, finding.key);
      var f :| f in Duplicates(sel, kind) && f.DupKeyCrossSet? && f.key == finding.key;
      DuplicateIsOne(sel, kind, f);
      OneDuplicate(sel, kind, f, finding);
    }
  }

  // ---- references to nothing ----

  /** Row `row` of the file refers to a key that no row of a parent file has; the finding names the
      file, the reference, and the row's own key where there is one. */
  ghost predicate IsOrphanOf(sel: seq<ParsedFile>, child: FileKind, parent: FileKind, f: ParsedFile, row: Row, finding: Finding) {
    var column, own := f.column(KeyColumn(sel, parent)), f.column(KeyColumn(sel, child));
    && finding.OrphanFk? && finding.fileId == f.fileId && finding.childTable == child && finding.parentKey == KeyColumn(sel, parent)
    && column.Some? && column.value < |row| && row[column.value] == finding.parentValue != ""
    && finding.parentValue !in KeysOf(sel, parent)
    && finding.ownKey == if own.Some? && own.value < |row| then Some(row[own.value]) else None
  }

  ghost predicate IsOrphan(sel: seq<ParsedFile>, child: FileKind, parent: FileKind, finding: Finding) {
    exists f, row :: f in sel && f.kind == child && row in f.rows && IsOrphanOf(sel, child, parent, f, row, finding)
  }

  lemma {:induction false} OrphansInIff(f: ParsedFile, rows: seq<Row>, link: Link, parents: set<string>, finding: Finding)
    ensures finding in OrphansIn(f, rows, link, parents) <==> exists row :: row in rows && OrphanIn(f, row, link, parents) == Some(finding)
  {
    if rows != [] {
      var n := |rows| - 1;
      OrphansInIff(f, rows[..n], link, parents, finding);
      assert rows == rows[..n] + [rows[n]];
    }
  }

  function OrphansHere(f: ParsedFile, link: Link, parents: set<string>): seq<Finding> {
    if f.column(link.parentColumn).None? then [] else OrphansIn(f, f.rows, link, parents)
  }

  lemma {:induction false} OrphansOfIff(children: seq<ParsedFile>, link: Link, parents: set<string>, finding: Finding)
    ensures finding in OrphansOf(children, link, parents) <==> exists f :: f in children && finding in OrphansHere(f, link, parents)
  {
    if children != [] {
      var n := |children| - 1;
      OrphansOfIff(children[..n], link, parents, finding);
      assert children == children[..n] + [children[n]];
      assert OrphansOf(children, link, parents) == OrphansOf(children[..n], link, parents) + OrphansHere(children[n], link, parents);
    }
  }

  lemma {:induction false} OrphanIff(sel: seq<ParsedFile>, child: FileKind, parent: FileKind, finding: Finding)
    ensures finding in Orphans(sel, child, parent) <==> IsOrphan(sel, child, parent, finding)
  {
    var link, parents := LinkOf(sel, child, parent), NonEmpty(KeysOf(sel, parent));
    OrphansOfIff(OfKind(sel, child), link, parents, finding);
    if f :| f in OfKind(sel, child) && finding in OrphansHere(f, link, parents) {
      OrphansInIff(f, f.rows, link, parents, finding);
      var row :| row in f.rows && OrphanIn(f, row, link, parents) == Some(finding);
      OfKindAre(sel, child, f);
      OrphanMeans(sel, child, parent, f, row, finding);
    }
    if f, row :| f in sel && f.kind == child && row in f.rows && IsOrphanOf(sel, child, parent, f, row, finding) {
      OfKindAre(sel, child, f);
      OrphanMeans(sel, child, parent, f, row, finding);
      OrphansInIff(f, f.rows, link, parents, finding);
    }
  }

  lemma {:induction false} OrphanMeans(sel: seq<ParsedFile>, child: FileKind, parent: FileKind, f: ParsedFile, row: Row, finding: Finding)
    ensures var link, parents := LinkOf(sel, child, parent), NonEmpty(KeysOf(sel, parent));
            f.column(link.parentColumn).Some? && OrphanIn(f, row, link, parents) == Some(finding) <==> IsOrphanOf(sel, child, parent, f, row, finding)
  {}

  // ---- texts and accidents without each other ----

  lemma {:induction false} MissedInIff(f: ParsedFile, values: seq<string>, known: set<string>, column: string, text: bool, finding: Finding)
    ensures finding in MissedIn(f, values, known, column, text)
       <==> exists v :: v in values && v != "" && v !in known && finding == Missed(f, v, column, text)
  {
    if values != [] {
      var n := |values| - 1;
      MissedInIff(f, values[..n], known, column, text, finding);
      assert values == values[..n] + [values[n]];
    }
  }

  lemma {:induction false} MissedOfIff(files: seq<ParsedFile>, known: set<string>, column: string, text: bool, finding: Finding)
    ensures finding in MissedOf(files, known, column, text)
       <==> exists f, v :: f in files && v in f.Values(column) && v != "" && v !in known && finding == Missed(f, v, column, text)
  {
    if files != [] {
      var n := |files| - 1;
      MissedOfIff(files[..n], known, column, text, finding);
      MissedInIff(files[n], files[n].Values(column), known, column, text, finding);
      assert files == files[..n] + [files[n]];
    }
  }

  /** A row of the file has a key that no row of a file of the other kind has. */
  ghost predicate LacksKey(sel: seq<ParsedFile>, f: ParsedFile, v: string, kind: FileKind, other: FileKind) {
    f in sel && f.kind == kind && v in f.Values(KeyColumn(sel, kind)) && v != "" && v !in KeysOf(sel, other)
  }

  /** A text row whose key no accident row has. */
  ghost predicate IsUnmatched(sel: seq<ParsedFile>, finding: Finding) {
    exists f, v :: LacksKey(sel, f, v, Text, Unfall) && finding == TextKeyUnmatched(f.fileId, v, KeyColumn(sel, Text))
  }

  /** An accident row whose key no text row has. */
  ghost predicate IsTextless(sel: seq<ParsedFile>, finding: Finding) {
    exists f, v :: LacksKey(sel, f, v, Unfall, Text) && finding == UnfallWithoutText(f.fileId, v, KeyColumn(sel, Unfall))
  }

  ghost predicate HasKind(sel: seq<ParsedFile>, kind: FileKind) { exists f :: f in sel && f.kind == kind }

  lemma {:induction false} SomeOfKind(sel: seq<ParsedFile>, kind: FileKind)
    ensures OfKind(sel, kind) == [] <==> !HasKind(sel, kind)
  {
    forall f ensures f in OfKind(sel, kind) <==> f in sel && f.kind == kind { OfKindAre(sel, kind, f); }
    if OfKind(sel, kind) != [] { assert OfKind(sel, kind)[0] in OfKind(sel, kind); }
  }

  lemma {:induction false} UnmatchedIff(sel: seq<ParsedFile>, finding: Finding)
    requires HasKind(sel, Unfall)
    ensures var known := NonEmptyKeys(OfKind(sel, Unfall), KeyColumn(sel, Unfall));
            finding in MissedOf(OfKind(sel, Text), known, KeyColumn(sel, Text), true) <==> IsUnmatched(sel, finding)
  {
    var known, column := NonEmptyKeys(OfKind(sel, Unfall), KeyColumn(sel, Unfall)), KeyColumn(sel, Text);
    MissedOfIff(OfKind(sel, Text), known, column, true, finding);
    if f, v :| f in OfKind(sel, Text) && v in f.Values(column) && v != "" && v !in known && finding == Missed(f, v, column, true) {
      OfKindAre(sel, Text, f);
      assert LacksKey(sel, f, v, Text, Unfall);
    }
    if f, v :| LacksKey(sel, f, v, Text, Unfall) && finding == TextKeyUnmatched(f.fileId, v, column) {
      OfKindAre(sel, Text, f);
      assert v !in known && finding == Missed(f, v, column, true);
    }
  }

  lemma {:induction false} TextlessIff(sel: seq<ParsedFile>, finding: Finding)
    requires HasKind(sel, Text)
    ensures var known := NonEmptyKeys(OfKind(sel, Text), KeyColumn(sel, Text));
            finding in MissedOf(OfKind(sel, Unfall), known, KeyColumn(sel, Unfall), false) <==> IsTextless(sel, finding)
  {
    var known, column := NonEmptyKeys(OfKind(sel, Text), KeyColumn(sel, Text)), KeyColumn(sel, Unfall);
    MissedOfIff(OfKind(sel, Unfall), known, column, false, finding);
    if f, v :| f in OfKind(sel, Unfall) && v in f.Values(column) && v != "" && v !in known && finding == Missed(f, v, column, false) {
      OfKindAre(sel, Unfall, f);
      assert LacksKey(sel, f, v, Unfall, Text);
    }
    if f, v :| LacksKey(sel, f, v, Unfall, Text) && finding == UnfallWithoutText(f.fileId, v, column) {
      OfKindAre(sel, Unfall, f);
      assert v !in known && finding == Missed(f, v, column, false);
    }
  }

  ghost predicate TextIsMissing(sel: seq<ParsedFile>, finding: Finding) {
    HasKind(sel, Text) && HasKind(sel, Unfall) && (IsUnmatched(sel, finding) || IsTextless(sel, finding))
  }

  lemma {:induction false} TextGapIff(sel: seq<ParsedFile>, finding: Finding)
    ensures finding in TextGapsIn(sel) <==> TextIsMissing(sel, finding)
  {
    SomeOfKind(sel, Text);
    SomeOfKind(sel, Unfall);
    if HasKind(sel, Text) && HasKind(sel, Unfall) {
      UnmatchedIff(sel, finding);
      TextlessIff(sel, finding);
    }
  }

  // ---- the totals declared counts are compared with ----

  lemma {:induction false} RowsOfValues(files: seq<ParsedFile>, unfallColumn: string, objektColumn: string)
    ensures var rows, values := AllRows(files, unfallColumn, objektColumn), AllValues(files, unfallColumn);
            |rows| == |values| && forall i | 0 <= i < |rows| :: rows[i].unfall == values[i]
  {
    if files != [] { RowsOfValues(files[..|files| - 1], unfallColumn, objektColumn); }
  }

  lemma {:induction false} CountOfValues(rows: seq<ObjektRow>, values: seq<string>, key: string)
    requires |rows| == |values| && forall i | 0 <= i < |rows| :: rows[i].unfall == values[i]
    ensures ObjektCount(rows, key) == multiset(values)[key]
  {
    if rows != [] {
      var n := |rows| - 1;
      CountOfValues(rows[..n], values[..n], key);
      assert values == values[..n] + [values[n]];
    }
  }

  /** The object total of an accident is how many rows of the object files refer to it. */
  lemma {:induction false} ObjektTotalIs(sel: seq<ParsedFile>, key: string)
    requires key != ""
    ensures Get(TotalsIn(sel).objekts, key) == multiset(AllValues(OfKind(sel, Objekt), KeyColumn(sel, Unfall)))[key]
  {
    var rows, values := ObjektRowsIn(sel), AllValues(OfKind(sel, Objekt), KeyColumn(sel, Unfall));
    ObjektTotalIsRowCount(rows, key);
    RowsOfValues(OfKind(sel, Objekt), KeyColumn(sel, Unfall), KeyColumn(sel, Objekt));
    CountOfValues(rows, values, key);
  }

  /** The last row of the object that has both keys says which accident it belongs to. */
  ghost predicate OwnedBy(rows: seq<ObjektRow>, objekt: string, unfall: string) {
    exists i: nat :: LastOwner(rows, objekt, i) && rows[i].unfall == unfall
  }

  ghost predicate LastOwner(rows: seq<ObjektRow>, objekt: string, i: nat) {
    && i < |rows| && rows[i].own == objekt != "" && rows[i].unfall != ""
    && forall j | i < j < |rows| :: rows[j].own == objekt ==> rows[j].unfall == ""
  }

  lemma {:induction false} OwnerIsLast(rows: seq<ObjektRow>, objekt: string)
    ensures objekt in OwnerOf(rows) ==> OwnedBy(rows, objekt, OwnerOf(rows)[objekt])
    ensures objekt !in OwnerOf(rows) ==> forall i | 0 <= i < |rows| :: rows[i].own == objekt ==> objekt == "" || rows[i].unfall == ""
  {
    if rows != [] {
      var n := |rows| - 1;
      OwnerIsLast(rows[..n], objekt);
      if rows[n].own == objekt != "" && rows[n].unfall != "" {
        assert LastOwner(rows, objekt, n);
      } else if objekt in OwnerOf(rows) {
        var i: nat :| LastOwner(rows[..n], objekt, i) && rows[..n][i].unfall == OwnerOf(rows)[objekt];
        assert LastOwner(rows, objekt, i);
      }
    }
  }

  lemma {:induction false} OwnerIff(rows: seq<ObjektRow>, objekt: string, unfall: string)
    ensures objekt in OwnerOf(rows) && OwnerOf(rows)[objekt] == unfall <==> OwnedBy(rows, objekt, unfall)
  {
    OwnerIsLast(rows, objekt);
    if OwnedBy(rows, objekt, unfall) {
      var i: nat :| LastOwner(rows, objekt, i) && rows[i].unfall == unfall;
      assert objekt in OwnerOf(rows);
      var j: nat :| LastOwner(rows, objekt, j) && rows[j].unfall == OwnerOf(rows)[objekt];
      assert i == j;
    }
  }

  ghost function OwnedFlags(refs: seq<string>, rows: seq<ObjektRow>, unfall: string): seq<bool> {
    seq(|refs|, i requires 0 <= i < |refs| => OwnedBy(rows, refs[i], unfall))
  }

  lemma {:induction false} OneMoreFlag(refs: seq<string>, rows: seq<ObjektRow>, unfall: string)
    requires refs != []
    ensures OwnedFlags(refs, rows, unfall) == OwnedFlags(refs[..|refs| - 1], rows, unfall) + [OwnedBy(rows, refs[|refs| - 1], unfall)]
  {}

  lemma {:induction false} OneMorePerson(refs: seq<string>, rows: seq<ObjektRow>, unfall: string)
    requires refs != []
    ensures Get(PersonsPerUnfall(refs, OwnerOf(rows)), unfall)
         == Get(PersonsPerUnfall(refs[..|refs| - 1], OwnerOf(rows)), unfall) + if OwnedBy(rows, refs[|refs| - 1], unfall) then 1 else 0
  {
    OwnerIff(rows, refs[|refs| - 1], unfall);
    OwnersAreNamed(rows);
  }

  /** The person total of an accident is how many person rows refer to an object that belongs to it. */
  lemma {:induction false} PersonTotalIs(refs: seq<string>, rows: seq<ObjektRow>, unfall: string) returns (at: seq<nat>)
    ensures PlacesOf(OwnedFlags(refs, rows, unfall), at)
    ensures Get(PersonsPerUnfall(refs, OwnerOf(rows)), unfall) == |at|
  {
    at := [];
    if refs != [] {
      var n := |refs| - 1;
      var before := PersonTotalIs(refs[..n], rows, unfall);
      var owned := OwnedBy(rows, refs[n], unfall);
      OneMoreFlag(refs, rows, unfall);
      OneMorePerson(refs, rows, unfall);
      OneMorePlace(OwnedFlags(refs[..n], rows, unfall), owned, before);
      at := AndThen(before, owned, n);
    }
  }

  /** A row of the file that refers to this accident, and its own key. */
  ghost predicate IsRowOf(f: ParsedFile, unfallColumn: string, objektColumn: string, x: ObjektRow) {
    f.column(unfallColumn).Some? &&
    exists row :: row in f.rows && x.unfall == CellAt(row, f.column(unfallColumn)) && x.own == CellAt(row, f.column(objektColumn))
  }

  lemma {:induction false} RowOfFile(f: ParsedFile, unfallColumn: string, objektColumn: string, x: ObjektRow)
    ensures x in RowsOf(f, unfallColumn, objektColumn) <==> IsRowOf(f, unfallColumn, objektColumn, x)
  {
    if IsRowOf(f, unfallColumn, objektColumn, x) {
      var row :| row in f.rows && x.unfall == CellAt(row, f.column(unfallColumn)) && x.own == CellAt(row, f.column(objektColumn));
      var i :| 0 <= i < |f.rows| && f.rows[i] == row;
      assert RowsOf(f, unfallColumn, objektColumn)[i] == x;
    }
  }

  /** The rows that are counted are those of the object files, with the accident each refers to and its own key. */
  lemma {:induction false} ObjektRowsAre(files: seq<ParsedFile>, unfallColumn: string, objektColumn: string, x: ObjektRow)
    ensures x in AllRows(files, unfallColumn, objektColumn) <==> exists f :: f in files && IsRowOf(f, unfallColumn, objektColumn, x)
  {
    if files != [] {
      var n := |files| - 1;
      ObjektRowsAre(files[..n], unfallColumn, objektColumn, x);
      RowOfFile(files[n], unfallColumn, objektColumn, x);
      assert files == files[..n] + [files[n]];
    }
  }

  // ---- all findings ----

  /** The row declares a number of objects or persons, and what was delivered is another. */
  ghost predicate IsMismatch(d: Digits, sel: seq<ParsedFile>, finding: Finding) {
    exists f :: f in sel && f.kind == Unfall && SomeRowDisagrees(Reader(d), f, KeyColumn(sel, Unfall), TotalsIn(sel), finding)
  }

  ghost predicate LacksSet(sel: seq<ParsedFile>, finding: Finding) {
    exists f :: HasNoSet(sel, f) && finding == SetUnresolved(f.fileId, f.filename, f.kind)
  }

  ghost predicate KeyIsWrong(sel: seq<ParsedFile>, finding: Finding) {
    || IsDuplicate(sel, Unfall, finding) || IsDuplicate(sel, Objekt, finding) || IsDuplicate(sel, Person, finding)
    || IsOrphan(sel, Objekt, Unfall, finding) || IsOrphan(sel, Person, Objekt, finding)
  }

  lemma {:induction false} MismatchIff(d: Digits, sel: seq<ParsedFile>, finding: Finding)
    requires MismatchesAcross(d, sel).Success?
    ensures finding in MismatchesAcross(d, sel).value <==> IsMismatch(d, sel, finding)
  {
    var read, column, totals := Reader(d), KeyColumn(sel, Unfall), TotalsIn(sel);
    CountFindingIff(read, OfKind(sel, Unfall), column, totals, finding);
    ComparisonStopsIff(read, OfKind(sel, Unfall), column, totals);
    if f :| f in OfKind(sel, Unfall) && SomeRowDisagrees(read, f, column, totals, finding) {
      OfKindAre(sel, Unfall, f);
    }
    if f :| f in sel && f.kind == Unfall && SomeRowDisagrees(read, f, column, totals, finding) {
      OfKindAre(sel, Unfall, f);
    }
  }

  lemma {:induction false} KeyFindingIff(sel: seq<ParsedFile>, finding: Finding)
    ensures finding in DuplicatesIn(sel) + OrphansAcross(sel) <==> KeyIsWrong(sel, finding)
  {
    DuplicateIff(sel, Unfall, finding);
    DuplicateIff(sel, Objekt, finding);
    DuplicateIff(sel, Person, finding);
    OrphanIff(sel, Objekt, Unfall, finding);
    OrphanIff(sel, Person, Objekt, finding);
  }

  lemma {:induction false} LacksSetIff(sel: seq<ParsedFile>, finding: Finding)
    ensures finding in UnresolvedIn(sel) <==> LacksSet(sel, finding)
  {
    UnresolvedInIff(sel, finding);
  }

  /** A finding is reported exactly when what it says is so. */
  lemma {:induction false} FindingsAreExact(d: Digits, sel: seq<ParsedFile>, finding: Finding)
    requires CrossFindings(d, sel).Success?
    ensures finding in CrossFindings(d, sel).value <==>
              LacksSet(sel, finding) || KeyIsWrong(sel, finding) || IsMismatch(d, sel, finding) || TextIsMissing(sel, finding)
  {
    LacksSetIff(sel, finding);
    KeyFindingIff(sel, finding);
    MismatchIff(d, sel, finding);
    TextGapIff(sel, finding);
    InParts(d, sel, finding);
  }

  lemma {:induction false} InParts(d: Digits, sel: seq<ParsedFile>, finding: Finding)
    requires CrossFindings(d, sel).Success?
    ensures finding in CrossFindings(d, sel).value <==>
              || finding in UnresolvedIn(sel) || finding in DuplicatesIn(sel) + OrphansAcross(sel)
              || finding in MismatchesAcross(d, sel).value || finding in TextGapsIn(sel)
  {}

  // ---- the order of the findings ----

  /** Files without a set, objects before persons; keys met more than once; references to nothing, of objects
      before those of persons; totals; texts, and accidents without one. */
  function Turn(finding: Finding): nat {
    match finding
    case SetUnresolved(_, _, kind) => if kind == Objekt then 0 else 1
    case DupKeyCrossSet(_, _, _, _) => 2
    case OrphanFk(_, _, child, _, _) => if child == Objekt then 3 else 4
    case CountMismatchObj(_, _, _, _, _) => 5
    case CountMismatchPers(_, _, _, _, _) => 5
    case TextKeyUnmatched(_, _, _) => 6
    case UnfallWithoutText(_, _, _) => 7
  }

  ghost predicate InTurn(findings: seq<Finding>, from: nat, to: nat) {
    && (forall k | 0 <= k < |findings| :: from <= Turn(findings[k]) <= to)
    && (forall k, l | 0 <= k < l < |findings| :: Turn(findings[k]) <= Turn(findings[l]))
  }

  ghost predicate AllTurn(findings: seq<Finding>, turn: nat) { InTurn(findings, turn, turn) }

  lemma {:induction false} TurnsAppend(a: seq<Finding>, from: nat, b: seq<Finding>, to: nat, mid: nat)
    requires from <= mid <= to && InTurn(a, from, mid) && InTurn(b, mid, to)
    ensures InTurn(a + b, from, to)
  {}

  lemma {:induction false} TurnsWiden(a: seq<Finding>, from: nat, to: nat, low: nat, high: nat)
    requires InTurn(a, from, to) && low <= from && to <= high
    ensures InTurn(a, low, high)
  {}

  lemma {:induction false} TurnsFollow(a: seq<Finding>, from: nat, to: nat, b: seq<Finding>, low: nat, high: nat)
    requires from <= to <= low <= high && InTurn(a, from, to) && InTurn(b, low, high)
    ensures InTurn(a + b, from, high)
  {
    TurnsWiden(b, low, high, to, high);
    TurnsAppend(a, from, b, high, to);
  }

  lemma {:induction false} UnresolvedTurn(sel: seq<ParsedFile>, kind: FileKind, setOf: ParsedFile -> Option<string>)
    requires kind == Objekt || kind == Person
    ensures AllTurn(Unresolved(OfKind(sel, kind), setOf), if kind == Objekt then 0 else 1)
  {
    var findings := Unresolved(OfKind(sel, kind), setOf);
    forall k | 0 <= k < |findings| ensures Turn(findings[k]) == if kind == Objekt then 0 else 1 {
      UnresolvedIff(OfKind(sel, kind), setOf, findings[k]);
      var f :| f in OfKind(sel, kind) && setOf(f).None? && findings[k] == SetUnresolved(f.fileId, f.filename, f.kind);
      OfKindAre(sel, kind, f);
    }
  }

  lemma {:induction false} DuplicatesTurn(sel: seq<ParsedFile>, kind: FileKind)
    ensures AllTurn(Duplicates(sel, kind), 2)
  {
    var findings := Duplicates(sel, kind);
    forall k | 0 <= k < |findings| ensures Turn(findings[k]) == 2 { DuplicateIff(sel, kind, findings[k]); }
  }

  lemma {:induction false} OrphansTurn(sel: seq<ParsedFile>, child: FileKind, parent: FileKind)
    ensures AllTurn(Orphans(sel, child, parent), if child == Objekt then 3 else 4)
  {
    var findings := Orphans(sel, child, parent);
    forall k | 0 <= k < |findings| ensures Turn(findings[k]) == if child == Objekt then 3 else 4 { OrphanIff(sel, child, parent, findings[k]); }
  }

  lemma {:induction false} MismatchesTurn(d: Digits, sel: seq<ParsedFile>)
    requires MismatchesAcross(d, sel).Success?
    ensures AllTurn(MismatchesAcross(d, sel).value, 5)
  {
    var findings := MismatchesAcross(d, sel).value;
    forall k | 0 <= k < |findings| ensures Turn(findings[k]) == 5 { MismatchIff(d, sel, findings[k]); }
  }

  function TextTurn(text: bool): nat { if text then 6 else 7 }

  lemma {:induction false} MissedInTurn(f: ParsedFile, values: seq<string>, known: set<string>, column: string, text: bool)
    ensures AllTurn(MissedIn(f, values, known, column, text), TextTurn(text))
  {
    if values != [] {
      var v := values[|values| - 1];
      MissedInTurn(f, values[..|values| - 1], known, column, text);
      assert Turn(Missed(f, v, column, text)) == TextTurn(text);
    }
  }

  lemma {:induction false} MissedTurn(files: seq<ParsedFile>, known: set<string>, column: string, text: bool)
    ensures AllTurn(MissedOf(files, known, column, text), TextTurn(text))
  {
    if files != [] {
      var f, before := files[|files| - 1], MissedOf(files[..|files| - 1], known, column, text);
      var here := MissedIn(f, f.Values(column), known, column, text);
      MissedTurn(files[..|files| - 1], known, column, text);
      MissedInTurn(f, f.Values(column), known, column, text);
      TurnsFollow(before, TextTurn(text), TextTurn(text), here, TextTurn(text), TextTurn(text));
      assert MissedOf(files, known, column, text) == before + here;
    }
  }

  lemma {:induction false} SetsTurn(sel: seq<ParsedFile>)
    ensures InTurn(UnresolvedIn(sel), 0, 1)
  {
    var unfalls, objekts, columns := OfKind(sel, Unfall), OfKind(sel, Objekt), ColumnsOf(sel);
    UnresolvedTurn(sel, Objekt, OfObjekt(unfalls, columns));
    UnresolvedTurn(sel, Person, OfPerson(unfalls, objekts, columns));
    TurnsFollow(Unresolved(objekts, OfObjekt(unfalls, columns)), 0, 0,
                Unresolved(OfKind(sel, Person), OfPerson(unfalls, objekts, columns)), 1, 1);
  }

  lemma {:induction false} KeysTurn(sel: seq<ParsedFile>)
    ensures InTurn(DuplicatesIn(sel), 2, 2)
  {
    DuplicatesTurn(sel, Unfall);
    DuplicatesTurn(sel, Objekt);
    DuplicatesTurn(sel, Person);
    TurnsFollow(Duplicates(sel, Unfall), 2, 2, Duplicates(sel, Objekt), 2, 2);
    TurnsFollow(Duplicates(sel, Unfall) + Duplicates(sel, Objekt), 2, 2, Duplicates(sel, Person), 2, 2);
  }

  lemma {:induction false} ReferencesTurn(sel: seq<ParsedFile>)
    ensures InTurn(OrphansAcross(sel), 3, 4)
  {
    OrphansTurn(sel, Objekt, Unfall);
    OrphansTurn(sel, Person, Objekt);
    TurnsFollow(Orphans(sel, Objekt, Unfall), 3, 3, Orphans(sel, Person, Objekt), 4, 4);
  }

  lemma {:induction false} TextsTurn(sel: seq<ParsedFile>)
    ensures InTurn(TextGapsIn(sel), 6, 7)
  {
    var texts, unfalls := OfKind(sel, Text), OfKind(sel, Unfall);
    MissedTurn(texts, NonEmptyKeys(unfalls, KeyColumn(sel, Unfall)), KeyColumn(sel, Text), true);
    MissedTurn(unfalls, NonEmptyKeys(texts, KeyColumn(sel, Text)), KeyColumn(sel, Unfall), false);
    TurnsFollow(MissedOf(texts, NonEmptyKeys(unfalls, KeyColumn(sel, Unfall)), KeyColumn(sel, Text), true), 6, 6,
                MissedOf(unfalls, NonEmptyKeys(texts, KeyColumn(sel, Text)), KeyColumn(sel, Unfall), false), 7, 7);
  }

  lemma {:induction false} FiveInTurn(a: seq<Finding>, b: seq<Finding>, c: seq<Finding>, d: seq<Finding>, e: seq<Finding>)
    requires InTurn(a, 0, 1) && InTurn(b, 2, 2) && InTurn(c, 3, 4) && InTurn(d, 5, 5) && InTurn(e, 6, 7)
    ensures InTurn(a + b + c + d + e, 0, 7)
  {
    TurnsFollow(a, 0, 1, b, 2, 2);
    TurnsFollow(a + b, 0, 2, c, 3, 4);
    TurnsFollow(a + b + c, 0, 4, d, 5, 5);
    TurnsFollow(a + b + c + d, 0, 5, e, 6, 7);
  }

  /** The findings are reported in turn. */
  lemma {:induction false} FindingsInTurn(d: Digits, sel: seq<ParsedFile>)
    requires CrossFindings(d, sel).Success?
    ensures InTurn(CrossFindings(d, sel).value, 0, 7)
  {
    SetsTurn(sel);
    KeysTurn(sel);
    ReferencesTurn(sel);
    MismatchesTurn(d, sel);
    TextsTurn(sel);
    FiveInTurn(UnresolvedIn(sel), DuplicatesIn(sel), OrphansAcross(sel), MismatchesAcross(d, sel).value, TextGapsIn(sel));
  }
}
