/** Validation across the selected files of one delivery, and what a delivery it does not block keeps. */
module DeliveryValidation {
  import opened Wrappers
  import opened DeliveryTypes
  import opened KeyChecks
  import opened References
  import opened CantonalSets
  import opened DeclaredCells
  import opened DeclaredCounts
  import opened TextJoin

  /** The set key of each listed file, and the cross-file findings. */
  datatype Analysis = Analysis(setKeys: seq<Option<string>>, findings: seq<Finding>)

  function Selected(files: seq<ParsedFile>): seq<ParsedFile> {
    if files == [] then []
    else (if files[0].selected then [files[0]] else []) + Selected(files[1..])
  }

  ghost function SetsIn(sel: seq<ParsedFile>): map<string, string> {
    SetKeys(OfKind(sel, Unfall), OfKind(sel, Objekt), OfKind(sel, Person), ColumnsOf(sel))
  }

  ghost function UnresolvedIn(sel: seq<ParsedFile>): seq<Finding> {
    SetFindings(OfKind(sel, Unfall), OfKind(sel, Objekt), OfKind(sel, Person), ColumnsOf(sel))
  }

  ghost function DuplicatesIn(sel: seq<ParsedFile>): seq<Finding> {
    Duplicates(sel, Unfall) + Duplicates(sel, Objekt) + Duplicates(sel, Person)
  }

  ghost function OrphansAcross(sel: seq<ParsedFile>): seq<Finding> {
    Orphans(sel, Objekt, Unfall) + Orphans(sel, Person, Objekt)
  }

  ghost function ObjektRowsIn(sel: seq<ParsedFile>): seq<ObjektRow> {
    AllRows(OfKind(sel, Objekt), KeyColumn(sel, Unfall), KeyColumn(sel, Objekt))
  }

  ghost function PersonRefsIn(sel: seq<ParsedFile>): seq<string> {
    AllValues(OfKind(sel, Person), KeyColumn(sel, Objekt))
  }

  /** The totals declared counts are compared with. */
  ghost function TotalsIn(sel: seq<ParsedFile>): Totals {
    Totals(ObjektsPerUnfall(ObjektRowsIn(sel)), PersonsPerUnfall(PersonRefsIn(sel), OwnerOf(ObjektRowsIn(sel))))
  }

  ghost function MismatchesAcross(d: Digits, sel: seq<ParsedFile>): Result<seq<Finding>, CountError> {
    MismatchesOf(Reader(d), OfKind(sel, Unfall), KeyColumn(sel, Unfall), TotalsIn(sel))
  }

  ghost function TextGapsIn(sel: seq<ParsedFile>): seq<Finding> {
    TextFindings(OfKind(sel, Text), OfKind(sel, Unfall), KeyColumn(sel, Text), KeyColumn(sel, Unfall))
  }

  /** All cross-file findings, in the order they are reported. */
  ghost function CrossFindings(d: Digits, sel: seq<ParsedFile>): Result<seq<Finding>, CountError> {
    var counts := MismatchesAcross(d, sel);
    if counts.Failure? then counts
    else Success(UnresolvedIn(sel) + DuplicatesIn(sel) + OrphansAcross(sel) + counts.value + TextGapsIn(sel))
  }

  function Lookup(sets: map<string, string>, id: string): Option<string> {
    if id in sets then Some(sets[id]) else None
  }

  function KeysFor(files: seq<ParsedFile>, sets: map<string, string>): seq<Option<string>> {
    seq(|files|, i requires 0 <= i < |files| => Lookup(sets, files[i].fileId))
  }

  method CountAcross(d: Digits, sel: seq<ParsedFile>) returns (r: Result<seq<Finding>, CountError>)
    ensures r == MismatchesAcross(d, sel)
  {
    var objektCounts, owner := CountObjekts(OfKind(sel, Objekt), KeyColumn(sel, Unfall), KeyColumn(sel, Objekt));
    var personCounts := CountPersons(AllValues(OfKind(sel, Person), KeyColumn(sel, Objekt)), owner);
    r := CompareCounts(Reader(d), OfKind(sel, Unfall), KeyColumn(sel, Unfall), Totals(objektCounts, personCounts));
  }

  method FindDuplicates(sel: seq<ParsedFile>) returns (findings: seq<Finding>)
    ensures findings == DuplicatesIn(sel)
  {
    var unfalls := DuplicateKeys(sel, Unfall);
    var objekts := DuplicateKeys(sel, Objekt);
    var persons := DuplicateKeys(sel, Person);
    findings := unfalls + objekts + persons;
  }

  method FindAllOrphans(sel: seq<ParsedFile>) returns (findings: seq<Finding>)
    ensures findings == OrphansAcross(sel)
  {
    var objekts := FindOrphans(sel, Objekt, Unfall);
    var persons := FindOrphans(sel, Person, Objekt);
    findings := objekts + persons;
  }

  method ValidateDelivery(d: Digits, files: seq<ParsedFile>) returns (r: Result<Analysis, CountError>)
    requires DistinctFiles(files)
    ensures var cross := CrossFindings(d, Selected(files));
            if cross.Failure? then r == Failure(cross.error)
            else r == Success(Analysis(KeysFor(files, SetsIn(Selected(files))), cross.value))
  {
    var selected := Selected(files);
    SelectedAreDistinct(files);
    StructuredAreSeparate(selected);
    var sets, unresolved := ResolveSets(OfKind(selected, Unfall), OfKind(selected, Objekt), OfKind(selected, Person), ColumnsOf(selected));
    var duplicates := FindDuplicates(selected);
    var orphans := FindAllOrphans(selected);
    var counts := CountAcross(d, selected);
    if counts.Failure? {
      return Failure(counts.error);
    }
    var texts := FindTextGaps(OfKind(selected, Text), OfKind(selected, Unfall), KeyColumn(selected, Text), KeyColumn(selected, Unfall));
    return Success(Analysis(KeysFor(files, sets), unresolved + duplicates + orphans + counts.value + texts));
  }

  // ---- deselected files ----

  lemma {:induction false} SelectedAre(files: seq<ParsedFile>, f: ParsedFile)
    ensures f in Selected(files) <==> f in files && f.selected
  {
    if files != [] {
      SelectedAre(files[1..], f);
      assert files == [files[0]] + files[1..];
    }
  }

  lemma {:induction false} SelectedAreDistinct(files: seq<ParsedFile>)
    requires DistinctFiles(files)
    ensures DistinctFiles(Selected(files))
  {
    if files != [] {
      SelectedAreDistinct(files[1..]);
      forall f | f in Selected(files[1..]) ensures f.fileId != files[0].fileId {
        SelectedAre(files[1..], f);
      }
    }
  }

  lemma {:induction false} SelectedCons(f: ParsedFile, rest: seq<ParsedFile>)
    ensures Selected([f] + rest) == if f.selected then [f] + Selected(rest) else Selected(rest)
  {
    assert ([f] + rest)[1..] == rest;
  }

  lemma {:induction false} SelectedWithout(a: seq<ParsedFile>, f: ParsedFile, b: seq<ParsedFile>)
    requires !f.selected
    ensures Selected(a + [f] + b) == Selected(a + b)
  {
    if a == [] {
      assert a + [f] + b == [f] + b && a + b == b;
      SelectedCons(f, b);
    } else {
      var g, rest := a[0], a[1..];
      SelectedWithout(rest, f, b);
      assert a + [f] + b == [g] + (rest + [f] + b) && a + b == [g] + (rest + b);
      SelectedCons(g, rest + [f] + b);
      SelectedCons(g, rest + b);
    }
  }

  lemma {:induction false} UnlistedHasNoSet(sel: seq<ParsedFile>, id: string)
    requires DistinctFiles(sel) && forall g | g in sel :: g.fileId != id
    ensures id !in SetsIn(sel)
  {
    var unfalls, objekts, persons := OfKind(sel, Unfall), OfKind(sel, Objekt), OfKind(sel, Person);
    StructuredAreSeparate(sel);
    SetKeysAreKnown(unfalls, objekts, persons, ColumnsOf(sel));
    forall g: ParsedFile | g in unfalls + objekts + persons ensures g.fileId != id {
      OfKindAre(sel, Unfall, g);
      OfKindAre(sel, Objekt, g);
      OfKindAre(sel, Person, g);
    }
  }

  /** Wherever a deselected file is listed, the cross-file findings are those without it, and it
      gets no set key. */
  lemma {:induction false} DeselectedFileDoesNotMatter(d: Digits, a: seq<ParsedFile>, f: ParsedFile, b: seq<ParsedFile>)
    requires !f.selected && DistinctFiles(a + [f] + b)
    ensures CrossFindings(d, Selected(a + [f] + b)) == CrossFindings(d, Selected(a + b))
    ensures f.fileId !in SetsIn(Selected(a + [f] + b))
  {
    SelectedWithout(a, f, b);
    SelectedAreDistinct(a + [f] + b);
    NotSelected(a + [f] + b, |a|);
    UnlistedHasNoSet(Selected(a + [f] + b), f.fileId);
  }

  lemma {:induction false} NotSelected(files: seq<ParsedFile>, k: nat)
    requires DistinctFiles(files) && k < |files| && !files[k].selected
    ensures forall g | g in Selected(files) :: g.fileId != files[k].fileId
  {
    forall g | g in Selected(files) ensures g.fileId != files[k].fileId {
      SelectedAre(files, g);
      var i :| 0 <= i < |files| && files[i] == g;
    }
  }

  // ---- a delivery that is not blocked ----

  ghost predicate KeysUnique(sel: seq<ParsedFile>) {
    Unique(KeysOf(sel, Unfall)) && Unique(KeysOf(sel, Objekt)) && Unique(KeysOf(sel, Person))
  }

  /** Every non-empty reference of a child file is the key of some parent row. */
  ghost predicate ReferencesHold(sel: seq<ParsedFile>, child: FileKind, parent: FileKind) {
    forall f, v | f in OfKind(sel, child) && v in f.Values(KeyColumn(sel, parent)) && v != "" :: v in KeysOf(sel, parent)
  }

  /** Every `objekt` and `person` file has a set. */
  ghost predicate SetsResolved(sel: seq<ParsedFile>) {
    && (forall f | f in OfKind(sel, Objekt) :: ObjektSet(f, OfKind(sel, Unfall), ColumnsOf(sel)).Some?)
    && (forall f | f in OfKind(sel, Person) :: PersonSet(f, OfKind(sel, Unfall), OfKind(sel, Objekt), ColumnsOf(sel)).Some?)
  }

  lemma {:induction false} DuplicatesBlock(sel: seq<ParsedFile>, kind: FileKind)
    ensures NoneBlocking(Duplicates(sel, kind)) <==> Unique(KeysOf(sel, kind))
  {
    NoDuplicatesIff(sel, kind);
    if Duplicates(sel, kind) != [] {
      var f := Duplicates(sel, kind)[0];
      assert f in Duplicates(sel, kind);
      DuplicateNamesItsFiles(sel, kind, f);
    }
  }

  lemma {:induction false} OrphansBlock(sel: seq<ParsedFile>, child: FileKind, parent: FileKind)
    ensures NoneBlocking(Orphans(sel, child, parent)) <==> ReferencesHold(sel, child, parent)
  {
    NoOrphansIff(sel, child, parent);
    if Orphans(sel, child, parent) != [] {
      var f := Orphans(sel, child, parent)[0];
      assert f in Orphans(sel, child, parent);
      OrphanIsReal(OfKind(sel, child), LinkOf(sel, child, parent), NonEmpty(KeysOf(sel, parent)), f);
    }
  }

  lemma {:induction false} UnresolvedBlock(files: seq<ParsedFile>, setOf: ParsedFile -> Option<string>)
    ensures NoneBlocking(Unresolved(files, setOf)) <==> forall f | f in files :: setOf(f).Some?
  {
    if files != [] {
      UnresolvedBlock(files[..|files| - 1], setOf);
      var f := files[|files| - 1];
      assert files == files[..|files| - 1] + [f];
      if setOf(f).None? {
        var finding := SetUnresolved(f.fileId, f.filename, f.kind);
        assert finding in Unresolved(files, setOf) && finding.Blocking();
      }
    }
  }

  lemma {:induction false} CountsNeverBlock(read: string -> Declared, files: seq<ParsedFile>, keyColumn: string, totals: Totals)
    requires MismatchesOf(read, files, keyColumn, totals).Success?
    ensures NoneBlocking(MismatchesOf(read, files, keyColumn, totals).value)
  {
    forall f | f in MismatchesOf(read, files, keyColumn, totals).value ensures !f.Blocking() {
      CountFindingIff(read, files, keyColumn, totals, f);
    }
  }

  lemma {:induction false} NoneBlockingAdd(a: seq<Finding>, b: seq<Finding>)
    ensures NoneBlocking(a + b) <==> NoneBlocking(a) && NoneBlocking(b)
  {
    assert forall f :: f in a + b <==> f in a || f in b;
  }

  /** Every declared total beside a key is read: as a number, or as none. */
  ghost predicate TotalsReadable(d: Digits, sel: seq<ParsedFile>) {
    !SomeRowStops(Reader(d), OfKind(sel, Unfall), KeyColumn(sel, Unfall))
  }

  /** Validation fails exactly when a declared total beside a key passes the digit test and is no integer. */
  lemma {:induction false} ValidationFailsIff(d: Digits, sel: seq<ParsedFile>)
    ensures CrossFindings(d, sel).Failure? <==> !TotalsReadable(d, sel)
  {
    ComparisonStopsIff(Reader(d), OfKind(sel, Unfall), KeyColumn(sel, Unfall), TotalsIn(sel));
  }

  /** Validation gives cross-file findings, and none of them blocks. */
  ghost predicate NotBlocked(d: Digits, sel: seq<ParsedFile>) {
    CrossFindings(d, sel).Success? && NoneBlocking(CrossFindings(d, sel).value)
  }

  /** A delivery is validated without a blocking cross-file finding exactly when its declared totals
      can be read, its keys are unique, its references hold and its sets resolve; declared counts
      that disagree and missing texts never block. */
  lemma {:induction false} NotBlockedIff(d: Digits, sel: seq<ParsedFile>)
    ensures NotBlocked(d, sel)
       <==> TotalsReadable(d, sel) && KeysUnique(sel) && ReferencesAllHold(sel) && SetsResolved(sel)
  {
    ValidationFailsIff(d, sel);
    if CrossFindings(d, sel).Success? {
      FindingsBlockIff(d, sel);
    }
  }

  ghost predicate ReferencesAllHold(sel: seq<ParsedFile>) {
    ReferencesHold(sel, Objekt, Unfall) && ReferencesHold(sel, Person, Objekt)
  }

  lemma {:induction false} FindingsBlockIff(d: Digits, sel: seq<ParsedFile>)
    requires CrossFindings(d, sel).Success?
    ensures NoneBlocking(CrossFindings(d, sel).value)
       <==> KeysUnique(sel) && ReferencesAllHold(sel) && SetsResolved(sel)
  {
    var counts := MismatchesAcross(d, sel).value;
    NoneBlockingAdd(UnresolvedIn(sel) + DuplicatesIn(sel) + OrphansAcross(sel) + counts, TextGapsIn(sel));
    NoneBlockingAdd(UnresolvedIn(sel) + DuplicatesIn(sel) + OrphansAcross(sel), counts);
    NoneBlockingAdd(UnresolvedIn(sel) + DuplicatesIn(sel), OrphansAcross(sel));
    NoneBlockingAdd(UnresolvedIn(sel), DuplicatesIn(sel));
    SetsBlock(sel);
    KeysBlock(sel);
    ReferencesBlock(sel);
    CountsNeverBlock(Reader(d), OfKind(sel, Unfall), KeyColumn(sel, Unfall), TotalsIn(sel));
    TextsNeverBlock(sel);
  }

  lemma {:induction false} SetsBlock(sel: seq<ParsedFile>)
    ensures NoneBlocking(UnresolvedIn(sel)) <==> SetsResolved(sel)
  {
    var unfalls, objekts, persons, columns := OfKind(sel, Unfall), OfKind(sel, Objekt), OfKind(sel, Person), ColumnsOf(sel);
    NoneBlockingAdd(Unresolved(objekts, OfObjekt(unfalls, columns)), Unresolved(persons, OfPerson(unfalls, objekts, columns)));
    UnresolvedBlock(objekts, OfObjekt(unfalls, columns));
    UnresolvedBlock(persons, OfPerson(unfalls, objekts, columns));
  }

  lemma {:induction false} KeysBlock(sel: seq<ParsedFile>)
    ensures NoneBlocking(DuplicatesIn(sel)) <==> KeysUnique(sel)
  {
    NoneBlockingAdd(Duplicates(sel, Unfall) + Duplicates(sel, Objekt), Duplicates(sel, Person));
    NoneBlockingAdd(Duplicates(sel, Unfall), Duplicates(sel, Objekt));
    DuplicatesBlock(sel, Unfall);
    DuplicatesBlock(sel, Objekt);
    DuplicatesBlock(sel, Person);
  }

  lemma {:induction false} ReferencesBlock(sel: seq<ParsedFile>)
    ensures NoneBlocking(OrphansAcross(sel)) <==> ReferencesAllHold(sel)
  {
    NoneBlockingAdd(Orphans(sel, Objekt, Unfall), Orphans(sel, Person, Objekt));
    OrphansBlock(sel, Objekt, Unfall);
    OrphansBlock(sel, Person, Objekt);
  }

  lemma {:induction false} TextsNeverBlock(sel: seq<ParsedFile>)
    ensures NoneBlocking(TextGapsIn(sel))
  {
    var texts, unfalls := OfKind(sel, Text), OfKind(sel, Unfall);
    NeverBlocking(texts, NonEmptyKeys(unfalls, KeyColumn(sel, Unfall)), KeyColumn(sel, Text), true);
    NeverBlocking(unfalls, NonEmptyKeys(texts, KeyColumn(sel, Text)), KeyColumn(sel, Unfall), false);
    NoneBlockingAdd(MissedOf(texts, NonEmptyKeys(unfalls, KeyColumn(sel, Unfall)), KeyColumn(sel, Text), true),
                    MissedOf(unfalls, NonEmptyKeys(texts, KeyColumn(sel, Text)), KeyColumn(sel, Unfall), false));
  }

  /** Row `i` of the parents, and no other, has this key. */
  ghost predicate OnlyParent(keys: seq<string>, v: string, i: nat) {
    i < |keys| && keys[i] == v && forall j | 0 <= j < |keys| && keys[j] == v :: j == i
  }

  /** In a delivery that is not blocked every non-empty reference reaches exactly one parent row. */
  lemma {:induction false} ReferenceReachesOneParent(d: Digits, sel: seq<ParsedFile>, child: FileKind, parent: FileKind, f: ParsedFile, v: string) returns (i: nat)
    requires NotBlocked(d, sel)
    requires (child == Objekt && parent == Unfall) || (child == Person && parent == Objekt)
    requires f in OfKind(sel, child) && v in f.Values(KeyColumn(sel, parent)) && v != ""
    ensures OnlyParent(KeysOf(sel, parent), v, i)
  {
    NotBlockedIff(d, sel);
    assert v in KeysOf(sel, parent);
    i := OneIndex(KeysOf(sel, parent), v);
  }

  lemma {:induction false} OneIndex(keys: seq<string>, v: string) returns (i: nat)
    requires Unique(keys) && v != "" && v in keys
    ensures OnlyParent(keys, v, i)
  {
    i :| 0 <= i < |keys| && keys[i] == v;
    forall j | 0 <= j < |keys| && keys[j] == v ensures j == i {}
  }

  lemma {:induction false} UnfallOfObjekt(f: ParsedFile, unfalls: seq<ParsedFile>, columns: Columns) returns (u: ParsedFile)
    requires ObjektSet(f, unfalls, columns).Some?
    ensures u in unfalls && ObjektSet(f, unfalls, columns).value == UnfallSet(u)
  {
    ObjektSetIsFromUnfall(f, unfalls, columns);
    u :| u in unfalls && Linked(f, u, columns.unfall) && ObjektSet(f, unfalls, columns).value == UnfallSet(u);
  }

  lemma {:induction false} UnfallOfPerson(f: ParsedFile, unfalls: seq<ParsedFile>, objekts: seq<ParsedFile>, columns: Columns) returns (u: ParsedFile)
    requires PersonSet(f, unfalls, objekts, columns).Some?
    ensures u in unfalls && PersonSet(f, unfalls, objekts, columns).value == UnfallSet(u)
  {
    PersonSetIsFromUnfall(f, unfalls, objekts, columns);
    var o;
    o, u :| o in objekts && u in unfalls && Linked(f, o, columns.objekt) && Linked(o, u, columns.unfall)
            && PersonSet(f, unfalls, objekts, columns).value == UnfallSet(u);
  }

  /** Its structured files all belong to the set of some `unfall` file ... */
  lemma {:induction false} EverySetComesFromAnUnfall(d: Digits, sel: seq<ParsedFile>, f: ParsedFile) returns (u: ParsedFile)
    requires DistinctFiles(sel) && NotBlocked(d, sel)
    requires f in sel && f.kind in {Unfall, Objekt, Person}
    ensures u in sel && u.kind == Unfall && f.fileId in SetsIn(sel) && SetsIn(sel)[f.fileId] == UnfallSet(u)
  {
    var unfalls, objekts, persons, columns := OfKind(sel, Unfall), OfKind(sel, Objekt), OfKind(sel, Person), ColumnsOf(sel);
    NotBlockedIff(d, sel);
    StructuredAreSeparate(sel);
    SetKeysAreKnown(unfalls, objekts, persons, columns);
    OfKindAre(sel, f.kind, f);
    if f.kind == Unfall {
      u := f;
    } else if f.kind == Objekt {
      u := UnfallOfObjekt(f, unfalls, columns);
    } else {
      u := UnfallOfPerson(f, unfalls, objekts, columns);
    }
    OfKindAre(sel, Unfall, u);
  }

  /** ... and the totals its declared counts were compared with are the true ones: delivered
      `objekt` rows, and person rows joined through their object. */
  lemma {:induction false} TotalsAreJoins(d: Digits, sel: seq<ParsedFile>, unfall: string)
    requires NotBlocked(d, sel) && unfall != ""
    ensures Get(TotalsIn(sel).objekts, unfall) == ObjektCount(ObjektRowsIn(sel), unfall)
    ensures Get(TotalsIn(sel).persons, unfall) == JoinCount(PersonRefsIn(sel), ObjektRowsIn(sel), unfall)
  {
    NotBlockedIff(d, sel);
    ObjektTotalIsRowCount(ObjektRowsIn(sel), unfall);
    UniqueKeysJoin(OfKind(sel, Objekt), KeyColumn(sel, Unfall), KeyColumn(sel, Objekt), PersonRefsIn(sel), unfall);
  }

  // ---- a delivery whose validation fails ----

  /** One accident file that declares its objects, with one row. */
  function OneAccident(declared: string): ParsedFile {
    ParsedFile("u1", "unfall.csv", Unfall, None,
               name => if name == "UnfallUid" then Some(0) else if name == "AnzObj" then Some(1) else None,
               [["A1", declared]], true, Some(ColumnSet("UnfallUid", Some("AnzObj"), None)))
  }

  /** A single declared total such as `--5` leaves the whole delivery without findings; an empty
      one, or one that is no number, does not. */
  lemma {:induction false} OneTotalFailsValidation(d: Digits, declared: string)
    requires SoundDigits(d)
    ensures CrossFindings(d, [OneAccident(declared)]).Failure? <==> ReadCount(d, declared) == NotAnInteger
    ensures CrossFindings(d, [OneAccident("--5")]).Failure? && CrossFindings(d, [OneAccident("\U{00B2}")]).Failure?
  {
    OneAccidentStops(d, declared);
    OneAccidentStops(d, "--5");
    OneAccidentStops(d, "\U{00B2}");
    TwoUnreadableCells(d);
  }

  lemma {:induction false} OneRowStops(read: string -> Declared, f: ParsedFile, keyColumn: string)
    requires |f.rows| == 1
    ensures SomeRowStops(read, [f], keyColumn) <==> Stops(read, f, f.rows[0], keyColumn)
  {
    assert f in [f];
  }

  lemma {:induction false} OneFile(f: ParsedFile)
    requires f.kind == Unfall && f.columnSet.Some?
    ensures OfKind([f], Unfall) == [f] && KeyColumn([f], Unfall) == f.columnSet.value.keyColumn
  {
    assert [f][1..] == [];
  }

  lemma {:induction false} OneAccidentReads(d: Digits, declared: string)
    ensures var f := OneAccident(declared);
            Stops(Reader(d), f, f.rows[0], "UnfallUid") <==> Reader(d)(declared) == NotAnInteger
  {
    var f := OneAccident(declared);
    assert f.column("UnfallUid") == Some(0) && CellAt(f.rows[0], Some(0)) == "A1" != "";
    assert |"AnzObj"| != |"UnfallUid"|;
    assert f.column("AnzObj") == Some(1) && CellAt(f.rows[0], Some(1)) == declared;
    assert ObjColumn(f) == Some("AnzObj") && PersColumn(f) == None;
  }

  lemma {:induction false} OneAccidentStops(d: Digits, declared: string)
    ensures CrossFindings(d, [OneAccident(declared)]).Failure? <==> ReadCount(d, declared) == NotAnInteger
  {
    var f := OneAccident(declared);
    OneFile(f);
    ValidationFailsIff(d, [f]);
    OneRowStops(Reader(d), f, "UnfallUid");
    OneAccidentReads(d, declared);
  }
}
