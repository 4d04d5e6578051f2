/** Which set key each listed file gets, told of the listed files alone. */
module DeliverySets {
  import opened Wrappers
  import opened DeliveryTypes
  import opened CantonalSets
  import opened DeliveryValidation

  // ---- the selected files of a kind, by their places in the list ----

  predicate Takes(f: ParsedFile, kind: FileKind) { f.selected && f.kind == kind }

  function Places(files: seq<ParsedFile>, kind: FileKind, n: nat): (places: seq<nat>)
    requires n <= |files|
    ensures forall k | 0 <= k < |places| :: places[k] < n && Takes(files[places[k]], kind)
    ensures forall k, l | 0 <= k < l < |places| :: places[k] < places[l]
    ensures forall i | 0 <= i < n && Takes(files[i], kind) :: i in places
  {
    if n == 0 then []
    else Places(files, kind, n - 1) + if Takes(files[n - 1], kind) then [n - 1] else []
  }

  function FilesAt(files: seq<ParsedFile>, places: seq<nat>): seq<ParsedFile>
    requires forall k | 0 <= k < |places| :: places[k] < |files|
  {
    seq(|places|, k requires 0 <= k < |places| => files[places[k]])
  }

  /** The place of a taken file. */
  lemma {:induction false} PlaceIndex(files: seq<ParsedFile>, kind: FileKind, i: nat) returns (k: nat)
    requires i < |files| && Takes(files[i], kind)
    ensures var places := Places(files, kind, |files|); k < |places| && places[k] == i
  {
    k :| 0 <= k < |Places(files, kind, |files|)| && Places(files, kind, |files|)[k] == i;
  }

  lemma {:induction false} PlacesRise(files: seq<ParsedFile>, kind: FileKind, k: nat, l: nat)
    requires k < |Places(files, kind, |files|)| && l < |Places(files, kind, |files|)|
    ensures var places := Places(files, kind, |files|); places[l] < places[k] <==> l < k
  {}

  lemma {:induction false} ConsAdd(x: ParsedFile, p: seq<ParsedFile>, q: seq<ParsedFile>)
    ensures [x] + (p + q) == ([x] + p) + q
  {}

  lemma {:induction false} SelectedAdd(a: seq<ParsedFile>, b: seq<ParsedFile>)
    ensures Selected(a + b) == Selected(a) + Selected(b)
  {
    if a == [] {
      assert a + b == b;
    } else {
      var x, rest := a[0], a[1..];
      assert a == [x] + rest;
      ConsAdd(x, rest, b);
      SelectedAdd(rest, b);
      SelectedCons(x, rest + b);
      SelectedCons(x, rest);
      ConsAdd(x, Selected(rest), Selected(b));
    }
  }

  lemma {:induction false} OfKindCons(f: ParsedFile, rest: seq<ParsedFile>, kind: FileKind)
    ensures OfKind([f] + rest, kind) == if f.kind == kind then [f] + OfKind(rest, kind) else OfKind(rest, kind)
  {
    assert ([f] + rest)[1..] == rest;
  }

  lemma {:induction false} OfKindAdd(a: seq<ParsedFile>, b: seq<ParsedFile>, kind: FileKind)
    ensures OfKind(a + b, kind) == OfKind(a, kind) + OfKind(b, kind)
  {
    if a == [] {
      assert a + b == b;
    } else {
      var x, rest := a[0], a[1..];
      assert a == [x] + rest;
      ConsAdd(x, rest, b);
      OfKindAdd(rest, b, kind);
      OfKindCons(x, rest + b, kind);
      OfKindCons(x, rest, kind);
      ConsAdd(x, OfKind(rest, kind), OfKind(b, kind));
    }
  }

  lemma {:induction false} OneTaken(f: ParsedFile, kind: FileKind)
    ensures OfKind(Selected([f]), kind) == if Takes(f, kind) then [f] else []
  {
    assert [f][1..] == [];
  }

  lemma {:induction false} MorePlaces(files: seq<ParsedFile>, places: seq<nat>, i: nat, takes: bool)
    requires i < |files| && forall k | 0 <= k < |places| :: places[k] < |files|
    ensures FilesAt(files, places + if takes then [i] else []) == FilesAt(files, places) + if takes then [files[i]] else []
  {}

  lemma {:induction false} TakenUpTo(files: seq<ParsedFile>, kind: FileKind, n: nat)
    requires n <= |files|
    ensures OfKind(Selected(files[..n]), kind) == FilesAt(files, Places(files, kind, n))
  {
    if n > 0 {
      TakenUpTo(files, kind, n - 1);
      var before, f := files[..n - 1], files[n - 1];
      assert files[..n] == before + [f];
      SelectedAdd(before, [f]);
      OfKindAdd(Selected(before), Selected([f]), kind);
      OneTaken(f, kind);
      MorePlaces(files, Places(files, kind, n - 1), n - 1, Takes(f, kind));
    }
  }

  lemma {:induction false} TakenAre(files: seq<ParsedFile>, kind: FileKind)
    ensures OfKind(Selected(files), kind) == FilesAt(files, Places(files, kind, |files|))
  {
    TakenUpTo(files, kind, |files|);
    assert files[..|files|] == files;
  }

  lemma {:induction false} TakenAt(files: seq<ParsedFile>, kind: FileKind, k: nat)
    requires k < |Places(files, kind, |files|)|
    ensures var taken := OfKind(Selected(files), kind); k < |taken| && taken[k] == files[Places(files, kind, |files|)[k]]
  {
    TakenAre(files, kind);
  }

  // ---- the key column of a kind ----

  /** The first selected file of the kind whose header is known decides what its key is called; without
      one it is called as in RADIS. */
  ghost predicate IsKeyColumn(files: seq<ParsedFile>, kind: FileKind, column: string) {
    (exists i: nat :: FirstKnown(files, kind, i) && files[i].columnSet.value.keyColumn == column) ||
    ((forall i | 0 <= i < |files| && Takes(files[i], kind) :: files[i].columnSet.None?) && column == RadisKey(kind))
  }

  ghost predicate FirstKnown(files: seq<ParsedFile>, kind: FileKind, i: nat) {
    && i < |files| && Takes(files[i], kind) && files[i].columnSet.Some?
    && forall j | 0 <= j < i && Takes(files[j], kind) :: files[j].columnSet.None?
  }

  lemma {:induction false} FirstColumnSetIs(files: seq<ParsedFile>, k: nat)
    requires k <= |files| && forall j | 0 <= j < k :: files[j].columnSet.None?
    ensures k == |files| ==> FirstColumnSet(files) == None
    ensures k < |files| && files[k].columnSet.Some? ==> FirstColumnSet(files) == files[k].columnSet
  {
    if k > 0 { FirstColumnSetIs(files[1..], k - 1); }
  }

  lemma {:induction false} KnownInList(files: seq<ParsedFile>) returns (k: nat)
    ensures k <= |files| && (k < |files| ==> files[k].columnSet.Some?)
    ensures forall j | 0 <= j < k :: files[j].columnSet.None?
  {
    k := 0;
    while k < |files| && files[k].columnSet.None?
      invariant k <= |files| && forall j | 0 <= j < k :: files[j].columnSet.None?
    {
      k := k + 1;
    }
  }

  /** What the taken files say of their headers, file `j` says at its place. */
  lemma {:induction false} HeaderAt(files: seq<ParsedFile>, kind: FileKind, k: nat, j: nat)
    requires var taken := OfKind(Selected(files), kind); k <= |taken| && forall l | 0 <= l < k :: taken[l].columnSet.None?
    requires j < |files| && Takes(files[j], kind)
    requires k < |Places(files, kind, |files|)| ==> j < Places(files, kind, |files|)[k]
    ensures files[j].columnSet.None?
  {
    TakenAre(files, kind);
    var l := PlaceIndex(files, kind, j);
    TakenAt(files, kind, l);
    if k < |Places(files, kind, |files|)| { PlacesRise(files, kind, k, l); }
  }

  lemma {:induction false} KeyColumnIs(files: seq<ParsedFile>, kind: FileKind)
    ensures IsKeyColumn(files, kind, KeyColumn(Selected(files), kind))
  {
    TakenAre(files, kind);
    var taken := OfKind(Selected(files), kind);
    var k := KnownInList(taken);
    FirstColumnSetIs(taken, k);
    forall j: nat | j < |files| && Takes(files[j], kind) && (k < |taken| ==> j < Places(files, kind, |files|)[k])
      ensures files[j].columnSet.None?
    {
      HeaderAt(files, kind, k, j);
    }
    if k < |taken| { assert FirstKnown(files, kind, Places(files, kind, |files|)[k]); }
  }

  /** There is only one. */
  lemma {:induction false} OneKeyColumn(files: seq<ParsedFile>, kind: FileKind, a: string, b: string)
    requires IsKeyColumn(files, kind, a) && IsKeyColumn(files, kind, b)
    ensures a == b
  {
    if i: nat :| FirstKnown(files, kind, i) && files[i].columnSet.value.keyColumn == a {
      if j: nat :| FirstKnown(files, kind, j) && files[j].columnSet.value.keyColumn == b {
        assert i == j;
      }
    }
  }

  // ---- the file a file belongs to ----

  /** Of the selected files of the kind, `u` shares the most different non-empty keys with the file,
      at least one, and is the first that does. */
  ghost predicate BelongsTo(files: seq<ParsedFile>, f: ParsedFile, kind: FileKind, column: string, u: nat) {
    && u < |files| && Takes(files[u], kind) && CommonKeys(f, files[u], column) > 0
    && (forall j: nat | j < |files| && Takes(files[j], kind) :: CommonKeys(f, files[j], column) <= CommonKeys(f, files[u], column))
    && (forall j: nat | j < u && Takes(files[j], kind) :: CommonKeys(f, files[j], column) < CommonKeys(f, files[u], column))
  }

  lemma {:induction false} SizeAt(files: seq<ParsedFile>, f: ParsedFile, kind: FileKind, column: string, k: nat)
    requires k < |Places(files, kind, |files|)|
    ensures var sizes := AllCommonKeys(f, OfKind(Selected(files), kind), column);
            |sizes| == |Places(files, kind, |files|)| && sizes[k] == CommonKeys(f, files[Places(files, kind, |files|)[k]], column)
  {
    TakenAre(files, kind);
  }

  lemma {:induction false} SharesNoMore(files: seq<ParsedFile>, f: ParsedFile, kind: FileKind, column: string, k: nat, j: nat)
    requires MostLinked(f, OfKind(Selected(files), kind), column, k) && k < |Places(files, kind, |files|)|
    requires j < |files| && Takes(files[j], kind)
    ensures var u := Places(files, kind, |files|)[k];
            && CommonKeys(f, files[j], column) <= CommonKeys(f, files[u], column)
            && (j < u ==> CommonKeys(f, files[j], column) < CommonKeys(f, files[u], column))
  {
    var l := PlaceIndex(files, kind, j);
    SizeAt(files, f, kind, column, k);
    SizeAt(files, f, kind, column, l);
    PlacesRise(files, kind, k, l);
  }

  lemma {:induction false} MostLinkedBelongs(files: seq<ParsedFile>, f: ParsedFile, kind: FileKind, column: string, k: nat)
    requires MostLinked(f, OfKind(Selected(files), kind), column, k)
    ensures k < |Places(files, kind, |files|)| && BelongsTo(files, f, kind, column, Places(files, kind, |files|)[k])
  {
    TakenAre(files, kind);
    SizeAt(files, f, kind, column, k);
    forall j: nat | j < |files| && Takes(files[j], kind)
      ensures var u := Places(files, kind, |files|)[k];
              && CommonKeys(f, files[j], column) <= CommonKeys(f, files[u], column)
              && (j < u ==> CommonKeys(f, files[j], column) < CommonKeys(f, files[u], column))
    {
      SharesNoMore(files, f, kind, column, k, j);
    }
  }

  lemma {:induction false} BelongsIsMostLinked(files: seq<ParsedFile>, f: ParsedFile, kind: FileKind, column: string, u: nat) returns (k: nat)
    requires BelongsTo(files, f, kind, column, u)
    ensures k < |Places(files, kind, |files|)| && Places(files, kind, |files|)[k] == u
    ensures MostLinked(f, OfKind(Selected(files), kind), column, k)
  {
    TakenAre(files, kind);
    var places := Places(files, kind, |files|);
    var sizes := AllCommonKeys(f, FilesAt(files, places), column);
    k :| 0 <= k < |places| && places[k] == u;
    forall i | 0 <= i < |sizes| ensures sizes[i] <= sizes[k] && (i < k ==> sizes[i] < sizes[k]) {
      assert sizes[i] == CommonKeys(f, files[places[i]], column) && sizes[k] == CommonKeys(f, files[u], column);
      assert Takes(files[places[i]], kind);
    }
  }

  // ---- the set key of a file ----

  /** The name an accident file gives its set. */
  predicate GivesName(u: ParsedFile, name: string) {
    match u.canton
    case Some(canton) => if canton != "" then name == canton else name == "set:" + u.fileId
    case None => name == "set:" + u.fileId
  }

  ghost predicate ObjektNamed(files: seq<ParsedFile>, f: ParsedFile, column: string, name: string) {
    exists u: nat :: BelongsTo(files, f, Unfall, column, u) && GivesName(files[u], name)
  }

  ghost predicate PersonNamed(files: seq<ParsedFile>, f: ParsedFile, columns: Columns, name: string) {
    exists o: nat :: BelongsTo(files, f, Objekt, columns.objekt, o) && ObjektNamed(files, files[o], columns.unfall, name)
  }

  /** The set key a file should get: of its own for an accident file, through the shared keys for an
      object file, through an object file for a person file; none when it is deselected or of another kind. */
  ghost predicate HasSetKey(files: seq<ParsedFile>, f: ParsedFile, columns: Columns, name: string) {
    f.selected &&
    match f.kind
    case Unfall => GivesName(f, name)
    case Objekt => ObjektNamed(files, f, columns.unfall, name)
    case Person => PersonNamed(files, f, columns, name)
    case Text => false
    case Unknown => false
  }

  lemma {:induction false} NamedThroughObjekt(files: seq<ParsedFile>, f: ParsedFile, columns: Columns, name: string, k: nat)
    requires MostLinked(f, OfKind(Selected(files), Unfall), columns.unfall, k) && UnfallSet(OfKind(Selected(files), Unfall)[k]) == name
    ensures ObjektNamed(files, f, columns.unfall, name)
  {
    MostLinkedBelongs(files, f, Unfall, columns.unfall, k);
    TakenAt(files, Unfall, k);
    assert GivesName(files[Places(files, Unfall, |files|)[k]], name);
  }

  lemma {:induction false} LinkedWhenNamed(files: seq<ParsedFile>, f: ParsedFile, columns: Columns, name: string, u: nat) returns (k: nat)
    requires BelongsTo(files, f, Unfall, columns.unfall, u) && GivesName(files[u], name)
    ensures MostLinked(f, OfKind(Selected(files), Unfall), columns.unfall, k) && UnfallSet(OfKind(Selected(files), Unfall)[k]) == name
  {
    k := BelongsIsMostLinked(files, f, Unfall, columns.unfall, u);
    TakenAt(files, Unfall, k);
  }

  lemma {:induction false} ObjektSetIff(files: seq<ParsedFile>, f: ParsedFile, columns: Columns, name: string)
    ensures ObjektSet(f, OfKind(Selected(files), Unfall), columns) == Some(name) <==> ObjektNamed(files, f, columns.unfall, name)
  {
    var unfalls := OfKind(Selected(files), Unfall);
    ObjektSetIsThatOfMostLinked(f, unfalls, columns, name);
    if k: nat :| MostLinked(f, unfalls, columns.unfall, k) && UnfallSet(unfalls[k]) == name {
      NamedThroughObjekt(files, f, columns, name, k);
    }
    if u: nat :| BelongsTo(files, f, Unfall, columns.unfall, u) && GivesName(files[u], name) {
      var k := LinkedWhenNamed(files, f, columns, name, u);
    }
  }

  lemma {:induction false} PersonSetIff(files: seq<ParsedFile>, f: ParsedFile, columns: Columns, name: string)
    ensures PersonSet(f, OfKind(Selected(files), Unfall), OfKind(Selected(files), Objekt), columns) == Some(name)
       <==> PersonNamed(files, f, columns, name)
  {
    var unfalls, objekts := OfKind(Selected(files), Unfall), OfKind(Selected(files), Objekt);
    PersonSetIsThatOfMostLinked(f, unfalls, objekts, columns, name);
    if k: nat :| MostLinked(f, objekts, columns.objekt, k) && ObjektSet(objekts[k], unfalls, columns) == Some(name) {
      MostLinkedBelongs(files, f, Objekt, columns.objekt, k);
      TakenAt(files, Objekt, k);
      ObjektSetIff(files, objekts[k], columns, name);
    }
    if o: nat :| BelongsTo(files, f, Objekt, columns.objekt, o) && ObjektNamed(files, files[o], columns.unfall, name) {
      var k := BelongsIsMostLinked(files, f, Objekt, columns.objekt, o);
      TakenAt(files, Objekt, k);
      ObjektSetIff(files, objekts[k], columns, name);
    }
  }

  lemma {:induction false} KnownSet(sets: map<string, string>, files: seq<ParsedFile>, setOf: ParsedFile -> Option<string>, f: ParsedFile)
    requires Knows(sets, files, setOf) && f in files
    ensures Lookup(sets, f.fileId) == setOf(f)
  {}

  lemma {:induction false} OtherHasNoSet(files: seq<ParsedFile>, i: nat)
    requires DistinctFiles(files) && i < |files|
    requires !files[i].selected || files[i].kind == Text || files[i].kind == Unknown
    ensures files[i].fileId !in SetsIn(Selected(files))
  {
    var sel, id := Selected(files), files[i].fileId;
    var unfalls, objekts, persons := OfKind(sel, Unfall), OfKind(sel, Objekt), OfKind(sel, Person);
    SelectedAreDistinct(files);
    StructuredAreSeparate(sel);
    SetKeysAreKnown(unfalls, objekts, persons, ColumnsOf(sel));
    forall g: ParsedFile | g in unfalls + objekts + persons ensures g.fileId != id {
      OfKindAre(sel, Unfall, g);
      OfKindAre(sel, Objekt, g);
      OfKindAre(sel, Person, g);
      SelectedAre(files, g);
      var j :| 0 <= j < |files| && files[j] == g;
      assert j != i;
    }
  }

  lemma {:induction false} StructuredSet(files: seq<ParsedFile>, i: nat)
    requires DistinctFiles(files) && i < |files| && files[i].selected && files[i].kind in {Unfall, Objekt, Person}
    ensures var f, unfalls, objekts, columns :=
              files[i], OfKind(Selected(files), Unfall), OfKind(Selected(files), Objekt), ColumnsOf(Selected(files));
            Lookup(SetsIn(Selected(files)), f.fileId) ==
            if f.kind == Unfall then Some(UnfallSet(f))
            else if f.kind == Objekt then ObjektSet(f, unfalls, columns) else PersonSet(f, unfalls, objekts, columns)
  {
    var f, sel := files[i], Selected(files);
    var unfalls, objekts, persons, columns := OfKind(sel, Unfall), OfKind(sel, Objekt), OfKind(sel, Person), ColumnsOf(sel);
    SelectedAreDistinct(files);
    StructuredAreSeparate(sel);
    SetKeysAreKnown(unfalls, objekts, persons, columns);
    SelectedAre(files, f);
    OfKindAre(sel, f.kind, f);
    if f.kind == Unfall {
      KnownSet(SetsIn(sel), unfalls, OfUnfall(), f);
    } else if f.kind == Objekt {
      KnownSet(SetsIn(sel), objekts, OfObjekt(unfalls, columns), f);
    } else {
      KnownSet(SetsIn(sel), persons, OfPerson(unfalls, objekts, columns), f);
    }
  }

  /** Validation gives file `i` the set key its canton or its shared keys say, and no other. */
  lemma {:induction false} SetKeyIff(files: seq<ParsedFile>, i: nat, columns: Columns, name: string)
    requires DistinctFiles(files) && i < |files|
    requires IsKeyColumn(files, Unfall, columns.unfall) && IsKeyColumn(files, Objekt, columns.objekt)
    ensures KeysFor(files, SetsIn(Selected(files)))[i] == Some(name) <==> HasSetKey(files, files[i], columns, name)
  {
    var f := files[i];
    KeyColumnIs(files, Unfall);
    KeyColumnIs(files, Objekt);
    OneKeyColumn(files, Unfall, columns.unfall, KeyColumn(Selected(files), Unfall));
    OneKeyColumn(files, Objekt, columns.objekt, KeyColumn(Selected(files), Objekt));
    assert ColumnsOf(Selected(files)) == columns;
    if f.selected && f.kind in {Unfall, Objekt, Person} {
      StructuredSet(files, i);
      ObjektSetIff(files, f, columns, name);
      PersonSetIff(files, f, columns, name);
    } else {
      OtherHasNoSet(files, i);
    }
  }

  // ---- filenames decide nothing ----

  function Renamed(files: seq<ParsedFile>, names: seq<string>): seq<ParsedFile>
    requires |names| == |files|
  {
    seq(|files|, i requires 0 <= i < |files| => files[i].(filename := names[i]))
  }

  lemma {:induction false} RenamedColumn(files: seq<ParsedFile>, names: seq<string>, kind: FileKind, column: string)
    requires |names| == |files| && IsKeyColumn(files, kind, column)
    ensures IsKeyColumn(Renamed(files, names), kind, column)
  {
    var renamed := Renamed(files, names);
    if i: nat :| FirstKnown(files, kind, i) && files[i].columnSet.value.keyColumn == column {
      assert FirstKnown(renamed, kind, i);
    }
  }

  lemma {:induction false} RenamedCommon(f: ParsedFile, g: ParsedFile, a: string, b: string, column: string)
    ensures CommonKeys(f.(filename := a), g.(filename := b), column) == CommonKeys(f, g, column)
  {
    assert f.(filename := a).Values(column) == f.Values(column);
    assert g.(filename := b).Values(column) == g.Values(column);
  }

  lemma {:induction false} RenamedShares(files: seq<ParsedFile>, names: seq<string>, i: nat, kind: FileKind, column: string, j: nat)
    requires |names| == |files| && i < |files| && j < |files|
    ensures var renamed := Renamed(files, names);
            && CommonKeys(renamed[i], renamed[j], column) == CommonKeys(files[i], files[j], column)
            && (Takes(renamed[j], kind) <==> Takes(files[j], kind))
  {
    RenamedCommon(files[i], files[j], names[i], names[j], column);
  }

  lemma {:induction false} RenamedBelongs(files: seq<ParsedFile>, names: seq<string>, i: nat, kind: FileKind, column: string, u: nat)
    requires |names| == |files| && i < |files|
    ensures BelongsTo(Renamed(files, names), Renamed(files, names)[i], kind, column, u) <==> BelongsTo(files, files[i], kind, column, u)
  {
    forall j: nat | j < |files|
      ensures var renamed := Renamed(files, names);
              && CommonKeys(renamed[i], renamed[j], column) == CommonKeys(files[i], files[j], column)
              && (Takes(renamed[j], kind) <==> Takes(files[j], kind))
    {
      RenamedShares(files, names, i, kind, column, j);
    }
  }

  lemma {:induction false} RenamedObjekt(files: seq<ParsedFile>, names: seq<string>, i: nat, column: string, name: string)
    requires |names| == |files| && i < |files|
    ensures ObjektNamed(Renamed(files, names), Renamed(files, names)[i], column, name) <==> ObjektNamed(files, files[i], column, name)
  {
    var renamed := Renamed(files, names);
    forall u: nat | u < |files|
      ensures BelongsTo(renamed, renamed[i], Unfall, column, u) <==> BelongsTo(files, files[i], Unfall, column, u)
      ensures GivesName(renamed[u], name) <==> GivesName(files[u], name)
    {
      RenamedBelongs(files, names, i, Unfall, column, u);
    }
  }

  lemma {:induction false} RenamedPerson(files: seq<ParsedFile>, names: seq<string>, i: nat, columns: Columns, name: string)
    requires |names| == |files| && i < |files|
    ensures PersonNamed(Renamed(files, names), Renamed(files, names)[i], columns, name) <==> PersonNamed(files, files[i], columns, name)
  {
    var renamed := Renamed(files, names);
    forall o: nat | o < |files|
      ensures BelongsTo(renamed, renamed[i], Objekt, columns.objekt, o) <==> BelongsTo(files, files[i], Objekt, columns.objekt, o)
      ensures ObjektNamed(renamed, renamed[o], columns.unfall, name) <==> ObjektNamed(files, files[o], columns.unfall, name)
    {
      RenamedBelongs(files, names, i, Objekt, columns.objekt, o);
      RenamedObjekt(files, names, o, columns.unfall, name);
    }
  }

  /** Renaming the files changes no set key. */
  lemma {:induction false} FilenamesDecideNothing(files: seq<ParsedFile>, names: seq<string>)
    requires DistinctFiles(files) && |names| == |files|
    ensures KeysFor(Renamed(files, names), SetsIn(Selected(Renamed(files, names)))) == KeysFor(files, SetsIn(Selected(files)))
  {
    var renamed := Renamed(files, names);
    var before, after := KeysFor(files, SetsIn(Selected(files))), KeysFor(renamed, SetsIn(Selected(renamed)));
    forall i: nat | i < |files| ensures after[i] == before[i] {
      SameSetKey(files, names, i);
    }
  }

  lemma {:induction false} SameSetKey(files: seq<ParsedFile>, names: seq<string>, i: nat)
    requires DistinctFiles(files) && |names| == |files| && i < |files|
    ensures KeysFor(Renamed(files, names), SetsIn(Selected(Renamed(files, names))))[i] == KeysFor(files, SetsIn(Selected(files)))[i]
  {
    var renamed := Renamed(files, names);
    var before, after := KeysFor(files, SetsIn(Selected(files)))[i], KeysFor(renamed, SetsIn(Selected(renamed)))[i];
    var columns := Columns(KeyColumn(Selected(files), Unfall), KeyColumn(Selected(files), Objekt));
    KeyColumnIs(files, Unfall);
    KeyColumnIs(files, Objekt);
    RenamedColumn(files, names, Unfall, columns.unfall);
    RenamedColumn(files, names, Objekt, columns.objekt);
    forall name ensures after == Some(name) <==> before == Some(name) {
      SetKeyIff(files, i, columns, name);
      SetKeyIff(renamed, i, columns, name);
      RenamedObjekt(files, names, i, columns.unfall, name);
      RenamedPerson(files, names, i, columns, name);
    }
    assert after.Some? ==> after == Some(after.value) && before == Some(after.value);
  }

  // ---- one accident, one object, one person ----

  function Header(name: string): string -> Option<nat> { column => if column == name then Some(0) else None }

  function OneKey(id: string, filename: string, kind: FileKind, canton: Option<string>, column: string, key: string): ParsedFile {
    ParsedFile(id, filename, kind, canton, Header(column), [[key]], true, None)
  }

  /** The accident file names a canton; the person file reaches it only through the object file. */
  function ThreeFiles(canton: string): seq<ParsedFile> {
    [OneKey("u1", "unfall.csv", Unfall, Some(canton), "UnfallUid", "A1"),
     ParsedFile("o1", "objekt.csv", Objekt, None,
                column => if column == "UnfallUid" then Some(0) else if column == "ObjektUid" then Some(1) else None,
                [["A1", "B1"]], true, None),
     OneKey("p1", "person.csv", Person, None, "ObjektUid", "B1")]
  }

  lemma {:induction false} ThreeDistinct(canton: string)
    ensures DistinctFiles(ThreeFiles(canton))
    ensures IsKeyColumn(ThreeFiles(canton), Unfall, "UnfallUid") && IsKeyColumn(ThreeFiles(canton), Objekt, "ObjektUid")
  {
    assert "u1"[0] != "o1"[0] && "u1"[0] != "p1"[0] && "o1"[0] != "p1"[0];
  }

  lemma {:induction false} OneCommon(f: ParsedFile, g: ParsedFile, column: string, key: string)
    requires f.Values(column) == [key] && g.Values(column) == [key] && key != ""
    ensures CommonKeys(f, g, column) == 1
  {
    assert (set v | v in f.Values(column) && v in g.Values(column) && v != "") == {key};
  }

  lemma {:induction false} ObjektBelongs(canton: string)
    ensures BelongsTo(ThreeFiles(canton), ThreeFiles(canton)[1], Unfall, "UnfallUid", 0)
  {
    var files := ThreeFiles(canton);
    assert files[1].column("UnfallUid") == Some(0) && files[1].Values("UnfallUid") == ["A1"];
    assert files[0].column("UnfallUid") == Some(0) && files[0].Values("UnfallUid") == ["A1"];
    OneCommon(files[1], files[0], "UnfallUid", "A1");
  }

  lemma {:induction false} PersonBelongs(canton: string)
    ensures BelongsTo(ThreeFiles(canton), ThreeFiles(canton)[2], Objekt, "ObjektUid", 1)
  {
    var files := ThreeFiles(canton);
    assert "ObjektUid"[0] != "UnfallUid"[0];
    assert files[1].column("ObjektUid") == Some(1) && files[1].Values("ObjektUid") == ["B1"];
    assert files[2].column("ObjektUid") == Some(0) && files[2].Values("ObjektUid") == ["B1"];
    OneCommon(files[2], files[1], "ObjektUid", "B1");
  }

  /** The canton reaches the object file and, through it, the person file; without one the id does. */
  lemma {:induction false} CantonReachesAllThree()
    ensures KeysFor(ThreeFiles("ZH"), SetsIn(Selected(ThreeFiles("ZH")))) == [Some("ZH"), Some("ZH"), Some("ZH")]
    ensures KeysFor(ThreeFiles(""), SetsIn(Selected(ThreeFiles("")))) == [Some("set:u1"), Some("set:u1"), Some("set:u1")]
  {
    ThreeKeys("ZH", "ZH");
    ThreeKeys("", "set:u1");
  }

  lemma {:induction false} ThreeNamed(canton: string, name: string, i: nat)
    requires i < 3 && GivesName(ThreeFiles(canton)[0], name)
    ensures HasSetKey(ThreeFiles(canton), ThreeFiles(canton)[i], Columns("UnfallUid", "ObjektUid"), name)
  {
    var files := ThreeFiles(canton);
    ObjektBelongs(canton);
    PersonBelongs(canton);
    assert ObjektNamed(files, files[1], "UnfallUid", name);
  }

  lemma {:induction false} ThreeKey(canton: string, name: string, i: nat)
    requires i < 3 && GivesName(ThreeFiles(canton)[0], name)
    ensures KeysFor(ThreeFiles(canton), SetsIn(Selected(ThreeFiles(canton))))[i] == Some(name)
  {
    ThreeDistinct(canton);
    ThreeNamed(canton, name, i);
    SetKeyIff(ThreeFiles(canton), i, Columns("UnfallUid", "ObjektUid"), name);
  }

  lemma {:induction false} ThreeKeys(canton: string, name: string)
    requires GivesName(ThreeFiles(canton)[0], name)
    ensures KeysFor(ThreeFiles(canton), SetsIn(Selected(ThreeFiles(canton)))) == [Some(name), Some(name), Some(name)]
  {
    ThreeKey(canton, name, 0);
    ThreeKey(canton, name, 1);
    ThreeKey(canton, name, 2);
  }
}
