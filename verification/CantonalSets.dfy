/** Which structured files belong together: decided by shared keys alone. */
module CantonalSets {
  import opened Wrappers
  import opened DeliveryTypes

  datatype FileKeys = FileKeys(fileId: string, keys: set<string>)

  // ---- the best match for a set of keys ----

  function Shared(needles: set<string>, h: FileKeys): nat { |needles * h.keys| }

  /** The first of the files sharing the most keys; none when nothing is shared. */
  function BestUpTo(needles: set<string>, haystacks: seq<FileKeys>, n: nat): (best: Option<nat>)
    requires n <= |haystacks|
    ensures best.Some? ==> best.value < n && Shared(needles, haystacks[best.value]) > 0
  {
    if n == 0 then None
    else
      var before := BestUpTo(needles, haystacks, n - 1);
      var size := if before.Some? then Shared(needles, haystacks[before.value]) else 0;
      if Shared(needles, haystacks[n - 1]) > size then Some(n - 1) else before
  }

  function Best(needles: set<string>, haystacks: seq<FileKeys>): (best: Option<nat>)
    ensures best.Some? ==> best.value < |haystacks|
  {
    BestUpTo(needles, haystacks, |haystacks|)
  }

  lemma {:induction false} BestIsMost(needles: set<string>, haystacks: seq<FileKeys>, n: nat)
    requires n <= |haystacks|
    ensures var best := BestUpTo(needles, haystacks, n);
            && (forall i | 0 <= i < n :: Shared(needles, haystacks[i]) <= if best.Some? then Shared(needles, haystacks[best.value]) else 0)
            && (best.Some? ==> forall i | 0 <= i < best.value :: Shared(needles, haystacks[i]) < Shared(needles, haystacks[best.value]))
  {
    if n > 0 { BestIsMost(needles, haystacks, n - 1); }
  }

  /** A file is found exactly when some key is shared; it shares the most, and is the first that does. */
  lemma {:induction false} BestMeans(needles: set<string>, haystacks: seq<FileKeys>)
    ensures Best(needles, haystacks).Some? <==> exists h, v :: h in haystacks && v in h.keys && v in needles
    ensures Best(needles, haystacks).Some? ==>
              var k := Best(needles, haystacks).value;
              && (forall i | 0 <= i < |haystacks| :: Shared(needles, haystacks[i]) <= Shared(needles, haystacks[k]))
              && (forall i | 0 <= i < k :: Shared(needles, haystacks[i]) < Shared(needles, haystacks[k]))
              && exists v :: v in haystacks[k].keys && v in needles
  {
    BestIsMost(needles, haystacks, |haystacks|);
    var best := Best(needles, haystacks);
    if best.Some? {
      SharesSome(needles, haystacks[best.value]);
    }
    if h, v :| h in haystacks && v in h.keys && v in needles {
      assert v in needles * h.keys;
      assert Shared(needles, h) > 0;
    }
  }

  lemma {:induction false} SharesSome(needles: set<string>, h: FileKeys)
    requires Shared(needles, h) > 0
    ensures exists v :: v in h.keys && v in needles
  {}

  method BestOverlap(needles: set<string>, haystacks: seq<FileKeys>) returns (best: Option<string>)
    ensures best == var k := Best(needles, haystacks); if k.Some? then Some(haystacks[k.value].fileId) else None
  {
    best := None;
    var bestSize := 0;
    for n := 0 to |haystacks|
      invariant var k := BestUpTo(needles, haystacks, n);
                if k.Some? then best == Some(haystacks[k.value].fileId) && bestSize == Shared(needles, haystacks[k.value])
                else best == None && bestSize == 0
    {
      var size := |needles * haystacks[n].keys|;
      if size > bestSize {
        best, bestSize := Some(haystacks[n].fileId), size;
      }
    }
  }

  // ---- the set of a file ----

  /** What this delivery calls the keys references go by. */
  datatype Columns = Columns(unfall: string, objekt: string)

  function ToSet(values: seq<string>): set<string> { set v | v in values }

  function NonEmptySet(values: seq<string>): set<string> { set v | v in values && v != "" }

  function KeysIn(files: seq<ParsedFile>, column: string): seq<FileKeys> {
    seq(|files|, i requires 0 <= i < |files| => FileKeys(files[i].fileId, ToSet(files[i].Values(column))))
  }

  /** An `unfall` file names its set by its canton, which came from the data. */
  function UnfallSet(f: ParsedFile): string {
    if f.canton.Some? && f.canton.value != "" then f.canton.value else "set:" + f.fileId
  }

  function ObjektSet(f: ParsedFile, unfalls: seq<ParsedFile>, columns: Columns): Option<string> {
    var k := Best(NonEmptySet(f.Values(columns.unfall)), KeysIn(unfalls, columns.unfall));
    if k.Some? then Some(UnfallSet(unfalls[k.value])) else None
  }

  function PersonSet(f: ParsedFile, unfalls: seq<ParsedFile>, objekts: seq<ParsedFile>, columns: Columns): Option<string> {
    var k := Best(NonEmptySet(f.Values(columns.objekt)), KeysIn(objekts, columns.objekt));
    if k.Some? then ObjektSet(objekts[k.value], unfalls, columns) else None
  }

  /** The keys of files with a set, file by file. */
  function Assigned(sets: map<string, string>, files: seq<ParsedFile>, setOf: ParsedFile -> Option<string>): map<string, string> {
    if files == [] then sets
    else
      var before, f := Assigned(sets, files[..|files| - 1], setOf), files[|files| - 1];
      if setOf(f).Some? then before[f.fileId := setOf(f).value] else before
  }

  function Unresolved(files: seq<ParsedFile>, setOf: ParsedFile -> Option<string>): seq<Finding> {
    if files == [] then []
    else
      var f := files[|files| - 1];
      var before := Unresolved(files[..|files| - 1], setOf);
      if setOf(f).Some? then before else before + [SetUnresolved(f.fileId, f.filename, f.kind)]
  }

  ghost predicate DistinctFiles(files: seq<ParsedFile>) {
    forall i, j | 0 <= i < j < |files| :: files[i].fileId != files[j].fileId
  }

  ghost predicate ApartFrom(files: seq<ParsedFile>, others: seq<ParsedFile>) {
    forall f, g | f in files && g in others :: f.fileId != g.fileId
  }

  lemma {:induction false} AssignedElsewhere(sets: map<string, string>, files: seq<ParsedFile>, setOf: ParsedFile -> Option<string>, id: string)
    requires forall f | f in files :: f.fileId != id
    ensures id in Assigned(sets, files, setOf) <==> id in sets
    ensures id in sets ==> Assigned(sets, files, setOf)[id] == sets[id]
  {
    if files != [] { AssignedElsewhere(sets, files[..|files| - 1], setOf, id); }
  }

  lemma {:induction false} AssignedHere(sets: map<string, string>, files: seq<ParsedFile>, setOf: ParsedFile -> Option<string>, k: nat)
    requires DistinctFiles(files) && k < |files| && files[k].fileId !in sets
    ensures files[k].fileId in Assigned(sets, files, setOf) <==> setOf(files[k]).Some?
    ensures setOf(files[k]).Some? ==> Assigned(sets, files, setOf)[files[k].fileId] == setOf(files[k]).value
  {
    var n := |files| - 1;
    if k < n {
      AssignedHere(sets, files[..n], setOf, k);
    } else {
      AssignedElsewhere(sets, files[..n], setOf, files[k].fileId);
    }
  }

  // ---- the three passes ----

  method NameUnfalls(unfalls: seq<ParsedFile>) returns (sets: map<string, string>)
    ensures sets == Assigned(map[], unfalls, OfUnfall())
  {
    sets := map[];
    for n := 0 to |unfalls|
      invariant sets == Assigned(map[], unfalls[..n], OfUnfall())
    {
      AssignedNext(map[], unfalls, OfUnfall(), n);
      sets := sets[unfalls[n].fileId := UnfallSet(unfalls[n])];
    }
    assert unfalls[..|unfalls|] == unfalls;
  }

  /** `sets` holds exactly what `setOf` says of these files. */
  ghost predicate Knows(sets: map<string, string>, files: seq<ParsedFile>, setOf: ParsedFile -> Option<string>) {
    forall f | f in files ::
      && (f.fileId in sets <==> setOf(f).Some?)
      && (f.fileId in sets ==> sets[f.fileId] == setOf(f).value)
  }

  lemma {:induction false} KnowsKept(sets: map<string, string>, files: seq<ParsedFile>, setOf: ParsedFile -> Option<string>,
                                     others: seq<ParsedFile>, k: nat, name: string)
    requires Knows(sets, files, setOf) && ApartFrom(files, others) && k < |others|
    ensures Knows(sets[others[k].fileId := name], files, setOf)
  {}

  lemma {:induction false} AssignedNext(sets: map<string, string>, files: seq<ParsedFile>, setOf: ParsedFile -> Option<string>, n: nat)
    requires n < |files|
    ensures var before, found := Assigned(sets, files[..n], setOf), setOf(files[n]);
            Assigned(sets, files[..n + 1], setOf) == if found.Some? then before[files[n].fileId := found.value] else before
    ensures Unresolved(files[..n + 1], setOf) ==
            if setOf(files[n]).Some? then Unresolved(files[..n], setOf)
            else Unresolved(files[..n], setOf) + [SetUnresolved(files[n].fileId, files[n].filename, files[n].kind)]
  {
    assert files[..n + 1][..n] == files[..n];
  }

  lemma {:induction false} AssignedIsKnown(sets: map<string, string>, files: seq<ParsedFile>, setOf: ParsedFile -> Option<string>)
    requires DistinctFiles(files) && forall f | f in files :: f.fileId !in sets
    ensures Knows(Assigned(sets, files, setOf), files, setOf)
  {
    forall k: nat | k < |files| ensures files[k].fileId in Assigned(sets, files, setOf) <==> setOf(files[k]).Some?
                                ensures setOf(files[k]).Some? ==> Assigned(sets, files, setOf)[files[k].fileId] == setOf(files[k]).value
    {
      AssignedHere(sets, files, setOf, k);
    }
  }

  lemma {:induction false} StillKnown(sets: map<string, string>, known: seq<ParsedFile>, knownSet: ParsedFile -> Option<string>,
                                      files: seq<ParsedFile>, setOf: ParsedFile -> Option<string>)
    requires Knows(sets, known, knownSet) && ApartFrom(known, files)
    ensures Knows(Assigned(sets, files, setOf), known, knownSet)
  {
    forall f | f in known
      ensures f.fileId in Assigned(sets, files, setOf) <==> f.fileId in sets
      ensures f.fileId in sets ==> Assigned(sets, files, setOf)[f.fileId] == sets[f.fileId]
    {
      AssignedElsewhere(sets, files, setOf, f.fileId);
    }
  }

  function OfUnfall(): ParsedFile -> Option<string> { f => Some(UnfallSet(f)) }

  function OfObjekt(unfalls: seq<ParsedFile>, columns: Columns): ParsedFile -> Option<string> {
    f => ObjektSet(f, unfalls, columns)
  }

  function OfPerson(unfalls: seq<ParsedFile>, objekts: seq<ParsedFile>, columns: Columns): ParsedFile -> Option<string> {
    f => PersonSet(f, unfalls, objekts, columns)
  }

  /** The set of the `unfall` file holding most of this file's parents. */
  method FindObjektSet(f: ParsedFile, unfallKeys: seq<FileKeys>, sets: map<string, string>, ghost unfalls: seq<ParsedFile>, columns: Columns)
    returns (found: Option<string>)
    requires unfallKeys == KeysIn(unfalls, columns.unfall) && Knows(sets, unfalls, OfUnfall())
    ensures found == ObjektSet(f, unfalls, columns)
  {
    var parents := NonEmptySet(f.Values(columns.unfall));
    var best := BestOverlap(parents, unfallKeys);
    if best.None? {
      return None;
    }
    assert unfalls[Best(parents, unfallKeys).value] in unfalls;
    return Some(sets[best.value]);
  }

  method PlaceObjekts(named: map<string, string>, unfalls: seq<ParsedFile>, objekts: seq<ParsedFile>, columns: Columns)
    returns (sets: map<string, string>, findings: seq<Finding>)
    requires Knows(named, unfalls, OfUnfall()) && ApartFrom(unfalls, objekts)
    ensures sets == Assigned(named, objekts, OfObjekt(unfalls, columns))
    ensures findings == Unresolved(objekts, OfObjekt(unfalls, columns))
  {
    sets, findings := named, [];
    ghost var setOf := OfObjekt(unfalls, columns);
    var unfallKeys := KeysIn(unfalls, columns.unfall);
    for n := 0 to |objekts|
      invariant sets == Assigned(named, objekts[..n], setOf)
      invariant findings == Unresolved(objekts[..n], setOf)
      invariant Knows(sets, unfalls, OfUnfall())
    {
      AssignedNext(named, objekts, setOf, n);
      var f := objekts[n];
      var found := FindObjektSet(f, unfallKeys, sets, unfalls, columns);
      if found.None? {
        findings := findings + [SetUnresolved(f.fileId, f.filename, f.kind)];
      } else {
        KnowsKept(sets, unfalls, OfUnfall(), objekts, n, found.value);
        sets := sets[f.fileId := found.value];
      }
    }
    assert objekts[..|objekts|] == objekts;
  }

  /** The set of the `objekt` file holding most of this file's parents, if that file has one. */
  method FindPersonSet(f: ParsedFile, objektKeys: seq<FileKeys>, sets: map<string, string>,
                       ghost unfalls: seq<ParsedFile>, ghost objekts: seq<ParsedFile>, columns: Columns)
    returns (found: Option<string>)
    requires objektKeys == KeysIn(objekts, columns.objekt) && Knows(sets, objekts, OfObjekt(unfalls, columns))
    ensures found == PersonSet(f, unfalls, objekts, columns)
  {
    var parents := NonEmptySet(f.Values(columns.objekt));
    var best := BestOverlap(parents, objektKeys);
    ghost var k := Best(parents, objektKeys);
    assert k.Some? ==> objekts[k.value] in objekts;
    if best.None? || best.value !in sets {
      return None;
    }
    return Some(sets[best.value]);
  }

  method PlacePersons(placed: map<string, string>, unfalls: seq<ParsedFile>, objekts: seq<ParsedFile>, persons: seq<ParsedFile>, columns: Columns)
    returns (sets: map<string, string>, findings: seq<Finding>)
    requires Knows(placed, objekts, OfObjekt(unfalls, columns)) && ApartFrom(objekts, persons)
    ensures sets == Assigned(placed, persons, OfPerson(unfalls, objekts, columns))
    ensures findings == Unresolved(persons, OfPerson(unfalls, objekts, columns))
  {
    sets, findings := placed, [];
    ghost var setOf := OfPerson(unfalls, objekts, columns);
    var objektKeys := KeysIn(objekts, columns.objekt);
    for n := 0 to |persons|
      invariant sets == Assigned(placed, persons[..n], setOf)
      invariant findings == Unresolved(persons[..n], setOf)
      invariant Knows(sets, objekts, OfObjekt(unfalls, columns))
    {
      AssignedNext(placed, persons, setOf, n);
      var f := persons[n];
      var found := FindPersonSet(f, objektKeys, sets, unfalls, objekts, columns);
      if found.None? {
        findings := findings + [SetUnresolved(f.fileId, f.filename, f.kind)];
      } else {
        KnowsKept(sets, objekts, OfObjekt(unfalls, columns), persons, n, found.value);
        sets := sets[f.fileId := found.value];
      }
    }
    assert persons[..|persons|] == persons;
  }

  function ColumnsOf(files: seq<ParsedFile>): Columns { Columns(KeyColumn(files, Unfall), KeyColumn(files, Objekt)) }

  /** The set keys of all structured files. */
  ghost function SetKeys(unfalls: seq<ParsedFile>, objekts: seq<ParsedFile>, persons: seq<ParsedFile>, columns: Columns): map<string, string> {
    Assigned(Assigned(Assigned(map[], unfalls, OfUnfall()), objekts, OfObjekt(unfalls, columns)),
             persons, OfPerson(unfalls, objekts, columns))
  }

  ghost function SetFindings(unfalls: seq<ParsedFile>, objekts: seq<ParsedFile>, persons: seq<ParsedFile>, columns: Columns): seq<Finding> {
    Unresolved(objekts, OfObjekt(unfalls, columns)) + Unresolved(persons, OfPerson(unfalls, objekts, columns))
  }

  ghost predicate Separate(unfalls: seq<ParsedFile>, objekts: seq<ParsedFile>, persons: seq<ParsedFile>) {
    && DistinctFiles(unfalls) && DistinctFiles(objekts) && DistinctFiles(persons)
    && ApartFrom(unfalls, objekts) && ApartFrom(unfalls, persons) && ApartFrom(objekts, persons)
  }

  method ResolveSets(unfalls: seq<ParsedFile>, objekts: seq<ParsedFile>, persons: seq<ParsedFile>, columns: Columns)
    returns (sets: map<string, string>, findings: seq<Finding>)
    requires Separate(unfalls, objekts, persons)
    ensures sets == SetKeys(unfalls, objekts, persons, columns)
    ensures findings == SetFindings(unfalls, objekts, persons, columns)
  {
    sets := NameUnfalls(unfalls);
    AssignedIsKnown(map[], unfalls, OfUnfall());
    PlacedAreKnown(unfalls, objekts, columns);
    var more;
    sets, findings := PlaceObjekts(sets, unfalls, objekts, columns);
    sets, more := PlacePersons(sets, unfalls, objekts, persons, columns);
    findings := findings + more;
  }

  lemma {:induction false} PlacedAreKnown(unfalls: seq<ParsedFile>, objekts: seq<ParsedFile>, columns: Columns)
    requires DistinctFiles(unfalls) && DistinctFiles(objekts) && ApartFrom(unfalls, objekts)
    ensures Knows(Assigned(Assigned(map[], unfalls, OfUnfall()), objekts, OfObjekt(unfalls, columns)), objekts, OfObjekt(unfalls, columns))
  {
    forall o | o in objekts ensures o.fileId !in Assigned(map[], unfalls, OfUnfall()) {
      AssignedElsewhere(map[], unfalls, OfUnfall(), o.fileId);
    }
    AssignedIsKnown(Assigned(map[], unfalls, OfUnfall()), objekts, OfObjekt(unfalls, columns));
  }

  /** The dictionary says of every structured file exactly what its keys say, and of no other file anything. */
  lemma {:induction false} SetKeysAreKnown(unfalls: seq<ParsedFile>, objekts: seq<ParsedFile>, persons: seq<ParsedFile>, columns: Columns)
    requires Separate(unfalls, objekts, persons)
    ensures var sets := SetKeys(unfalls, objekts, persons, columns);
            && Knows(sets, unfalls, OfUnfall())
            && Knows(sets, objekts, OfObjekt(unfalls, columns))
            && Knows(sets, persons, OfPerson(unfalls, objekts, columns))
    ensures forall id | (forall f | f in unfalls + objekts + persons :: f.fileId != id) :: id !in SetKeys(unfalls, objekts, persons, columns)
  {
    var named := Assigned(map[], unfalls, OfUnfall());
    var placed := Assigned(named, objekts, OfObjekt(unfalls, columns));
    AssignedIsKnown(map[], unfalls, OfUnfall());
    StillKnown(named, unfalls, OfUnfall(), objekts, OfObjekt(unfalls, columns));
    StillKnown(placed, unfalls, OfUnfall(), persons, OfPerson(unfalls, objekts, columns));
    PlacedAreKnown(unfalls, objekts, columns);
    StillKnown(placed, objekts, OfObjekt(unfalls, columns), persons, OfPerson(unfalls, objekts, columns));
    forall p | p in persons ensures p.fileId !in placed {
      Nowhere(unfalls, objekts, columns, p.fileId);
    }
    AssignedIsKnown(placed, persons, OfPerson(unfalls, objekts, columns));
    forall id | (forall f | f in unfalls + objekts + persons :: f.fileId != id) ensures id !in SetKeys(unfalls, objekts, persons, columns) {
      assert forall f | f in unfalls || f in objekts || f in persons :: f in unfalls + objekts + persons;
      Nowhere(unfalls, objekts, columns, id);
      AssignedElsewhere(placed, persons, OfPerson(unfalls, objekts, columns), id);
    }
  }

  lemma {:induction false} Nowhere(unfalls: seq<ParsedFile>, objekts: seq<ParsedFile>, columns: Columns, id: string)
    requires (forall f | f in unfalls :: f.fileId != id) && forall f | f in objekts :: f.fileId != id
    ensures id !in Assigned(Assigned(map[], unfalls, OfUnfall()), objekts, OfObjekt(unfalls, columns))
  {
    AssignedElsewhere(map[], unfalls, OfUnfall(), id);
    AssignedElsewhere(Assigned(map[], unfalls, OfUnfall()), objekts, OfObjekt(unfalls, columns), id);
  }

  /** The two files share a key that is not empty. */
  ghost predicate Linked(child: ParsedFile, parent: ParsedFile, column: string) {
    exists v :: v in child.Values(column) && v in parent.Values(column) && v != ""
  }

  lemma {:induction false} LinkedWhenShared(child: ParsedFile, parents: seq<ParsedFile>, column: string, k: nat)
    requires k < |parents|
    ensures (exists v :: v in KeysIn(parents, column)[k].keys && v in NonEmptySet(child.Values(column))) <==> Linked(child, parents[k], column)
  {
    if v :| v in KeysIn(parents, column)[k].keys && v in NonEmptySet(child.Values(column)) {
      assert v in child.Values(column) && v in parents[k].Values(column) && v != "";
    }
    if Linked(child, parents[k], column) {
      var v :| v in child.Values(column) && v in parents[k].Values(column) && v != "";
      assert v in KeysIn(parents, column)[k].keys && v in NonEmptySet(child.Values(column));
    }
  }

  lemma {:induction false} BestIsLinked(child: ParsedFile, parents: seq<ParsedFile>, column: string)
    ensures var k := Best(NonEmptySet(child.Values(column)), KeysIn(parents, column));
            && (k.Some? <==> exists p :: p in parents && Linked(child, p, column))
            && (k.Some? ==> Linked(child, parents[k.value], column))
  {
    var needles, haystacks := NonEmptySet(child.Values(column)), KeysIn(parents, column);
    BestMeans(needles, haystacks);
    var k := Best(needles, haystacks);
    if k.Some? {
      LinkedWhenShared(child, parents, column, k.value);
      assert parents[k.value] in parents;
    }
    if p :| p in parents && Linked(child, p, column) {
      var i :| 0 <= i < |parents| && parents[i] == p;
      LinkedWhenShared(child, parents, column, i);
      assert haystacks[i] in haystacks;
    }
  }

  /** An `objekt` file has a set exactly when it shares a key with some `unfall` file, and the set
      is the one of an `unfall` file it shares a key with. */
  lemma {:induction false} ObjektSetIsFromUnfall(f: ParsedFile, unfalls: seq<ParsedFile>, columns: Columns)
    ensures ObjektSet(f, unfalls, columns).Some? <==> exists u :: u in unfalls && Linked(f, u, columns.unfall)
    ensures ObjektSet(f, unfalls, columns).Some? ==>
              exists u :: u in unfalls && Linked(f, u, columns.unfall) && ObjektSet(f, unfalls, columns).value == UnfallSet(u)
  {
    BestIsLinked(f, unfalls, columns.unfall);
    var k := Best(NonEmptySet(f.Values(columns.unfall)), KeysIn(unfalls, columns.unfall));
    if k.Some? { assert unfalls[k.value] in unfalls; }
  }

  /** A `person` file's set comes through an `objekt` file it shares a key with. */
  lemma {:induction false} PersonSetIsFromUnfall(f: ParsedFile, unfalls: seq<ParsedFile>, objekts: seq<ParsedFile>, columns: Columns)
    requires PersonSet(f, unfalls, objekts, columns).Some?
    ensures exists o, u :: o in objekts && u in unfalls && Linked(f, o, columns.objekt) && Linked(o, u, columns.unfall)
                           && PersonSet(f, unfalls, objekts, columns).value == UnfallSet(u)
  {
    BestIsLinked(f, objekts, columns.objekt);
    var k := Best(NonEmptySet(f.Values(columns.objekt)), KeysIn(objekts, columns.objekt));
    var o := objekts[k.value];
    assert o in objekts;
    ObjektSetIsFromUnfall(o, unfalls, columns);
    var u :| u in unfalls && Linked(o, u, columns.unfall) && ObjektSet(o, unfalls, columns).value == UnfallSet(u);
  }

  /** Position `k` holds the most, more than nothing and more than every earlier one. */
  ghost predicate FirstMost(sizes: seq<nat>, k: nat) {
    && k < |sizes| && sizes[k] > 0
    && (forall i | 0 <= i < |sizes| :: sizes[i] <= sizes[k])
    && (forall i | 0 <= i < k :: sizes[i] < sizes[k])
  }

  function SharedSizes(needles: set<string>, haystacks: seq<FileKeys>): seq<nat> {
    seq(|haystacks|, i requires 0 <= i < |haystacks| => Shared(needles, haystacks[i]))
  }

  lemma {:induction false} BestIsFirstMost(needles: set<string>, haystacks: seq<FileKeys>, k: nat)
    ensures FirstMost(SharedSizes(needles, haystacks), k) <==> Best(needles, haystacks) == Some(k)
  {
    var best, sizes := Best(needles, haystacks), SharedSizes(needles, haystacks);
    BestIsMost(needles, haystacks, |haystacks|);
    forall i: nat | i < |sizes| ensures sizes[i] <= if best.Some? then sizes[best.value] else 0 {
      assert sizes[i] == Shared(needles, haystacks[i]);
    }
    if best.Some? {
      assert FirstMost(sizes, best.value);
    }
  }

  /** How many different non-empty keys the two files share. */
  function CommonKeys(child: ParsedFile, parent: ParsedFile, column: string): nat {
    |set v | v in child.Values(column) && v in parent.Values(column) && v != ""|
  }

  function AllCommonKeys(child: ParsedFile, parents: seq<ParsedFile>, column: string): seq<nat> {
    seq(|parents|, i requires 0 <= i < |parents| => CommonKeys(child, parents[i], column))
  }

  lemma {:induction false} SharedAreCommon(child: ParsedFile, parents: seq<ParsedFile>, column: string, k: nat)
    requires k < |parents|
    ensures Shared(NonEmptySet(child.Values(column)), KeysIn(parents, column)[k]) == CommonKeys(child, parents[k], column)
  {
    assert NonEmptySet(child.Values(column)) * KeysIn(parents, column)[k].keys
        == set v | v in child.Values(column) && v in parents[k].Values(column) && v != "";
  }

  /** Parent `k` is the one the child belongs to: it shares the most non-empty keys, as the first that does. */
  ghost predicate MostLinked(child: ParsedFile, parents: seq<ParsedFile>, column: string, k: nat) {
    FirstMost(AllCommonKeys(child, parents, column), k)
  }

  lemma {:induction false} BestIsMostLinked(child: ParsedFile, parents: seq<ParsedFile>, column: string, k: nat)
    ensures MostLinked(child, parents, column, k) <==> Best(NonEmptySet(child.Values(column)), KeysIn(parents, column)) == Some(k)
  {
    var needles, haystacks := NonEmptySet(child.Values(column)), KeysIn(parents, column);
    BestIsFirstMost(needles, haystacks, k);
    assert |AllCommonKeys(child, parents, column)| == |SharedSizes(needles, haystacks)|;
    forall i: nat | i < |parents| ensures AllCommonKeys(child, parents, column)[i] == SharedSizes(needles, haystacks)[i] {
      SharedAreCommon(child, parents, column, i);
    }
    assert AllCommonKeys(child, parents, column) == SharedSizes(needles, haystacks);
  }

  /** An `objekt` file belongs to the set of the accident file it shares the most keys with. */
  lemma {:induction false} ObjektSetIsThatOfMostLinked(f: ParsedFile, unfalls: seq<ParsedFile>, columns: Columns, name: string)
    ensures ObjektSet(f, unfalls, columns) == Some(name)
       <==> exists k: nat :: MostLinked(f, unfalls, columns.unfall, k) && UnfallSet(unfalls[k]) == name
  {
    var best := Best(NonEmptySet(f.Values(columns.unfall)), KeysIn(unfalls, columns.unfall));
    forall k: nat ensures MostLinked(f, unfalls, columns.unfall, k) <==> best == Some(k) {
      BestIsMostLinked(f, unfalls, columns.unfall, k);
    }
    if best.Some? {
      assert MostLinked(f, unfalls, columns.unfall, best.value);
    }
  }

  /** A `person` file belongs to the set of the object file it shares the most keys with, and has no
      set when that file has none. */
  lemma {:induction false} PersonSetIsThatOfMostLinked(f: ParsedFile, unfalls: seq<ParsedFile>, objekts: seq<ParsedFile>, columns: Columns, name: string)
    ensures PersonSet(f, unfalls, objekts, columns) == Some(name)
       <==> exists k: nat :: MostLinked(f, objekts, columns.objekt, k) && ObjektSet(objekts[k], unfalls, columns) == Some(name)
  {
    var best := Best(NonEmptySet(f.Values(columns.objekt)), KeysIn(objekts, columns.objekt));
    forall k: nat ensures MostLinked(f, objekts, columns.objekt, k) <==> best == Some(k) {
      BestIsMostLinked(f, objekts, columns.objekt, k);
    }
    if best.Some? {
      assert MostLinked(f, objekts, columns.objekt, best.value);
    }
  }

  // ---- the kinds of one delivery are separate ----

  lemma {:induction false} KindIsDistinct(files: seq<ParsedFile>, kind: FileKind)
    requires DistinctFiles(files)
    ensures DistinctFiles(OfKind(files, kind))
  {
    if files != [] {
      KindIsDistinct(files[1..], kind);
      forall f | f in OfKind(files[1..], kind) ensures f.fileId != files[0].fileId {
        OfKindAre(files[1..], kind, f);
      }
    }
  }

  lemma {:induction false} KindsAreApart(files: seq<ParsedFile>, a: FileKind, b: FileKind)
    requires DistinctFiles(files) && a != b
    ensures ApartFrom(OfKind(files, a), OfKind(files, b))
  {
    forall f, g | f in OfKind(files, a) && g in OfKind(files, b) ensures f.fileId != g.fileId {
      OfKindAre(files, a, f);
      OfKindAre(files, b, g);
    }
  }

  lemma {:induction false} StructuredAreSeparate(files: seq<ParsedFile>)
    requires DistinctFiles(files)
    ensures Separate(OfKind(files, Unfall), OfKind(files, Objekt), OfKind(files, Person))
  {
    KindIsDistinct(files, Unfall);
    KindIsDistinct(files, Objekt);
    KindIsDistinct(files, Person);
    KindsAreApart(files, Unfall, Objekt);
    KindsAreApart(files, Unfall, Person);
    KindsAreApart(files, Objekt, Person);
  }
}
