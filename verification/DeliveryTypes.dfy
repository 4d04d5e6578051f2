/** The files of a delivery as cross-file validation sees them, and what it can report. */
module DeliveryTypes {
  import opened Wrappers

  datatype FileKind = Unfall | Objekt | Person | Text | Unknown

  /** The landmark columns of one known column vocabulary. */
  datatype ColumnSet = ColumnSet(keyColumn: string, objCountColumn: Option<string>, persCountColumn: Option<string>)

  type Row = seq<string>

  /** `column` finds a column name in the file's own header; how names are compared is not modelled. */
  datatype ParsedFile = ParsedFile(fileId: string, filename: string, kind: FileKind, canton: Option<string>,
                                   column: string -> Option<nat>, rows: seq<Row>, selected: bool, columnSet: Option<ColumnSet>)
  {
    /** Every value of a column; a row too short for it has no value there. */
    function Values(name: string): seq<string> {
      if column(name).None? then [] else seq(|rows|, i requires 0 <= i < |rows| => CellAt(rows[i], column(name)))
    }
  }

  function CellAt(row: Row, index: Option<nat>): string {
    if index.Some? && index.value < |row| then row[index.value] else ""
  }

  datatype Finding =
    | DupKeyCrossSet(key: string, keyKind: string, filenames: seq<string>, occurrences: nat)
    | OrphanFk(fileId: string, ownKey: Option<string>, childTable: FileKind, parentKey: string, parentValue: string)
    | SetUnresolved(fileId: string, filename: string, fileKind: FileKind)
    | CountMismatchObj(fileId: string, key: string, declared: string, actual: nat, column: string)
    | CountMismatchPers(fileId: string, key: string, declared: string, actual: nat, column: string)
    | TextKeyUnmatched(fileId: string, key: string, column: string)
    | UnfallWithoutText(fileId: string, key: string, column: string)
  {
    predicate Blocking() { DupKeyCrossSet? || OrphanFk? || SetUnresolved? }
  }

  ghost predicate NoneBlocking(findings: seq<Finding>) {
    forall f | f in findings :: !f.Blocking()
  }

  function OfKind(files: seq<ParsedFile>, kind: FileKind): seq<ParsedFile> {
    if files == [] then []
    else (if files[0].kind == kind then [files[0]] else []) + OfKind(files[1..], kind)
  }

  lemma {:induction false} OfKindAre(files: seq<ParsedFile>, kind: FileKind, f: ParsedFile)
    ensures f in OfKind(files, kind) <==> f in files && f.kind == kind
  {
    if files != [] {
      OfKindAre(files[1..], kind, f);
      assert files == [files[0]] + files[1..];
    }
  }

  function FirstColumnSet(files: seq<ParsedFile>): Option<ColumnSet> {
    if files == [] then None
    else if files[0].columnSet.Some? then files[0].columnSet
    else FirstColumnSet(files[1..])
  }

  /** The RADIS names, used when no file of the kind is selected. */
  function RadisKey(kind: FileKind): string {
    match kind
    case Unfall => "UnfallUid"
    case Objekt => "ObjektUid"
    case Person => "PersonUid"
    case Text => "UNFALLUID"
    case Unknown => ""
  }

  /** What this delivery calls the key of a kind. */
  function KeyColumn(files: seq<ParsedFile>, kind: FileKind): string {
    var vocabulary := FirstColumnSet(OfKind(files, kind));
    if vocabulary.Some? then vocabulary.value.keyColumn else RadisKey(kind)
  }

  /** All values of a column over several files, file after file. */
  function AllValues(files: seq<ParsedFile>, column: string): seq<string> {
    if files == [] then [] else AllValues(files[..|files| - 1], column) + files[|files| - 1].Values(column)
  }

  /** The keys of a kind over the whole delivery, one for each row. */
  function KeysOf(files: seq<ParsedFile>, kind: FileKind): seq<string> {
    AllValues(OfKind(files, kind), KeyColumn(files, kind))
  }

  /** No two rows share a key, unless it is empty. */
  ghost predicate Unique(values: seq<string>) {
    forall i, j | 0 <= i < j < |values| && values[i] == values[j] :: values[i] == ""
  }
}
