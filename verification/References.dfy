/** References between files: every one that is not the key of some parent row is reported. */
module References {
  import opened Wrappers
  import opened DeliveryTypes

  /** The foreign key of a child file has the parent's own key name. */
  datatype Link = Link(child: FileKind, parent: FileKind, childColumn: string, parentColumn: string)

  function LinkOf(files: seq<ParsedFile>, child: FileKind, parent: FileKind): Link {
    Link(child, parent, KeyColumn(files, child), KeyColumn(files, parent))
  }

  function NonEmpty(values: seq<string>): set<string> { set v | v in values && v != "" }

  function OrphanIn(f: ParsedFile, row: Row, link: Link, parents: set<string>): Option<Finding> {
    var parentValue, own := CellAt(row, f.column(link.parentColumn)), f.column(link.childColumn);
    if parentValue == "" || parentValue in parents then None
    else
      Some(OrphanFk(f.fileId, if own.Some? && own.value < |row| then Some(row[own.value]) else None,
                    link.child, link.parentColumn, parentValue))
  }

  function OrphansIn(f: ParsedFile, rows: seq<Row>, link: Link, parents: set<string>): seq<Finding> {
    if rows == [] then []
    else
      var last := OrphanIn(f, rows[|rows| - 1], link, parents);
      OrphansIn(f, rows[..|rows| - 1], link, parents) + if last.Some? then [last.value] else []
  }

  /** A child file without the column has no references to check. */
  function OrphansOf(children: seq<ParsedFile>, link: Link, parents: set<string>): seq<Finding> {
    if children == [] then []
    else
      var f := children[|children| - 1];
      OrphansOf(children[..|children| - 1], link, parents) +
      if f.column(link.parentColumn).None? then [] else OrphansIn(f, f.rows, link, parents)
  }

  function Orphans(files: seq<ParsedFile>, child: FileKind, parent: FileKind): seq<Finding> {
    OrphansOf(OfKind(files, child), LinkOf(files, child, parent), NonEmpty(KeysOf(files, parent)))
  }

  method FindOrphans(files: seq<ParsedFile>, child: FileKind, parent: FileKind) returns (findings: seq<Finding>)
    ensures findings == Orphans(files, child, parent)
  {
    findings := OrphansAmong(OfKind(files, child), LinkOf(files, child, parent), NonEmpty(KeysOf(files, parent)));
  }

  method OrphansAmong(children: seq<ParsedFile>, link: Link, parents: set<string>) returns (findings: seq<Finding>)
    ensures findings == OrphansOf(children, link, parents)
  {
    findings := [];
    for n := 0 to |children|
      invariant findings == OrphansOf(children[..n], link, parents)
    {
      var child := children[n];
      assert children[..n + 1][..n] == children[..n];
      ghost var before := findings;
      if child.column(link.parentColumn).Some? {
        for k := 0 to |child.rows|
          invariant findings == before + OrphansIn(child, child.rows[..k], link, parents)
        {
          assert child.rows[..k + 1][..k] == child.rows[..k];
          var orphan := OrphanIn(child, child.rows[k], link, parents);
          if orphan.Some? {
            findings := findings + [orphan.value];
          }
        }
        assert child.rows[..|child.rows|] == child.rows;
      }
    }
    assert children[..|children|] == children;
  }

  // ---- what the findings say ----

  /** Every non-empty reference of these rows is among the parents. */
  ghost predicate AllReach(values: seq<string>, parents: set<string>) {
    forall v | v in values && v != "" :: v in parents
  }

  lemma {:induction false} NoOrphansInIff(f: ParsedFile, n: nat, link: Link, parents: set<string>)
    requires f.column(link.parentColumn).Some? && n <= |f.rows|
    ensures OrphansIn(f, f.rows[..n], link, parents) == [] <==> AllReach(f.Values(link.parentColumn)[..n], parents)
  {
    if n > 0 {
      NoOrphansInIff(f, n - 1, link, parents);
      var values := f.Values(link.parentColumn);
      assert f.rows[..n][..n - 1] == f.rows[..n - 1];
      assert values[..n] == values[..n - 1] + [values[n - 1]];
    }
  }

  lemma {:induction false} NoOrphansOfIff(children: seq<ParsedFile>, link: Link, parents: set<string>)
    ensures OrphansOf(children, link, parents) == []
       <==> forall f | f in children :: AllReach(f.Values(link.parentColumn), parents)
  {
    if children != [] {
      var n := |children| - 1;
      var f := children[n];
      NoOrphansOfIff(children[..n], link, parents);
      assert children == children[..n] + [f];
      if f.column(link.parentColumn).Some? {
        NoOrphansInIff(f, |f.rows|, link, parents);
        assert f.rows[..|f.rows|] == f.rows && f.Values(link.parentColumn)[..|f.rows|] == f.Values(link.parentColumn);
      }
    }
  }

  /** There is no orphan finding exactly when every non-empty reference of every child file is
      the key of some parent row. */
  lemma {:induction false} NoOrphansIff(files: seq<ParsedFile>, child: FileKind, parent: FileKind)
    ensures Orphans(files, child, parent) == []
       <==> forall f, v | f in OfKind(files, child) && v in f.Values(KeyColumn(files, parent)) && v != "" :: v in KeysOf(files, parent)
  {
    NoOrphansOfIff(OfKind(files, child), LinkOf(files, child, parent), NonEmpty(KeysOf(files, parent)));
  }

  /** An orphan finding names a file that holds the reference, and the reference is no parent's key. */
  lemma {:induction false} OrphanIsReal(children: seq<ParsedFile>, link: Link, parents: set<string>, finding: Finding)
    requires finding in OrphansOf(children, link, parents)
    ensures finding.OrphanFk? && finding.parentValue != "" && finding.parentValue !in parents
    ensures exists f :: f in children && f.fileId == finding.fileId && finding.parentValue in f.Values(link.parentColumn)
  {
    var n := |children| - 1;
    var f := children[n];
    if finding in OrphansOf(children[..n], link, parents) {
      OrphanIsReal(children[..n], link, parents, finding);
    } else {
      assert f.rows[..|f.rows|] == f.rows;
      var k := OrphanRow(f, |f.rows|, link, parents, finding);
      assert f.Values(link.parentColumn)[k] == finding.parentValue;
      assert f in children;
    }
  }

  lemma {:induction false} OrphanRow(f: ParsedFile, n: nat, link: Link, parents: set<string>, finding: Finding) returns (k: nat)
    requires n <= |f.rows| && finding in OrphansIn(f, f.rows[..n], link, parents)
    ensures k < n && OrphanIn(f, f.rows[k], link, parents) == Some(finding)
  {
    assert f.rows[..n][..n - 1] == f.rows[..n - 1];
    if finding in OrphansIn(f, f.rows[..n - 1], link, parents) {
      k := OrphanRow(f, n - 1, link, parents, finding);
    } else {
      k := n - 1;
    }
  }
}
