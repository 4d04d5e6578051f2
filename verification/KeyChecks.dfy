/** Keys that are not unique over a whole delivery. */
module KeyChecks {
  import opened Sorting
  import opened Text
  import opened DeliveryTypes

  // ---- duplicate keys ----

  /** A key with the file it was met in. */
  datatype Met = Met(value: string, filename: string)

  function MetHere(values: seq<string>, filename: string): seq<Met> {
    seq(|values|, i requires 0 <= i < |values| => Met(values[i], filename))
  }

  function MetIn(f: ParsedFile, column: string): seq<Met> { MetHere(f.Values(column), f.filename) }

  function AllMet(files: seq<ParsedFile>, column: string): seq<Met> {
    if files == [] then [] else AllMet(files[..|files| - 1], column) + MetIn(files[|files| - 1], column)
  }

  lemma {:induction false} AllMetValues(files: seq<ParsedFile>, column: string)
    ensures |AllMet(files, column)| == |AllValues(files, column)|
    ensures forall i | 0 <= i < |AllMet(files, column)| :: AllMet(files, column)[i].value == AllValues(files, column)[i]
  {
    if files != [] { AllMetValues(files[..|files| - 1], column); }
  }

  /** The non-empty values in the order they are first met. */
  function Order(met: seq<Met>): seq<string> {
    if met == [] then []
    else
      var before, v := Order(met[..|met| - 1]), met[|met| - 1].value;
      if v == "" || v in before then before else before + [v]
  }

  /** The files a value is met in, once for each time. */
  function Filenames(met: seq<Met>, value: string): seq<string> {
    if met == [] then []
    else
      var before := Filenames(met[..|met| - 1], value);
      if met[|met| - 1].value == value then before + [met[|met| - 1].filename] else before
  }

  function Distinct(names: seq<string>): (some: seq<string>)
    ensures forall n :: n in some <==> n in names
    ensures forall i, j | 0 <= i < j < |some| :: some[i] != some[j]
  {
    if names == [] then []
    else
      var before, n := Distinct(names[..|names| - 1]), names[|names| - 1];
      assert names == names[..|names| - 1] + [n];
      if n in before then before else before + [n]
  }

  function DupFindings(met: seq<Met>, keys: seq<string>, column: string): seq<Finding> {
    if keys == [] then []
    else
      var before, key := DupFindings(met, keys[..|keys| - 1], column), keys[|keys| - 1];
      var names := Filenames(met, key);
      if |names| > 1 then before + [DupKeyCrossSet(key, column, Sort(Leq, Distinct(names)), |names|)] else before
  }

  function See(seen: map<string, seq<string>>, m: Met): map<string, seq<string>> {
    if m.value == "" then seen
    else if m.value in seen then seen[m.value := seen[m.value] + [m.filename]]
    else seen[m.value := [m.filename]]
  }

  ghost function SeenIn(met: seq<Met>): map<string, seq<string>> {
    if met == [] then map[] else See(SeenIn(met[..|met| - 1]), met[|met| - 1])
  }

  lemma {:induction false} SeenKeys(met: seq<Met>, v: string)
    ensures v in SeenIn(met) <==> v in Order(met)
    ensures v in SeenIn(met) ==> v != ""
    ensures v in SeenIn(met) ==> SeenIn(met)[v] == Filenames(met, v)
    ensures v !in SeenIn(met) && v != "" ==> Filenames(met, v) == []
  {
    if met != [] { SeenKeys(met[..|met| - 1], v); }
  }

  lemma {:induction false} SeeNext(met: seq<Met>, m: Met)
    ensures SeenIn(met + [m]) == See(SeenIn(met), m)
    ensures Order(met + [m]) == if m.value == "" || m.value in SeenIn(met) then Order(met) else Order(met) + [m.value]
  {
    assert (met + [m])[..|met|] == met;
    SeenKeys(met, m.value);
  }

  lemma {:induction false} OneMore(before: seq<Met>, all: seq<Met>, i: nat)
    requires i < |all|
    ensures before + all[..i + 1] == (before + all[..i]) + [all[i]]
  {}

  /** One file's keys, appended under each value. */
  method SeeFile(f: ParsedFile, column: string, seen: map<string, seq<string>>, order: seq<string>, ghost met: seq<Met>)
    returns (after: map<string, seq<string>>, keys: seq<string>)
    requires seen == SeenIn(met) && order == Order(met)
    ensures after == SeenIn(met + MetIn(f, column)) && keys == Order(met + MetIn(f, column))
  {
    after, keys := seen, order;
    var values := f.Values(column);
    ghost var all := MetIn(f, column);
    assert met + all[..0] == met;
    for i := 0 to |values|
      invariant after == SeenIn(met + all[..i]) && keys == Order(met + all[..i])
    {
      SeeNext(met + all[..i], all[i]);
      OneMore(met, all, i);
      var value := values[i];
      assert all[i] == Met(value, f.filename);
      if value != "" {
        if value in after {
          after := after[value := after[value] + [f.filename]];
        } else {
          after, keys := after[value := [f.filename]], keys + [value];
        }
      }
    }
    assert all[..|values|] == all;
  }

  method DuplicateKeys(files: seq<ParsedFile>, kind: FileKind) returns (findings: seq<Finding>)
    ensures findings == Duplicates(files, kind)
  {
    findings := DuplicatesAmong(OfKind(files, kind), KeyColumn(files, kind));
  }

  method DuplicatesAmong(chosen: seq<ParsedFile>, column: string) returns (findings: seq<Finding>)
    ensures findings == DupFindings(AllMet(chosen, column), Order(AllMet(chosen, column)), column)
  {
    var seen: map<string, seq<string>>, order: seq<string> := map[], [];
    for n := 0 to |chosen|
      invariant seen == SeenIn(AllMet(chosen[..n], column)) && order == Order(AllMet(chosen[..n], column))
    {
      seen, order := SeeFile(chosen[n], column, seen, order, AllMet(chosen[..n], column));
      assert chosen[..n + 1][..n] == chosen[..n];
    }
    assert chosen[..|chosen|] == chosen;
    findings := ReportDuplicates(seen, order, column, AllMet(chosen, column));
  }

  ghost function Duplicates(files: seq<ParsedFile>, kind: FileKind): seq<Finding> {
    var met := AllMet(OfKind(files, kind), KeyColumn(files, kind));
    DupFindings(met, Order(met), KeyColumn(files, kind))
  }

  method ReportDuplicates(seen: map<string, seq<string>>, order: seq<string>, column: string, ghost met: seq<Met>)
    returns (findings: seq<Finding>)
    requires seen == SeenIn(met) && order == Order(met)
    ensures findings == DupFindings(met, order, column)
  {
    findings := [];
    for k := 0 to |order|
      invariant findings == DupFindings(met, order[..k], column)
    {
      assert order[..k + 1][..k] == order[..k];
      SeenKeys(met, order[k]);
      var names := seen[order[k]];
      if |names| > 1 {
        findings := findings + [DupKeyCrossSet(order[k], column, Sort(Leq, Distinct(names)), |names|)];
      }
    }
    assert order[..|order|] == order;
  }

  // ---- what the duplicate findings say ----

  function Occurrences(values: seq<string>, v: string): nat {
    if values == [] then 0 else Occurrences(values[..|values| - 1], v) + if values[|values| - 1] == v then 1 else 0
  }

  lemma {:induction false} FilenamesCount(met: seq<Met>, values: seq<string>, v: string)
    requires |met| == |values| && forall i | 0 <= i < |met| :: met[i].value == values[i]
    ensures |Filenames(met, v)| == Occurrences(values, v)
    ensures forall name :: name in Filenames(met, v) <==> Met(v, name) in met
  {
    if met != [] {
      var n := |met| - 1;
      FilenamesCount(met[..n], values[..n], v);
      assert met == met[..n] + [met[n]];
    }
  }

  lemma {:induction false} TwiceIff(values: seq<string>, v: string)
    ensures Occurrences(values, v) > 0 <==> v in values
    ensures Occurrences(values, v) > 1 <==> exists i, j :: 0 <= i < j < |values| && values[i] == v && values[j] == v
  {
    if values != [] {
      var n := |values| - 1;
      TwiceIff(values[..n], v);
      if i, j :| 0 <= i < j < |values| && values[i] == v && values[j] == v {
        assert values[..n][i] == v;
        if j < n { assert values[..n][j] == v; }
      }
      if values[n] == v && v in values[..n] {
        var i :| 0 <= i < n && values[..n][i] == v;
        assert values[i] == v && values[n] == v;
      }
      if i, j :| 0 <= i < j < |values[..n]| && values[..n][i] == v && values[..n][j] == v {
        assert values[i] == v && values[j] == v;
      }
    }
  }

  lemma {:induction false} DupFindingsOf(met: seq<Met>, keys: seq<string>, column: string)
    ensures forall f | f in DupFindings(met, keys, column) ::
              f.DupKeyCrossSet? && f.key in keys && f.occurrences == |Filenames(met, f.key)| > 1
    ensures forall k | k in keys && |Filenames(met, k)| > 1 :: exists f :: f in DupFindings(met, keys, column) && f.key == k
  {
    if keys != [] {
      var n := |keys| - 1;
      DupFindingsOf(met, keys[..n], column);
      assert keys == keys[..n] + [keys[n]];
      forall k | k in keys && |Filenames(met, k)| > 1 ensures exists f :: f in DupFindings(met, keys, column) && f.key == k {
        if k in keys[..n] {
          var f :| f in DupFindings(met, keys[..n], column) && f.key == k;
          assert f in DupFindings(met, keys, column);
        } else {
          var f := DupKeyCrossSet(k, column, Sort(Leq, Distinct(Filenames(met, k))), |Filenames(met, k)|);
          assert f in DupFindings(met, keys, column);
        }
      }
    }
  }

  /** There is no duplicate finding exactly when every non-empty key occurs once in the whole delivery. */
  lemma {:induction false} NoDuplicatesIff(files: seq<ParsedFile>, kind: FileKind)
    ensures Duplicates(files, kind) == [] <==> Unique(KeysOf(files, kind))
  {
    var chosen, column := OfKind(files, kind), KeyColumn(files, kind);
    var met, values := AllMet(chosen, column), AllValues(chosen, column);
    AllMetValues(chosen, column);
    NoFindingIff(met, values, column);
  }

  lemma {:induction false} NoFindingIff(met: seq<Met>, values: seq<string>, column: string)
    requires |met| == |values| && forall i | 0 <= i < |met| :: met[i].value == values[i]
    ensures DupFindings(met, Order(met), column) == [] <==> Unique(values)
  {
    var findings := DupFindings(met, Order(met), column);
    DupFindingsOf(met, Order(met), column);
    if findings == [] {
      forall i, j | 0 <= i < j < |values| && values[i] == values[j] ensures values[i] == "" {
        NotTwice(met, values, column, i, j);
      }
    } else {
      var key := findings[0].key;
      FilenamesCount(met, values, key);
      TwiceIff(values, key);
      OrderIsMet(met, key);
    }
  }

  lemma {:induction false} NotTwice(met: seq<Met>, values: seq<string>, column: string, i: nat, j: nat)
    requires |met| == |values| && forall i | 0 <= i < |met| :: met[i].value == values[i]
    requires DupFindings(met, Order(met), column) == [] && i < j < |values| && values[i] == values[j]
    ensures values[i] == ""
  {
    if values[i] != "" {
      TwiceIff(values, values[i]);
      FilenamesCount(met, values, values[i]);
      OrderHolds(met, i);
      DupFindingsOf(met, Order(met), column);
    }
  }

  lemma {:induction false} OrderHolds(met: seq<Met>, i: nat)
    requires i < |met| && met[i].value != ""
    ensures met[i].value in Order(met)
  {
    if i < |met| - 1 { OrderHolds(met[..|met| - 1], i); }
  }

  lemma {:induction false} OrderIsMet(met: seq<Met>, v: string)
    requires v in Order(met)
    ensures v != ""
  {
    if v in Order(met[..|met| - 1]) { OrderIsMet(met[..|met| - 1], v); }
  }

  /** A duplicate finding names every file the key is in, sorted and once each, and counts all rows with it. */
  lemma {:induction false} DuplicateNamesItsFiles(files: seq<ParsedFile>, kind: FileKind, f: Finding)
    requires f in Duplicates(files, kind)
    ensures f.DupKeyCrossSet? && f.key != "" && f.occurrences == Occurrences(KeysOf(files, kind), f.key) > 1
    ensures forall name :: name in f.filenames <==> exists p :: p in files && p.kind == kind && p.filename == name
                                                               && f.key in p.Values(KeyColumn(files, kind))
    ensures SortedBy(Leq, f.filenames)
  {
    var chosen, column := OfKind(files, kind), KeyColumn(files, kind);
    var met, values := AllMet(chosen, column), AllValues(chosen, column);
    AllMetValues(chosen, column);
    DupFindingsAre(met, Order(met), column, f);
    FilenamesCount(met, values, f.key);
    OrderIsMet(met, f.key);
    LeqIsTotal();
    SortSorts(Leq, Distinct(Filenames(met, f.key)));
    SameElements(f.filenames, Distinct(Filenames(met, f.key)));
    forall name ensures name in f.filenames <==> exists p :: p in files && p.kind == kind && p.filename == name
                                                            && f.key in p.Values(column) {
      MetComesFrom(chosen, column, Met(f.key, name));
      forall p ensures p in chosen <==> p in files && p.kind == kind { OfKindAre(files, kind, p); }
    }
  }

  lemma {:induction false} LeqIsTotal()
    ensures TotalPreorder(Leq)
  {
    forall a: string, b: string ensures Leq(a, b) || Leq(b, a) { LeqTotal(a, b); }
    forall a: string, b: string, c: string ensures Leq(a, b) && Leq(b, c) ==> Leq(a, c) {
      if Leq(a, b) && Leq(b, c) { LeqTransitive(a, b, c); }
    }
  }

  lemma {:induction false} DupFindingsAre(met: seq<Met>, keys: seq<string>, column: string, f: Finding)
    requires f in DupFindings(met, keys, column)
    ensures f.DupKeyCrossSet? && f.key in keys && f.occurrences == |Filenames(met, f.key)| > 1
    ensures f.filenames == Sort(Leq, Distinct(Filenames(met, f.key)))
  {
    if f in DupFindings(met, keys[..|keys| - 1], column) { DupFindingsAre(met, keys[..|keys| - 1], column, f); }
  }

  lemma {:induction false} MetHereIff(values: seq<string>, filename: string, m: Met)
    ensures m in MetHere(values, filename) <==> filename == m.filename && m.value in values
  {
    if filename == m.filename && m.value in values {
      var i :| 0 <= i < |values| && values[i] == m.value;
      assert MetHere(values, filename)[i] == m;
    }
  }

  ghost predicate Offers(files: seq<ParsedFile>, column: string, m: Met) {
    exists p :: p in files && p.filename == m.filename && m.value in p.Values(column)
  }

  lemma {:induction false} OffersNext(files: seq<ParsedFile>, last: ParsedFile, column: string, m: Met)
    ensures Offers(files + [last], column, m)
       <==> Offers(files, column, m) || (last.filename == m.filename && m.value in last.Values(column))
  {}

  lemma {:induction false} MetComesFrom(files: seq<ParsedFile>, column: string, m: Met)
    ensures m in AllMet(files, column) <==> Offers(files, column, m)
  {
    if files != [] {
      var n := |files| - 1;
      MetComesFrom(files[..n], column, m);
      MetHereIff(files[n].Values(column), files[n].filename, m);
      assert files == files[..n] + [files[n]];
      OffersNext(files[..n], files[n], column, m);
    }
  }
}
