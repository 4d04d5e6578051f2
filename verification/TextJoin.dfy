/** Text rows with no accident, and accidents with no text. */
module TextJoin {
  import opened DeliveryTypes

  function Missed(f: ParsedFile, value: string, column: string, text: bool): Finding {
    if text then TextKeyUnmatched(f.fileId, value, column) else UnfallWithoutText(f.fileId, value, column)
  }

  function MissedIn(f: ParsedFile, values: seq<string>, known: set<string>, column: string, text: bool): seq<Finding> {
    if values == [] then []
    else
      var before, v := MissedIn(f, values[..|values| - 1], known, column, text), values[|values| - 1];
      if v == "" || v in known then before else before + [Missed(f, v, column, text)]
  }

  function MissedOf(files: seq<ParsedFile>, known: set<string>, column: string, text: bool): seq<Finding> {
    if files == [] then []
    else
      var f := files[|files| - 1];
      MissedOf(files[..|files| - 1], known, column, text) + MissedIn(f, f.Values(column), known, column, text)
  }

  function NonEmptyKeys(files: seq<ParsedFile>, column: string): set<string> {
    set v | v in AllValues(files, column) && v != ""
  }

  /** Nothing is compared unless the delivery has both texts and accidents. */
  function TextFindings(texts: seq<ParsedFile>, unfalls: seq<ParsedFile>, textColumn: string, unfallColumn: string): seq<Finding> {
    if texts == [] || unfalls == [] then []
    else MissedOf(texts, NonEmptyKeys(unfalls, unfallColumn), textColumn, true)
         + MissedOf(unfalls, NonEmptyKeys(texts, textColumn), unfallColumn, false)
  }

  function NonEmptyIn(values: seq<string>): set<string> { set v | v in values && v != "" }

  /** One text file: its keys, and a finding for each that no accident has. */
  method MatchText(f: ParsedFile, unfallKeys: set<string>, column: string) returns (findings: seq<Finding>, textKeys: set<string>)
    ensures findings == MissedIn(f, f.Values(column), unfallKeys, column, true)
    ensures textKeys == NonEmptyIn(f.Values(column))
  {
    findings, textKeys := [], {};
    var values := f.Values(column);
    for i := 0 to |values|
      invariant findings == MissedIn(f, values[..i], unfallKeys, column, true)
      invariant textKeys == NonEmptyIn(values[..i])
    {
      assert values[..i + 1] == values[..i] + [values[i]];
      assert values[..i + 1][..i] == values[..i];
      var value := values[i];
      if value != "" {
        textKeys := textKeys + {value};
        if value !in unfallKeys {
          findings := findings + [TextKeyUnmatched(f.fileId, value, column)];
        }
      }
    }
    assert values[..|values|] == values;
  }

  method MatchTexts(texts: seq<ParsedFile>, unfallKeys: set<string>, column: string) returns (findings: seq<Finding>, textKeys: set<string>)
    ensures findings == MissedOf(texts, unfallKeys, column, true)
    ensures textKeys == NonEmptyKeys(texts, column)
  {
    findings, textKeys := [], {};
    for n := 0 to |texts|
      invariant findings == MissedOf(texts[..n], unfallKeys, column, true)
      invariant textKeys == NonEmptyKeys(texts[..n], column)
    {
      assert texts[..n + 1][..n] == texts[..n];
      var here, keys := MatchText(texts[n], unfallKeys, column);
      KeysNext(texts, column, n);
      findings, textKeys := findings + here, textKeys + keys;
    }
    assert texts[..|texts|] == texts;
  }

  lemma {:induction false} KeysNext(files: seq<ParsedFile>, column: string, n: nat)
    requires n < |files|
    ensures NonEmptyKeys(files[..n + 1], column) == NonEmptyKeys(files[..n], column) + NonEmptyIn(files[n].Values(column))
  {
    assert files[..n + 1][..n] == files[..n];
  }

  method MatchUnfalls(unfalls: seq<ParsedFile>, textKeys: set<string>, column: string) returns (findings: seq<Finding>)
    ensures findings == MissedOf(unfalls, textKeys, column, false)
  {
    findings := [];
    for n := 0 to |unfalls|
      invariant findings == MissedOf(unfalls[..n], textKeys, column, false)
    {
      assert unfalls[..n + 1][..n] == unfalls[..n];
      var here := MatchUnfall(unfalls[n], textKeys, column);
      findings := findings + here;
    }
    assert unfalls[..|unfalls|] == unfalls;
  }

  method MatchUnfall(f: ParsedFile, textKeys: set<string>, column: string) returns (findings: seq<Finding>)
    ensures findings == MissedIn(f, f.Values(column), textKeys, column, false)
  {
    findings := [];
    var values := f.Values(column);
    for i := 0 to |values|
      invariant findings == MissedIn(f, values[..i], textKeys, column, false)
    {
      assert values[..i + 1][..i] == values[..i];
      if values[i] != "" && values[i] !in textKeys {
        findings := findings + [UnfallWithoutText(f.fileId, values[i], column)];
      }
    }
    assert values[..|values|] == values;
  }

  method FindTextGaps(texts: seq<ParsedFile>, unfalls: seq<ParsedFile>, textColumn: string, unfallColumn: string) returns (findings: seq<Finding>)
    ensures findings == TextFindings(texts, unfalls, textColumn, unfallColumn)
  {
    if texts == [] || unfalls == [] {
      return [];
    }
    var unmatched, textKeys := MatchTexts(texts, NonEmptyKeys(unfalls, unfallColumn), textColumn);
    var textless := MatchUnfalls(unfalls, textKeys, unfallColumn);
    return unmatched + textless;
  }

  // ---- what the findings say ----

  lemma {:induction false} NoneMissedInIff(f: ParsedFile, values: seq<string>, known: set<string>, column: string, text: bool)
    ensures MissedIn(f, values, known, column, text) == [] <==> forall v | v in values && v != "" :: v in known
  {
    if values != [] {
      NoneMissedInIff(f, values[..|values| - 1], known, column, text);
      assert values == values[..|values| - 1] + [values[|values| - 1]];
    }
  }

  lemma {:induction false} NoneMissedIff(files: seq<ParsedFile>, known: set<string>, column: string, text: bool)
    ensures MissedOf(files, known, column, text) == [] <==> NonEmptyKeys(files, column) <= known
  {
    if files != [] {
      var n := |files| - 1;
      NoneMissedIff(files[..n], known, column, text);
      NoneMissedInIff(files[n], files[n].Values(column), known, column, text);
      assert files[..n + 1] == files;
      KeysNext(files, column, n);
    }
  }

  lemma {:induction false} NeverBlocking(files: seq<ParsedFile>, known: set<string>, column: string, text: bool)
    ensures NoneBlocking(MissedOf(files, known, column, text))
  {
    if files != [] {
      NeverBlocking(files[..|files| - 1], known, column, text);
      var f := files[|files| - 1];
      NeverBlockingIn(f, f.Values(column), known, column, text);
    }
  }

  lemma {:induction false} NeverBlockingIn(f: ParsedFile, values: seq<string>, known: set<string>, column: string, text: bool)
    ensures NoneBlocking(MissedIn(f, values, known, column, text))
  {
    if values != [] { NeverBlockingIn(f, values[..|values| - 1], known, column, text); }
  }

  /** When both are delivered, nothing is reported exactly when texts and accidents have the same keys. */
  lemma {:induction false} NoTextGapsIff(texts: seq<ParsedFile>, unfalls: seq<ParsedFile>, textColumn: string, unfallColumn: string)
    requires texts != [] && unfalls != []
    ensures TextFindings(texts, unfalls, textColumn, unfallColumn) == []
       <==> NonEmptyKeys(texts, textColumn) == NonEmptyKeys(unfalls, unfallColumn)
  {
    NoneMissedIff(texts, NonEmptyKeys(unfalls, unfallColumn), textColumn, true);
    NoneMissedIff(unfalls, NonEmptyKeys(texts, textColumn), unfallColumn, false);
  }
}
