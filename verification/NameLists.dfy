/** Reading a name list, one name per line, and what dropping duplicates costs. */
module NameLists {
  import opened Wrappers
  import opened PythonText
  import opened ScrubTypes
  import opened NameIndexes

  /** Where each line of the file went. */
  datatype Sifted = Sifted(entries: seq<string>, blank: nat, comments: nat,
                           duplicates: seq<string>, tooShort: seq<string>, noLetters: seq<string>)

  datatype NoticeCode = BlankLines | CommentLines | Duplicates | TooShort | NoLetters

  datatype Notice = Notice(code: NoticeCode, count: nat, samples: seq<string>)

  datatype NameListFile = NameListFile(entries: seq<string>, notices: seq<Notice>)

  datatype ImportError = ListEmpty

  function KeyOf(e: Engine, entry: string): string
    requires Ordered(e.tokens(entry), |entry|)
  {
    Normalise(e, entry).key
  }

  ghost function KeysOfAll(e: Engine, entries: seq<string>): set<string>
    requires Sound(e)
  {
    set x | x in entries :: KeyOf(e, x)
  }

  /** One line more: the checks in the order they are made. */
  ghost function Sift(e: Engine, s: Sifted, line: string): Sifted
    requires Sound(e)
  {
    var entry := Trim(line);
    if entry == "" then s.(blank := s.blank + 1)
    else if entry[0] == '#' then s.(comments := s.comments + 1)
    else
      var n := Normalise(e, entry);
      if n.key == "" then s.(noLetters := s.noLetters + [entry])
      else if !n.Usable() then s.(tooShort := s.tooShort + [entry])
      else if n.key in KeysOfAll(e, s.entries) then s.(duplicates := s.duplicates + [entry])
      else s.(entries := s.entries + [entry])
  }

  ghost function SiftAll(e: Engine, lines: seq<string>): Sifted
    requires Sound(e)
  {
    if lines == [] then Sifted([], 0, 0, [], [], [])
    else Sift(e, SiftAll(e, lines[..|lines| - 1]), lines[|lines| - 1])
  }

  function FirstFive(items: seq<string>): seq<string> { if |items| > 5 then items[..5] else items }

  function CountNotice(code: NoticeCode, count: nat): seq<Notice> {
    if count == 0 then [] else [Notice(code, count, [])]
  }

  function ItemsNotice(code: NoticeCode, items: seq<string>): seq<Notice> {
    if items == [] then [] else [Notice(code, |items|, FirstFive(items))]
  }

  function NoticesOf(s: Sifted): seq<Notice> {
    CountNotice(BlankLines, s.blank) + CountNotice(CommentLines, s.comments)
    + ItemsNotice(Duplicates, s.duplicates) + ItemsNotice(TooShort, s.tooShort) + ItemsNotice(NoLetters, s.noLetters)
  }

  lemma {:induction false} KeysNext(e: Engine, entries: seq<string>, entry: string)
    requires Sound(e)
    ensures KeysOfAll(e, entries + [entry]) == KeysOfAll(e, entries) + {KeyOf(e, entry)}
  {}

  method SiftLine(e: Engine, before: Sifted, seen: set<string>, line: string) returns (s: Sifted, keys: set<string>)
    requires Sound(e) && seen == KeysOfAll(e, before.entries)
    ensures s == Sift(e, before, line) && keys == KeysOfAll(e, s.entries)
  {
    s, keys := before, seen;
    var entry := Trim(line);
    if entry == "" {
      s := s.(blank := s.blank + 1);
    } else if entry[0] == '#' {
      s := s.(comments := s.comments + 1);
    } else {
      var normal := Normalise(e, entry);
      if normal.key == "" {
        s := s.(noLetters := s.noLetters + [entry]);
      } else if !normal.Usable() {
        s := s.(tooShort := s.tooShort + [entry]);
      } else if normal.key in keys {
        s := s.(duplicates := s.duplicates + [entry]);
      } else {
        KeysNext(e, s.entries, entry);
        keys := keys + {normal.key};
        s := s.(entries := s.entries + [entry]);
      }
    }
  }

  method SiftLines(e: Engine, lines: seq<string>) returns (s: Sifted)
    requires Sound(e)
    ensures s == SiftAll(e, lines)
  {
    s := Sifted([], 0, 0, [], [], []);
    var seen: set<string> := {};
    for n := 0 to |lines|
      invariant s == SiftAll(e, lines[..n]) && seen == KeysOfAll(e, s.entries)
    {
      assert lines[..n + 1][..n] == lines[..n];
      s, seen := SiftLine(e, s, seen, lines[n]);
    }
    assert lines[..|lines|] == lines;
  }

  /** The sifted file with its notices; a file from which nothing was accepted is an error. */
  method ParseNameList(e: Engine, lines: seq<string>) returns (r: Result<NameListFile, ImportError>)
    requires Sound(e)
    ensures var s := SiftAll(e, lines);
            r == if s.entries == [] then Failure(ListEmpty) else Success(NameListFile(s.entries, NoticesOf(s)))
  {
    var s := SiftLines(e, lines);
    if s.entries == [] {
      return Failure(ListEmpty);
    }
    return Success(NameListFile(s.entries, NoticesOf(s)));
  }

  // ---- every line is accounted for ----

  lemma {:induction false} EveryLineIsCounted(e: Engine, lines: seq<string>)
    requires Sound(e)
    ensures var s := SiftAll(e, lines);
            |s.entries| + s.blank + s.comments + |s.duplicates| + |s.tooShort| + |s.noLetters| == |lines|
  {
    if lines != [] { EveryLineIsCounted(e, lines[..|lines| - 1]); }
  }

  /** What an accepted list is: usable entries, one for each key, and a duplicate is a usable line
      whose key an accepted entry has. */
  ghost predicate WellSifted(e: Engine, s: Sifted)
    requires Sound(e)
  {
    && (forall i | 0 <= i < |s.entries| :: Normalise(e, s.entries[i]).Usable() && KeyOf(e, s.entries[i]) != "")
    && (forall i, j | 0 <= i < j < |s.entries| :: KeyOf(e, s.entries[i]) != KeyOf(e, s.entries[j]))
    && (forall i | 0 <= i < |s.duplicates| :: Normalise(e, s.duplicates[i]).Usable() && KeyOf(e, s.duplicates[i]) in KeysOfAll(e, s.entries))
  }

  lemma {:induction false} AcceptKeeps(e: Engine, s: Sifted, entry: string)
    requires Sound(e) && WellSifted(e, s)
    requires Normalise(e, entry).Usable() && KeyOf(e, entry) != "" && KeyOf(e, entry) !in KeysOfAll(e, s.entries)
    ensures WellSifted(e, s.(entries := s.entries + [entry]))
  {
    KeysNext(e, s.entries, entry);
    forall i | 0 <= i < |s.entries| ensures KeyOf(e, s.entries[i]) in KeysOfAll(e, s.entries) {
      assert s.entries[i] in s.entries;
    }
  }

  lemma {:induction false} DropKeeps(e: Engine, s: Sifted, entry: string)
    requires Sound(e) && WellSifted(e, s)
    requires Normalise(e, entry).Usable() && KeyOf(e, entry) in KeysOfAll(e, s.entries)
    ensures WellSifted(e, s.(duplicates := s.duplicates + [entry]))
  {}

  lemma {:induction false} SiftKeeps(e: Engine, s: Sifted, line: string)
    requires Sound(e) && WellSifted(e, s)
    ensures WellSifted(e, Sift(e, s, line))
  {
    var entry := Trim(line);
    if entry != "" && entry[0] != '#' && Normalise(e, entry).Usable() && KeyOf(e, entry) != "" {
      if KeyOf(e, entry) in KeysOfAll(e, s.entries) {
        DropKeeps(e, s, entry);
      } else {
        AcceptKeeps(e, s, entry);
      }
    }
  }

  lemma {:induction false} SiftedIsWell(e: Engine, lines: seq<string>)
    requires Sound(e)
    ensures WellSifted(e, SiftAll(e, lines))
  {
    if lines != [] {
      SiftedIsWell(e, lines[..|lines| - 1]);
      SiftKeeps(e, SiftAll(e, lines[..|lines| - 1]), lines[|lines| - 1]);
    }
  }

  // ---- which lines are accepted ----

  /** The entry a line stands for; none for a blank line, a comment, or too few letters. */
  function LineEntry(e: Engine, line: string): Option<Entry>
    requires Ordered(e.tokens(Trim(line)), |Trim(line)|)
  {
    var entry := Trim(line);
    if entry == "" || entry[0] == '#' then None
    else
      var n := Normalise(e, entry);
      if n.key == "" || !n.Usable() then None else Some(n)
  }

  ghost function LineEntries(e: Engine, lines: seq<string>): seq<Option<Entry>>
    requires Sound(e)
  {
    seq(|lines|, i requires 0 <= i < |lines| => LineEntry(e, lines[i]))
  }

  predicate HasKey(x: Option<Entry>, key: string) { x.Some? && x.value.key == key }

  predicate HasForm(x: Option<Entry>, form: string) { x.Some? && x.value.HasForm(form) }

  /** Usable, and no usable line above it has its key. */
  ghost predicate FirstWithKey(all: seq<Option<Entry>>, n: nat) {
    n < |all| && all[n].Some? && forall j | 0 <= j < n :: !HasKey(all[j], all[n].value.key)
  }

  ghost function FirstLines(lines: seq<string>, all: seq<Option<Entry>>, n: nat): seq<string>
    requires n <= |lines| == |all|
  {
    if n == 0 then []
    else if FirstWithKey(all, n - 1) then FirstLines(lines, all, n - 1) + [Trim(lines[n - 1])]
    else FirstLines(lines, all, n - 1)
  }

  ghost function RepeatedLines(lines: seq<string>, all: seq<Option<Entry>>, n: nat): seq<string>
    requires n <= |lines| == |all|
  {
    if n == 0 then []
    else if all[n - 1].Some? && !FirstWithKey(all, n - 1) then RepeatedLines(lines, all, n - 1) + [Trim(lines[n - 1])]
    else RepeatedLines(lines, all, n - 1)
  }

  ghost predicate UsedBefore(all: seq<Option<Entry>>, n: nat, key: string)
    requires n <= |all|
  {
    exists j :: 0 <= j < n && HasKey(all[j], key)
  }

  lemma {:induction false} UsedBeforeNext(all: seq<Option<Entry>>, n: nat, key: string)
    requires n < |all|
    ensures UsedBefore(all, n + 1, key) <==> UsedBefore(all, n, key) || HasKey(all[n], key)
    ensures all[n].Some? ==> (FirstWithKey(all, n) <==> !UsedBefore(all, n, all[n].value.key))
  {}

  /** The keys of the accepted lines, with the key of each line given. */
  ghost predicate KeysAgree(keys: set<string>, all: seq<Option<Entry>>, n: nat)
    requires n <= |all|
  {
    forall key :: key in keys <==> UsedBefore(all, n, key)
  }

  lemma {:induction false} KeysAgreeNext(keys: set<string>, all: seq<Option<Entry>>, n: nat)
    requires n < |all| && KeysAgree(keys, all, n)
    ensures KeysAgree(if FirstWithKey(all, n) then keys + {all[n].value.key} else keys, all, n + 1)
  {
    forall key ensures UsedBefore(all, n + 1, key) <==> UsedBefore(all, n, key) || HasKey(all[n], key) {
      UsedBeforeNext(all, n, key);
    }
  }

  lemma {:induction false} SiftNext(e: Engine, s: Sifted, line: string)
    requires Sound(e)
    ensures var x, t := LineEntry(e, line), Sift(e, s, line);
            var taken := x.Some? && x.value.key in KeysOfAll(e, s.entries);
            && t.entries == (if x.Some? && !taken then s.entries + [Trim(line)] else s.entries)
            && t.duplicates == (if taken then s.duplicates + [Trim(line)] else s.duplicates)
            && KeysOfAll(e, t.entries) == if x.Some? && !taken then KeysOfAll(e, s.entries) + {x.value.key} else KeysOfAll(e, s.entries)
  {
    KeysNext(e, s.entries, Trim(line));
  }

  /** The accepted entries are the usable lines that are the first with their key, in the order of
      the file, and the duplicates are the other usable lines. */
  lemma {:induction false} AcceptedAreFirstLines(e: Engine, lines: seq<string>, n: nat)
    requires Sound(e) && n <= |lines|
    ensures SiftAll(e, lines[..n]).entries == FirstLines(lines, LineEntries(e, lines), n)
    ensures SiftAll(e, lines[..n]).duplicates == RepeatedLines(lines, LineEntries(e, lines), n)
    ensures KeysAgree(KeysOfAll(e, SiftAll(e, lines[..n]).entries), LineEntries(e, lines), n)
  {
    if n > 0 {
      AcceptedAreFirstLines(e, lines, n - 1);
      SiftedUpTo(e, lines, n);
      var all, s := LineEntries(e, lines), SiftAll(e, lines[..n - 1]);
      SiftNext(e, s, lines[n - 1]);
      KeysAgreeNext(KeysOfAll(e, s.entries), all, n - 1);
      if all[n - 1].Some? {
        UsedBeforeNext(all, n - 1, all[n - 1].value.key);
      }
    }
  }

  lemma {:induction false} SiftedUpTo(e: Engine, lines: seq<string>, n: nat)
    requires Sound(e) && 0 < n <= |lines|
    ensures SiftAll(e, lines[..n]) == Sift(e, SiftAll(e, lines[..n - 1]), lines[n - 1])
  {
    assert lines[..n][..n - 1] == lines[..n - 1];
  }

  lemma {:induction false} FirstLineListed(lines: seq<string>, all: seq<Option<Entry>>, n: nat, k: nat)
    requires k < n <= |lines| == |all| && FirstWithKey(all, k)
    ensures Trim(lines[k]) in FirstLines(lines, all, n)
  {
    if k < n - 1 { FirstLineListed(lines, all, n - 1, k); }
  }

  lemma {:induction false} ListedLine(lines: seq<string>, all: seq<Option<Entry>>, n: nat, x: string) returns (k: nat)
    requires n <= |lines| == |all| && x in FirstLines(lines, all, n)
    ensures k < n && FirstWithKey(all, k) && Trim(lines[k]) == x
  {
    k := n - 1;
    if x in FirstLines(lines, all, n - 1) {
      k := ListedLine(lines, all, n - 1, x);
    }
  }

  lemma {:induction false} FirstOfKey(all: seq<Option<Entry>>, n: nat) returns (k: nat)
    requires n < |all| && all[n].Some?
    ensures k <= n && FirstWithKey(all, k) && HasKey(all[k], all[n].value.key)
  {
    k := n;
    if !FirstWithKey(all, n) {
      var j :| 0 <= j < n && HasKey(all[j], all[n].value.key);
      k := FirstOfKey(all, j);
    }
  }

  // ---- what the scrubber finds with the accepted entries ----

  ghost predicate SomeLineHas(all: seq<Option<Entry>>, form: string) {
    exists n :: 0 <= n < |all| && HasForm(all[n], form)
  }

  ghost predicate SomeFirstHas(all: seq<Option<Entry>>, form: string) {
    exists k: nat :: FirstWithKey(all, k) && HasForm(all[k], form)
  }

  /** The parsed list finds whatever some usable line of the file names. */
  ghost predicate FindsEveryLine(e: Engine, lines: seq<string>)
    requires Sound(e)
  {
    forall s, t :: BuildIndex(e, SiftAll(e, lines).entries).Lookup(s, t).Some?
              <==> SomeLineHas(LineEntries(e, lines), s) || SomeLineHas(LineEntries(e, lines), t)
  }

  /** The stripped form of every usable line is a form of a line that is the first with its key. */
  ghost predicate StrippedFormsListed(all: seq<Option<Entry>>) {
    forall n | 0 <= n < |all| && all[n].Some? :: SomeFirstHas(all, all[n].value.stripped)
  }

  lemma {:induction false} EntryOfLine(e: Engine, lines: seq<string>, k: nat, x: string)
    requires Sound(e) && k < |lines| && LineEntries(e, lines)[k].Some? && Trim(lines[k]) == x
    ensures LineEntries(e, lines)[k].value == Normalise(e, x)
  {}

  ghost predicate SomeEntryHas(entries: seq<Entry>, form: string) {
    exists x :: x in entries && x.HasForm(form)
  }

  lemma {:induction false} AcceptedIsFirst(e: Engine, lines: seq<string>, entries: seq<string>, form: string)
    requires Sound(e) && entries == FirstLines(lines, LineEntries(e, lines), |lines|)
    requires SomeEntryHas(Normalised(e, entries), form)
    ensures SomeFirstHas(LineEntries(e, lines), form)
  {
    var all, accepted := LineEntries(e, lines), Normalised(e, entries);
    var x :| x in accepted && x.HasForm(form);
    var i :| 0 <= i < |accepted| && accepted[i] == x;
    var k := ListedLine(lines, all, |lines|, entries[i]);
    EntryOfLine(e, lines, k, entries[i]);
  }

  lemma {:induction false} FirstIsAccepted(e: Engine, lines: seq<string>, entries: seq<string>, form: string)
    requires Sound(e) && entries == FirstLines(lines, LineEntries(e, lines), |lines|)
    requires SomeFirstHas(LineEntries(e, lines), form)
    ensures SomeEntryHas(Normalised(e, entries), form)
  {
    var all, accepted := LineEntries(e, lines), Normalised(e, entries);
    var k: nat :| FirstWithKey(all, k) && HasForm(all[k], form);
    FirstLineListed(lines, all, |lines|, k);
    var i :| 0 <= i < |entries| && entries[i] == Trim(lines[k]);
    EntryOfLine(e, lines, k, entries[i]);
    assert accepted[i] in accepted;
  }

  lemma {:induction false} AcceptedHaveForm(e: Engine, lines: seq<string>, form: string)
    requires Sound(e)
    ensures SomeEntryHas(Normalised(e, SiftAll(e, lines).entries), form) <==> SomeFirstHas(LineEntries(e, lines), form)
  {
    var entries := SiftAll(e, lines).entries;
    AcceptedAreFirstLines(e, lines, |lines|);
    assert lines[..|lines|] == lines;
    if SomeEntryHas(Normalised(e, entries), form) { AcceptedIsFirst(e, lines, entries, form); }
    if SomeFirstHas(LineEntries(e, lines), form) { FirstIsAccepted(e, lines, entries, form); }
  }

  lemma {:induction false} FoundBySome(entries: seq<Entry>, s: string, t: string)
    requires KeysNeverEmpty(entries)
    ensures IndexOf(entries).Lookup(s, t).Some? <==> SomeEntryHas(entries, s) || SomeEntryHas(entries, t)
  {
    LookupFinds(entries, s, t);
  }

  lemma {:induction false} ParsedListFinds(e: Engine, lines: seq<string>, s: string, t: string)
    requires Sound(e)
    ensures BuildIndex(e, SiftAll(e, lines).entries).Lookup(s, t).Some?
       <==> SomeFirstHas(LineEntries(e, lines), s) || SomeFirstHas(LineEntries(e, lines), t)
  {
    SiftedIsWell(e, lines);
    FoundBySome(Normalised(e, SiftAll(e, lines).entries), s, t);
    AcceptedHaveForm(e, lines, s);
    AcceptedHaveForm(e, lines, t);
  }

  ghost predicate AllUsable(all: seq<Option<Entry>>) {
    forall n | 0 <= n < |all| && all[n].Some? :: all[n].value.Usable()
  }

  lemma {:induction false} FormIsListed(all: seq<Option<Entry>>, n: nat, form: string)
    requires AllUsable(all) && StrippedFormsListed(all) && n < |all| && HasForm(all[n], form)
    ensures SomeFirstHas(all, form)
  {
    var x := all[n].value;
    if form == x.key {
      var k := FirstOfKey(all, n);
      assert all[k].value.Usable();
      assert HasForm(all[k], form);
    } else {
      assert form == x.stripped;
    }
  }

  lemma {:induction false} ListedFormsSuffice(all: seq<Option<Entry>>, form: string)
    requires AllUsable(all) && StrippedFormsListed(all)
    ensures SomeFirstHas(all, form) <==> SomeLineHas(all, form)
  {
    if SomeLineHas(all, form) {
      var n :| 0 <= n < |all| && HasForm(all[n], form);
      FormIsListed(all, n, form);
    }
  }

  lemma {:induction false} LineEntriesUsable(e: Engine, lines: seq<string>)
    requires Sound(e)
    ensures AllUsable(LineEntries(e, lines))
  {}

  lemma {:induction false} EveryLineIsFound(e: Engine, lines: seq<string>, s: string, t: string)
    requires Sound(e) && StrippedFormsListed(LineEntries(e, lines))
    ensures BuildIndex(e, SiftAll(e, lines).entries).Lookup(s, t).Some?
       <==> SomeLineHas(LineEntries(e, lines), s) || SomeLineHas(LineEntries(e, lines), t)
  {
    LineEntriesUsable(e, lines);
    ParsedListFinds(e, lines, s, t);
    ListedFormsSuffice(LineEntries(e, lines), s);
    ListedFormsSuffice(LineEntries(e, lines), t);
  }

  lemma {:induction false} FoundLineIsListed(e: Engine, lines: seq<string>, form: string)
    requires Sound(e) && FindsEveryLine(e, lines) && SomeLineHas(LineEntries(e, lines), form)
    ensures SomeFirstHas(LineEntries(e, lines), form)
  {
    ParsedListFinds(e, lines, form, form);
  }

  lemma {:induction false} HasOwnStripped(all: seq<Option<Entry>>, n: nat)
    requires AllUsable(all) && n < |all| && all[n].Some?
    ensures SomeLineHas(all, all[n].value.stripped)
  {
    assert HasForm(all[n], all[n].value.stripped);
  }

  /** Duplicates are told by the transliterated form alone and names are found by two forms; so a
      parsed list finds whatever its usable lines name if and only if the stripped form of each of
      them is a form of a line that is the first with its key. */
  lemma {:induction false} ParsedListFindsIff(e: Engine, lines: seq<string>)
    requires Sound(e)
    ensures FindsEveryLine(e, lines) <==> StrippedFormsListed(LineEntries(e, lines))
  {
    var all := LineEntries(e, lines);
    if StrippedFormsListed(all) {
      forall s, t
        ensures BuildIndex(e, SiftAll(e, lines).entries).Lookup(s, t).Some? <==> SomeLineHas(all, s) || SomeLineHas(all, t)
      {
        EveryLineIsFound(e, lines, s, t);
      }
    }
    if FindsEveryLine(e, lines) {
      LineEntriesUsable(e, lines);
      forall n | 0 <= n < |all| && all[n].Some? ensures SomeFirstHas(all, all[n].value.stripped) {
        HasOwnStripped(all, n);
        FoundLineIsListed(e, lines, all[n].value.stripped);
      }
    }
  }
}
