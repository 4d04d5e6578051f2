/** Where each line of a name list goes, and the notices that say so. */
module ListLines {
  import opened PythonText
  import opened ScrubTypes
  import opened Text
  import opened NameIndexes
  import opened Places
  import opened NameLists

  /** Nothing but space. */
  predicate IsBlank(line: string) { Trim(line) == "" }

  predicate IsComment(line: string) { Trim(line) != "" && Trim(line)[0] == '#' }

  predicate HasEntry(line: string) { !IsBlank(line) && !IsComment(line) }

  ghost function LineWords(e: Engine, line: string): seq<string>
    requires Sound(e)
  {
    Words(Trim(line), e.tokens(Trim(line)))
  }

  /** An entry of which no letters are left. */
  ghost predicate IsLetterless(e: Engine, line: string)
    requires Sound(e)
  {
    HasEntry(line) && Join(Each(e.transliterated, LineWords(e, line))) == ""
  }

  /** An entry with letters, but fewer than three. */
  ghost predicate IsShort(e: Engine, line: string)
    requires Sound(e)
  {
    && HasEntry(line) && Join(Each(e.transliterated, LineWords(e, line))) != ""
    && Letters(Each(e.stripped, LineWords(e, line))) < 3
  }

  function Blanks(lines: seq<string>): seq<bool> {
    seq(|lines|, i requires 0 <= i < |lines| => IsBlank(lines[i]))
  }

  function Comments(lines: seq<string>): seq<bool> {
    seq(|lines|, i requires 0 <= i < |lines| => IsComment(lines[i]))
  }

  ghost function ShortLines(e: Engine, lines: seq<string>): seq<bool>
    requires Sound(e)
  {
    seq(|lines|, i requires 0 <= i < |lines| => IsShort(e, lines[i]))
  }

  ghost function LetterlessLines(e: Engine, lines: seq<string>): seq<bool>
    requires Sound(e)
  {
    seq(|lines|, i requires 0 <= i < |lines| => IsLetterless(e, lines[i]))
  }

  function TrimmedAt(lines: seq<string>, at: seq<nat>): seq<string>
    requires forall k | 0 <= k < |at| :: at[k] < |lines|
  {
    seq(|at|, k requires 0 <= k < |at| => Trim(lines[at[k]]))
  }

  lemma {:induction false} TrimmedMore(lines: seq<string>, at: seq<nat>, flag: bool)
    requires lines != [] && forall k | 0 <= k < |at| :: at[k] < |lines| - 1
    ensures var n := |lines| - 1;
            TrimmedAt(lines, AndThen(at, flag, n)) == TrimmedAt(lines[..n], at) + if flag then [Trim(lines[n])] else []
  {}

  lemma {:induction false} SiftDecides(e: Engine, s: Sifted, line: string)
    requires Sound(e)
    ensures var t := Sift(e, s, line);
            && t.blank == s.blank + (if IsBlank(line) then 1 else 0)
            && t.comments == s.comments + (if IsComment(line) then 1 else 0)
            && t.tooShort == s.tooShort + (if IsShort(e, line) then [Trim(line)] else [])
            && t.noLetters == s.noLetters + (if IsLetterless(e, line) then [Trim(line)] else [])
  {}

  /** One line more, whatever is reported of it. */
  lemma {:induction false} NextReported(lines: seq<string>, flags: seq<bool>, reported: seq<string>, at: seq<nat>, flag: bool)
    requires lines != [] && |flags| == |lines| - 1 && PlacesOf(flags, at) && reported == TrimmedAt(lines[..|lines| - 1], at)
    ensures var n := |lines| - 1;
            && PlacesOf(flags + [flag], AndThen(at, flag, n))
            && reported + (if flag then [Trim(lines[n])] else []) == TrimmedAt(lines, AndThen(at, flag, n))
  {
    OneMorePlace(flags, flag, at);
    TrimmedMore(lines, at, flag);
  }

  lemma {:induction false} BlanksMore(lines: seq<string>)
    requires lines != []
    ensures Blanks(lines) == Blanks(lines[..|lines| - 1]) + [IsBlank(lines[|lines| - 1])]
  {}

  lemma {:induction false} CommentsMore(lines: seq<string>)
    requires lines != []
    ensures Comments(lines) == Comments(lines[..|lines| - 1]) + [IsComment(lines[|lines| - 1])]
  {}

  lemma {:induction false} ShortLinesMore(e: Engine, lines: seq<string>)
    requires Sound(e) && lines != []
    ensures ShortLines(e, lines) == ShortLines(e, lines[..|lines| - 1]) + [IsShort(e, lines[|lines| - 1])]
  {}

  lemma {:induction false} LetterlessLinesMore(e: Engine, lines: seq<string>)
    requires Sound(e) && lines != []
    ensures LetterlessLines(e, lines) == LetterlessLines(e, lines[..|lines| - 1]) + [IsLetterless(e, lines[|lines| - 1])]
  {}

  /** As many blank lines are counted as there are. */
  lemma {:induction false} BlanksAreCounted(e: Engine, lines: seq<string>) returns (at: seq<nat>)
    requires Sound(e)
    ensures PlacesOf(Blanks(lines), at) && SiftAll(e, lines).blank == |at|
  {
    at := [];
    if lines != [] {
      var n := |lines| - 1;
      var before := BlanksAreCounted(e, lines[..n]);
      var flag := IsBlank(lines[n]);
      SiftDecides(e, SiftAll(e, lines[..n]), lines[n]);
      BlanksMore(lines);
      OneMorePlace(Blanks(lines[..n]), flag, before);
      at := AndThen(before, flag, n);
    }
  }

  /** As many comments are counted as there are. */
  lemma {:induction false} CommentsAreCounted(e: Engine, lines: seq<string>) returns (at: seq<nat>)
    requires Sound(e)
    ensures PlacesOf(Comments(lines), at) && SiftAll(e, lines).comments == |at|
  {
    at := [];
    if lines != [] {
      var n := |lines| - 1;
      var before := CommentsAreCounted(e, lines[..n]);
      var flag := IsComment(lines[n]);
      SiftDecides(e, SiftAll(e, lines[..n]), lines[n]);
      CommentsMore(lines);
      OneMorePlace(Comments(lines[..n]), flag, before);
      at := AndThen(before, flag, n);
    }
  }

  /** The entries reported as too short are those with one or two letters, in the order of the file. */
  lemma {:induction false} ShortAreReported(e: Engine, lines: seq<string>) returns (at: seq<nat>)
    requires Sound(e)
    ensures PlacesOf(ShortLines(e, lines), at) && SiftAll(e, lines).tooShort == TrimmedAt(lines, at)
  {
    at := [];
    if lines != [] {
      var n := |lines| - 1;
      var before := ShortAreReported(e, lines[..n]);
      var flag := IsShort(e, lines[n]);
      SiftDecides(e, SiftAll(e, lines[..n]), lines[n]);
      ShortLinesMore(e, lines);
      NextReported(lines, ShortLines(e, lines[..n]), SiftAll(e, lines[..n]).tooShort, before, flag);
      at := AndThen(before, flag, n);
    }
  }

  /** And those reported as without letters are those of which no letter is left. */
  lemma {:induction false} LetterlessAreReported(e: Engine, lines: seq<string>) returns (at: seq<nat>)
    requires Sound(e)
    ensures PlacesOf(LetterlessLines(e, lines), at) && SiftAll(e, lines).noLetters == TrimmedAt(lines, at)
  {
    at := [];
    if lines != [] {
      var n := |lines| - 1;
      var before := LetterlessAreReported(e, lines[..n]);
      var flag := IsLetterless(e, lines[n]);
      SiftDecides(e, SiftAll(e, lines[..n]), lines[n]);
      LetterlessLinesMore(e, lines);
      NextReported(lines, LetterlessLines(e, lines[..n]), SiftAll(e, lines[..n]).noLetters, before, flag);
      at := AndThen(before, flag, n);
    }
  }

  // ---- the notices ----

  /** The place of a notice among the others. */
  function Turn(code: NoticeCode): nat {
    match code
    case BlankLines => 0
    case CommentLines => 1
    case Duplicates => 2
    case TooShort => 3
    case NoLetters => 4
  }

  /** A notice says what went where: how many, and of entries the first five. */
  ghost predicate Says(n: Notice, s: Sifted) {
    match n.code
    case BlankLines => n.count == s.blank > 0 && n.samples == []
    case CommentLines => n.count == s.comments > 0 && n.samples == []
    case Duplicates => Counts(n, s.duplicates)
    case TooShort => Counts(n, s.tooShort)
    case NoLetters => Counts(n, s.noLetters)
  }

  ghost predicate Counts(n: Notice, items: seq<string>) {
    n.count == |items| > 0 && n.samples <= items && |n.samples| == if |items| < 5 then |items| else 5
  }

  lemma {:induction false} ItemsNoticeSays(code: NoticeCode, items: seq<string>, n: Notice)
    ensures n in ItemsNotice(code, items) <==> n.code == code && Counts(n, items)
  {
    if n.code == code && Counts(n, items) {
      assert n.samples == items[..|n.samples|];
      assert |items| <= 5 ==> items[..|items|] == items;
    }
  }

  /** Every line that was not accepted is told of by a notice, and nothing else is; blank lines first. */
  lemma {:induction false} NoticesAre(s: Sifted)
    ensures forall n :: n in NoticesOf(s) <==> Says(n, s)
    ensures forall i, j | 0 <= i < j < |NoticesOf(s)| :: Turn(NoticesOf(s)[i].code) < Turn(NoticesOf(s)[j].code)
  {
    forall n ensures n in NoticesOf(s) <==> Says(n, s) { NoticeIff(s, n); }
  }

  lemma {:induction false} NoticeIff(s: Sifted, n: Notice)
    ensures n in NoticesOf(s) <==> Says(n, s)
  {
    ItemsNoticeSays(Duplicates, s.duplicates, n);
    ItemsNoticeSays(TooShort, s.tooShort, n);
    ItemsNoticeSays(NoLetters, s.noLetters, n);
    CountNoticeSays(NoticeCode.BlankLines, s.blank, n);
    CountNoticeSays(CommentLines, s.comments, n);
  }

  lemma {:induction false} CountNoticeSays(code: NoticeCode, count: nat, n: Notice)
    ensures n in CountNotice(code, count) <==> n.code == code && n.count == count > 0 && n.samples == []
  {}
}
