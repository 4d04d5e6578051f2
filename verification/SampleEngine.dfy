/** A small engine on which concrete texts can be scrubbed: tokens are runs of ASCII letters, a-umlaut
    and one ligature of two words, a pattern is searched for literally, and one space joins two tokens. */
module SampleEngine {
  import opened Wrappers
  import opened ScrubTypes

  predicate IsLetter(c: char) { 'a' <= c <= 'z' || 'A' <= c <= 'Z' || c == '\U{00E4}' || c == '\U{FDFA}' }

  function RunEnd(text: string, i: nat): (e: nat)
    requires i <= |text|
    ensures i <= e <= |text|
    decreases |text| - i
  {
    if i < |text| && IsLetter(text[i]) then RunEnd(text, i + 1) else i
  }

  function Runs(text: string, from: nat): seq<Span>
    requires from <= |text|
    decreases |text| - from
  {
    if from == |text| then []
    else if IsLetter(text[from]) then var e := RunEnd(text, from + 1); [Span(from, e)] + Runs(text, e)
    else Runs(text, from + 1)
  }

  /** Non-overlapping occurrences of a non-empty literal. */
  function Literals(pattern: string, text: string, from: nat): seq<Span>
    requires pattern != "" && from <= |text|
    decreases |text| - from
  {
    var end := from + |pattern|;
    if end > |text| then []
    else if text[from..end] == pattern then [Span(from, end)] + Literals(pattern, text, end)
    else Literals(pattern, text, from + 1)
  }

  function Lower(c: char): char {
    if 'A' <= c <= 'Z' then c - 'A' + 'a' else c
  }

  function Cleaned(s: string): string {
    if s == "" then "" else (if s[0] == ' ' then "" else [Lower(s[0])]) + Cleaned(s[1..])
  }

  function Stripped(w: string): string {
    if w == "" then ""
    else (if w[0] == '\U{FDFA}' then "sa al" else if w[0] == '\U{00E4}' then "a" else [Lower(w[0])]) + Stripped(w[1..])
  }

  function Transliterated(w: string): string {
    if w == "" then ""
    else (if w[0] == '\U{FDFA}' then "sa al" else if w[0] == '\U{00E4}' then "ae" else [Lower(w[0])]) + Transliterated(w[1..])
  }

  const SAMPLE: Engine := Engine(
    (pattern, text) => if pattern == "" then Some([]) else Some(Literals(pattern, text, 0)),
    s => Cleaned(s),
    text => Runs(text, 0),
    s => s == " ",
    w => Stripped(w),
    w => Transliterated(w),
    (text, i) => false)

  lemma {:induction false} RunsOrdered(text: string, from: nat)
    requires from <= |text|
    ensures Ordered(Runs(text, from), |text|)
    ensures forall i | 0 <= i < |Runs(text, from)| :: from <= Runs(text, from)[i].start < Runs(text, from)[i].end
    decreases |text| - from
  {
    if from < |text| {
      RunsOrdered(text, if IsLetter(text[from]) then RunEnd(text, from + 1) else from + 1);
    }
  }

  lemma {:induction false} OrderedCons(first: Span, rest: seq<Span>, length: nat)
    requires first.start <= first.end <= length && Ordered(rest, length)
    requires forall i | 0 <= i < |rest| :: first.end <= rest[i].start
    ensures Ordered([first] + rest, length)
  {}

  ghost predicate StartFrom(spans: seq<Span>, from: nat) { forall i | 0 <= i < |spans| :: from <= spans[i].start }

  lemma {:induction false} StartCons(first: Span, rest: seq<Span>)
    requires first.start <= first.end && StartFrom(rest, first.end)
    ensures StartFrom([first] + rest, first.start)
  {}

  lemma {:induction false} LiteralsOrdered(pattern: string, text: string, from: nat)
    requires pattern != "" && from <= |text|
    ensures Ordered(Literals(pattern, text, from), |text|) && StartFrom(Literals(pattern, text, from), from)
    decreases |text| - from
  {
    var end := from + |pattern|;
    if end <= |text| {
      if text[from..end] == pattern {
        LiteralsOrdered(pattern, text, end);
        OrderedCons(Span(from, end), Literals(pattern, text, end), |text|);
        StartCons(Span(from, end), Literals(pattern, text, end));
      } else {
        LiteralsOrdered(pattern, text, from + 1);
        assert Literals(pattern, text, from) == Literals(pattern, text, from + 1);
      }
    }
  }

  lemma {:induction false} SampleIsSound()
    ensures Sound(SAMPLE)
  {
    forall pattern: string, text: string | SAMPLE.find(pattern, text).Some?
      ensures Ordered(SAMPLE.find(pattern, text).value, |text|)
    {
      if pattern != "" { LiteralsOrdered(pattern, text, 0); }
    }
    forall text ensures Ordered(SAMPLE.tokens(text), |text|)
      && forall i | 0 <= i < |SAMPLE.tokens(text)| :: SAMPLE.tokens(text)[i].start < SAMPLE.tokens(text)[i].end
    {
      RunsOrdered(text, 0);
    }
  }

  // ---- the words of the samples ----

  lemma {:induction false} PlainWord()
    ensures Runs("Bar", 0) == [Span(0, 3)]
    ensures Stripped("Bar") == "bar" && Transliterated("Bar") == "bar"
  {}

  lemma {:induction false} UmlautWord()
    ensures Runs("B\U{00E4}r", 0) == [Span(0, 3)]
    ensures Stripped("B\U{00E4}r") == "bar" && Transliterated("B\U{00E4}r") == "baer"
  {}

  lemma {:induction false} TransliteratedWord()
    ensures Runs("Baer", 0) == [Span(0, 4)]
    ensures Stripped("Baer") == "baer" && Transliterated("Baer") == "baer"
  {}

  lemma {:induction false} BothWords()
    ensures Runs("Bar B\U{00E4}r", 0) == [Span(0, 3), Span(4, 7)]
  {}

  lemma {:induction false} FirmWords()
    ensures Runs("Van Dyk AG", 0) == [Span(0, 3), Span(4, 7), Span(8, 10)]
  {}

  lemma {:induction false} NameWords()
    ensures Runs("Van Dyk", 0) == [Span(0, 3), Span(4, 7)]
  {}

  lemma {:induction false} FirmForms()
    ensures Stripped("Van") == "van" && Stripped("Dyk") == "dyk" && Stripped("AG") == "ag" && Stripped("Firm") == "firm"
    ensures Transliterated("Van") == "van" && Transliterated("Dyk") == "dyk" && Transliterated("AG") == "ag"
    ensures Transliterated("Firm") == "firm" && Runs("Van", 0) == [Span(0, 3)]
  {}

  lemma {:induction false} FirmFound()
    ensures Literals("Dyk AG", "Van Dyk AG", 0) == [Span(4, 10)]
  {
    assert Literals("Dyk AG", "Van Dyk AG", 10) == [];
    assert "Van Dyk AG"[0] == 'V' && "Van Dyk AG"[1] == 'a' && "Van Dyk AG"[2] == 'n' && "Van Dyk AG"[3] == ' ';
    assert "Dyk AG"[0] == 'D';
    assert "Van Dyk AG"[4..10] == "Dyk AG";
    assert Literals("Dyk AG", "Van Dyk AG", 4) == [Span(4, 10)];
    assert "Van Dyk AG"[3..9][0] == ' ';
    assert Literals("Dyk AG", "Van Dyk AG", 3) == [Span(4, 10)];
    assert "Van Dyk AG"[2..8][0] == 'n';
    assert Literals("Dyk AG", "Van Dyk AG", 2) == [Span(4, 10)];
    assert "Van Dyk AG"[1..7][0] == 'a';
    assert Literals("Dyk AG", "Van Dyk AG", 1) == [Span(4, 10)];
    assert "Van Dyk AG"[0..6][0] == 'V';
  }

  lemma {:induction false} OnceWords()
    ensures Runs("Van <Firm_1>", 0) == [Span(0, 3), Span(5, 9)]
  {}

  lemma {:induction false} OnceNotFound()
    ensures Literals("Dyk AG", "Van <Firm_1>", 0) == []
  {
    NoFirstLetter("Dyk AG", "Van <Firm_1>", 0);
  }

  lemma {:induction false} NoFirstLetter(pattern: string, text: string, from: nat)
    requires pattern != "" && from <= |text| && forall i | from <= i < |text| :: text[i] != pattern[0]
    ensures Literals(pattern, text, from) == []
    decreases |text| - from
  {
    var end := from + |pattern|;
    if end <= |text| {
      assert text[from..end][0] == text[from];
      NoFirstLetter(pattern, text, from + 1);
    }
  }

  lemma {:induction false} Ligature()
    ensures Runs("\U{FDFA}", 0) == [Span(0, 1)]
    ensures Stripped("\U{FDFA}") == "sa al" && Transliterated("\U{FDFA}") == "sa al"
  {}

  lemma {:induction false} LigatureWords()
    ensures Runs("Sa al", 0) == [Span(0, 2), Span(3, 5)]
    ensures Stripped("Sa") == "sa" && Transliterated("Sa") == "sa" && Stripped("al") == "al" && Transliterated("al") == "al"
  {}
}
