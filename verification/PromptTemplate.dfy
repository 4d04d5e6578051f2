/** Validating a prompt template, and expanding its slots in a single pass. */
module PromptTemplate {
  import opened Wrappers
  import opened PythonText

  /** The slot catalogue, which is closed. */
  datatype SlotName = FeatureBlock | Narrative | Language {
    function Text(): string {
      match this
      case FeatureBlock => "feature_block"
      case Narrative => "narrative"
      case Language => "language"
    }

    function Token(): string { "{{" + Text() + "}}" }

    predicate Required() { this != Language }
  }

  function Known(name: string): Option<SlotName> {
    if name == FeatureBlock.Text() then Some(FeatureBlock)
    else if name == Narrative.Text() then Some(Narrative)
    else if name == Language.Text() then Some(Language)
    else None
  }

  lemma {:induction false} KnownIsTheCatalogue(name: string, slot: SlotName)
    ensures Known(name) == Some(slot) <==> name == slot.Text()
  {}

  /** What the regular expression class of word characters must satisfy here. */
  ghost predicate WordClass(isWord: char -> bool) {
    && !isWord('{') && !isWord('}') && isWord('_')
    && forall c | 'a' <= c <= 'z' :: isWord(c)
  }

  // ---- tokens ----

  predicate Opens(s: string, i: nat) { i + 2 <= |s| && s[i] == '{' && s[i + 1] == '{' }

  predicate Closes(s: string, i: nat) { i + 2 <= |s| && s[i] == '}' && s[i + 1] == '}' }

  /** Where the word characters from `i` on end. */
  function WordEnd(isWord: char -> bool, s: string, i: nat): (e: nat)
    requires i <= |s|
    ensures i <= e <= |s| && (forall k | i <= k < e :: isWord(s[k])) && (e < |s| ==> !isWord(s[e]))
    decreases |s| - i
  {
    if i == |s| || !isWord(s[i]) then i else WordEnd(isWord, s, i + 1)
  }

  datatype SlotToken = SlotToken(start: nat, end: nat, name: string)

  /** A well-formed slot at `i`: two opening braces, word characters, two closing ones. */
  function SlotAt(isWord: char -> bool, s: string, i: nat): (t: Option<SlotToken>)
    ensures t.Some? ==> t.value.start == i < t.value.end <= |s|
  {
    if !Opens(s, i) then None
    else
      var e := WordEnd(isWord, s, i + 2);
      if e > i + 2 && Closes(s, e) then Some(SlotToken(i, e + 2, s[i + 2..e])) else None
  }

  /** The first well-formed slot at or after `from`. */
  function NextSlot(isWord: char -> bool, s: string, from: nat): (t: Option<SlotToken>)
    requires from <= |s|
    ensures t.Some? ==> from <= t.value.start && SlotAt(isWord, s, t.value.start) == t
    ensures forall i: nat | from <= i && (t.Some? ==> i < t.value.start) :: SlotAt(isWord, s, i).None?
    decreases |s| - from
  {
    if SlotAt(isWord, s, from).Some? then SlotAt(isWord, s, from)
    else if from == |s| then None
    else NextSlot(isWord, s, from + 1)
  }

  function Tokens(isWord: char -> bool, s: string, from: nat): seq<SlotToken>
    requires from <= |s|
    decreases |s| - from
  {
    var t := NextSlot(isWord, s, from);
    if t.None? then [] else [t.value] + Tokens(isWord, s, t.value.end)
  }

  /** Tokens cannot overlap, so the scan meets every one. */
  lemma {:induction false} TokensAreAll(isWord: char -> bool, s: string, from: nat, t: SlotToken)
    requires WordClass(isWord) && from <= |s|
    ensures t in Tokens(isWord, s, from) <==> from <= t.start && SlotAt(isWord, s, t.start) == Some(t)
    decreases |s| - from
  {
    var next := NextSlot(isWord, s, from);
    if next.Some? {
      TokensAreAll(isWord, s, next.value.end, t);
      if next.value.start < t.start < next.value.end {
        NoSlotInside(isWord, s, next.value, t.start);
      }
    }
  }

  lemma {:induction false} NoSlotInside(isWord: char -> bool, s: string, t: SlotToken, i: nat)
    requires WordClass(isWord) && SlotAt(isWord, s, t.start) == Some(t) && t.start < i < t.end
    ensures !Opens(s, i)
  {}

  /** The non-overlapping openings of two braces from `from` on. */
  function OpenScan(s: string, from: nat): (opens: seq<nat>)
    requires from <= |s|
    ensures forall i | i in opens :: from <= i && Opens(s, i)
    decreases |s| - from
  {
    if from == |s| then []
    else if Opens(s, from) then [from] + OpenScan(s, from + 2)
    else OpenScan(s, from + 1)
  }

  // ---- validation ----

  datatype TemplateError =
    | EmptySource
    | UnknownSlot(name: string, offset: nat)
    | MalformedSlot(slot: Option<string>, offset: nat)
    | MissingRequiredSlot(required: SlotName)

  function WordAt(isWord: char -> bool, s: string, i: nat): string
    requires Opens(s, i)
  {
    s[i + 2..WordEnd(isWord, s, i + 2)]
  }

  function UnknownErrors(tokens: seq<SlotToken>): seq<TemplateError> {
    if tokens == [] then []
    else
      var before, t := UnknownErrors(tokens[..|tokens| - 1]), tokens[|tokens| - 1];
      if Known(t.name).None? then before + [UnknownSlot(t.name, t.start)] else before
  }

  predicate Inside(tokens: seq<SlotToken>, i: nat) {
    exists t | t in tokens :: t.start <= i < t.end
  }

  function MalformedErrors(isWord: char -> bool, s: string, tokens: seq<SlotToken>, opens: seq<nat>): seq<TemplateError>
    requires forall i | i in opens :: Opens(s, i)
  {
    if opens == [] then []
    else
      var before, i := MalformedErrors(isWord, s, tokens, opens[..|opens| - 1]), opens[|opens| - 1];
      if Inside(tokens, i) then before
      else
        var name := WordAt(isWord, s, i);
        before + [MalformedSlot(if name == "" then None else Some(name), i)]
  }

  predicate Present(tokens: seq<SlotToken>, slot: SlotName) {
    exists t | t in tokens :: t.name == slot.Text()
  }

  /** The slot is there, but only in broken form. */
  predicate Broken(isWord: char -> bool, s: string, tokens: seq<SlotToken>, opens: seq<nat>, slot: SlotName)
    requires forall i | i in opens :: Opens(s, i)
  {
    exists i | i in opens :: !Inside(tokens, i) && WordAt(isWord, s, i) == slot.Text()
  }

  function MissingErrors(isWord: char -> bool, s: string, tokens: seq<SlotToken>, opens: seq<nat>): seq<TemplateError>
    requires forall i | i in opens :: Opens(s, i)
  {
    (if Present(tokens, FeatureBlock) || Broken(isWord, s, tokens, opens, FeatureBlock) then [] else [MissingRequiredSlot(FeatureBlock)]) +
    (if Present(tokens, Narrative) || Broken(isWord, s, tokens, opens, Narrative) then [] else [MissingRequiredSlot(Narrative)])
  }

  /** Everything that is wrong with a template. */
  function Errors(isWord: char -> bool, s: string): seq<TemplateError> {
    if Blank(s) then [EmptySource]
    else
      var tokens, opens := Tokens(isWord, s, 0), OpenScan(s, 0);
      UnknownErrors(tokens) + MalformedErrors(isWord, s, tokens, opens) + MissingErrors(isWord, s, tokens, opens)
  }

  ghost function NamesOf(tokens: seq<SlotToken>): set<string> { set t | t in tokens :: t.name }

  lemma {:induction false} TokenNext(tokens: seq<SlotToken>, t: SlotToken)
    ensures NamesOf(tokens + [t]) == NamesOf(tokens) + {t.name}
    ensures UnknownErrors(tokens + [t]) == UnknownErrors(tokens) + if Known(t.name).None? then [UnknownSlot(t.name, t.start)] else []
  {}

  method FindTokens(isWord: char -> bool, s: string)
    returns (tokens: seq<SlotToken>, errors: seq<TemplateError>, present: set<string>)
    ensures tokens == Tokens(isWord, s, 0) && errors == UnknownErrors(tokens) && present == NamesOf(tokens)
  {
    tokens, errors, present := [], [], {};
    var from := 0;
    var next := NextSlot(isWord, s, 0);
    while next.Some?
      invariant from <= |s| && next == NextSlot(isWord, s, from)
      invariant tokens + Tokens(isWord, s, from) == Tokens(isWord, s, 0)
      invariant errors == UnknownErrors(tokens) && present == NamesOf(tokens)
      decreases |s| - from
    {
      var t := next.value;
      TokenNext(tokens, t);
      if Known(t.name).None? {
        errors := errors + [UnknownSlot(t.name, t.start)];
      }
      TokensNext(isWord, s, tokens, from);
      tokens, present := tokens + [t], present + {t.name};
      from := t.end;
      next := NextSlot(isWord, s, from);
    }
  }

  lemma {:induction false} TokensNext(isWord: char -> bool, s: string, before: seq<SlotToken>, from: nat)
    requires from <= |s| && NextSlot(isWord, s, from).Some?
    ensures var t := NextSlot(isWord, s, from).value;
            (before + [t]) + Tokens(isWord, s, t.end) == before + Tokens(isWord, s, from)
  {}

  method FindMalformed(isWord: char -> bool, s: string, tokens: seq<SlotToken>) returns (errors: seq<TemplateError>, names: set<string>)
    ensures errors == MalformedErrors(isWord, s, tokens, OpenScan(s, 0))
    ensures forall name :: name in names <==> exists i | i in OpenScan(s, 0) :: !Inside(tokens, i) && WordAt(isWord, s, i) == name
  {
    errors, names := [], {};
    var opens := OpenScan(s, 0);
    for k := 0 to |opens|
      invariant errors == MalformedErrors(isWord, s, tokens, opens[..k])
      invariant forall name :: name in names <==> exists i | i in opens[..k] :: !Inside(tokens, i) && WordAt(isWord, s, i) == name
    {
      assert opens[..k + 1] == opens[..k] + [opens[k]] && opens[..k + 1][..k] == opens[..k];
      if !Inside(tokens, opens[k]) {
        var name := WordAt(isWord, s, opens[k]);
        names := names + {name};
        errors := errors + [MalformedSlot(if name == "" then None else Some(name), opens[k])];
      }
    }
    assert opens[..|opens|] == opens;
  }

  method FindMissing(present: set<string>, broken: set<string>) returns (errors: seq<TemplateError>)
    ensures errors == (if FeatureBlock.Text() in present || FeatureBlock.Text() in broken then [] else [MissingRequiredSlot(FeatureBlock)])
                    + (if Narrative.Text() in present || Narrative.Text() in broken then [] else [MissingRequiredSlot(Narrative)])
  {
    errors := [];
    var required := [FeatureBlock, Narrative];
    if required[0].Text() !in present && required[0].Text() !in broken {
      errors := errors + [MissingRequiredSlot(required[0])];
    }
    if required[1].Text() !in present && required[1].Text() !in broken {
      errors := errors + [MissingRequiredSlot(required[1])];
    }
  }

  method ValidateTemplate(isWord: char -> bool, s: string) returns (errors: seq<TemplateError>)
    ensures errors == Errors(isWord, s)
  {
    if Blank(s) {
      return [EmptySource];
    }
    var tokens, unknown, present := FindTokens(isWord, s);
    var malformed, broken := FindMalformed(isWord, s, tokens);
    var missing := FindMissing(present, broken);
    return unknown + malformed + missing;
  }

  // ---- the validator is exact ----

  /** Every pair of opening braces starts a slot of the catalogue. */
  ghost predicate OnlyCatalogueSlots(isWord: char -> bool, s: string) {
    forall i: nat | Opens(s, i) :: SlotAt(isWord, s, i).Some? && Known(SlotAt(isWord, s, i).value.name).Some?
  }

  ghost predicate HasSlot(isWord: char -> bool, s: string, slot: SlotName) {
    exists i: nat :: SlotAt(isWord, s, i).Some? && SlotAt(isWord, s, i).value.name == slot.Text()
  }

  ghost predicate Valid(isWord: char -> bool, s: string) {
    && !Blank(s) && OnlyCatalogueSlots(isWord, s)
    && HasSlot(isWord, s, FeatureBlock) && HasSlot(isWord, s, Narrative)
  }

  lemma {:induction false} NoUnknownIff(tokens: seq<SlotToken>)
    ensures UnknownErrors(tokens) == [] <==> forall t | t in tokens :: Known(t.name).Some?
  {
    if tokens != [] {
      NoUnknownIff(tokens[..|tokens| - 1]);
      assert tokens == tokens[..|tokens| - 1] + [tokens[|tokens| - 1]];
    }
  }

  lemma {:induction false} NoMalformedIff(isWord: char -> bool, s: string, tokens: seq<SlotToken>, opens: seq<nat>)
    requires forall i | i in opens :: Opens(s, i)
    ensures MalformedErrors(isWord, s, tokens, opens) == [] <==> forall i | i in opens :: Inside(tokens, i)
  {
    if opens != [] {
      NoMalformedIff(isWord, s, tokens, opens[..|opens| - 1]);
      assert opens == opens[..|opens| - 1] + [opens[|opens| - 1]];
    }
  }

  /** An opening is scanned, unless it overlaps the scanned opening one brace before it. */
  lemma {:induction false} OpeningIsScanned(s: string, from: nat, i: nat)
    requires from <= i && Opens(s, i)
    ensures i in OpenScan(s, from) || (from < i && Opens(s, i - 1) && i - 1 in OpenScan(s, from))
    decreases i - from
  {
    if from < i {
      if Opens(s, from) {
        if from + 2 <= i { OpeningIsScanned(s, from + 2, i); }
      } else {
        OpeningIsScanned(s, from + 1, i);
      }
    }
  }

  /** In a run of more than two braces the first pair is scanned and is no slot; so if all scanned
      openings are slots, all openings are scanned. */
  lemma {:induction false} ScannedSuffice(isWord: char -> bool, s: string)
    requires WordClass(isWord)
    ensures (forall i | i in OpenScan(s, 0) :: SlotAt(isWord, s, i).Some?) <==> forall i: nat | Opens(s, i) :: SlotAt(isWord, s, i).Some?
  {
    if forall i | i in OpenScan(s, 0) :: SlotAt(isWord, s, i).Some? {
      forall i: nat | Opens(s, i) ensures SlotAt(isWord, s, i).Some? {
        OpeningIsScanned(s, 0, i);
        if i > 0 { SlotOpensOnce(isWord, s, i - 1); }
      }
    }
  }

  lemma {:induction false} SlotOpensOnce(isWord: char -> bool, s: string, i: nat)
    requires WordClass(isWord)
    ensures SlotAt(isWord, s, i).Some? ==> !Opens(s, i + 1)
  {}

  lemma {:induction false} InsideIsStart(isWord: char -> bool, s: string, i: nat)
    requires WordClass(isWord) && Opens(s, i)
    ensures Inside(Tokens(isWord, s, 0), i) <==> SlotAt(isWord, s, i).Some?
  {
    var tokens := Tokens(isWord, s, 0);
    if SlotAt(isWord, s, i).Some? {
      TokensAreAll(isWord, s, 0, SlotAt(isWord, s, i).value);
    }
    if Inside(tokens, i) {
      var t :| t in tokens && t.start <= i < t.end;
      TokensAreAll(isWord, s, 0, t);
      if t.start < i { NoSlotInside(isWord, s, t, i); }
    }
  }

  lemma {:induction false} PresentIff(isWord: char -> bool, s: string, slot: SlotName)
    requires WordClass(isWord)
    ensures Present(Tokens(isWord, s, 0), slot) <==> HasSlot(isWord, s, slot)
  {
    var tokens := Tokens(isWord, s, 0);
    if t :| t in tokens && t.name == slot.Text() {
      TokensAreAll(isWord, s, 0, t);
    }
    if i: nat :| SlotAt(isWord, s, i).Some? && SlotAt(isWord, s, i).value.name == slot.Text() {
      TokensAreAll(isWord, s, 0, SlotAt(isWord, s, i).value);
    }
  }

  lemma {:induction false} AllKnownIff(isWord: char -> bool, s: string)
    requires WordClass(isWord)
    ensures (forall t | t in Tokens(isWord, s, 0) :: Known(t.name).Some?)
       <==> forall i: nat | SlotAt(isWord, s, i).Some? :: Known(SlotAt(isWord, s, i).value.name).Some?
  {
    forall t: SlotToken ensures t in Tokens(isWord, s, 0) <==> SlotAt(isWord, s, t.start) == Some(t) {
      TokensAreAll(isWord, s, 0, t);
    }
  }

  lemma {:induction false} NoMalformedMeans(isWord: char -> bool, s: string)
    requires WordClass(isWord)
    ensures MalformedErrors(isWord, s, Tokens(isWord, s, 0), OpenScan(s, 0)) == []
       <==> forall i: nat | Opens(s, i) :: SlotAt(isWord, s, i).Some?
  {
    NoMalformedIff(isWord, s, Tokens(isWord, s, 0), OpenScan(s, 0));
    ScannedSuffice(isWord, s);
    forall i | i in OpenScan(s, 0) ensures Inside(Tokens(isWord, s, 0), i) <==> SlotAt(isWord, s, i).Some? {
      InsideIsStart(isWord, s, i);
    }
  }

  /** No error, exactly when the source is not blank, every pair of opening braces starts a slot of
      the catalogue, and both required slots occur. */
  lemma {:induction false} NoErrorsIffValid(isWord: char -> bool, s: string)
    requires WordClass(isWord)
    ensures Errors(isWord, s) == [] <==> Valid(isWord, s)
  {
    if !Blank(s) {
      NoUnknownIff(Tokens(isWord, s, 0));
      AllKnownIff(isWord, s);
      NoMalformedMeans(isWord, s);
      PresentIff(isWord, s, FeatureBlock);
      PresentIff(isWord, s, Narrative);
      NoMalformedIff(isWord, s, Tokens(isWord, s, 0), OpenScan(s, 0));
    }
  }

  /** A required slot that is only there in broken form is reported as malformed, not as missing too. */
  lemma {:induction false} BrokenIsNotMissing(isWord: char -> bool, s: string, slot: SlotName)
    requires !Blank(s) && slot.Required()
    ensures MissingRequiredSlot(slot) in Errors(isWord, s)
       <==> !Present(Tokens(isWord, s, 0), slot) && !Broken(isWord, s, Tokens(isWord, s, 0), OpenScan(s, 0), slot)
  {
    var tokens, opens := Tokens(isWord, s, 0), OpenScan(s, 0);
    OnlyUnknown(tokens, slot);
    OnlyMalformed(isWord, s, tokens, opens, slot);
    var missing := MissingErrors(isWord, s, tokens, opens);
    assert MissingRequiredSlot(slot) in Errors(isWord, s) <==> MissingRequiredSlot(slot) in missing;
  }

  lemma {:induction false} UnknownIff(tokens: seq<SlotToken>, name: string, offset: nat)
    ensures UnknownSlot(name, offset) in UnknownErrors(tokens)
       <==> exists t :: t in tokens && t.name == name && t.start == offset && Known(name).None?
  {
    if tokens != [] {
      UnknownIff(tokens[..|tokens| - 1], name, offset);
      assert tokens == tokens[..|tokens| - 1] + [tokens[|tokens| - 1]];
    }
  }

  lemma {:induction false} NotUnknown(isWord: char -> bool, s: string, tokens: seq<SlotToken>, opens: seq<nat>, name: string, offset: nat)
    requires forall i | i in opens :: Opens(s, i)
    ensures UnknownSlot(name, offset) !in MalformedErrors(isWord, s, tokens, opens)
  {
    if opens != [] { NotUnknown(isWord, s, tokens, opens[..|opens| - 1], name, offset); }
  }

  /** An unknown slot is reported, by name and place, exactly where a well-formed slot is not in the catalogue. */
  lemma {:induction false} UnknownIsExact(isWord: char -> bool, s: string, name: string, offset: nat)
    requires WordClass(isWord) && !Blank(s)
    ensures UnknownSlot(name, offset) in Errors(isWord, s)
       <==> SlotAt(isWord, s, offset).Some? && SlotAt(isWord, s, offset).value.name == name && Known(name).None?
  {
    var tokens, opens := Tokens(isWord, s, 0), OpenScan(s, 0);
    UnknownIff(tokens, name, offset);
    NotUnknown(isWord, s, tokens, opens, name, offset);
    forall t ensures t in tokens <==> SlotAt(isWord, s, t.start) == Some(t) { TokensAreAll(isWord, s, 0, t); }
  }

  lemma {:induction false} MalformedIff(isWord: char -> bool, s: string, tokens: seq<SlotToken>, opens: seq<nat>, slot: Option<string>, offset: nat)
    requires forall i | i in opens :: Opens(s, i)
    ensures MalformedSlot(slot, offset) in MalformedErrors(isWord, s, tokens, opens)
       <==> offset in opens && !Inside(tokens, offset)
            && slot == (if WordAt(isWord, s, offset) == "" then None else Some(WordAt(isWord, s, offset)))
  {
    if opens != [] {
      MalformedIff(isWord, s, tokens, opens[..|opens| - 1], slot, offset);
      assert opens == opens[..|opens| - 1] + [opens[|opens| - 1]];
    }
  }

  lemma {:induction false} NotMalformed(tokens: seq<SlotToken>, slot: Option<string>, offset: nat)
    ensures MalformedSlot(slot, offset) !in UnknownErrors(tokens)
  {
    if tokens != [] { NotMalformed(tokens[..|tokens| - 1], slot, offset); }
  }

  /** A malformed slot is reported only where two braces open and no slot stands, with the word
      that follows them. */
  lemma {:induction false} MalformedIsReal(isWord: char -> bool, s: string, slot: Option<string>, offset: nat)
    requires WordClass(isWord) && !Blank(s) && MalformedSlot(slot, offset) in Errors(isWord, s)
    ensures Opens(s, offset) && SlotAt(isWord, s, offset).None?
    ensures slot == if WordAt(isWord, s, offset) == "" then None else Some(WordAt(isWord, s, offset))
  {
    MalformedIff(isWord, s, Tokens(isWord, s, 0), OpenScan(s, 0), slot, offset);
    NotMalformed(Tokens(isWord, s, 0), slot, offset);
    InsideIsStart(isWord, s, offset);
  }

  ghost predicate ReportedAt(isWord: char -> bool, s: string, offset: nat) {
    exists slot :: MalformedSlot(slot, offset) in Errors(isWord, s)
  }

  /** No opening without a slot goes unreported, there or at the brace before it. */
  lemma {:induction false} NoBrokenSlotIsMissed(isWord: char -> bool, s: string, offset: nat)
    requires WordClass(isWord) && !Blank(s) && Opens(s, offset) && SlotAt(isWord, s, offset).None?
    ensures ReportedAt(isWord, s, offset) || (offset > 0 && ReportedAt(isWord, s, offset - 1))
  {
    OpeningIsScanned(s, 0, offset);
    if offset in OpenScan(s, 0) {
      MalformedIsReported(isWord, s, offset);
    } else {
      MalformedIsReported(isWord, s, offset - 1);
    }
  }

  lemma {:induction false} MalformedIsReported(isWord: char -> bool, s: string, i: nat)
    requires WordClass(isWord) && !Blank(s) && i in OpenScan(s, 0) && (SlotAt(isWord, s, i).None? || Opens(s, i + 1))
    ensures ReportedAt(isWord, s, i)
  {
    SlotOpensOnce(isWord, s, i);
    InsideIsStart(isWord, s, i);
    var name := WordAt(isWord, s, i);
    var slot := if name == "" then None else Some(name);
    MalformedIff(isWord, s, Tokens(isWord, s, 0), OpenScan(s, 0), slot, i);
    assert MalformedSlot(slot, i) in Errors(isWord, s);
  }

  lemma {:induction false} OnlyUnknown(tokens: seq<SlotToken>, slot: SlotName)
    ensures MissingRequiredSlot(slot) !in UnknownErrors(tokens)
  {
    if tokens != [] { OnlyUnknown(tokens[..|tokens| - 1], slot); }
  }

  lemma {:induction false} OnlyMalformed(isWord: char -> bool, s: string, tokens: seq<SlotToken>, opens: seq<nat>, slot: SlotName)
    requires forall i | i in opens :: Opens(s, i)
    ensures MissingRequiredSlot(slot) !in MalformedErrors(isWord, s, tokens, opens)
  {
    if opens != [] { OnlyMalformed(isWord, s, tokens, opens[..|opens| - 1], slot); }
  }
}
