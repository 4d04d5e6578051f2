/** What slots, errors and expansions are, told of the characters of a template. */
module PromptMeaning {
  import opened Wrappers
  import opened PythonText
  import opened PromptTemplate
  import opened PromptResolution

  // ---- slots ----

  /** At `i` stands a slot of this name: one or more word characters between two pairs of braces. */
  ghost predicate Stands(isWord: char -> bool, s: string, i: nat, name: string) {
    && name != "" && (forall k | 0 <= k < |name| :: isWord(name[k]))
    && i + |name| + 4 <= |s| && s[i..i + |name| + 4] == "{{" + name + "}}"
  }

  lemma {:induction false} SlotAtStands(isWord: char -> bool, s: string, i: nat)
    requires SlotAt(isWord, s, i).Some?
    ensures var t := SlotAt(isWord, s, i).value; Stands(isWord, s, i, t.name) && t == SlotToken(i, i + |t.name| + 4, t.name)
  {
    var t := SlotAt(isWord, s, i).value;
    assert s[i..t.end] == "{{" + t.name + "}}";
  }

  lemma {:induction false} StandsAsSlot(isWord: char -> bool, s: string, i: nat, name: string)
    requires WordClass(isWord) && Stands(isWord, s, i, name)
    ensures SlotAt(isWord, s, i) == Some(SlotToken(i, i + |name| + 4, name))
  {
    var there, n := s[i..i + |name| + 4], |name|;
    assert there[0] == '{' && there[1] == '{' && there[2 + n] == '}' && there[3 + n] == '}';
    assert s[i] == there[0] && s[i + 1] == there[1] && s[i + 2 + n] == there[2 + n] && s[i + 3 + n] == there[3 + n];
    forall k | 0 <= k < n ensures s[i + 2 + k] == name[k] {
      assert there[2 + k] == name[k] && s[i + (2 + k)] == there[2 + k];
    }
    forall k | i + 2 <= k < i + 2 + n ensures isWord(s[k]) { assert s[i + 2 + (k - i - 2)] == name[k - i - 2]; }
    WordEndIs(isWord, s, i + 2, i + 2 + n);
    assert s[i + 2..i + 2 + n] == name;
  }

  lemma {:induction false} WordEndIs(isWord: char -> bool, s: string, i: nat, e: nat)
    requires i <= e <= |s| && (forall k | i <= k < e :: isWord(s[k])) && (e < |s| ==> !isWord(s[e]))
    ensures WordEnd(isWord, s, i) == e
    decreases e - i
  {
    if i < e { WordEndIs(isWord, s, i + 1, e); }
  }

  lemma {:induction false} SlotIff(isWord: char -> bool, s: string, i: nat, name: string)
    requires WordClass(isWord)
    ensures SlotAt(isWord, s, i).Some? && SlotAt(isWord, s, i).value.name == name <==> Stands(isWord, s, i, name)
  {
    if SlotAt(isWord, s, i).Some? { SlotAtStands(isWord, s, i); }
    if Stands(isWord, s, i, name) { StandsAsSlot(isWord, s, i, name); }
  }

  ghost predicate StandsSomewhere(isWord: char -> bool, s: string, name: string) {
    exists i: nat :: Stands(isWord, s, i, name)
  }

  lemma {:induction false} HasSlotIff(isWord: char -> bool, s: string, slot: SlotName)
    requires WordClass(isWord)
    ensures HasSlot(isWord, s, slot) <==> StandsSomewhere(isWord, s, slot.Text())
  {
    forall i: nat ensures SlotAt(isWord, s, i).Some? && SlotAt(isWord, s, i).value.name == slot.Text() <==> Stands(isWord, s, i, slot.Text()) {
      SlotIff(isWord, s, i, slot.Text());
    }
  }

  // ---- which slots are used ----

  lemma {:induction false} SlotIsUsedIff(isWord: char -> bool, s: string, blocks: map<SlotName, string>, slot: SlotName)
    requires WordClass(isWord)
    ensures slot in Resolution(isWord, s, blocks).slotsUsed <==> StandsSomewhere(isWord, s, slot.Text())
  {
    PresentIff(isWord, s, slot);
    HasSlotIff(isWord, s, slot);
    UsedIff(Tokens(isWord, s, 0), slot);
  }

  lemma {:induction false} UsedIff(tokens: seq<SlotToken>, slot: SlotName)
    ensures slot in UsedSlots(tokens) <==> Present(tokens, slot)
  {}

  /** The slots used are those that stand somewhere, the feature block before the narrative and that
      before the language. */
  lemma {:induction false} SlotsUsedAre(isWord: char -> bool, s: string, blocks: map<SlotName, string>)
    requires WordClass(isWord)
    ensures var used := Resolution(isWord, s, blocks).slotsUsed;
            && (FeatureBlock in used <==> StandsSomewhere(isWord, s, "feature_block"))
            && (Narrative in used <==> StandsSomewhere(isWord, s, "narrative"))
            && (Language in used <==> StandsSomewhere(isWord, s, "language"))
            && (forall i, j | 0 <= i < j < |used| :: Turn(used[i]) < Turn(used[j]))
  {
    SlotIsUsedIff(isWord, s, blocks, FeatureBlock);
    SlotIsUsedIff(isWord, s, blocks, Narrative);
    SlotIsUsedIff(isWord, s, blocks, Language);
  }

  function Turn(slot: SlotName): nat {
    match slot case FeatureBlock => 0 case Narrative => 1 case Language => 2
  }

  // ---- openings that are no slot ----

  /** How many opening braces stand right before `i`. */
  function BracesBefore(s: string, i: nat): (n: nat)
    requires i <= |s|
  {
    if i == 0 || s[i - 1] != '{' then 0 else 1 + BracesBefore(s, i - 1)
  }

  /** Opening braces are taken in pairs from the left, so an opening counts when the braces before it pair up. */
  lemma {:induction false} ScanFrom(s: string, from: nat, i: nat)
    requires from <= i < |s| && BracesBefore(s, from) % 2 == 0
    ensures i in OpenScan(s, from) <==> Opens(s, i) && BracesBefore(s, i) % 2 == 0
    decreases i - from
  {
    if from < i {
      if Opens(s, from) {
        assert BracesBefore(s, from + 1) == 1 + BracesBefore(s, from);
        assert BracesBefore(s, from + 2) == 2 + BracesBefore(s, from);
        if from + 2 <= i { ScanFrom(s, from + 2, i); }
      } else {
        SkipOne(s, from, i);
      }
    }
  }

  lemma {:induction false} SkipOne(s: string, from: nat, i: nat)
    requires from < i < |s| && BracesBefore(s, from) % 2 == 0 && !Opens(s, from)
    ensures i in OpenScan(s, from) <==> Opens(s, i) && BracesBefore(s, i) % 2 == 0
    decreases i - from, 0
  {
    assert OpenScan(s, from) == OpenScan(s, from + 1);
    if s[from] != '{' {
      assert BracesBefore(s, from + 1) == 0;
      ScanFrom(s, from + 1, i);
    } else {
      assert from + 1 < |s| && s[from + 1] != '{';
      assert OpenScan(s, from + 1) == OpenScan(s, from + 2);
      if i == from + 1 {
        assert !Opens(s, i);
      } else {
        assert BracesBefore(s, from + 2) == 0;
        ScanFrom(s, from + 2, i);
      }
    }
  }

  lemma {:induction false} ScanIff(s: string, i: nat)
    ensures i in OpenScan(s, 0) <==> Opens(s, i) && BracesBefore(s, i) % 2 == 0
  {
    if i < |s| { ScanFrom(s, 0, i); }
  }

  /** The word characters that follow the opening, all of them. */
  ghost predicate WordAfter(isWord: char -> bool, s: string, i: nat, word: string) {
    && i + |word| <= |s| && s[i..i + |word|] == word
    && (forall k | 0 <= k < |word| :: isWord(word[k]))
    && (i + |word| < |s| ==> !isWord(s[i + |word|]))
  }

  lemma {:induction false} WordAtIs(isWord: char -> bool, s: string, i: nat, word: string)
    requires Opens(s, i)
    ensures WordAt(isWord, s, i) == word <==> WordAfter(isWord, s, i + 2, word)
  {
    if WordAfter(isWord, s, i + 2, word) {
      var f := i + 2 + |word|;
      forall k | i + 2 <= k < f ensures isWord(s[k]) { assert s[k] == word[k - i - 2]; }
      WordEndIs(isWord, s, i + 2, f);
    }
  }

  /** A malformed slot is reported, with the word after it, exactly at a pair of opening braces that is
      no slot. */
  lemma {:induction false} MalformedIsExact(isWord: char -> bool, s: string, slot: Option<string>, offset: nat)
    requires WordClass(isWord) && !Blank(s)
    ensures MalformedSlot(slot, offset) in Errors(isWord, s) <==>
              && Opens(s, offset) && BracesBefore(s, offset) % 2 == 0
              && (forall name :: !Stands(isWord, s, offset, name))
              && WordAfter(isWord, s, offset + 2, if slot.Some? then slot.value else "") && slot != Some("")
  {
    var tokens, opens := Tokens(isWord, s, 0), OpenScan(s, 0);
    MalformedIff(isWord, s, tokens, opens, slot, offset);
    NotMalformed(tokens, slot, offset);
    ScanIff(s, offset);
    if Opens(s, offset) {
      InsideIsStart(isWord, s, offset);
      NoSlotIff(isWord, s, offset);
      WordAtIs(isWord, s, offset, if slot.Some? then slot.value else "");
    }
  }

  lemma {:induction false} NoSlotIff(isWord: char -> bool, s: string, i: nat)
    requires WordClass(isWord)
    ensures SlotAt(isWord, s, i).None? <==> forall name :: !Stands(isWord, s, i, name)
  {
    if SlotAt(isWord, s, i).Some? { SlotAtStands(isWord, s, i); }
    forall name | Stands(isWord, s, i, name) ensures SlotAt(isWord, s, i).Some? { StandsAsSlot(isWord, s, i, name); }
  }

  /** A blank template has that error alone, and any other template does not have it. */
  lemma {:induction false} BlankIsTheOnlyError(isWord: char -> bool, s: string)
    ensures Blank(s) ==> Errors(isWord, s) == [EmptySource]
    ensures EmptySource in Errors(isWord, s) ==> Blank(s)
  {
    NeverEmptySource(isWord, s, Tokens(isWord, s, 0), OpenScan(s, 0));
  }

  lemma {:induction false} NeverEmptySource(isWord: char -> bool, s: string, tokens: seq<SlotToken>, opens: seq<nat>)
    requires forall i | i in opens :: Opens(s, i)
    ensures EmptySource !in UnknownErrors(tokens) && EmptySource !in MalformedErrors(isWord, s, tokens, opens)
    decreases |tokens| + |opens|
  {
    if tokens != [] {
      NeverEmptySource(isWord, s, tokens[..|tokens| - 1], []);
    }
    if opens != [] {
      NoEmptySource(isWord, s, tokens, opens);
    }
  }

  lemma {:induction false} NoEmptySource(isWord: char -> bool, s: string, tokens: seq<SlotToken>, opens: seq<nat>)
    requires forall i | i in opens :: Opens(s, i)
    ensures EmptySource !in MalformedErrors(isWord, s, tokens, opens)
  {
    if opens != [] { NoEmptySource(isWord, s, tokens, opens[..|opens| - 1]); }
  }

  // ---- the order of the errors ----

  /** Unknown slots first, then malformed ones, both from left to right, then missing ones. */
  ghost predicate ComesBefore(a: TemplateError, b: TemplateError) {
    match (a, b)
    case (UnknownSlot(_, i), UnknownSlot(_, j)) => i < j
    case (UnknownSlot(_, _), _) => true
    case (MalformedSlot(_, _), UnknownSlot(_, _)) => false
    case (MalformedSlot(_, i), MalformedSlot(_, j)) => i < j
    case (MalformedSlot(_, _), _) => true
    case (MissingRequiredSlot(_), MissingRequiredSlot(_)) => a == MissingRequiredSlot(FeatureBlock) && b == MissingRequiredSlot(Narrative)
    case (_, _) => false
  }

  ghost predicate InTurn(errors: seq<TemplateError>) {
    forall i, j | 0 <= i < j < |errors| :: ComesBefore(errors[i], errors[j])
  }

  lemma {:induction false} TokensRise(isWord: char -> bool, s: string, from: nat)
    requires from <= |s|
    ensures forall t | t in Tokens(isWord, s, from) :: from <= t.start
    ensures forall i, j | 0 <= i < j < |Tokens(isWord, s, from)| :: Tokens(isWord, s, from)[i].start < Tokens(isWord, s, from)[j].start
    decreases |s| - from
  {
    var next := NextSlot(isWord, s, from);
    if next.Some? { TokensRise(isWord, s, next.value.end); }
  }

  lemma {:induction false} UnknownInTurn(tokens: seq<SlotToken>)
    requires forall i, j | 0 <= i < j < |tokens| :: tokens[i].start < tokens[j].start
    ensures InTurn(UnknownErrors(tokens))
    ensures forall e | e in UnknownErrors(tokens) :: e.UnknownSlot? && exists t :: t in tokens && t.start == e.offset
  {
    if tokens != [] {
      var n := |tokens| - 1;
      UnknownInTurn(tokens[..n]);
      assert tokens == tokens[..n] + [tokens[n]];
      forall e | e in UnknownErrors(tokens[..n]) ensures e.UnknownSlot? && e.offset < tokens[n].start {
        var t :| t in tokens[..n] && t.start == e.offset;
      }
    }
  }

  lemma {:induction false} ScanRises(s: string, from: nat)
    requires from <= |s|
    ensures forall i, j | 0 <= i < j < |OpenScan(s, from)| :: OpenScan(s, from)[i] < OpenScan(s, from)[j]
    decreases |s| - from
  {
    if from < |s| {
      if Opens(s, from) {
        ScanRises(s, from + 2);
        var rest := OpenScan(s, from + 2);
        assert forall j | 0 <= j < |rest| :: rest[j] in rest;
      } else {
        ScanRises(s, from + 1);
      }
    }
  }

  lemma {:induction false} MalformedInTurn(isWord: char -> bool, s: string, tokens: seq<SlotToken>, opens: seq<nat>)
    requires (forall i | i in opens :: Opens(s, i)) && forall i, j | 0 <= i < j < |opens| :: opens[i] < opens[j]
    ensures InTurn(MalformedErrors(isWord, s, tokens, opens))
    ensures forall e | e in MalformedErrors(isWord, s, tokens, opens) :: e.MalformedSlot? && e.offset in opens
  {
    if opens != [] {
      var n := |opens| - 1;
      MalformedInTurn(isWord, s, tokens, opens[..n]);
      assert opens == opens[..n] + [opens[n]];
    }
  }

  lemma {:induction false} InTurnAppend(a: seq<TemplateError>, b: seq<TemplateError>)
    requires InTurn(a) && InTurn(b) && forall x, y | x in a && y in b :: ComesBefore(x, y)
    ensures InTurn(a + b)
  {}

  ghost predicate AllUnknown(errors: seq<TemplateError>) { forall x | x in errors :: x.UnknownSlot? }

  ghost predicate AllMalformed(errors: seq<TemplateError>) { forall x | x in errors :: x.MalformedSlot? }

  ghost predicate AllMissing(errors: seq<TemplateError>) { forall x | x in errors :: x.MissingRequiredSlot? }

  lemma {:induction false} ThreeParts(a: seq<TemplateError>, b: seq<TemplateError>, c: seq<TemplateError>)
    requires InTurn(a) && InTurn(b) && InTurn(c)
    requires AllUnknown(a) && AllMalformed(b) && AllMissing(c)
    ensures InTurn(a + b + c)
  {
    InTurnAppend(a, b);
    InTurnAppend(a + b, c);
  }

  lemma {:induction false} MissingInTurn(isWord: char -> bool, s: string, tokens: seq<SlotToken>, opens: seq<nat>)
    requires forall i | i in opens :: Opens(s, i)
    ensures InTurn(MissingErrors(isWord, s, tokens, opens)) && AllMissing(MissingErrors(isWord, s, tokens, opens))
  {}

  /** The errors are reported in turn. */
  lemma {:induction false} ErrorsInTurn(isWord: char -> bool, s: string)
    ensures InTurn(Errors(isWord, s))
  {
    var tokens, opens := Tokens(isWord, s, 0), OpenScan(s, 0);
    TokensRise(isWord, s, 0);
    ScanRises(s, 0);
    UnknownInTurn(tokens);
    MalformedInTurn(isWord, s, tokens, opens);
    MissingInTurn(isWord, s, tokens, opens);
    ThreeParts(UnknownErrors(tokens), MalformedErrors(isWord, s, tokens, opens), MissingErrors(isWord, s, tokens, opens));
  }
}
