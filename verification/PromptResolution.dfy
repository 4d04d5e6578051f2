/** Expanding a template: one pass, and slot values are never expanded again. */
module PromptResolution {
  import opened Wrappers
  import opened PromptTemplate

  datatype Piece = Literal(text: string) | SlotPiece(name: string, raw: string)

  function PieceOf(s: string, t: SlotToken): Piece
    requires t.start <= t.end <= |s|
  {
    SlotPiece(t.name, s[t.start..t.end])
  }

  /** A template as it is walked: text, slot, text, slot, ..., text. */
  function Pieces(isWord: char -> bool, s: string, from: nat): seq<Piece>
    requires from <= |s|
    decreases |s| - from
  {
    var t := NextSlot(isWord, s, from);
    if t.None? then [Literal(s[from..])]
    else [Literal(s[from..t.value.start])] + ([PieceOf(s, t.value)] + Pieces(isWord, s, t.value.end))
  }

  function BlockOf(blocks: map<SlotName, string>, slot: SlotName): string {
    if slot in blocks then blocks[slot] else ""
  }

  /** What a piece becomes: text stays, a slot of the catalogue is its block or nothing, any other
      token stays as written. */
  function Expanded(blocks: map<SlotName, string>, p: Piece): string {
    match p
    case Literal(text) => text
    case SlotPiece(name, raw) =>
      var slot := Known(name);
      if slot.None? then raw else BlockOf(blocks, slot.value)
  }

  function Concat(blocks: map<SlotName, string>, pieces: seq<Piece>): string {
    if pieces == [] then "" else Expanded(blocks, pieces[0]) + Concat(blocks, pieces[1..])
  }

  /** Slots of the catalogue among the tokens, in catalogue order. */
  function UsedSlots(tokens: seq<SlotToken>): seq<SlotName> {
    (if Present(tokens, FeatureBlock) then [FeatureBlock] else []) +
    (if Present(tokens, Narrative) then [Narrative] else []) +
    (if Present(tokens, Language) then [Language] else [])
  }

  datatype ResolvedPrompt = ResolvedPrompt(text: string, slotsUsed: seq<SlotName>)

  function Resolution(isWord: char -> bool, s: string, blocks: map<SlotName, string>): ResolvedPrompt {
    ResolvedPrompt(Concat(blocks, Pieces(isWord, s, 0)), UsedSlots(Tokens(isWord, s, 0)))
  }

  lemma {:induction false} StepConcat(isWord: char -> bool, s: string, blocks: map<SlotName, string>, from: nat)
    requires from <= |s| && NextSlot(isWord, s, from).Some?
    ensures var t := NextSlot(isWord, s, from).value;
            Concat(blocks, Pieces(isWord, s, from))
            == s[from..t.start] + (Expanded(blocks, PieceOf(s, t)) + Concat(blocks, Pieces(isWord, s, t.end)))
  {}

  lemma {:induction false} LastConcat(isWord: char -> bool, s: string, blocks: map<SlotName, string>, from: nat)
    requires from <= |s| && NextSlot(isWord, s, from).None?
    ensures Concat(blocks, Pieces(isWord, s, from)) == s[from..]
  {}

  lemma {:induction false} JoinFour(text: string, a: string, b: string, c: string)
    ensures text + (a + (b + c)) == (text + a + b) + c
  {}

  /** The substitution walks the source once and appends to the result, which it never reads again. */
  method Substitute(isWord: char -> bool, s: string, blocks: map<SlotName, string>) returns (text: string, used: set<SlotName>)
    ensures text == Concat(blocks, Pieces(isWord, s, 0))
    ensures AreUsed(used, Tokens(isWord, s, 0))
  {
    text, used := "", {};
    var from := 0;
    var next := NextSlot(isWord, s, 0);
    ghost var tokens: seq<SlotToken> := [];
    while next.Some?
      invariant from <= |s| && next == NextSlot(isWord, s, from)
      invariant text + Concat(blocks, Pieces(isWord, s, from)) == Concat(blocks, Pieces(isWord, s, 0))
      invariant tokens + Tokens(isWord, s, from) == Tokens(isWord, s, 0)
      invariant AreUsed(used, tokens)
      decreases |s| - from
    {
      var t := next.value;
      StepConcat(isWord, s, blocks, from);
      JoinFour(text, s[from..t.start], Expanded(blocks, PieceOf(s, t)), Concat(blocks, Pieces(isWord, s, t.end)));
      TokensNext(isWord, s, tokens, from);
      UsedNext(used, tokens, t);
      text := text + s[from..t.start] + Expanded(blocks, PieceOf(s, t));
      used := Use(used, t);
      tokens := tokens + [t];
      from := t.end;
      next := NextSlot(isWord, s, from);
    }
    LastConcat(isWord, s, blocks, from);
    text := text + s[from..];
  }

  method ResolveTemplate(isWord: char -> bool, s: string, blocks: map<SlotName, string>) returns (r: ResolvedPrompt)
    ensures r == Resolution(isWord, s, blocks)
  {
    var text, used := Substitute(isWord, s, blocks);
    OrderIsUsed(used, Tokens(isWord, s, 0));
    r := ResolvedPrompt(text, CatalogueOrder(used));
  }

  function CatalogueOrder(used: set<SlotName>): seq<SlotName> {
    (if FeatureBlock in used then [FeatureBlock] else []) +
    (if Narrative in used then [Narrative] else []) +
    (if Language in used then [Language] else [])
  }

  lemma {:induction false} OrderIsUsed(used: set<SlotName>, tokens: seq<SlotToken>)
    requires AreUsed(used, tokens)
    ensures CatalogueOrder(used) == UsedSlots(tokens)
  {}

  ghost predicate AreUsed(used: set<SlotName>, tokens: seq<SlotToken>) {
    forall slot :: slot in used <==> Present(tokens, slot)
  }

  function Use(used: set<SlotName>, t: SlotToken): set<SlotName> {
    if Known(t.name).Some? then used + {Known(t.name).value} else used
  }

  lemma {:induction false} UsedNext(used: set<SlotName>, tokens: seq<SlotToken>, t: SlotToken)
    requires AreUsed(used, tokens)
    ensures AreUsed(Use(used, t), tokens + [t])
  {}

  // ---- what expansion means ----

  /** Every slot of the catalogue stands for its own token. */
  ghost predicate OwnTokens(blocks: map<SlotName, string>) {
    forall slot: SlotName :: slot in blocks && blocks[slot] == slot.Token()
  }

  lemma {:induction false} OwnTokenIsTheText(isWord: char -> bool, s: string, i: nat, blocks: map<SlotName, string>)
    requires SlotAt(isWord, s, i).Some? && OwnTokens(blocks)
    ensures var t := SlotAt(isWord, s, i).value; Expanded(blocks, PieceOf(s, t)) == s[t.start..t.end]
  {
    var t := SlotAt(isWord, s, i).value;
    assert s[t.start..t.end] == "{{" + t.name + "}}";
    if Known(t.name).Some? { KnownIsTheCatalogue(t.name, Known(t.name).value); }
  }

  lemma {:induction false} ThreeSlices(s: string, a: nat, b: nat, c: nat)
    requires a <= b <= c <= |s|
    ensures s[a..] == s[a..b] + (s[b..c] + s[c..])
  {}

  lemma {:induction false} OwnTokensFrom(isWord: char -> bool, s: string, from: nat, blocks: map<SlotName, string>)
    requires from <= |s| && OwnTokens(blocks)
    ensures Concat(blocks, Pieces(isWord, s, from)) == s[from..]
    decreases |s| - from
  {
    var next := NextSlot(isWord, s, from);
    if next.None? {
      LastConcat(isWord, s, blocks, from);
    } else {
      var t := next.value;
      OwnTokensFrom(isWord, s, t.end, blocks);
      StepConcat(isWord, s, blocks, from);
      OwnTokenIsTheText(isWord, s, t.start, blocks);
      ThreeSlices(s, from, t.start, t.end);
    }
  }

  /** Mapping every slot to its own token returns any source unchanged, valid or not. */
  lemma {:induction false} OwnTokensChangeNothing(isWord: char -> bool, s: string, blocks: map<SlotName, string>)
    requires OwnTokens(blocks)
    ensures Resolution(isWord, s, blocks).text == s
  {
    OwnTokensFrom(isWord, s, 0, blocks);
  }

  ghost predicate PlainText(text: string) { forall i: nat :: !Opens(text, i) }

  /** A literal piece of a valid template holds no opening braces, so all of them were slots. */
  lemma {:induction false} LiteralIsPlain(isWord: char -> bool, s: string, from: nat, to: nat)
    requires from <= to <= |s| && OnlyCatalogueSlots(isWord, s)
    requires forall i: nat | from <= i < to :: SlotAt(isWord, s, i).None?
    ensures PlainText(s[from..to])
  {
    forall i: nat ensures !Opens(s[from..to], i) {
      if Opens(s[from..to], i) { assert Opens(s, from + i); }
    }
  }

  lemma {:induction false} ValidPieces(isWord: char -> bool, s: string, from: nat, p: Piece)
    requires from <= |s| && OnlyCatalogueSlots(isWord, s) && p in Pieces(isWord, s, from)
    ensures if p.Literal? then PlainText(p.text) else Known(p.name).Some?
    decreases |s| - from
  {
    var next := NextSlot(isWord, s, from);
    if next.None? {
      LiteralIsPlain(isWord, s, from, |s|);
      assert s[from..] == s[from..|s|];
    } else if p in Pieces(isWord, s, next.value.end) {
      ValidPieces(isWord, s, next.value.end, p);
    } else {
      LiteralIsPlain(isWord, s, from, next.value.start);
      assert Opens(s, next.value.start);
    }
  }

  /** A template that validates uses both required slots, and expands to nothing but plain text and
      the blocks themselves, each exactly as given or nothing: no block is looked into again. */
  lemma {:induction false} ValidTemplateExpands(isWord: char -> bool, s: string, blocks: map<SlotName, string>)
    requires WordClass(isWord) && Errors(isWord, s) == []
    ensures FeatureBlock in Resolution(isWord, s, blocks).slotsUsed && Narrative in Resolution(isWord, s, blocks).slotsUsed
    ensures forall p | p in Pieces(isWord, s, 0) ::
              if p.Literal? then PlainText(p.text) && Expanded(blocks, p) == p.text
              else exists slot: SlotName :: p.name == slot.Text() && Expanded(blocks, p) == if slot in blocks then blocks[slot] else ""
  {
    NoErrorsIffValid(isWord, s);
    PresentIff(isWord, s, FeatureBlock);
    PresentIff(isWord, s, Narrative);
    forall p | p in Pieces(isWord, s, 0)
      ensures if p.Literal? then PlainText(p.text) && Expanded(blocks, p) == p.text
              else exists slot: SlotName :: p.name == slot.Text() && Expanded(blocks, p) == if slot in blocks then blocks[slot] else ""
    {
      ValidPieces(isWord, s, 0, p);
      PieceExpands(blocks, p);
    }
  }

  lemma {:induction false} PieceExpands(blocks: map<SlotName, string>, p: Piece)
    requires p.SlotPiece? ==> Known(p.name).Some?
    ensures p.Literal? ==> Expanded(blocks, p) == p.text
    ensures p.SlotPiece? ==> exists slot: SlotName :: p.name == slot.Text() && Expanded(blocks, p) == if slot in blocks then blocks[slot] else ""
  {
    if p.SlotPiece? {
      var slot := Known(p.name).value;
      KnownIsTheCatalogue(p.name, slot);
      assert p.name == slot.Text();
    }
  }

  /** On every slot these tokens use, the two sets of blocks agree. */
  ghost predicate Agree(tokens: seq<SlotToken>, a: map<SlotName, string>, b: map<SlotName, string>) {
    forall t | t in tokens && Known(t.name).Some? ::
      var slot := Known(t.name).value; slot in a && slot in b && a[slot] == b[slot]
  }

  lemma {:induction false} AgreeCons(t: SlotToken, rest: seq<SlotToken>, a: map<SlotName, string>, b: map<SlotName, string>)
    requires Agree([t] + rest, a, b)
    ensures Agree(rest, a, b) && Agree([t], a, b)
  {}

  lemma {:induction false} AgreeOnPiece(s: string, t: SlotToken, a: map<SlotName, string>, b: map<SlotName, string>)
    requires Agree([t], a, b) && t.start <= t.end <= |s|
    ensures Expanded(a, PieceOf(s, t)) == Expanded(b, PieceOf(s, t))
  {}

  /** Changing what a slot stands for changes nothing in a template that does not use it. */
  lemma {:induction false} UnusedSlotDoesNotMatter(isWord: char -> bool, s: string, a: map<SlotName, string>, b: map<SlotName, string>)
    requires forall slot | slot in Resolution(isWord, s, a).slotsUsed :: slot in a && slot in b && a[slot] == b[slot]
    ensures Resolution(isWord, s, a) == Resolution(isWord, s, b)
  {
    var tokens := Tokens(isWord, s, 0);
    forall t | t in tokens && Known(t.name).Some? ensures Known(t.name).value in UsedSlots(tokens) {
      KnownIsTheCatalogue(t.name, Known(t.name).value);
      assert Present(tokens, Known(t.name).value);
    }
    SameExpansion(isWord, s, 0, a, b);
  }

  lemma {:induction false} SameExpansion(isWord: char -> bool, s: string, from: nat, a: map<SlotName, string>, b: map<SlotName, string>)
    requires from <= |s| && Agree(Tokens(isWord, s, from), a, b)
    ensures Concat(a, Pieces(isWord, s, from)) == Concat(b, Pieces(isWord, s, from))
    decreases |s| - from
  {
    var next := NextSlot(isWord, s, from);
    if next.None? {
      LastConcat(isWord, s, a, from);
      LastConcat(isWord, s, b, from);
    } else {
      var t := next.value;
      AgreeCons(t, Tokens(isWord, s, t.end), a, b);
      AgreeOnPiece(s, t, a, b);
      SameExpansion(isWord, s, t.end, a, b);
      StepConcat(isWord, s, a, from);
      StepConcat(isWord, s, b, from);
    }
  }
}
