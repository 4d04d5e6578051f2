/** What the tolerant search finds, told by words: the words of the span, however far apart. */
module SpanWords {
  import opened PythonText
  import opened Text
  import opened SpanLocate

  /** Space, tab, carriage return or line break, and nothing else. */
  predicate AllSpace(s: string) { forall i | 0 <= i < |s| :: s[i] == ' ' || s[i] == '\t' || s[i] == '\r' || s[i] == '\n' }

  predicate IsGap(s: string) { s != "" && AllSpace(s) }

  predicate IsWord(s: string) {
    s != "" && forall i | 0 <= i < |s| :: s[i] != ' ' && s[i] != '\t' && s[i] != '\r' && s[i] != '\n'
  }

  /** The words with the gaps between them. */
  function Woven(words: seq<string>, gaps: seq<string>): string
    requires |words| == |gaps| + 1
  {
    if gaps == [] then words[0] else words[0] + gaps[0] + Woven(words[1..], gaps[1..])
  }

  predicate Weaves(words: seq<string>, gaps: seq<string>) {
    && |words| == |gaps| + 1
    && (forall i | 0 <= i < |words| :: IsWord(words[i]))
    && (forall i | 0 <= i < |gaps| :: IsGap(gaps[i]))
  }

  // ---- folding a woven text ----

  lemma {:induction false} FoldedWhole(text: string, n: nat)
    requires n <= |text| && forall i | 0 <= i < n :: !IsFoldable(text[i])
    ensures FoldedTo(text, n) == text[..n]
  {
    if n > 0 {
      FoldedWhole(text, n - 1);
      assert text[..n] == text[..n - 1] + [text[n - 1]];
    }
  }

  lemma {:induction false} WordFolds(w: string)
    requires IsWord(w)
    ensures Folded(w) == w
  {
    FoldedWhole(w, |w|);
    assert w[..|w|] == w;
  }

  lemma {:induction false} GapFoldsTo(g: string, n: nat)
    requires IsGap(g) && 0 < n <= |g|
    ensures FoldedTo(g, n) == " "
  {
    if n > 1 { GapFoldsTo(g, n - 1); } else { assert FoldedTo(g, 0) == ""; }
  }

  lemma {:induction false} OriginBelow(text: string, n: nat)
    requires n <= |text|
    ensures |Origin(text, n)| <= |Folded(text)| && |Folded(text)| == |Origin(text, |text|)|
  {
    OriginPrefix(text, n, |text|);
  }

  /** Where a run does not go on, folding the whole is folding the two parts. */
  lemma {:induction false} FoldedParts(a: string, b: string)
    requires a != "" && b != "" && (!IsFoldable(b[0]) || !IsFoldable(a[|a| - 1]))
    ensures Folded(a + b) == Folded(a) + Folded(b)
  {
    var t := a + b;
    var s := |Origin(t, |a|)|;
    assert t[0..|a|] == a && t[|a|..|t|] == b;
    OriginBelow(t, |a|);
    FoldedSlice(t, 0, |a|, 0, s);
    FoldedSlice(t, |a|, |t|, s, |Folded(t)|);
  }

  lemma {:induction false} WovenStarts(words: seq<string>, gaps: seq<string>)
    requires Weaves(words, gaps)
    ensures var t := Woven(words, gaps); t != "" && t[0] == words[0][0] && !IsFoldable(t[0])
  {
    assert IsWord(words[0]);
    assert Woven(words, gaps)[0] == words[0][0];
  }

  /** A woven text folds to its words with one space between them. */
  lemma {:induction false} WovenFolds(words: seq<string>, gaps: seq<string>)
    requires Weaves(words, gaps)
    ensures Folded(Woven(words, gaps)) == Join(words)
  {
    WordFolds(words[0]);
    if gaps != [] {
      var rest := Woven(words[1..], gaps[1..]);
      assert IsWord(words[0]) && IsGap(gaps[0]);
      WovenFolds(words[1..], gaps[1..]);
      WovenStarts(words[1..], gaps[1..]);
      GapFoldsTo(gaps[0], |gaps[0]|);
      FoldedParts(gaps[0], rest);
      assert words[0] + gaps[0] + rest == words[0] + (gaps[0] + rest);
      FoldedParts(words[0], gaps[0] + rest);
    }
  }

  // ---- every text is woven ----

  lemma {:induction false} Prefix(text: string, foldable: bool) returns (n: nat)
    ensures n <= |text| && (forall i | 0 <= i < n :: IsFoldable(text[i]) == foldable)
    ensures n < |text| ==> IsFoldable(text[n]) != foldable
  {
    n := 0;
    while n < |text| && IsFoldable(text[n]) == foldable
      invariant n <= |text| && forall i | 0 <= i < n :: IsFoldable(text[i]) == foldable
    {
      n := n + 1;
    }
  }

  lemma {:induction false} TextIsWoven(text: string) returns (words: seq<string>, gaps: seq<string>)
    requires text != "" && !IsFoldable(text[0]) && !IsFoldable(text[|text| - 1])
    ensures Weaves(words, gaps) && text == Woven(words, gaps)
    decreases |text|
  {
    var n := Prefix(text, false);
    var word, after := text[..n], text[n..];
    assert IsWord(word);
    if n == |text| {
      words, gaps := [text], [];
      assert word == text;
    } else {
      var m := Prefix(after, true);
      var gap, rest := after[..m], after[m..];
      assert after[|after| - 1] == text[|text| - 1];
      assert IsGap(gap);
      var more, between := TextIsWoven(rest);
      words, gaps := [word] + more, [gap] + between;
      assert words[1..] == more && gaps[1..] == between;
      assert text == word + gap + rest;
    }
  }

  lemma {:induction false} WovenAlike(words: seq<string>, gaps: seq<string>, more: seq<string>, between: seq<string>)
    requires Weaves(words, gaps) && Weaves(more, between)
    ensures Folded(Woven(words, gaps)) == Folded(Woven(more, between)) <==> words == more
  {
    WovenFolds(words, gaps);
    WovenFolds(more, between);
    if Join(words) == Join(more) {
      forall i | 0 <= i < |words| ensures SpaceFree(words[i]) { assert IsWord(words[i]); }
      forall i | 0 <= i < |more| ensures SpaceFree(more[i]) { assert IsWord(more[i]); }
      JoinInjective(words, more);
    }
  }

  // ---- what the tolerant search looks for ----

  /** These words with gaps between them, and space at the ends or not. */
  ghost predicate Quotes(span: string, words: seq<string>) {
    exists lead: string, gaps: seq<string>, trail: string ::
      Weaves(words, gaps) && AllSpace(lead) && AllSpace(trail) && span == lead + Woven(words, gaps) + trail
  }

  ghost predicate Reads(stretch: string, words: seq<string>) {
    exists gaps: seq<string> :: Weaves(words, gaps) && stretch == Woven(words, gaps)
  }

  lemma {:induction false} WovenEnds(words: seq<string>, gaps: seq<string>)
    requires Weaves(words, gaps)
    ensures var t := Woven(words, gaps); t != "" && !IsFoldable(t[|t| - 1])
  {
    assert IsWord(words[|words| - 1]);
    if gaps != [] { WovenEnds(words[1..], gaps[1..]); }
  }

  lemma {:induction false} LeftStripped(lead: string, t: string)
    requires AllSpace(lead) && t != "" && !IsFoldable(t[0])
    ensures LeftStrip(lead + t) == t
  {
    if lead == "" {
      assert lead + t == t;
    } else {
      assert (lead + t)[1..] == lead[1..] + t;
      LeftStripped(lead[1..], t);
    }
  }

  lemma {:induction false} RightStripped(t: string, trail: string)
    requires AllSpace(trail) && t != "" && !IsFoldable(t[|t| - 1])
    ensures RightStrip(t + trail) == t
  {
    if trail == "" {
      assert t + trail == t;
    } else {
      var n := |trail| - 1;
      assert (t + trail)[..|t + trail| - 1] == t + trail[..n];
      RightStripped(t, trail[..n]);
    }
  }

  lemma {:induction false} QuotesStripped(span: string, words: seq<string>) returns (gaps: seq<string>)
    requires Quotes(span, words)
    ensures Weaves(words, gaps) && Strip(span) == Woven(words, gaps)
  {
    var lead: string, g: seq<string>, trail: string :|
      Weaves(words, g) && AllSpace(lead) && AllSpace(trail) && span == lead + Woven(words, g) + trail;
    gaps := g;
    var t := Woven(words, gaps);
    WovenStarts(words, gaps);
    WovenEnds(words, gaps);
    assert span == lead + (t + trail) && (t + trail)[0] == t[0];
    LeftStripped(lead, t + trail);
    RightStripped(t, trail);
  }

  /** A span that is not blank quotes some words. */
  lemma {:induction false} SpanQuotes(span: string) returns (words: seq<string>, gaps: seq<string>)
    requires !Blank(span)
    ensures Weaves(words, gaps) && Strip(span) == Woven(words, gaps) && Quotes(span, words)
  {
    var a, b := StripFacts(span);
    var c := LeftStripFacts(span);
    var d := RightStripFacts(span[c..]);
    SliceEnds(span, a, b);
    words, gaps := TextIsWoven(span[a..b]);
    var lead, trail := span[..c], span[c..][d..];
    assert span == lead + Strip(span) + trail;
    assert AllSpace(lead) && AllSpace(trail);
  }

  /** A stretch that folds to text with a word at each end has one at each end. */
  lemma {:induction false} FoldsToEnds(stretch: string)
    requires stretch != "" && Folded(stretch) != "" && !IsFoldable(Folded(stretch)[0]) && !IsFoldable(Folded(stretch)[|Folded(stretch)| - 1])
    ensures !IsFoldable(stretch[0]) && !IsFoldable(stretch[|stretch| - 1])
  {
    FoldedHead(stretch);
    var n := |stretch| - 1;
    if IsFoldable(stretch[n]) { EndsInSpace(stretch, n); }
  }

  lemma {:induction false} EndsInSpace(text: string, n: nat)
    requires n < |text| && IsFoldable(text[n])
    ensures FoldedTo(text, n + 1) != "" && FoldedTo(text, n + 1)[|FoldedTo(text, n + 1)| - 1] == ' '
  {
    if !Kept(text, n) { EndsInSpace(text, n - 1); }
  }

  /** The tolerant search finds a stretch exactly when it reads the very words the span quotes, with any
      space, tabs and line breaks between them, and begins and ends with a word. */
  lemma {:induction false} ShowsIff(text: string, span: string, x: nat, y: nat)
    requires !Blank(span)
    ensures Shows(text, span, true, x, y) <==>
              x < y <= |text| && exists words: seq<string> :: Quotes(span, words) && Reads(text[x..y], words)
  {
    if Shows(text, span, true, x, y) {
      var words, gaps := SpanQuotes(span);
      TargetFacts(span);
      FoldsToEnds(text[x..y]);
      var more, between := TextIsWoven(text[x..y]);
      WovenAlike(words, gaps, more, between);
      assert Reads(text[x..y], words);
    }
    if x < y <= |text| && exists words: seq<string> :: Quotes(span, words) && Reads(text[x..y], words) {
      var words: seq<string> :| Quotes(span, words) && Reads(text[x..y], words);
      var gaps := QuotesStripped(span, words);
      var between: seq<string> :| Weaves(words, between) && text[x..y] == Woven(words, between);
      WovenAlike(words, gaps, words, between);
    }
  }
}
