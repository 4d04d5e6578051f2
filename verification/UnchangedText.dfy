/** When a replacement gives back the text it was made from. */
module UnchangedText {
  import opened ScrubTypes
  import opened Numbering
  import opened RegexClaims
  import opened Replacement
  import opened Reversal
  import S = Splicing

  // ---- edits that put back what they take ----

  ghost predicate PutsBack(text: string, edits: seq<S.Edit>, i: nat)
    requires S.Fits(edits, |text|) && i < |edits|
  {
    text[edits[i].start..edits[i].end] == edits[i].put
  }

  lemma {:induction false} PutBackSoFar(text: string, edits: seq<S.Edit>, n: nat)
    requires S.Fits(edits, |text|) && n <= |edits| && forall i: nat | i < n :: PutsBack(text, edits, i)
    ensures S.EndOf(edits, n) <= |text| && S.Out(text, edits, n) == text[..S.EndOf(edits, n)]
  {
    if n > 0 {
      PutBackSoFar(text, edits, n - 1);
      assert PutsBack(text, edits, n - 1);
      S.OutStep(text, edits, n - 1);
      S.Chain(text, S.EndOf(edits, n - 1), edits[n - 1].start, edits[n - 1].end);
    }
  }

  lemma {:induction false} AllPutBack(text: string, edits: seq<S.Edit>)
    requires S.Fits(edits, |text|) && forall i: nat | i < |edits| :: PutsBack(text, edits, i)
    ensures S.Spliced(text, edits) == text
  {
    PutBackSoFar(text, edits, |edits|);
    var end := S.EndOf(edits, |edits|);
    assert text[..end] + text[end..] == text;
  }

  ghost predicate SameLength(edits: seq<S.Edit>) {
    forall i | 0 <= i < |edits| :: |edits[i].put| == edits[i].end - edits[i].start
  }

  lemma {:induction false} OutKeepsPace(text: string, edits: seq<S.Edit>, n: nat)
    requires S.Fits(edits, |text|) && n <= |edits| && SameLength(edits)
    ensures |S.Out(text, edits, n)| == S.EndOf(edits, n)
  {
    if n > 0 {
      OutKeepsPace(text, edits, n - 1);
      S.OutStep(text, edits, n - 1);
    }
  }

  lemma {:induction false} PutInPlace(text: string, edits: seq<S.Edit>, i: nat)
    requires S.Fits(edits, |text|) && i < |edits| && SameLength(edits) && S.Spliced(text, edits) == text
    ensures PutsBack(text, edits, i)
  {
    OutKeepsPace(text, edits, i);
    S.PutIsInside(text, edits, i);
    S.OutStep(text, edits, i);
    S.Slices3(text, S.Out(text, edits, i), S.Gap(text, edits, i), edits[i].put);
  }

  // ---- edits that add a mark ----

  function Marks(s: string): nat {
    if s == "" then 0 else Marks(s[..|s| - 1]) + if s[|s| - 1] == '<' then 1 else 0
  }

  lemma {:induction false} MarksAdd(a: string, b: string)
    ensures Marks(a + b) == Marks(a) + Marks(b)
  {
    if b == "" {
      assert a + b == a;
    } else {
      assert (a + b)[..|a + b| - 1] == a + b[..|b| - 1];
      MarksAdd(a, b[..|b| - 1]);
    }
  }

  lemma {:induction false} NoMarks(s: string)
    requires '<' !in s
    ensures Marks(s) == 0
  {
    if s != "" { NoMarks(s[..|s| - 1]); }
  }

  lemma {:induction false} OpensWithMark(s: string)
    requires s != "" && s[0] == '<'
    ensures Marks(s) >= 1
  {
    MarksAdd(s[..1], s[1..]);
    assert s[..1] + s[1..] == s && s[..1][..0] == "";
  }

  /** The edit takes no mark and puts one. */
  ghost predicate AddsMark(text: string, edits: seq<S.Edit>, i: nat)
    requires S.Fits(edits, |text|) && i < |edits|
  {
    '<' !in text[edits[i].start..edits[i].end] && edits[i].put != "" && edits[i].put[0] == '<'
  }

  lemma {:induction false} MarksStep(out: string, text: string, gap: string, slice: string, put: string, n: nat)
    requires Marks(out) >= Marks(text) + n && '<' !in slice && put != "" && put[0] == '<'
    ensures Marks(out + gap + put) >= Marks(text + gap + slice) + n + 1
  {
    MarksAdd(text + gap, slice);
    MarksAdd(text, gap);
    MarksAdd(out + gap, put);
    MarksAdd(out, gap);
    NoMarks(slice);
    OpensWithMark(put);
  }

  lemma {:induction false} MarksGrow(text: string, edits: seq<S.Edit>, n: nat)
    requires S.Fits(edits, |text|) && n <= |edits| && forall i: nat | i < n :: AddsMark(text, edits, i)
    ensures S.EndOf(edits, n) <= |text| && Marks(S.Out(text, edits, n)) >= Marks(text[..S.EndOf(edits, n)]) + n
  {
    if n > 0 {
      MarksGrow(text, edits, n - 1);
      assert AddsMark(text, edits, n - 1);
      var a, b, c := S.EndOf(edits, n - 1), edits[n - 1].start, edits[n - 1].end;
      S.OutStep(text, edits, n - 1);
      MarksStep(S.Out(text, edits, n - 1), text[..a], text[a..b], text[b..c], edits[n - 1].put, n - 1);
      S.Chain(text, a, b, c);
    }
  }

  lemma {:induction false} MarksTell(text: string, edits: seq<S.Edit>)
    requires S.Fits(edits, |text|) && forall i: nat | i < |edits| :: AddsMark(text, edits, i)
    ensures S.Spliced(text, edits) == text <==> edits == []
  {
    var n := |edits|;
    MarksGrow(text, edits, n);
    var end := S.EndOf(edits, n);
    MarksAdd(text[..end], text[end..]);
    MarksAdd(S.Out(text, edits, n), text[end..]);
    assert text[..end] + text[end..] == text;
  }

  // ---- a scrub that gives back its text ----

  /** What a hit replaced already reads as its placeholder. */
  ghost predicate ReadsAsItself(text: string, h: Hit) {
    h.start <= h.end <= |text| && text[h.start..h.end] == OfHit(h)
  }

  lemma {:induction false} HitOfChosen(text: string, cs: seq<Candidate>, i: nat)
    requires Disjoint(cs, |text|) && i < |cs|
    ensures |Replaced(text, cs).hits| == |cs| && |Numbers(cs)| == |cs|
    ensures var h := Replaced(text, cs).hits[i];
            h.tag == cs[i].tag && h.start == cs[i].start && h.end == cs[i].end && h.number == Numbers(cs)[i]
  {}

  lemma {:induction false} EditOfChosen(cs: seq<Candidate>, ns: seq<nat>, i: nat)
    requires |ns| == |cs| && i < |cs|
    ensures |Edits(cs, ns)| == |cs| && Edits(cs, ns)[i] == S.Edit(cs[i].start, cs[i].end, Placeholder(cs[i].tag, ns[i]))
    ensures Placeholder(cs[i].tag, ns[i])[0] == '<'
  {}

  lemma {:induction false} EditOfHit(text: string, cs: seq<Candidate>, i: nat)
    requires Disjoint(cs, |text|) && i < |cs|
    ensures |Replaced(text, cs).hits| == |cs| == |Edits(cs, Numbers(cs))|
    ensures var h, x := Replaced(text, cs).hits[i], Edits(cs, Numbers(cs))[i];
            x == S.Edit(cs[i].start, cs[i].end, OfHit(h)) && h.start == cs[i].start && h.end == cs[i].end && x.put[0] == '<'
  {
    HitOfChosen(text, cs, i);
    EditOfChosen(cs, Numbers(cs), i);
  }

  ghost predicate AllReadAsThemselves(text: string, hits: seq<Hit>) {
    forall i | 0 <= i < |hits| :: ReadsAsItself(text, hits[i])
  }

  /** Where every hit reads as its placeholder already, the text comes back as it was. */
  lemma {:induction false} PlaceholdersStay(text: string, cs: seq<Candidate>)
    requires Disjoint(cs, |text|) && AllReadAsThemselves(text, Replaced(text, cs).hits)
    ensures Replaced(text, cs).text == text
  {
    var edits := Edits(cs, Numbers(cs));
    EditsFit(cs, Numbers(cs), |text|);
    forall i: nat | i < |edits| ensures PutsBack(text, edits, i) {
      EditOfHit(text, cs, i);
      assert ReadsAsItself(text, Replaced(text, cs).hits[i]);
    }
    AllPutBack(text, edits);
  }

  ghost predicate AllSameLength(hits: seq<Hit>) {
    forall i | 0 <= i < |hits| :: |OfHit(hits[i])| == hits[i].end - hits[i].start
  }

  lemma {:induction false} EditsSameLength(text: string, cs: seq<Candidate>)
    requires Disjoint(cs, |text|) && AllSameLength(Replaced(text, cs).hits)
    ensures SameLength(Edits(cs, Numbers(cs)))
  {
    var edits := Edits(cs, Numbers(cs));
    forall i | 0 <= i < |edits| ensures |edits[i].put| == edits[i].end - edits[i].start {
      EditOfHit(text, cs, i);
      assert |OfHit(Replaced(text, cs).hits[i])| == Replaced(text, cs).hits[i].end - Replaced(text, cs).hits[i].start;
    }
  }

  lemma {:induction false} HitsReadBack(text: string, cs: seq<Candidate>)
    requires Disjoint(cs, |text|) && AllSameLength(Replaced(text, cs).hits) && Replaced(text, cs).text == text
    ensures AllReadAsThemselves(text, Replaced(text, cs).hits)
  {
    var hits := Replaced(text, cs).hits;
    EditsSameLength(text, cs);
    EditsFit(cs, Numbers(cs), |text|);
    forall i | 0 <= i < |hits| ensures ReadsAsItself(text, hits[i]) {
      EditOfHit(text, cs, i);
      PutInPlace(text, Edits(cs, Numbers(cs)), i);
    }
  }

  /** And the other way round where every hit is as long as its placeholder. */
  lemma {:induction false} SameLengthIff(text: string, cs: seq<Candidate>)
    requires Disjoint(cs, |text|) && AllSameLength(Replaced(text, cs).hits)
    ensures Replaced(text, cs).text == text <==> AllReadAsThemselves(text, Replaced(text, cs).hits)
  {
    if Replaced(text, cs).text == text { HitsReadBack(text, cs); }
    if AllReadAsThemselves(text, Replaced(text, cs).hits) { PlaceholdersStay(text, cs); }
  }

  ghost predicate TakesNoMark(text: string, c: Candidate) {
    c.start <= c.end <= |text| && '<' !in text[c.start..c.end]
  }

  /** Where no chosen span holds a `<`, the text comes back only when nothing is chosen. */
  lemma {:induction false} MarkFreeIff(text: string, cs: seq<Candidate>)
    requires Disjoint(cs, |text|) && forall c | c in cs :: TakesNoMark(text, c)
    ensures Replaced(text, cs).text == text <==> cs == []
  {
    var edits := Edits(cs, Numbers(cs));
    EditsFit(cs, Numbers(cs), |text|);
    forall i: nat | i < |edits| ensures AddsMark(text, edits, i) {
      EditOfHit(text, cs, i);
      assert cs[i] in cs;
    }
    MarksTell(text, edits);
  }
}
