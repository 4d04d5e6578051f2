/** What a reader can do with a scrub result: find every placeholder, see that nothing else
    changed, and put the original slices back. */
module Reversal {
  import opened ScrubTypes
  import opened Numbering
  import opened Replacement
  import S = Splicing

  // ---- what a reader of the result relies on ----

  function OutEnd(hits: seq<Hit>, n: nat): nat
    requires n <= |hits|
  {
    if n == 0 then 0 else hits[n - 1].outStart + |OfHit(hits[n - 1])|
  }

  /** A result of `text`: each hit's placeholder stands at its output offset, and the text between
      hits, before the first and after the last is the original text, unchanged. */
  ghost predicate ReadsAs(text: string, r: ScrubResult) {
    && (forall i | 0 <= i < |r.hits| :: HitReads(text, r, i))
    && OutEnd(r.hits, |r.hits|) <= |r.text|
    && EndOf(r.hits, |r.hits|) <= |text|
    && r.text[OutEnd(r.hits, |r.hits|)..] == text[EndOf(r.hits, |r.hits|)..]
  }

  function EndOf(hits: seq<Hit>, n: nat): nat
    requires n <= |hits|
  {
    if n == 0 then 0 else hits[n - 1].end
  }

  ghost predicate HitReads(text: string, r: ScrubResult, i: nat)
    requires i < |r.hits|
  {
    var h := r.hits[i];
    && EndOf(r.hits, i) <= h.start < h.end <= |text|
    && OutEnd(r.hits, i) <= h.outStart && h.outStart + |OfHit(h)| <= |r.text|
    && r.text[h.outStart..h.outStart + |OfHit(h)|] == OfHit(h)
    && r.text[OutEnd(r.hits, i)..h.outStart] == text[EndOf(r.hits, i)..h.start]
  }

  lemma {:induction false} HitFollowsEdit(text: string, cs: seq<Candidate>, ns: seq<nat>, at: seq<nat>, out: string, i: nat)
    requires Disjoint(cs, |text|) && i < |cs| == |ns| == |at|
    requires S.ReadsAt(text, Edits(cs, ns), out, at, i)
    ensures HitReads(text, ScrubResult(out, Hits(cs, ns, at)), i)
  {
    assert S.OutEnd(Edits(cs, ns), at, i) == OutEnd(Hits(cs, ns, at), i);
    assert S.EndOf(Edits(cs, ns), i) == EndOf(Hits(cs, ns, at), i);
  }

  lemma {:induction false} TailFollowsEdits(text: string, cs: seq<Candidate>, ns: seq<nat>, at: seq<nat>, out: string)
    requires Disjoint(cs, |text|) && |cs| == |ns| == |at| && S.Reads(text, Edits(cs, ns), out, at)
    ensures OutEnd(Hits(cs, ns, at), |cs|) <= |out| && EndOf(Hits(cs, ns, at), |cs|) <= |text|
    ensures out[OutEnd(Hits(cs, ns, at), |cs|)..] == text[EndOf(Hits(cs, ns, at), |cs|)..]
  {
    assert S.OutEnd(Edits(cs, ns), at, |cs|) == OutEnd(Hits(cs, ns, at), |cs|);
    assert S.EndOf(Edits(cs, ns), |cs|) == EndOf(Hits(cs, ns, at), |cs|);
  }

  /** Nothing else changes: the result reads as the original text with placeholders at the hits. */
  lemma {:induction false} OnlyTheHitsChange(text: string, cs: seq<Candidate>)
    requires Disjoint(cs, |text|)
    ensures ReadsAs(text, Replaced(text, cs))
  {
    var ns := Numbers(cs);
    var edits := Edits(cs, ns);
    var at, out := Offsets(text, edits), S.Spliced(text, edits);
    S.OnlyEditsChange(text, edits, at);
    forall i | 0 <= i < |cs| ensures HitReads(text, ScrubResult(out, Hits(cs, ns, at)), i) {
      assert S.ReadsAt(text, edits, out, at, i);
      HitFollowsEdit(text, cs, ns, at, out, i);
    }
    TailFollowsEdits(text, cs, ns, at, out);
  }

  /** Put each original slice back at its placeholder: from the output, the hits and the slices. */
  ghost function RestoreUpTo(r: ScrubResult, originals: seq<string>, n: nat): string
    requires |originals| == |r.hits| && n <= |r.hits|
    requires forall i {:trigger OutEnd(r.hits, i)} | 0 <= i < |r.hits| :: OutEnd(r.hits, i) <= r.hits[i].outStart <= |r.text|
  {
    if n == 0 then ""
    else RestoreUpTo(r, originals, n - 1) + r.text[OutEnd(r.hits, n - 1)..r.hits[n - 1].outStart] + originals[n - 1]
  }

  /** Scrubbing is reversible from its hits: with the original slices put back, the text is back. */
  lemma {:induction false} RestoreUndoesReplace(text: string, r: ScrubResult, originals: seq<string>, n: nat)
    requires ReadsAs(text, r) && |originals| == |r.hits| && n <= |r.hits|
    requires forall i {:trigger OutEnd(r.hits, i)} | 0 <= i < |r.hits| :: OutEnd(r.hits, i) <= r.hits[i].outStart <= |r.text|
    requires forall i | 0 <= i < |r.hits| :: r.hits[i].start <= r.hits[i].end <= |text| && originals[i] == text[r.hits[i].start..r.hits[i].end]
    ensures EndOf(r.hits, n) <= |text| && RestoreUpTo(r, originals, n) == text[..EndOf(r.hits, n)]
    ensures n == |r.hits| ==> RestoreUpTo(r, originals, n) + r.text[OutEnd(r.hits, n)..] == text
  {
    if n > 0 {
      RestoreUndoesReplace(text, r, originals, n - 1);
      assert HitReads(text, r, n - 1);
      var h := r.hits[n - 1];
      S.Chain(text, EndOf(r.hits, n - 1), h.start, h.end);
    }
    assert text[..EndOf(r.hits, n)] + text[EndOf(r.hits, n)..] == text;
  }

  // ---- the two promises about a result, as one statement each ----

  ghost predicate InBounds(text: string, r: ScrubResult) {
    && (forall h | h in r.hits :: h.start <= h.end <= |text|)
    && (forall i {:trigger OutEnd(r.hits, i)} | 0 <= i < |r.hits| :: OutEnd(r.hits, i) <= r.hits[i].outStart <= |r.text|)
  }

  ghost function OriginalSlices(text: string, hits: seq<Hit>): seq<string>
    requires forall h | h in hits :: h.start <= h.end <= |text|
  {
    seq(|hits|, i requires 0 <= i < |hits| => text[hits[i].start..hits[i].end])
  }

  /** Nothing but the hits changed, and the hits with their original slices give the text back. */
  ghost predicate Reversible(text: string, r: ScrubResult) {
    && ReadsAs(text, r) && InBounds(text, r)
    && OutEnd(r.hits, |r.hits|) <= |r.text|
    && RestoreUpTo(r, OriginalSlices(text, r.hits), |r.hits|) + r.text[OutEnd(r.hits, |r.hits|)..] == text
  }

  lemma {:induction false} ReadsInBounds(text: string, r: ScrubResult)
    requires ReadsAs(text, r)
    ensures InBounds(text, r)
  {
    forall i | 0 <= i < |r.hits|
      ensures r.hits[i].start <= r.hits[i].end <= |text| && OutEnd(r.hits, i) <= r.hits[i].outStart <= |r.text|
    {
      assert HitReads(text, r, i);
    }
  }

  lemma {:induction false} ReadsIsReversible(text: string, r: ScrubResult)
    requires ReadsAs(text, r)
    ensures Reversible(text, r)
  {
    ReadsInBounds(text, r);
    assert forall i | 0 <= i < |r.hits| :: r.hits[i] in r.hits;
    RestoreUndoesReplace(text, r, OriginalSlices(text, r.hits), |r.hits|);
  }

  ghost predicate NumberGiven(hits: seq<Hit>, n: nat, tag: string, number: nat)
    requires n < |hits|
  {
    exists j :: 0 <= j <= n && hits[j].tag == tag && hits[j].number == number
  }

  ghost predicate NumbersBelowGiven(hits: seq<Hit>, i: nat)
    requires i < |hits|
  {
    forall m: nat :: 1 <= m <= hits[i].number ==> NumberGiven(hits, i, hits[i].tag, m)
  }

  /** The hit has the span, the tag, the rule and the list entry of the candidate. */
  predicate ReportsOn(h: Hit, c: Candidate) {
    h.start == c.start && h.end == c.end && h.tag == c.tag && h.ruleId == c.ruleId && h.entry == c.entry
  }

  /** Hit `i` stands for candidate `i`: one placeholder per tag and value, the numbers of a tag
      running from 1 without a gap in the order its values first occur. */
  ghost predicate NumbersValues(cs: seq<Candidate>, hits: seq<Hit>) {
    && |hits| == |cs|
    && (forall i | 0 <= i < |cs| :: ReportsOn(hits[i], cs[i]))
    && (forall i, k | 0 <= i < |cs| && 0 <= k < |cs| ::
          OfHit(hits[i]) == OfHit(hits[k]) <==> cs[i].tag == cs[k].tag && cs[i].valueKey == cs[k].valueKey)
    && (forall i | 0 <= i < |cs| :: hits[i].number >= 1 && NumbersBelowGiven(hits, i))
  }

  lemma {:induction false} OwnNumberGiven(vs: seq<Value>, i: nat)
    requires i < |vs|
    ensures 1 <= Number(vs, i) <= ValuesBefore(vs, i + 1, vs[i].tag)
  {
    assert Given(vs, i + 1, vs[i].tag, Number(vs, i));
    NumbersHaveNoGaps(vs, i + 1, vs[i].tag, Number(vs, i));
  }

  lemma {:induction false} GivenUpTo(vs: seq<Value>, i: nat, m: nat) returns (j: nat)
    requires i < |vs| && 1 <= m <= Number(vs, i)
    ensures j <= i && vs[j].tag == vs[i].tag && Number(vs, j) == m
  {
    OwnNumberGiven(vs, i);
    NumbersHaveNoGaps(vs, i + 1, vs[i].tag, m);
    j :| 0 <= j < i + 1 && vs[j].tag == vs[i].tag && Number(vs, j) == m;
  }

  lemma {:induction false} NumbersFollow(vs: seq<Value>, hits: seq<Hit>, i: nat)
    requires i < |vs| == |hits|
    requires forall j {:trigger hits[j]} | 0 <= j < |vs| :: hits[j].tag == vs[j].tag && hits[j].number == Number(vs, j)
    ensures NumbersBelowGiven(hits, i)
  {
    assert hits[i].tag == vs[i].tag;
    forall m: nat | 1 <= m <= hits[i].number ensures NumberGiven(hits, i, hits[i].tag, m) {
      var j := GivenUpTo(vs, i, m);
      assert hits[j].tag == hits[i].tag && hits[j].number == m;
    }
  }

  ghost predicate HitsStandFor(vs: seq<Value>, hits: seq<Hit>) {
    |hits| == |vs| && forall j {:trigger hits[j]} | 0 <= j < |vs| :: hits[j].tag == vs[j].tag && hits[j].number == Number(vs, j)
  }

  lemma {:induction false} NumbersFromOne(vs: seq<Value>, hits: seq<Hit>, i: nat)
    requires HitsStandFor(vs, hits) && i < |vs|
    ensures hits[i].number >= 1 && NumbersBelowGiven(hits, i)
  {
    OwnNumberGiven(vs, i);
    NumbersFollow(vs, hits, i);
  }

  lemma {:induction false} HitsStandForValues(text: string, cs: seq<Candidate>)
    requires Disjoint(cs, |text|)
    ensures HitsStandFor(Values(cs), Replaced(text, cs).hits)
  {}

  lemma {:induction false} ReplacedNumbersValues(text: string, cs: seq<Candidate>)
    requires Disjoint(cs, |text|)
    ensures NumbersValues(cs, Replaced(text, cs).hits)
  {
    var hits, vs := Replaced(text, cs).hits, Values(cs);
    HitsStandForValues(text, cs);
    forall i, k | 0 <= i < |cs| && 0 <= k < |cs|
      ensures OfHit(hits[i]) == OfHit(hits[k]) <==> cs[i].tag == cs[k].tag && cs[i].valueKey == cs[k].valueKey
    {
      SamePlaceholderIffSameValue(vs, i, k);
    }
    forall i | 0 <= i < |cs| ensures hits[i].number >= 1 && NumbersBelowGiven(hits, i) {
      NumbersFromOne(vs, hits, i);
    }
  }
}
