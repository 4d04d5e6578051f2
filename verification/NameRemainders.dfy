/** What becomes of a name that gives way to a regex claim: the part the claim does not cover stays. */
module NameRemainders {
  import opened ScrubTypes
  import opened RegexClaims
  import opened Replacement
  import opened Reversal
  import opened Scrubbing

  // ---- characters between the hits ----

  predicate Covers(start: nat, end: nat, p: nat) { start <= p < end }

  ghost predicate InAHit(hits: seq<Hit>, p: nat) {
    exists i :: 0 <= i < |hits| && Covers(hits[i].start, hits[i].end, p)
  }

  /** Offset `p` lies after hit `i - 1` and before hit `i`, or after the last hit. */
  ghost predicate InGap(hits: seq<Hit>, length: nat, i: nat, p: nat) {
    i <= |hits| && EndOf(hits, i) <= p < if i < |hits| then hits[i].start else length
  }

  /** The output shows character `p` of the text, as far behind hit `i - 1` as it was. */
  ghost predicate ShownBehind(text: string, r: ScrubResult, i: nat, p: nat)
    requires p < |text| && InGap(r.hits, |text|, i, p)
  {
    var at := OutEnd(r.hits, i) + (p - EndOf(r.hits, i));
    at < |r.text| && r.text[at] == text[p]
  }

  ghost predicate Stays(text: string, r: ScrubResult, p: nat)
    requires p < |text|
  {
    exists i :: InGap(r.hits, |text|, i, p) && ShownBehind(text, r, i, p)
  }

  lemma {:induction false} HitEndsGrow(text: string, r: ScrubResult, i: nat, j: nat)
    requires ReadsAs(text, r) && i <= j <= |r.hits|
    ensures EndOf(r.hits, i) <= EndOf(r.hits, j)
    decreases j
  {
    if i < j {
      assert HitReads(text, r, j - 1);
      HitEndsGrow(text, r, i, j - 1);
    }
  }

  lemma {:induction false} FindGap(text: string, r: ScrubResult, p: nat, n: nat) returns (i: nat)
    requires ReadsAs(text, r) && p < |text| && n <= |r.hits| && EndOf(r.hits, n) <= p
    requires !InAHit(r.hits, p)
    ensures InGap(r.hits, |text|, i, p)
    decreases |r.hits| - n
  {
    i := n;
    if n < |r.hits| && r.hits[n].start <= p {
      assert !Covers(r.hits[n].start, r.hits[n].end, p);
      i := FindGap(text, r, p, n + 1);
    }
  }

  lemma {:induction false} GapIsShown(text: string, r: ScrubResult, p: nat, i: nat)
    requires ReadsAs(text, r) && p < |text| && InGap(r.hits, |text|, i, p)
    ensures ShownBehind(text, r, i, p)
  {
    var k := p - EndOf(r.hits, i);
    if i < |r.hits| {
      assert HitReads(text, r, i);
      assert r.text[OutEnd(r.hits, i)..r.hits[i].outStart][k] == text[EndOf(r.hits, i)..r.hits[i].start][k];
    } else {
      assert r.text[OutEnd(r.hits, i)..][k] == text[EndOf(r.hits, i)..][k];
    }
  }

  lemma {:induction false} GapIsNoHit(text: string, r: ScrubResult, p: nat, i: nat, j: nat)
    requires ReadsAs(text, r) && p < |text| && InGap(r.hits, |text|, i, p) && j < |r.hits|
    ensures !Covers(r.hits[j].start, r.hits[j].end, p)
  {
    if j < i {
      HitEndsGrow(text, r, j + 1, i);
    } else {
      HitEndsGrow(text, r, i, j);
      assert HitReads(text, r, j);
      if i < j {
        HitEndsGrow(text, r, i + 1, j);
        assert HitReads(text, r, i);
      }
    }
  }

  /** A character stays if and only if no hit covers it. */
  lemma {:induction false} StaysIff(text: string, r: ScrubResult, p: nat)
    requires ReadsAs(text, r) && p < |text|
    ensures Stays(text, r, p) <==> !InAHit(r.hits, p)
  {
    if !InAHit(r.hits, p) {
      var i := FindGap(text, r, p, 0);
      GapIsShown(text, r, p, i);
    }
    if Stays(text, r, p) {
      var i :| InGap(r.hits, |text|, i, p) && ShownBehind(text, r, i, p);
      forall j | 0 <= j < |r.hits| ensures !Covers(r.hits[j].start, r.hits[j].end, p) {
        GapIsNoHit(text, r, p, i, j);
      }
    }
  }

  // ---- a name that gives way ----

  ghost predicate Claimed(claims: seq<Candidate>, p: nat) {
    exists c :: c in claims && Covers(c.start, c.end, p)
  }

  lemma {:induction false} DisjointShareNothing(cs: seq<Candidate>, length: nat, c: Candidate, d: Candidate, p: nat)
    requires Disjoint(cs, length) && c in cs && d in cs && Covers(c.start, c.end, p) && Covers(d.start, d.end, p)
    ensures c == d
  {
    var i :| 0 <= i < |cs| && cs[i] == c;
    var j :| 0 <= j < |cs| && cs[j] == d;
  }

  lemma {:induction false} HitsAreChosen(text: string, cs: seq<Candidate>, p: nat)
    requires Disjoint(cs, |text|)
    ensures InAHit(Replaced(text, cs).hits, p) <==> Claimed(cs, p)
  {
    var hits := Replaced(text, cs).hits;
    forall i | 0 <= i < |cs| ensures hits[i].start == cs[i].start && hits[i].end == cs[i].end && cs[i] in cs {}
    if Claimed(cs, p) {
      var c :| c in cs && Covers(c.start, c.end, p);
      var i :| 0 <= i < |cs| && cs[i] == c;
      assert Covers(hits[i].start, hits[i].end, p);
    }
  }

  lemma {:induction false} OnlyClaimsCover(claims: seq<Candidate>, names: seq<Candidate>, length: nat, c: Candidate, p: nat)
    requires Disjoint(claims, length) && Disjoint(names, length)
    requires c in names && Overlaps(c, claims) && Covers(c.start, c.end, p)
    ensures Claimed(Chosen(claims, names), p) <==> Claimed(claims, p)
  {
    ChosenIsDisjoint(claims, names, length);
    if Claimed(Chosen(claims, names), p) {
      var d :| d in Chosen(claims, names) && Covers(d.start, d.end, p);
      if d !in claims {
        DisjointShareNothing(names, length, c, d, p);
      }
    }
  }

  /** A name candidate some claim overlaps is not replaced as a name: each of its characters stays
      in the output if and only if no claim covers that character. */
  lemma {:induction false} RestOfNameStaysIff(e: Engine, rules: ScrubRules, text: string, c: Candidate, p: nat)
    requires Sound(e) && text != "" && Collected(e, rules.regexRules, text).Success?
    requires c in NamesIn(ReadingOf(e, rules, text)) && Covers(c.start, c.end, p)
    requires Overlaps(c, Resolved(Collected(e, rules.regexRules, text).value))
    ensures p < |text| && Scrubbed(e, rules, text).Success?
    ensures Stays(text, Scrubbed(e, rules, text).value, p)
       <==> !Claimed(Resolved(Collected(e, rules.regexRules, text).value), p)
  {
    var found := Collected(e, rules.regexRules, text).value;
    var claims, names := Resolved(found), NamesIn(ReadingOf(e, rules, text));
    ChosenFits(e, rules, text);
    NamesAreDisjoint(e, rules, text);
    OnlyClaimsCover(claims, names, |text|, c, p);
    HitsAreChosen(text, Chosen(claims, names), p);
    OnlyTheHitsChange(text, Chosen(claims, names));
    StaysIff(text, Replaced(text, Chosen(claims, names)), p);
  }
}
