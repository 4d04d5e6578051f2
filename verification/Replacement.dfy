/** `_replace`: chosen spans in, the new text and its numbered hits out. */
module Replacement {
  import opened ScrubTypes
  import opened Numbering
  import S = Splicing

  function ValueOf(c: Candidate): Value { Value(c.tag, c.valueKey) }

  function Values(cs: seq<Candidate>): seq<Value> {
    seq(|cs|, i requires 0 <= i < |cs| => ValueOf(cs[i]))
  }

  function Numbers(cs: seq<Candidate>): seq<nat> {
    var vs := Values(cs);
    seq(|cs|, i requires 0 <= i < |cs| => Number(vs, i))
  }

  /** Every chosen span, with the placeholder that takes its place. */
  function Edits(cs: seq<Candidate>, ns: seq<nat>): seq<S.Edit>
    requires |ns| == |cs|
  {
    seq(|cs|, i requires 0 <= i < |cs| => S.Edit(cs[i].start, cs[i].end, Placeholder(cs[i].tag, ns[i])))
  }

  ghost function Offsets(text: string, edits: seq<S.Edit>): seq<nat>
    requires S.Fits(edits, |text|)
  {
    seq(|edits|, i requires 0 <= i < |edits| => S.PutAt(text, edits, i))
  }

  function HitOf(c: Candidate, number: nat, outStart: nat): Hit {
    Hit(c.ruleId, c.tag, c.start, c.end, number, c.entry, outStart)
  }

  function Hits(cs: seq<Candidate>, ns: seq<nat>, at: seq<nat>): seq<Hit>
    requires |cs| == |ns| == |at|
  {
    seq(|cs|, i requires 0 <= i < |cs| => HitOf(cs[i], ns[i], at[i]))
  }

  ghost function Replaced(text: string, cs: seq<Candidate>): ScrubResult
    requires Disjoint(cs, |text|)
  {
    var ns := Numbers(cs);
    var edits := Edits(cs, ns);
    ScrubResult(S.Spliced(text, edits), Hits(cs, ns, Offsets(text, edits)))
  }

  function OfHit(h: Hit): string { Placeholder(h.tag, h.number) }

  /** The number of the next candidate, and the two dictionaries after it. */
  method NextNumberOf(c: Candidate, numbers: map<Value, nat>, counters: map<string, nat>, ghost vs: seq<Value>, ghost n: nat)
    returns (number: nat, numbers': map<Value, nat>, counters': map<string, nat>)
    requires n < |vs| && vs[n] == ValueOf(c) && Counted(vs, n, numbers, counters)
    ensures number == Number(vs, n) && Counted(vs, n + 1, numbers', counters')
  {
    SeenBefore(vs, n, numbers);
    var key := Value(c.tag, c.valueKey);
    if key in numbers {
      RepeatedValue(vs, n, numbers, counters);
      return numbers[key], numbers, counters;
    }
    NewValue(vs, n, numbers, counters);
    number := (if c.tag in counters then counters[c.tag] else 0) + 1;
    return number, numbers[key := number], counters[c.tag := number];
  }

  lemma {:induction false} EditsFit(cs: seq<Candidate>, ns: seq<nat>, length: nat)
    requires Disjoint(cs, length) && |ns| == |cs|
    ensures |Edits(cs, ns)| == |cs| && S.Fits(Edits(cs, ns), length)
  {}

  ghost predicate HitsDone(hits: seq<Hit>, cs: seq<Candidate>, ns: seq<nat>, at: seq<nat>, n: nat)
    requires |cs| == |ns| == |at|
  {
    n <= |cs| && |hits| == n && forall i {:trigger hits[i]} | 0 <= i < n :: hits[i] == HitOf(cs[i], ns[i], at[i])
  }

  lemma {:induction false} HitsNext(hits: seq<Hit>, cs: seq<Candidate>, ns: seq<nat>, at: seq<nat>, n: nat, hit: Hit)
    requires |cs| == |ns| == |at| && HitsDone(hits, cs, ns, at, n) && n < |cs|
    requires hit == HitOf(cs[n], ns[n], at[n])
    ensures HitsDone(hits + [hit], cs, ns, at, n + 1)
  {}

  lemma {:induction false} AllHitsDone(hits: seq<Hit>, cs: seq<Candidate>, ns: seq<nat>, at: seq<nat>)
    requires |cs| == |ns| == |at| && HitsDone(hits, cs, ns, at, |cs|)
    ensures hits == Hits(cs, ns, at)
  {}

  method Replace(text: string, chosen: seq<Candidate>) returns (r: ScrubResult)
    requires Disjoint(chosen, |text|)
    ensures r == Replaced(text, chosen)
  {
    ghost var vs, ns := Values(chosen), Numbers(chosen);
    EditsFit(chosen, ns, |text|);
    ghost var at := Offsets(text, Edits(chosen, ns));
    var hits, pieces := Rebuild(text, chosen, vs, ns, Edits(chosen, ns), at);
    r := ScrubResult(pieces, hits);
  }

  /** What the pass works towards: the values, their numbers, the edits and where they land. */
  ghost predicate Planned(text: string, chosen: seq<Candidate>, vs: seq<Value>, ns: seq<nat>, edits: seq<S.Edit>, at: seq<nat>) {
    && S.Fits(edits, |text|) && |chosen| == |vs| == |ns| == |edits| == |at|
    && (forall i {:trigger vs[i]} | 0 <= i < |chosen| :: vs[i] == ValueOf(chosen[i]))
    && (forall i {:trigger Number(vs, i)} | 0 <= i < |chosen| :: ns[i] == Number(vs, i))
    && (forall i {:trigger edits[i]} | 0 <= i < |chosen| ::
          edits[i] == S.Edit(chosen[i].start, chosen[i].end, Placeholder(chosen[i].tag, ns[i])))
    && (forall i {:trigger S.PutAt(text, edits, i)} | 0 <= i < |chosen| :: at[i] == S.PutAt(text, edits, i))
  }

  /** The pass so far: everything before the cursor is written, and the hits are recorded. */
  ghost predicate Written(text: string, chosen: seq<Candidate>, ns: seq<nat>, edits: seq<S.Edit>, at: seq<nat>,
                          n: nat, cursor: nat, pieces: string, hits: seq<Hit>)
    requires S.Fits(edits, |text|) && |chosen| == |ns| == |edits| == |at|
  {
    S.Done(text, edits, n, cursor, pieces) && HitsDone(hits, chosen, ns, at, n)
  }

  lemma {:induction false} RebuildNext(text: string, chosen: seq<Candidate>, vs: seq<Value>, ns: seq<nat>, edits: seq<S.Edit>, at: seq<nat>,
                                       n: nat, cursor: nat, pieces: string, hits: seq<Hit>, number: nat) returns (hit: Hit)
    requires Planned(text, chosen, vs, ns, edits, at) && n < |chosen| && number == Number(vs, n)
    requires Written(text, chosen, ns, edits, at, n, cursor, pieces, hits)
    ensures cursor <= chosen[n].start <= chosen[n].end <= |text|
    ensures hit == HitOf(chosen[n], number, |pieces| + chosen[n].start - cursor)
    ensures Written(text, chosen, ns, edits, at, n + 1, chosen[n].end,
                    pieces + text[cursor..chosen[n].start] + OfHit(hit), hits + [hit])
  {
    var c := chosen[n];
    S.DoneNext(text, edits, n, cursor, pieces, S.Edit(c.start, c.end, Placeholder(c.tag, number)));
    hit := HitOf(c, number, |pieces| + c.start - cursor);
    HitsNext(hits, chosen, ns, at, n, hit);
  }

  /** The one pass over the chosen spans. */
  method Rebuild(text: string, chosen: seq<Candidate>, ghost vs: seq<Value>, ghost ns: seq<nat>,
                 ghost edits: seq<S.Edit>, ghost at: seq<nat>)
    returns (hits: seq<Hit>, rebuilt: string)
    requires Planned(text, chosen, vs, ns, edits, at)
    ensures hits == Hits(chosen, ns, at) && rebuilt == S.Spliced(text, edits)
  {
    var numbers: map<Value, nat> := map[];
    var counters: map<string, nat> := map[];
    var pieces := "";
    var cursor: nat, written: nat := 0, 0;
    hits := [];
    for n := 0 to |chosen|
      invariant Counted(vs, n, numbers, counters)
      invariant Written(text, chosen, ns, edits, at, n, cursor, pieces, hits) && written == |pieces|
    {
      var c := chosen[n];
      var number;
      number, numbers, counters := NextNumberOf(c, numbers, counters, vs, n);
      ghost var expected := RebuildNext(text, chosen, vs, ns, edits, at, n, cursor, pieces, hits, number);
      var hit := HitOf(c, number, written + c.start - cursor);
      assert hit == expected;
      pieces := pieces + text[cursor..c.start] + OfHit(hit);
      written := written + c.start - cursor + |OfHit(hit)|;
      cursor := c.end;
      hits := hits + [hit];
    }
    AllHitsDone(hits, chosen, ns, at);
    S.AllDone(text, edits, cursor, pieces);
    rebuilt := pieces + text[cursor..];
  }
}
