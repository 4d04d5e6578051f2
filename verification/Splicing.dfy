/** Rebuilding a text with some spans replaced, and reading the result back. */
module Splicing {

  /** Put `put` in place of the span from `start` to `end`. */
  datatype Edit = Edit(start: nat, end: nat, put: string)

  ghost predicate Fits(edits: seq<Edit>, length: nat) {
    && (forall i | 0 <= i < |edits| :: edits[i].start < edits[i].end <= length)
    && (forall i, j | 0 <= i < j < |edits| :: edits[i].end <= edits[j].start)
  }

  function EndOf(edits: seq<Edit>, n: nat): nat
    requires n <= |edits|
  {
    if n == 0 then 0 else edits[n - 1].end
  }

  /** The text kept between edit `n - 1` and edit `n`, or after the last one. */
  ghost function Gap(text: string, edits: seq<Edit>, n: nat): string
    requires Fits(edits, |text|) && n <= |edits|
  {
    text[EndOf(edits, n)..if n == |edits| then |text| else edits[n].start]
  }

  /** The output up to the end of the `n`-th edit. */
  ghost function Out(text: string, edits: seq<Edit>, n: nat): string
    requires Fits(edits, |text|) && n <= |edits|
  {
    if n == 0 then "" else Out(text, edits, n - 1) + Gap(text, edits, n - 1) + edits[n - 1].put
  }

  ghost function Spliced(text: string, edits: seq<Edit>): string
    requires Fits(edits, |text|)
  {
    Out(text, edits, |edits|) + Gap(text, edits, |edits|)
  }

  /** Where the `i`-th replacement starts in the output. */
  ghost function PutAt(text: string, edits: seq<Edit>, i: nat): nat
    requires Fits(edits, |text|) && i < |edits|
  {
    |Out(text, edits, i)| + |Gap(text, edits, i)|
  }

  lemma {:induction false} OutStep(text: string, edits: seq<Edit>, n: nat)
    requires Fits(edits, |text|) && n < |edits|
    ensures EndOf(edits, n) <= edits[n].start
    ensures Out(text, edits, n + 1) == Out(text, edits, n) + text[EndOf(edits, n)..edits[n].start] + edits[n].put
    ensures PutAt(text, edits, n) == |Out(text, edits, n)| + edits[n].start - EndOf(edits, n)
  {}

  /** The state of the rebuilding pass after `n` edits: what is read and what is written. */
  ghost predicate Done(text: string, edits: seq<Edit>, n: nat, cursor: nat, written: string)
    requires Fits(edits, |text|)
  {
    n <= |edits| && cursor == EndOf(edits, n) && written == Out(text, edits, n)
  }

  lemma {:induction false} DoneNext(text: string, edits: seq<Edit>, n: nat, cursor: nat, written: string, edit: Edit)
    requires Fits(edits, |text|) && Done(text, edits, n, cursor, written) && n < |edits| && edits[n] == edit
    ensures cursor <= edit.start <= edit.end <= |text|
    ensures |written| + edit.start - cursor == PutAt(text, edits, n)
    ensures Done(text, edits, n + 1, edit.end, written + text[cursor..edit.start] + edit.put)
  {}

  lemma {:induction false} AllDone(text: string, edits: seq<Edit>, cursor: nat, written: string)
    requires Fits(edits, |text|) && Done(text, edits, |edits|, cursor, written)
    ensures cursor <= |text| && written + text[cursor..] == Spliced(text, edits)
  {}

  lemma {:induction false} OutIsPrefix(text: string, edits: seq<Edit>, m: nat, n: nat)
    requires Fits(edits, |text|) && m <= n <= |edits|
    ensures Out(text, edits, m) <= Out(text, edits, n)
  {
    if m < n {
      OutIsPrefix(text, edits, m, n - 1);
      OutStep(text, edits, n - 1);
    }
  }

  /** Where the `n`-th replacement ends in the output. */
  function OutEnd(edits: seq<Edit>, at: seq<nat>, n: nat): nat
    requires n <= |at| == |edits|
  {
    if n == 0 then 0 else at[n - 1] + |edits[n - 1].put|
  }

  /** The `i`-th replacement stands at its offset, after original text unchanged. */
  ghost predicate ReadsAt(text: string, edits: seq<Edit>, out: string, at: seq<nat>, i: nat)
    requires Fits(edits, |text|) && i < |at| == |edits|
  {
    && OutEnd(edits, at, i) <= at[i] && at[i] + |edits[i].put| <= |out|
    && out[at[i]..at[i] + |edits[i].put|] == edits[i].put
    && out[OutEnd(edits, at, i)..at[i]] == Gap(text, edits, i)
  }

  /** Every replacement stands at its offset, and all text between them, before the first and
      after the last is original text unchanged. */
  ghost predicate Reads(text: string, edits: seq<Edit>, out: string, at: seq<nat>)
    requires Fits(edits, |text|) && |at| == |edits|
  {
    && (forall i | 0 <= i < |at| :: ReadsAt(text, edits, out, at, i))
    && OutEnd(edits, at, |at|) <= |out|
    && out[OutEnd(edits, at, |at|)..] == Gap(text, edits, |at|)
  }

  lemma {:induction false} OutEnds(text: string, edits: seq<Edit>, at: seq<nat>, n: nat)
    requires Fits(edits, |text|) && n <= |at| == |edits|
    requires forall i {:trigger PutAt(text, edits, i)} | 0 <= i < |at| :: at[i] == PutAt(text, edits, i)
    ensures OutEnd(edits, at, n) == |Out(text, edits, n)|
  {
    if n > 0 {
      assert at[n - 1] == PutAt(text, edits, n - 1);
      OutStep(text, edits, n - 1);
    }
  }

  lemma {:induction false} PutIsInside(text: string, edits: seq<Edit>, i: nat)
    requires Fits(edits, |text|) && i < |edits|
    ensures Out(text, edits, i) + Gap(text, edits, i) + edits[i].put <= Spliced(text, edits)
  {
    OutIsPrefix(text, edits, i + 1, |edits|);
    assert Out(text, edits, i + 1) == Out(text, edits, i) + Gap(text, edits, i) + edits[i].put;
  }

  lemma {:induction false} EditReads(text: string, edits: seq<Edit>, at: seq<nat>, i: nat)
    requires Fits(edits, |text|) && i < |at| == |edits|
    requires at[i] == PutAt(text, edits, i) && OutEnd(edits, at, i) == |Out(text, edits, i)|
    ensures ReadsAt(text, edits, Spliced(text, edits), at, i)
  {
    PutIsInside(text, edits, i);
    Slices3(Spliced(text, edits), Out(text, edits, i), Gap(text, edits, i), edits[i].put);
  }

  lemma {:induction false} OnlyEditsChange(text: string, edits: seq<Edit>, at: seq<nat>)
    requires Fits(edits, |text|) && |at| == |edits|
    requires forall i {:trigger PutAt(text, edits, i)} | 0 <= i < |at| :: at[i] == PutAt(text, edits, i)
    ensures Reads(text, edits, Spliced(text, edits), at)
  {
    forall i | 0 <= i < |at| ensures ReadsAt(text, edits, Spliced(text, edits), at, i) {
      OutEnds(text, edits, at, i);
      assert at[i] == PutAt(text, edits, i);
      EditReads(text, edits, at, i);
    }
    OutEnds(text, edits, at, |at|);
  }

  lemma {:induction false} Slices3(out: string, a: string, b: string, c: string)
    requires a + b + c <= out
    ensures |a| + |b| + |c| <= |out|
    ensures out[|a|..|a| + |b|] == b && out[|a| + |b|..|a| + |b| + |c|] == c
  {}

  lemma {:induction false} Chain(text: string, a: nat, b: nat, c: nat)
    requires a <= b <= c <= |text|
    ensures text[..a] + text[a..b] + text[b..c] == text[..c]
  {}
}
