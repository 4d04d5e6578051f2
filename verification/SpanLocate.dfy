/** Where a quoted span occurs in its text: verbatim, or else with runs of whitespace compared equal. */
module SpanLocate {
  import opened Wrappers
  import opened PythonText

  /** The whitespace that folding joins; other Unicode spaces stay as they are. */
  predicate IsFoldable(c: char) { c == ' ' || c == '\t' || c == '\r' || c == '\n' }

  // ---- verbatim search ----

  predicate MatchesAt(haystack: string, needle: string, i: nat) {
    i + |needle| <= |haystack| && haystack[i..i + |needle|] == needle
  }

  /** `haystack.find(needle, from)`. */
  function FindFrom(haystack: string, needle: string, from: nat): (r: Option<nat>)
    ensures r.Some? ==> from <= r.value && MatchesAt(haystack, needle, r.value)
    ensures forall i: nat | from <= i && (r.Some? ==> i < r.value) :: !MatchesAt(haystack, needle, i)
    decreases |haystack| - from
  {
    if from + |needle| > |haystack| then None
    else if haystack[from..from + |needle|] == needle then Some(from)
    else if from == |haystack| then None
    else FindFrom(haystack, needle, from + 1)
  }

  ghost predicate Covered(found: seq<nat>, width: nat, i: nat) {
    exists k | 0 <= k < |found| :: found[k] <= i < found[k] + width
  }

  /** Occurrences from left to right that do not overlap, with no further one beginning in a gap. */
  ghost predicate Occurring(haystack: string, needle: string, found: seq<nat>) {
    && (forall k | 0 <= k < |found| :: MatchesAt(haystack, needle, found[k]))
    && (forall k, l | 0 <= k < l < |found| :: found[k] + |needle| <= found[l])
    && (forall i: nat {:trigger Covered(found, |needle|, i)} | MatchesAt(haystack, needle, i) :: Covered(found, |needle|, i))
  }

  ghost predicate Occurs(text: string, span: string) { exists i: nat :: MatchesAt(text, span, i) }

  /** That leaves no choice: the leftmost occurrences are the only such list. */
  lemma {:induction false} OccurrencesAreUnique(haystack: string, needle: string, a: seq<nat>, b: seq<nat>)
    requires needle != [] && Occurring(haystack, needle, a) && Occurring(haystack, needle, b)
    ensures a == b
  {
    PrefixesAgree(haystack, needle, a, b, |a|);
    PrefixesAgree(haystack, needle, b, a, |b|);
  }

  lemma {:induction false} PrefixesAgree(haystack: string, needle: string, a: seq<nat>, b: seq<nat>, n: nat)
    requires needle != [] && n <= |a| && Occurring(haystack, needle, a) && Occurring(haystack, needle, b)
    ensures n <= |b| && a[..n] == b[..n]
  {
    if n > 0 {
      PrefixesAgree(haystack, needle, a, b, n - 1);
      var i := a[n - 1];
      forall k | 0 <= k < n - 1 ensures b[k] + |needle| <= i { assert b[k] == a[..n - 1][k]; }
      assert Covered(b, |needle|, i);
      var j :| 0 <= j < |b| && b[j] <= i < b[j] + |needle|;
      assert j >= n - 1 && b[n - 1] <= i;
      forall h | 0 <= h < n - 1 ensures a[h] + |needle| <= b[n - 1] { assert b[..n - 1][h] == a[..n - 1][h]; }
      assert Covered(a, |needle|, b[n - 1]);
    }
  }

  lemma {:induction false} CoverGrows(before: seq<nat>, start: nat, width: nat, i: nat)
    ensures Covered(before + [start], width, i) <==> Covered(before, width, i) || start <= i < start + width
  {
    var found := before + [start];
    assert found[|before|] == start;
    if Covered(before, width, i) {
      var k :| 0 <= k < |before| && before[k] <= i < before[k] + width;
      assert found[k] == before[k];
    }
  }

  lemma {:induction false} NoOccurrence(haystack: string, needle: string)
    requires Occurring(haystack, needle, [])
    ensures !Occurs(haystack, needle)
  {
    var none: seq<nat> := [];
    forall i: nat ensures !MatchesAt(haystack, needle, i) {
      assert !Covered(none, |needle|, i);
    }
  }

  method Occurrences(haystack: string, needle: string) returns (found: seq<nat>)
    requires needle != []
    ensures Occurring(haystack, needle, found)
  {
    found := [];
    var start := FindFrom(haystack, needle, 0);
    while start.Some?
      invariant start.Some? ==> MatchesAt(haystack, needle, start.value)
      invariant forall k | 0 <= k < |found| :: MatchesAt(haystack, needle, found[k])
      invariant forall k, l | 0 <= k < l < |found| :: found[k] + |needle| <= found[l]
      invariant forall k | 0 <= k < |found| :: start.Some? ==> found[k] + |needle| <= start.value
      invariant forall i: nat {:trigger Covered(found, |needle|, i)} | MatchesAt(haystack, needle, i) :: (start.Some? && start.value <= i) || Covered(found, |needle|, i)
      decreases if start.Some? then |haystack| + 1 - start.value else 0
    {
      forall i: nat ensures Covered(found + [start.value], |needle|, i)
                       <==> Covered(found, |needle|, i) || start.value <= i < start.value + |needle| {
        CoverGrows(found, start.value, |needle|, i);
      }
      found := found + [start.value];
      start := FindFrom(haystack, needle, start.value + |needle|);
    }
  }

  // ---- folding ----

  /** A character survives folding unless it continues a run. */
  predicate Kept(text: string, i: nat)
    requires i < |text|
  {
    !IsFoldable(text[i]) || i == 0 || !IsFoldable(text[i - 1])
  }

  function Shown(text: string, i: nat): char
    requires i < |text|
  {
    if IsFoldable(text[i]) then ' ' else text[i]
  }

  /** The surviving offsets below `n`, in order. */
  function Origin(text: string, n: nat): (origin: seq<nat>)
    requires n <= |text|
    ensures forall k | 0 <= k < |origin| :: origin[k] < n
  {
    if n == 0 then [] else if Kept(text, n - 1) then Origin(text, n - 1) + [n - 1] else Origin(text, n - 1)
  }

  function FoldedTo(text: string, n: nat): (chars: string)
    requires n <= |text|
    ensures |chars| == |Origin(text, n)|
  {
    if n == 0 then "" else if Kept(text, n - 1) then FoldedTo(text, n - 1) + [Shown(text, n - 1)] else FoldedTo(text, n - 1)
  }

  function Folded(text: string): string { FoldedTo(text, |text|) }

  method Fold(text: string) returns (chars: string, origin: seq<nat>)
    ensures origin == Origin(text, |text|) && chars == Folded(text)
  {
    chars, origin := "", [];
    var inRun := false;
    for index := 0 to |text|
      invariant inRun <==> index > 0 && IsFoldable(text[index - 1])
      invariant origin == Origin(text, index) && chars == FoldedTo(text, index)
    {
      if IsFoldable(text[index]) {
        if !inRun {
          chars, origin := chars + [' '], origin + [index];
        }
        inRun := true;
      } else {
        chars, origin := chars + [text[index]], origin + [index];
        inRun := false;
      }
    }
  }

  lemma {:induction false} OriginFacts(text: string, n: nat)
    requires n <= |text|
    ensures forall k, l | 0 <= k < l < |Origin(text, n)| :: Origin(text, n)[k] < Origin(text, n)[l]
    ensures forall k | 0 <= k < |Origin(text, n)| :: Kept(text, Origin(text, n)[k])
  {
    if n > 0 { OriginFacts(text, n - 1); }
  }

  lemma {:induction false} OriginPrefix(text: string, m: nat, n: nat)
    requires m <= n <= |text|
    ensures Origin(text, m) <= Origin(text, n)
  {
    if m < n { OriginPrefix(text, m, n - 1); }
  }

  /** A folded offset counts the surviving offsets before it. */
  lemma {:induction false} OriginCounts(text: string, k: nat)
    requires k < |Origin(text, |text|)|
    ensures var i := Origin(text, |text|)[k];
            |Origin(text, i)| == k && |Origin(text, i + 1)| == k + 1 && Kept(text, i)
  {
    var o := Origin(text, |text|);
    var i := o[k];
    OriginFacts(text, |text|);
    OriginPrefix(text, i, |text|);
    OriginPrefix(text, i + 1, |text|);
    OriginFacts(text, i + 1);
    assert Origin(text, i + 1) == Origin(text, i) + [i];
    assert o[|Origin(text, i)|] == Origin(text, i + 1)[|Origin(text, i)|] == i;
  }

  /** Survival is decided by a character and its predecessor, so from a surviving offset on it
      does not matter where the slice begins. */
  lemma {:induction false} SliceOrigin(text: string, a: nat, c: nat)
    requires a < c <= |text| && Kept(text, a)
    ensures var s, inner := |Origin(text, a)|, Origin(text[a..c], c - a);
            |Origin(text, c)| == s + |inner| && forall k | 0 <= k < |inner| :: Origin(text, c)[s + k] == a + inner[k]
    decreases c
  {
    var slice := text[a..c];
    if c == a + 1 {
      assert Origin(slice, 1) == Origin(slice, 0) + [0];
      assert Origin(text, c) == Origin(text, a) + [a];
    } else {
      SliceOrigin(text, a, c - 1);
      SameOrigin(text[a..c - 1], slice, c - 1 - a);
      assert Kept(slice, c - 1 - a) == Kept(text, c - 1);
    }
  }

  lemma {:induction false} SameOrigin(short: string, long: string, n: nat)
    requires n <= |short| && short <= long
    ensures Origin(short, n) == Origin(long, n)
  {
    if n > 0 { SameOrigin(short, long, n - 1); }
  }

  lemma {:induction false} FoldedAt(text: string, n: nat, k: nat)
    requires n <= |text| && k < |Origin(text, n)|
    ensures FoldedTo(text, n)[k] == Shown(text, Origin(text, n)[k])
  {
    if k < |Origin(text, n - 1)| { FoldedAt(text, n - 1, k); }
  }

  lemma {:induction false} FoldedSliceAt(text: string, a: nat, c: nat, k: nat)
    requires a < c <= |text| && Kept(text, a) && k < |Origin(text[a..c], c - a)|
    ensures |Origin(text, a)| + k < |Folded(text)| && Folded(text[a..c])[k] == Folded(text)[|Origin(text, a)| + k]
  {
    SliceOrigin(text, a, c);
    OriginPrefix(text, c, |text|);
    var s, i := |Origin(text, a)|, Origin(text[a..c], c - a)[k];
    assert Origin(text, |text|)[s + k] == Origin(text, c)[s + k] == a + i;
    FoldedAt(text, |text|, s + k);
    FoldedAt(text[a..c], c - a, k);
    OriginFacts(text[a..c], c - a);
    assert Shown(text, a + i) == Shown(text[a..c], i);
  }

  /** Folding commutes with slicing from a surviving offset. */
  lemma {:induction false} FoldedSlice(text: string, a: nat, c: nat, s: nat, e: nat)
    requires a < c <= |text| && Kept(text, a)
    requires |Origin(text, a)| == s && |Origin(text, c)| == e
    ensures s <= e <= |Folded(text)| && Folded(text[a..c]) == Folded(text)[s..e]
  {
    SliceOrigin(text, a, c);
    OriginPrefix(text, c, |text|);
    var f, g := Folded(text[a..c]), Folded(text);
    forall k | 0 <= k < |f| ensures f[k] == g[s + k] {
      FoldedSliceAt(text, a, c, k);
    }
    SliceByElements(f, g, s, e);
  }

  lemma {:induction false} SliceByElements(f: string, g: string, s: nat, e: nat)
    requires s <= e <= |g| && |f| == e - s && forall k | 0 <= k < |f| :: f[k] == g[s + k]
    ensures f == g[s..e]
  {}

  /** Text that begins and ends outside whitespace folds to text that does. */
  lemma {:induction false} FoldedEnds(text: string)
    requires text != [] && !IsFoldable(text[0]) && !IsFoldable(text[|text| - 1])
    ensures var f := Folded(text); f != [] && f[0] == text[0] && f[|f| - 1] == text[|text| - 1]
  {
    FoldedHead(text);
    assert Origin(text, |text|) == Origin(text, |text| - 1) + [|text| - 1];
  }

  lemma {:induction false} FoldedHead(text: string)
    requires text != []
    ensures Folded(text) != [] && Folded(text)[0] == Shown(text, 0)
  {
    assert Origin(text, 1) == Origin(text, 0) + [0];
    OriginPrefix(text, 1, |text|);
    assert Origin(text, |text|)[0] == Origin(text, 1)[0];
    FoldedAt(text, |text|, 0);
  }

  // ---- stripping ----

  function LeftStrip(s: string): string {
    if s != [] && IsFoldable(s[0]) then LeftStrip(s[1..]) else s
  }

  function RightStrip(s: string): string {
    if s != [] && IsFoldable(s[|s| - 1]) then RightStrip(s[..|s| - 1]) else s
  }

  /** `span.strip(" \t\r\n")`. */
  function Strip(s: string): string { RightStrip(LeftStrip(s)) }

  lemma {:induction false} LeftStripFacts(s: string) returns (a: nat)
    ensures a <= |s| && LeftStrip(s) == s[a..] && (a < |s| ==> !IsFoldable(s[a])) && forall i | 0 <= i < a :: IsFoldable(s[i])
  {
    if s != [] && IsFoldable(s[0]) {
      a := LeftStripFacts(s[1..]);
      a := a + 1;
    } else {
      a := 0;
    }
  }

  lemma {:induction false} RightStripFacts(s: string) returns (b: nat)
    ensures b <= |s| && RightStrip(s) == s[..b] && (b > 0 ==> !IsFoldable(s[b - 1])) && forall i | b <= i < |s| :: IsFoldable(s[i])
  {
    if s != [] && IsFoldable(s[|s| - 1]) {
      b := RightStripFacts(s[..|s| - 1]);
    } else {
      b := |s|;
    }
  }

  /** A span that is not blank keeps something when stripped, and it begins and ends outside whitespace. */
  lemma {:induction false} StripFacts(s: string) returns (a: nat, b: nat)
    requires !Blank(s)
    ensures a < b <= |s| && Strip(s) == s[a..b] && !IsFoldable(s[a]) && !IsFoldable(s[b - 1])
  {
    var i :| 0 <= i < |s| && !IsPythonSpace(s[i]);
    a := LeftStripFacts(s);
    b := RightStripFacts(s[a..]);
    assert a <= i;
    assert s[i] == s[a..][i - a];
    b := a + b;
  }

  /** What the tolerant pass looks for begins and ends outside whitespace. */
  lemma {:induction false} TargetFacts(span: string)
    requires !Blank(span)
    ensures var target := Folded(Strip(span)); target != [] && !IsFoldable(target[0]) && !IsFoldable(target[|target| - 1])
  {
    var a, b := StripFacts(span);
    SliceEnds(span, a, b);
    FoldedEnds(span[a..b]);
  }

  lemma {:induction false} SliceEnds(s: string, a: nat, b: nat)
    requires a < b <= |s|
    ensures s[a..b][0] == s[a] && s[a..b][|s[a..b]| - 1] == s[b - 1]
  {}

  // ---- locating ----

  /** A stretch of the text that shows the span: verbatim, or folding to the folded stripped span. */
  ghost predicate Shows(text: string, span: string, tolerant: bool, x: nat, y: nat) {
    x < y <= |text| && if tolerant then Folded(text[x..y]) == Folded(Strip(span)) else text[x..y] == span
  }

  ghost predicate BeginsInside(rs: seq<(nat, nat)>, i: nat) {
    exists k | 0 <= k < |rs| :: rs[k].0 <= i < rs[k].1
  }

  /** Stretches from left to right that do not overlap, each showing the span, with no further
      one beginning in a gap. */
  ghost predicate Located(text: string, span: string, tolerant: bool, rs: seq<(nat, nat)>) {
    && (forall k | 0 <= k < |rs| :: Shows(text, span, tolerant, rs[k].0, rs[k].1))
    && (forall k, l | 0 <= k < l < |rs| :: rs[k].1 <= rs[l].0)
    && (forall x: nat, y: nat {:trigger Shows(text, span, tolerant, x, y), BeginsInside(rs, x)} | Shows(text, span, tolerant, x, y) ::
          BeginsInside(rs, x))
  }

  lemma {:induction false} SliceOfSlice(text: string, i: nat, span: string, a: nat, b: nat)
    requires i + |span| <= |text| && text[i..i + |span|] == span && a <= b <= |span|
    ensures text[i + a..i + b] == span[a..b]
  {
    forall k | a <= k < b ensures text[i + k] == span[k] {
      assert text[i..i + |span|][k] == text[i + k];
    }
    var there := text[i + a..i + b];
    forall k | 0 <= k < b - a ensures there[k] == span[a..b][k] {
      assert text[i + (a + k)] == span[a + k];
    }
  }

  /** What a verbatim occurrence shows, the tolerant pass would find as well. */
  lemma {:induction false} ExactImpliesTolerant(text: string, span: string)
    requires !Blank(span) && Occurs(text, span)
    ensures exists x, y :: Shows(text, span, true, x, y)
  {
    var i: nat :| MatchesAt(text, span, i);
    var a, b := StripFacts(span);
    SliceOfSlice(text, i, span, a, b);
    assert Shows(text, span, true, i + a, i + b);
  }

  function ExactRanges(found: seq<nat>, width: nat): seq<(nat, nat)> {
    seq(|found|, k requires 0 <= k < |found| => (found[k], found[k] + width))
  }

  lemma {:induction false} RangesCover(found: seq<nat>, width: nat, x: nat)
    requires Covered(found, width, x)
    ensures BeginsInside(ExactRanges(found, width), x)
  {
    var k :| 0 <= k < |found| && found[k] <= x < found[k] + width;
    var rs := ExactRanges(found, width);
    assert rs[k].0 <= x < rs[k].1;
  }

  lemma {:induction false} ExactIsLocated(text: string, span: string, found: seq<nat>)
    requires span != [] && Occurring(text, span, found)
    ensures Located(text, span, false, ExactRanges(found, |span|))
  {
    var rs := ExactRanges(found, |span|);
    forall x: nat, y: nat | Shows(text, span, false, x, y) ensures BeginsInside(rs, x) {
      assert MatchesAt(text, span, x);
      assert Covered(found, |span|, x);
      RangesCover(found, |span|, x);
    }
  }

  ghost predicate MapBackFits(origin: seq<nat>, width: nat, found: seq<nat>) {
    width > 0 && forall k | 0 <= k < |found| :: found[k] + width <= |origin|
  }

  /** Offsets in the folded text, mapped back into the original. */
  function MappedBack(origin: seq<nat>, width: nat, found: seq<nat>): seq<(nat, nat)>
    requires width > 0 && forall k | 0 <= k < |found| :: found[k] + width <= |origin|
  {
    seq(|found|, k requires 0 <= k < |found| => (origin[found[k]], origin[found[k] + width - 1] + 1))
  }

  lemma {:induction false} OriginIncreases(text: string, k: nat, l: nat)
    requires k <= l < |Origin(text, |text|)|
    ensures Origin(text, |text|)[k] <= Origin(text, |text|)[l]
  {
    OriginFacts(text, |text|);
  }

  /** A folded occurrence maps back to a stretch that folds to it. */
  lemma {:induction false} FoldedMatchShows(text: string, target: string, s: nat)
    requires target != [] && MatchesAt(Folded(text), target, s)
    ensures var o := Origin(text, |text|); var a, c := o[s], o[s + |target| - 1] + 1;
            a < c <= |text| && Folded(text[a..c]) == target
  {
    var e := s + |target| - 1;
    var a, b := Origin(text, |text|)[s], Origin(text, |text|)[e];
    OriginCounts(text, s);
    OriginCounts(text, e);
    OriginIncreases(text, s, e);
    FoldedSlice(text, a, b + 1, s, e + 1);
  }

  /** Every stretch that folds to the target begins where a folded occurrence maps back to. */
  lemma {:induction false} ShownIsFoldedMatch(text: string, target: string, x: nat, y: nat) returns (s: nat)
    requires target != [] && !IsFoldable(target[0])
    requires x < y <= |text| && Folded(text[x..y]) == target
    ensures MatchesAt(Folded(text), target, s) && Origin(text, |text|)[s] == x
  {
    FoldedHead(text[x..y]);
    assert Kept(text, x);
    s := |Origin(text, x)|;
    FoldedSlice(text, x, y, s, |Origin(text, y)|);
    assert Origin(text, x + 1) == Origin(text, x) + [x];
    OriginPrefix(text, x + 1, |text|);
    assert Origin(text, |text|)[s] == Origin(text, x + 1)[s];
    OriginPrefix(text, y, |text|);
  }

  /** Mapping back keeps the order, the gaps and the cover. */
  lemma {:induction false} MappedBackKeeps(o: seq<nat>, width: nat, found: seq<nat>)
    requires forall x, y | 0 <= x < y < |o| :: o[x] < o[y]
    requires MapBackFits(o, width, found) && forall k, l | 0 <= k < l < |found| :: found[k] + width <= found[l]
    ensures var rs := MappedBack(o, width, found);
            forall k, l | 0 <= k < l < |rs| :: rs[k].1 <= rs[l].0
  {
    var rs := MappedBack(o, width, found);
    forall k, l | 0 <= k < l < |rs| ensures rs[k].1 <= rs[l].0 {
      var x, y := found[k] + width - 1, found[l];
      assert x < y && o[x] < o[y];
    }
  }

  lemma {:induction false} MappedBackCovers(o: seq<nat>, width: nat, found: seq<nat>, s: nat)
    requires forall x, y | 0 <= x < y < |o| :: o[x] < o[y]
    requires MapBackFits(o, width, found) && s < |o| && Covered(found, width, s)
    ensures BeginsInside(MappedBack(o, width, found), o[s])
  {
    var k :| 0 <= k < |found| && found[k] <= s < found[k] + width;
    var x, y := found[k], found[k] + width - 1;
    assert o[x] <= o[s] <= o[y];
    var rs := MappedBack(o, width, found);
    assert rs[k] == (o[x], o[y] + 1);
  }

  lemma {:induction false} MappedBackFits(text: string, target: string, found: seq<nat>)
    requires target != [] && Occurring(Folded(text), target, found)
    ensures MapBackFits(Origin(text, |text|), |target|, found)
  {
    forall k | 0 <= k < |found| ensures found[k] + |target| <= |Origin(text, |text|)| {
      assert MatchesAt(Folded(text), target, found[k]);
    }
  }

  lemma {:induction false} FoundShows(text: string, span: string, found: seq<nat>, k: nat)
    requires Folded(Strip(span)) != [] && k < |found| && MatchesAt(Folded(text), Folded(Strip(span)), found[k])
    requires MapBackFits(Origin(text, |text|), |Folded(Strip(span))|, found)
    ensures var r := MappedBack(Origin(text, |text|), |Folded(Strip(span))|, found)[k]; Shows(text, span, true, r.0, r.1)
  {
    FoldedMatchShows(text, Folded(Strip(span)), found[k]);
  }

  lemma {:induction false} TolerantIsLocated(text: string, span: string, found: seq<nat>)
    requires !Blank(span) && Occurring(Folded(text), Folded(Strip(span)), found)
    ensures Folded(Strip(span)) != [] && MapBackFits(Origin(text, |text|), |Folded(Strip(span))|, found)
    ensures Located(text, span, true, MappedBack(Origin(text, |text|), |Folded(Strip(span))|, found))
  {
    TargetFacts(span);
    MappedBackFits(text, Folded(Strip(span)), found);
    OriginFacts(text, |text|);
    MappedBackKeeps(Origin(text, |text|), |Folded(Strip(span))|, found);
    forall k | 0 <= k < |found| ensures MatchesAt(Folded(text), Folded(Strip(span)), found[k]) {}
    TolerantCases(text, span, found);
  }

  lemma {:induction false} TolerantCases(text: string, span: string, found: seq<nat>)
    requires !Blank(span) && Folded(Strip(span)) != []
    requires Occurring(Folded(text), Folded(Strip(span)), found)
    requires MapBackFits(Origin(text, |text|), |Folded(Strip(span))|, found)
    ensures var rs := MappedBack(Origin(text, |text|), |Folded(Strip(span))|, found);
            && (forall k | 0 <= k < |rs| :: Shows(text, span, true, rs[k].0, rs[k].1))
            && (forall x: nat, y: nat {:trigger Shows(text, span, true, x, y), BeginsInside(rs, x)} | Shows(text, span, true, x, y) ::
                  BeginsInside(rs, x))
  {
    var rs := MappedBack(Origin(text, |text|), |Folded(Strip(span))|, found);
    forall k | 0 <= k < |rs| ensures Shows(text, span, true, rs[k].0, rs[k].1) {
      FoundShows(text, span, found, k);
    }
    TargetFacts(span);
    forall x: nat, y: nat | Shows(text, span, true, x, y) ensures BeginsInside(rs, x) {
      ShownIsCovered(text, Folded(Strip(span)), x, y, found);
    }
  }

  lemma {:induction false} ShownIsCovered(text: string, target: string, x: nat, y: nat, found: seq<nat>)
    requires target != [] && !IsFoldable(target[0]) && Occurring(Folded(text), target, found)
    requires MapBackFits(Origin(text, |text|), |target|, found)
    requires x < y <= |text| && Folded(text[x..y]) == target
    ensures BeginsInside(MappedBack(Origin(text, |text|), |target|, found), x)
  {
    var s := ShownIsFoldedMatch(text, target, x, y);
    assert Covered(found, |target|, s);
    OriginFacts(text, |text|);
    MappedBackCovers(Origin(text, |text|), |target|, found, s);
  }

  lemma {:induction false} NothingShows(text: string, span: string)
    requires Located(text, span, true, [])
    ensures !exists x, y :: Shows(text, span, true, x, y)
  {
    var none: seq<(nat, nat)> := [];
    forall x, y ensures !Shows(text, span, true, x, y) {
      assert !BeginsInside(none, x);
    }
  }

  predicate Askable(text: Option<string>, span: Option<string>) {
    text.Some? && text.value != [] && span.Some? && !Blank(span.value)
  }

  /** Every verbatim occurrence if there is one, otherwise every tolerant one; empty exactly when
      no stretch of the text folds to the folded stripped span. */
  method Locate(text: Option<string>, span: Option<string>) returns (rs: seq<(nat, nat)>)
    ensures !Askable(text, span) ==> rs == []
    ensures Askable(text, span) ==> Located(text.value, span.value, !Occurs(text.value, span.value), rs)
    ensures rs == [] <==> !Askable(text, span) || !exists x, y :: Shows(text.value, span.value, true, x, y)
  {
    if text.None? || text.value == [] || span.None? || Blank(span.value) {
      return [];
    }
    var exact := Occurrences(text.value, span.value);
    if exact != [] {
      assert MatchesAt(text.value, span.value, exact[0]);
      ExactIsLocated(text.value, span.value, exact);
      ExactImpliesTolerant(text.value, span.value);
      return ExactRanges(exact, |span.value|);
    }
    NoOccurrence(text.value, span.value);
    var foldedText, origin := Fold(text.value);
    var foldedSpan, _ := Fold(Strip(span.value));
    TargetFacts(span.value);
    var found := Occurrences(foldedText, foldedSpan);
    TolerantIsLocated(text.value, span.value, found);
    rs := MappedBack(origin, |foldedSpan|, found);
    if rs == [] {
      NothingShows(text.value, span.value);
    } else {
      assert Shows(text.value, span.value, true, rs[0].0, rs[0].1);
    }
  }
}
