/** The scrubber: regex claims first, then the names no claim overlaps, replaced in one pass. */
module Scrubbing {
  import opened Wrappers
  import opened ScrubTypes
  import opened NameIndexes
  import opened WindowSearch
  import opened NameMatching
  import opened NameTagging
  import opened RegexClaims
  import opened Replacement
  import opened Sorting

  // ---- the specification ----

  ghost function ListsOf(e: Engine, rules: ScrubRules): Lists
    requires Sound(e)
  {
    Lists(BuildIndex(e, rules.firstnames), BuildIndex(e, rules.lastnames), BuildIndex(e, rules.whitelist))
  }

  function TokensIn(e: Engine, text: string): seq<Token>
    requires Ordered(e.tokens(text), |text|)
  {
    var spans := e.tokens(text);
    seq(|spans|, i requires 0 <= i < |spans| =>
      var word := text[spans[i].start..spans[i].end];
      Token(spans[i].start, spans[i].end, e.stripped(word), e.transliterated(word)))
  }

  function JoinedIn(e: Engine, text: string): seq<bool>
    requires Ordered(e.tokens(text), |text|)
  {
    var spans := e.tokens(text);
    seq(if spans == [] then 0 else |spans| - 1, i requires 0 <= i < |spans| - 1 =>
      e.separator(text[spans[i].end..spans[i + 1].start]))
  }

  ghost function ReadingOf(e: Engine, rules: ScrubRules, text: string): (r: Reading)
    requires Sound(e)
    ensures r.WellFormed()
  {
    var tokens := TokensIn(e, text);
    Reading(ListsOf(e, rules), tokens, JoinedIn(e, text),
            seq(|tokens|, i requires 0 <= i < |tokens| => e.honorific(text, tokens[i].start)))
  }

  lemma {:induction false} MatchesAreTaggable(r: Reading)
    requires r.WellFormed()
    ensures Taggable(r.Matches(), r.tokens, r.joined)
  {
    forall k | 0 <= k < |r.Matches()|
      ensures var m := r.Matches()[k];
              m.count >= 1 && m.first + m.count <= |r.tokens| && (m.firstname.Some? || m.lastname.Some?)
      ensures forall l | k < l < |r.Matches()| :: r.Matches()[k].first + r.Matches()[k].count <= r.Matches()[l].first
    {
      r.MatchesAreListed(k);
    }
  }

  ghost function NamesIn(r: Reading): seq<Candidate>
    requires r.WellFormed()
  {
    MatchesAreTaggable(r);
    TaggedNames(r.Matches(), r.tokens, r.joined)
  }

  predicate Overlaps(c: Candidate, claimed: seq<Candidate>) {
    exists k | k in claimed :: Overlap(c, k)
  }

  function NotOverlapping(names: seq<Candidate>, claimed: seq<Candidate>): seq<Candidate> {
    if names == [] then []
    else if Overlaps(names[0], claimed) then NotOverlapping(names[1..], claimed)
    else [names[0]] + NotOverlapping(names[1..], claimed)
  }

  predicate ByStart(a: Candidate, b: Candidate) { a.start <= b.start }

  ghost function Chosen(claimed: seq<Candidate>, names: seq<Candidate>): seq<Candidate> {
    Sort(ByStart, claimed + NotOverlapping(names, claimed))
  }

  // ---- the chosen spans never overlap ----

  lemma {:induction false} ConsDisjoint(c: Candidate, cs: seq<Candidate>, length: nat)
    requires Disjoint(cs, length) && c.start < c.end <= length
    requires forall k | k in cs :: c.end <= k.start
    ensures Disjoint([c] + cs, length)
  {}

  lemma {:induction false} TailDisjoint(cs: seq<Candidate>, length: nat)
    requires Disjoint(cs, length) && cs != []
    ensures Disjoint(cs[1..], length)
    ensures cs[0].start < cs[0].end <= length
    ensures forall k | k in cs[1..] :: cs[0].end <= k.start && k in cs
  {}

  lemma {:induction false} NotOverlappingKeeps(names: seq<Candidate>, claimed: seq<Candidate>, length: nat)
    requires Disjoint(names, length)
    ensures Disjoint(NotOverlapping(names, claimed), length)
    ensures forall c :: c in NotOverlapping(names, claimed) <==> c in names && !Overlaps(c, claimed)
  {
    if names != [] {
      TailDisjoint(names, length);
      NotOverlappingKeeps(names[1..], claimed, length);
      if !Overlaps(names[0], claimed) {
        ConsDisjoint(names[0], NotOverlapping(names[1..], claimed), length);
      }
    }
  }

  lemma {:induction false} InsertDisjoint(c: Candidate, cs: seq<Candidate>, length: nat)
    requires Disjoint(cs, length) && c.start < c.end <= length
    requires forall k | k in cs :: !Overlap(c, k)
    ensures Disjoint(Insert(ByStart, c, cs), length)
    ensures forall k :: k in Insert(ByStart, c, cs) <==> k == c || k in cs
  {
    if cs == [] {
      ConsDisjoint(c, cs, length);
    } else {
      TailDisjoint(cs, length);
      assert cs[0] in cs;
      if ByStart(c, cs[0]) {
        ConsDisjoint(c, cs, length);
      } else {
        InsertDisjoint(c, cs[1..], length);
        ConsDisjoint(cs[0], Insert(ByStart, c, cs[1..]), length);
      }
    }
  }

  lemma {:induction false} SortDisjoint(cs: seq<Candidate>, length: nat)
    requires forall c | c in cs :: c.start < c.end <= length
    requires forall i, j | 0 <= i < j < |cs| :: !Overlap(cs[i], cs[j])
    ensures Disjoint(Sort(ByStart, cs), length)
    ensures forall c :: c in Sort(ByStart, cs) <==> c in cs
  {
    if cs != [] {
      SortDisjoint(cs[1..], length);
      assert forall k | k in cs[1..] :: !Overlap(cs[0], k);
      InsertDisjoint(cs[0], Sort(ByStart, cs[1..]), length);
    }
  }

  lemma {:induction false} NoTwoOverlap(claimed: seq<Candidate>, kept: seq<Candidate>, length: nat)
    requires Disjoint(claimed, length) && Disjoint(kept, length)
    requires forall c | c in kept :: !Overlaps(c, claimed)
    ensures forall i, j | 0 <= i < j < |claimed + kept| :: !Overlap((claimed + kept)[i], (claimed + kept)[j])
  {
    var all := claimed + kept;
    forall i, j | 0 <= i < j < |all| ensures !Overlap(all[i], all[j]) {
      if i < |claimed| <= j {
        assert all[i] in claimed && all[j] in kept;
        assert !Overlaps(all[j], claimed);
      }
    }
  }

  /** Claims and surviving names together are disjoint, and nothing else is replaced. */
  lemma {:induction false} ChosenIsDisjoint(claimed: seq<Candidate>, names: seq<Candidate>, length: nat)
    requires Disjoint(claimed, length) && Disjoint(names, length)
    ensures Disjoint(Chosen(claimed, names), length)
    ensures forall c :: c in Chosen(claimed, names) <==> c in claimed || (c in names && !Overlaps(c, claimed))
  {
    var kept := NotOverlapping(names, claimed);
    NotOverlappingKeeps(names, claimed, length);
    NoTwoOverlap(claimed, kept, length);
    SortDisjoint(claimed + kept, length);
  }

  /** Token spans in, candidate spans out: names never overlap each other. */
  lemma {:induction false} NamesAreDisjoint(e: Engine, rules: ScrubRules, text: string)
    requires Sound(e)
    ensures Disjoint(NamesIn(ReadingOf(e, rules, text)), |text|)
  {
    var r := ReadingOf(e, rules, text);
    MatchesAreTaggable(r);
    TokensIncrease(e, text);
    CandidatesDisjoint(r.Matches(), Decisions(r.Matches(), r.tokens, r.joined), r.tokens, |text|);
  }

  /** Wherever the decisions come from, candidates on disjoint matches are disjoint. */
  lemma {:induction false} CandidatesDisjoint(ms: seq<NameMatch>, ds: seq<Decision>, tokens: seq<Token>, length: nat)
    requires |ds| == |ms| && Increasing(tokens, length)
    requires forall k | 0 <= k < |ms| :: ms[k].count >= 1 && ms[k].first + ms[k].count <= |tokens|
    requires forall k, l | 0 <= k < l < |ms| :: ms[k].first + ms[k].count <= ms[l].first
    ensures Disjoint(Candidates(ms, ds, tokens, |ms|), length)
  {
    var cs := Candidates(ms, ds, tokens, |ms|);
    forall i | 0 <= i < |cs| ensures cs[i].start < cs[i].end <= length {
      CandidateSpan(ms, ds, tokens, i);
      TokenOrder(tokens, length, ms[i].first, ms[i].first + ms[i].count - 1);
    }
    forall i, j | 0 <= i < j < |cs| ensures cs[i].end <= cs[j].start {
      CandidateSpan(ms, ds, tokens, i);
      CandidateSpan(ms, ds, tokens, j);
    }
  }

  ghost predicate Increasing(tokens: seq<Token>, length: nat) {
    && (forall i | 0 <= i < |tokens| :: tokens[i].start < tokens[i].end <= length)
    && (forall i, j | 0 <= i < j < |tokens| :: tokens[i].end <= tokens[j].start)
  }

  lemma {:induction false} TokensIncrease(e: Engine, text: string)
    requires Sound(e)
    ensures Increasing(TokensIn(e, text), |text|)
  {}

  lemma {:induction false} TokenOrder(tokens: seq<Token>, length: nat, i: nat, j: nat)
    requires Increasing(tokens, length) && i <= j < |tokens|
    ensures tokens[i].start < tokens[j].end <= length
  {}

  // ---- the whole scrub ----

  ghost function ChosenIn(e: Engine, rules: ScrubRules, text: string, found: seq<Found>): seq<Candidate>
    requires Sound(e)
  {
    Chosen(Resolved(found), NamesIn(ReadingOf(e, rules, text)))
  }

  lemma {:induction false} ChosenFits(e: Engine, rules: ScrubRules, text: string)
    requires Sound(e) && Collected(e, rules.regexRules, text).Success?
    ensures Disjoint(Resolved(Collected(e, rules.regexRules, text).value), |text|)
    ensures Disjoint(ChosenIn(e, rules, text, Collected(e, rules.regexRules, text).value), |text|)
  {
    var found := Collected(e, rules.regexRules, text).value;
    CollectedFacts(e, rules.regexRules, text);
    ClaimsAreDisjointAndMaximal(found, |text|);
    NamesAreDisjoint(e, rules, text);
    ChosenIsDisjoint(Resolved(found), NamesIn(ReadingOf(e, rules, text)), |text|);
  }

  ghost function Scrubbed(e: Engine, rules: ScrubRules, text: string): Result<ScrubResult, ScrubTimeout>
    requires Sound(e)
  {
    if text == "" then Success(ScrubResult(text, []))
    else
      match Collected(e, rules.regexRules, text)
      case Failure(t) => Failure(t)
      case Success(found) => ChosenFits(e, rules, text); Success(Replaced(text, ChosenIn(e, rules, text, found)))
  }

  class Scrubber {
    const engine: Engine
    const rules: ScrubRules
    const firstnames: NameIndex
    const lastnames: NameIndex
    const whitelist: NameIndex
    const maxTokens: nat

    ghost predicate Valid()
      reads firstnames, lastnames, whitelist
    {
      && Sound(engine)
      && ListsOf(engine, rules) == Lists(firstnames.Contents(), lastnames.Contents(), whitelist.Contents())
      && maxTokens == ListsOf(engine, rules).MaxTokens()
    }

    constructor (engine: Engine, rules: ScrubRules)
      requires Sound(engine)
      ensures Valid() && this.engine == engine && this.rules == rules
    {
      this.engine := engine;
      this.rules := rules;
      var first := new NameIndex(engine, rules.firstnames);
      var last := new NameIndex(engine, rules.lastnames);
      var white := new NameIndex(engine, rules.whitelist);
      firstnames := first;
      lastnames := last;
      whitelist := white;
      maxTokens := Max(first.maxTokens, last.maxTokens);
    }

    method NameCandidates(text: string) returns (names: seq<Candidate>)
      requires Valid()
      ensures names == NamesIn(ReadingOf(engine, rules, text))
    {
      ghost var r := ReadingOf(engine, rules, text);
      MatchesAreTaggable(r);
      if maxTokens == 0 {
        NothingToSearch(r.Search(), 0);
        assert r.Matches() == [];
        return [];
      }
      var tokens := TokensIn(engine, text);
      var joined := JoinedIn(engine, text);
      var matches := MatchTokens(firstnames, lastnames, whitelist, maxTokens, text, engine, tokens, joined, r, r.Search());
      names := TagNames(tokens, joined, matches);
    }

    /** Claims and the names they leave alone, left to right. */
    method Choose(text: string, found: seq<Found>) returns (chosen: seq<Candidate>)
      requires Valid() && Collected(engine, rules.regexRules, text) == Success(found)
      ensures chosen == ChosenIn(engine, rules, text, found)
    {
      CollectedFacts(engine, rules.regexRules, text);
      var claimed := ResolveRegex(found);
      var names := NameCandidates(text);
      chosen := Sort(ByStart, claimed + NotOverlapping(names, claimed));
    }

    /** Regex rules, then names, then the replacement; a timeout gives no text at all. */
    method Scrub(text: string) returns (r: Result<ScrubResult, ScrubTimeout>)
      requires Valid()
      ensures r == Scrubbed(engine, rules, text)
    {
      if text == "" {
        return Success(ScrubResult(text, []));
      }
      var found := RegexCandidates(engine, rules.regexRules, text);
      if found.Failure? {
        return Failure(found.error);
      }
      ChosenFits(engine, rules, text);
      var chosen := Choose(text, found.value);
      if chosen == [] {
        NothingReplaced(text);
        return Success(ScrubResult(text, []));
      }
      var result := Replace(text, chosen);
      return Success(result);
    }
  }

  lemma {:induction false} NothingReplaced(text: string)
    ensures Replaced(text, []) == ScrubResult(text, [])
  {}

  lemma {:induction false} NothingToSearch(w: Windows, i: nat)
    requires w.widest == 0 && i <= w.length
    ensures w.SearchFrom(i) == []
    decreases w.length - i
  {
    if i < w.length { NothingToSearch(w, i + 1); }
  }
}
