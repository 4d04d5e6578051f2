/** Collecting the regex candidates of one text and settling their overlaps. */
module RegexClaims {
  import opened Wrappers
  import opened ScrubTypes
  import opened Sorting

  /** A candidate with the declared order of its rule. */
  datatype Found = Found(order: nat, candidate: Candidate)

  // ---- collection ----

  function CandidateOf(e: Engine, rule: RegexRule, text: string, m: Span): Candidate
    requires m.start < m.end <= |text|
  {
    Candidate(m.start, m.end, rule.tag, rule.ruleId, e.clean(text[m.start..m.end]), None)
  }

  /** What one rule contributes: every match that is not empty. */
  function OfRule(e: Engine, rule: RegexRule, order: nat, text: string, spans: seq<Span>): seq<Found>
    requires forall i | 0 <= i < |spans| :: spans[i].end <= |text|
  {
    if spans == [] then []
    else
      var rest := OfRule(e, rule, order, text, spans[..|spans| - 1]);
      var m := spans[|spans| - 1];
      if m.end <= m.start then rest else rest + [Found(order, CandidateOf(e, rule, text, m))]
  }

  /** The first rule to exceed its budget stops the collection with nothing returned. */
  ghost function Collected(e: Engine, rules: seq<RegexRule>, text: string): Result<seq<Found>, ScrubTimeout>
    requires Sound(e)
  {
    if rules == [] then Success([])
    else
      var n := |rules| - 1;
      match Collected(e, rules[..n], text)
      case Failure(t) => Failure(t)
      case Success(found) =>
        match e.find(rules[n].pattern, text)
        case None => Failure(ScrubTimeout(rules[n].ruleId))
        case Some(spans) => Success(found + OfRule(e, rules[n], n, text, spans))
  }

  method MatchesOfRule(e: Engine, rule: RegexRule, order: nat, text: string, spans: seq<Span>)
    returns (found: seq<Found>)
    requires forall i | 0 <= i < |spans| :: spans[i].end <= |text|
    ensures found == OfRule(e, rule, order, text, spans)
  {
    found := [];
    for k := 0 to |spans|
      invariant found == OfRule(e, rule, order, text, spans[..k])
    {
      assert spans[..k + 1][..k] == spans[..k];
      var m := spans[k];
      if m.end <= m.start {
        continue;
      }
      found := found + [Found(order, CandidateOf(e, rule, text, m))];
    }
    assert spans[..|spans|] == spans;
  }

  method RegexCandidates(e: Engine, rules: seq<RegexRule>, text: string)
    returns (r: Result<seq<Found>, ScrubTimeout>)
    requires Sound(e)
    ensures r == Collected(e, rules, text)
  {
    var found: seq<Found> := [];
    for order := 0 to |rules|
      invariant Collected(e, rules[..order], text) == Success(found)
    {
      assert rules[..order + 1][..order] == rules[..order];
      var matches := e.find(rules[order].pattern, text);
      if matches == None {
        TimeoutStays(e, rules, order + 1, text);
        return Failure(ScrubTimeout(rules[order].ruleId));
      }
      var more := MatchesOfRule(e, rules[order], order, text, matches.value);
      found := found + more;
    }
    assert rules[..|rules|] == rules;
    return Success(found);
  }

  lemma {:induction false} TimeoutStays(e: Engine, rules: seq<RegexRule>, n: nat, text: string)
    requires Sound(e) && n <= |rules| && Collected(e, rules[..n], text).Failure?
    ensures Collected(e, rules, text) == Collected(e, rules[..n], text)
    decreases |rules|
  {
    if n < |rules| {
      assert rules[..|rules| - 1][..n] == rules[..n];
      TimeoutStays(e, rules[..|rules| - 1], n, text);
    } else {
      assert rules[..n] == rules;
    }
  }

  /** Scrubbing fails exactly when some rule exceeds its budget, and it names the first such rule. */
  lemma {:induction false} FailsClosed(e: Engine, rules: seq<RegexRule>, text: string)
    requires Sound(e)
    ensures Collected(e, rules, text).Success? <==>
              forall i | 0 <= i < |rules| :: e.find(rules[i].pattern, text).Some?
    ensures forall i | 0 <= i < |rules| && e.find(rules[i].pattern, text).None?
                && (forall j | 0 <= j < i :: e.find(rules[j].pattern, text).Some?) ::
              Collected(e, rules, text) == Failure(ScrubTimeout(rules[i].ruleId))
  {
    if rules != [] {
      FailsClosed(e, rules[..|rules| - 1], text);
      assert forall i | 0 <= i < |rules| - 1 :: rules[..|rules| - 1][i] == rules[i];
    }
  }

  // ---- facts about what was collected ----

  predicate SameKey(x: Found, y: Found) {
    x.order == y.order && x.candidate.start == y.candidate.start && x.candidate.end == y.candidate.end
  }

  /** Inside the text, not empty, and no two different candidates share order and span. */
  ghost predicate WellCollected(found: seq<Found>, length: nat) {
    && (forall x | x in found :: x.candidate.start < x.candidate.end <= length)
    && (forall x, y | x in found && y in found && SameKey(x, y) :: x == y)
  }

  lemma {:induction false} OfRuleFacts(e: Engine, rule: RegexRule, order: nat, text: string, spans: seq<Span>)
    requires Ordered(spans, |text|)
    ensures forall x | x in OfRule(e, rule, order, text, spans) ::
              && x.order == order && x.candidate.ruleId == rule.ruleId && x.candidate.entry == None
              && x.candidate.start < x.candidate.end <= |text|
              && (spans != [] ==> x.candidate.end <= spans[|spans| - 1].end)
    ensures WellCollected(OfRule(e, rule, order, text, spans), |text|)
  {
    if spans != [] {
      OfRuleFacts(e, rule, order, text, spans[..|spans| - 1]);
    }
  }

  lemma {:induction false} CollectedFacts(e: Engine, rules: seq<RegexRule>, text: string)
    requires Sound(e) && Collected(e, rules, text).Success?
    ensures forall x | x in Collected(e, rules, text).value ::
              x.order < |rules| && x.candidate.ruleId == rules[x.order].ruleId && x.candidate.entry == None
    ensures WellCollected(Collected(e, rules, text).value, |text|)
  {
    if rules != [] {
      var n := |rules| - 1;
      CollectedFacts(e, rules[..n], text);
      OfRuleFacts(e, rules[n], n, text, e.find(rules[n].pattern, text).value);
    }
  }

  /** The candidate is a match of the rule that is not empty: its span, the rule's tag and id, the matched
      text as it is compared, and no list entry. */
  ghost predicate MatchOf(e: Engine, rule: RegexRule, text: string, m: Span, c: Candidate) {
    && m.start < m.end <= |text|
    && c.start == m.start && c.end == m.end && c.tag == rule.tag && c.ruleId == rule.ruleId
    && c.valueKey == e.clean(text[m.start..m.end]) && c.entry == None
  }

  lemma {:induction false} OfRuleIff(e: Engine, rule: RegexRule, order: nat, text: string, spans: seq<Span>, x: Found)
    requires forall i | 0 <= i < |spans| :: spans[i].end <= |text|
    ensures x in OfRule(e, rule, order, text, spans) <==> x.order == order && exists m :: m in spans && MatchOf(e, rule, text, m, x.candidate)
  {
    if spans != [] {
      var n := |spans| - 1;
      OfRuleIff(e, rule, order, text, spans[..n], x);
      assert spans == spans[..n] + [spans[n]];
      if spans[n].start < spans[n].end {
        var c := CandidateOf(e, rule, text, spans[n]);
        assert MatchOf(e, rule, text, spans[n], x.candidate) <==> x.candidate == c;
        assert x == Found(order, c) <==> x.order == order && x.candidate == c;
      }
    }
  }

  /** A match of the rule declared at this place. */
  ghost predicate FoundBy(e: Engine, rules: seq<RegexRule>, text: string, x: Found) {
    && x.order < |rules| && e.find(rules[x.order].pattern, text).Some?
    && exists m :: m in e.find(rules[x.order].pattern, text).value && MatchOf(e, rules[x.order], text, m, x.candidate)
  }

  /** What is collected is every match of every rule, and nothing else. */
  lemma {:induction false} CollectedIff(e: Engine, rules: seq<RegexRule>, text: string, x: Found)
    requires Sound(e) && Collected(e, rules, text).Success?
    ensures x in Collected(e, rules, text).value <==> FoundBy(e, rules, text, x)
  {
    if rules != [] {
      var n := |rules| - 1;
      CollectedIff(e, rules[..n], text, x);
      OfRuleIff(e, rules[n], n, text, e.find(rules[n].pattern, text).value, x);
    }
  }

  // ---- overlap resolution ----

  /** Earliest start, then longest, then the rule declared first. */
  predicate Before(x: Found, y: Found) {
    var a, b := x.candidate, y.candidate;
    if a.start != b.start then a.start < b.start
    else if a.end - a.start != b.end - b.start then a.end - a.start > b.end - b.start
    else x.order <= y.order
  }

  /** The rule a reader would state: kept unless a kept candidate before it overlaps it. */
  ghost predicate Kept(ordered: seq<Found>, i: nat)
    requires i < |ordered|
    decreases i
  {
    forall j: nat {:trigger Kept(ordered, j)} | j < i :: Kept(ordered, j) ==> !Overlap(ordered[j].candidate, ordered[i].candidate)
  }

  ghost function KeptUpTo(ordered: seq<Found>, n: nat): seq<Candidate>
    requires n <= |ordered|
  {
    if n == 0 then []
    else if Kept(ordered, n - 1) then KeptUpTo(ordered, n - 1) + [ordered[n - 1].candidate]
    else KeptUpTo(ordered, n - 1)
  }

  ghost function Resolved(found: seq<Found>): seq<Candidate> {
    KeptUpTo(Sort(Before, found), |Sort(Before, found)|)
  }

  /** `reach` is where the kept candidates among the first `n` end, or -1 when there are none. */
  ghost predicate Reaches(ordered: seq<Found>, n: nat, reach: int)
    requires n <= |ordered|
  {
    && (forall j: nat {:trigger Kept(ordered, j)} | j < n && Kept(ordered, j) :: ordered[j].candidate.end <= reach)
    && (reach == -1 || exists j: nat {:trigger Kept(ordered, j)} :: j < n && Kept(ordered, j) && ordered[j].candidate.end == reach)
  }

  lemma {:induction false} ReachDecides(ordered: seq<Found>, n: nat, reach: int)
    requires n < |ordered| && SortedBy(Before, ordered) && Reaches(ordered, n, reach)
    requires forall x | x in ordered :: x.candidate.start < x.candidate.end
    ensures Kept(ordered, n) <==> ordered[n].candidate.start >= reach
  {}

  lemma {:induction false} ReachNext(ordered: seq<Found>, n: nat, reach: int)
    requires n < |ordered| && Reaches(ordered, n, reach)
    requires Kept(ordered, n) <==> ordered[n].candidate.start >= reach
    requires ordered[n].candidate.start < ordered[n].candidate.end
    ensures Reaches(ordered, n + 1, if Kept(ordered, n) then ordered[n].candidate.end else reach)
  {}

  /** The loop after `n` candidates: those kept so far, and how far they reach. */
  ghost predicate ResolvedUpTo(ordered: seq<Found>, n: nat, claimed: seq<Candidate>, reach: int) {
    n <= |ordered| && claimed == KeptUpTo(ordered, n) && Reaches(ordered, n, reach)
  }

  lemma {:induction false} ResolveNext(ordered: seq<Found>, n: nat, claimed: seq<Candidate>, reach: int)
    requires ResolvedUpTo(ordered, n, claimed, reach) && n < |ordered| && SortedBy(Before, ordered)
    requires forall x | x in ordered :: x.candidate.start < x.candidate.end
    ensures var c := ordered[n].candidate;
            if c.start >= reach then ResolvedUpTo(ordered, n + 1, claimed + [c], c.end) else ResolvedUpTo(ordered, n + 1, claimed, reach)
  {
    assert ordered[n] in ordered;
    ReachDecides(ordered, n, reach);
    ReachNext(ordered, n, reach);
  }

  method ResolveRegex(found: seq<Found>) returns (claimed: seq<Candidate>)
    requires forall x | x in found :: x.candidate.start < x.candidate.end
    ensures claimed == Resolved(found)
  {
    var ordered := Sort(Before, found);
    BeforeIsTotal();
    SortSorts(Before, found);
    SameElements(ordered, found);
    claimed := [];
    var reach: int := -1;
    for i := 0 to |ordered|
      invariant ResolvedUpTo(ordered, i, claimed, reach)
    {
      ResolveNext(ordered, i, claimed, reach);
      var candidate := ordered[i].candidate;
      if candidate.start >= reach {
        claimed := claimed + [candidate];
        reach := candidate.end;
      }
    }
  }

  lemma {:induction false} BeforeIsTotal()
    ensures TotalPreorder(Before)
  {}

  /** `keep` marks a set of candidates that obeys the greedy rule. */
  ghost predicate ObeysRule(ordered: seq<Found>, keep: seq<bool>) {
    && |keep| == |ordered|
    && forall i | 0 <= i < |ordered| ::
         keep[i] <==> forall j | 0 <= j < i :: keep[j] ==> !Overlap(ordered[j].candidate, ordered[i].candidate)
  }

  /** Only one set obeys the rule. */
  lemma {:induction false} RuleIsUnique(ordered: seq<Found>, keep: seq<bool>, i: nat)
    requires ObeysRule(ordered, keep) && i < |ordered|
    ensures keep[i] <==> Kept(ordered, i)
    decreases i
  {
    forall j: nat | j < i ensures keep[j] <==> Kept(ordered, j) {
      RuleIsUnique(ordered, keep, j);
    }
  }

  lemma {:induction false} KeptMembers(ordered: seq<Found>, n: nat)
    requires n <= |ordered|
    ensures forall j: nat | j < n && Kept(ordered, j) :: ordered[j].candidate in KeptUpTo(ordered, n)
    ensures forall c | c in KeptUpTo(ordered, n) :: exists j: nat :: j < n && Kept(ordered, j) && ordered[j].candidate == c
  {
    if n > 0 { KeptMembers(ordered, n - 1); }
  }

  lemma {:induction false} KeptEndsBefore(ordered: seq<Found>, n: nat, c: Candidate)
    requires n < |ordered| && SortedBy(Before, ordered) && Kept(ordered, n) && c in KeptUpTo(ordered, n)
    requires ordered[n].candidate.start < ordered[n].candidate.end
    ensures c.end <= ordered[n].candidate.start
  {
    KeptMembers(ordered, n);
    var j: nat :| j < n && Kept(ordered, j) && ordered[j].candidate == c;
    assert Before(ordered[j], ordered[n]);
  }

  lemma {:induction false} SnocDisjoint(cs: seq<Candidate>, c: Candidate, length: nat)
    requires Disjoint(cs, length) && c.start < c.end <= length
    requires forall k | 0 <= k < |cs| :: cs[k].end <= c.start
    ensures Disjoint(cs + [c], length)
  {}

  lemma {:induction false} KeptDisjoint(ordered: seq<Found>, n: nat, length: nat)
    requires n <= |ordered| && SortedBy(Before, ordered)
    requires forall x | x in ordered :: x.candidate.start < x.candidate.end <= length
    ensures Disjoint(KeptUpTo(ordered, n), length)
  {
    if n > 0 {
      KeptDisjoint(ordered, n - 1, length);
      if Kept(ordered, n - 1) {
        var before, last := KeptUpTo(ordered, n - 1), ordered[n - 1];
        assert last in ordered;
        forall k | 0 <= k < |before| ensures before[k].end <= last.candidate.start {
          KeptEndsBefore(ordered, n - 1, before[k]);
        }
        SnocDisjoint(before, last.candidate, length);
      }
    }
  }

  lemma {:induction false} GivenUpForAnother(ordered: seq<Found>, i: nat) returns (j: nat)
    requires i < |ordered| && SortedBy(Before, ordered)
    requires ordered[i].candidate !in KeptUpTo(ordered, |ordered|)
    ensures j < i && ordered[j].candidate in KeptUpTo(ordered, |ordered|)
    ensures Before(ordered[j], ordered[i]) && Overlap(ordered[j].candidate, ordered[i].candidate)
  {
    KeptMembers(ordered, |ordered|);
    assert !Kept(ordered, i);
    j :| j < i && Kept(ordered, j) && Overlap(ordered[j].candidate, ordered[i].candidate);
  }

  ghost predicate BeatenBy(x: Found, y: Found, found: seq<Found>) {
    && y in found && y.candidate in Resolved(found) && Overlap(y.candidate, x.candidate)
    && (y.candidate.start < x.candidate.start ||
        (y.candidate.start == x.candidate.start && y.candidate.end > x.candidate.end) ||
        (y.candidate.start == x.candidate.start && y.candidate.end == x.candidate.end && y.order <= x.order))
  }

  /** The claimed spans never overlap, and every candidate given up overlaps a claimed one that starts
      earlier, or there and is longer, or spans the same and is of a rule declared no later. */
  lemma {:induction false} ClaimsAreDisjointAndMaximal(found: seq<Found>, length: nat)
    requires forall x | x in found :: x.candidate.start < x.candidate.end <= length
    ensures Disjoint(Resolved(found), length)
    ensures forall c | c in Resolved(found) :: exists x :: x in found && x.candidate == c
    ensures forall x | x in found && x.candidate !in Resolved(found) :: exists y :: BeatenBy(x, y, found)
  {
    var ordered := Sort(Before, found);
    BeforeIsTotal();
    SortSorts(Before, found);
    SameElements(ordered, found);
    KeptDisjoint(ordered, |ordered|, length);
    forall c | c in Resolved(found) ensures exists x :: x in found && x.candidate == c {
      KeptMembers(ordered, |ordered|);
      var j: nat :| j < |ordered| && ordered[j].candidate == c;
      assert ordered[j] in found;
    }
    forall x | x in found && x.candidate !in Resolved(found) ensures exists y :: BeatenBy(x, y, found) {
      assert x in ordered;
      var i: nat :| i < |ordered| && ordered[i] == x;
      var j := GivenUpForAnother(ordered, i);
      assert BeatenBy(x, ordered[j], found);
    }
  }

  /** The order in which candidates were collected decides nothing. */
  lemma {:induction false} ResolutionIgnoresOrder(found: seq<Found>, shuffled: seq<Found>, length: nat)
    requires WellCollected(found, length)
    requires multiset(found) == multiset(shuffled)
    ensures Resolved(found) == Resolved(shuffled)
  {
    BeforeIsTotal();
    forall x, y | x in found && y in found && Before(x, y) && Before(y, x) ensures x == y {
      assert SameKey(x, y);
    }
    SortIgnoresOrder(Before, found, shuffled);
  }
}
