/** When a scrub finds nothing in a text. */
module ScrubTwice {
  import opened Wrappers
  import opened ScrubTypes
  import opened WindowSearch
  import opened NameMatching
  import opened RegexClaims
  import opened Replacement
  import opened Scrubbing
  import opened ScrubTheorems

  // ---- no rule matches ----

  ghost predicate AllEmpty(spans: seq<Span>) {
    forall i | 0 <= i < |spans| :: spans[i].end <= spans[i].start
  }

  /** No rule finds anything, other than matches of no characters. */
  ghost predicate NoRuleMatches(e: Engine, rules: seq<RegexRule>, text: string) {
    forall i | 0 <= i < |rules| ::
      e.find(rules[i].pattern, text).Some? && AllEmpty(e.find(rules[i].pattern, text).value)
  }

  lemma {:induction false} OfRuleEmptyIff(e: Engine, rule: RegexRule, order: nat, text: string, spans: seq<Span>)
    requires forall i | 0 <= i < |spans| :: spans[i].end <= |text|
    ensures OfRule(e, rule, order, text, spans) == [] <==> AllEmpty(spans)
  {
    if spans != [] { OfRuleEmptyIff(e, rule, order, text, spans[..|spans| - 1]); }
  }

  lemma {:induction false} NoneButTheLast(e: Engine, rules: seq<RegexRule>, text: string)
    requires rules != []
    ensures var n := |rules| - 1;
            NoRuleMatches(e, rules, text) <==>
              && NoRuleMatches(e, rules[..n], text)
              && e.find(rules[n].pattern, text).Some? && AllEmpty(e.find(rules[n].pattern, text).value)
  {
    var n := |rules| - 1;
    assert forall i | 0 <= i < n :: rules[..n][i] == rules[i];
  }

  lemma {:induction false} NothingCollectedIff(e: Engine, rules: seq<RegexRule>, text: string)
    requires Sound(e)
    ensures Collected(e, rules, text) == Success([]) <==> NoRuleMatches(e, rules, text)
  {
    if rules != [] {
      var n := |rules| - 1;
      var before, spans := Collected(e, rules[..n], text), e.find(rules[n].pattern, text);
      NothingCollectedIff(e, rules[..n], text);
      NoneButTheLast(e, rules, text);
      if spans.Some? {
        OfRuleEmptyIff(e, rules[n], n, text, spans.value);
        var here := OfRule(e, rules[n], n, text, spans.value);
        assert before.Success? ==> (before.value + here == [] <==> before.value == [] && here == []);
      }
    }
  }

  lemma {:induction false} NothingClaimedIff(found: seq<Found>, length: nat)
    requires forall x | x in found :: x.candidate.start < x.candidate.end <= length
    ensures Resolved(found) == [] <==> found == []
  {
    ClaimsAreDisjointAndMaximal(found, length);
    if found != [] {
      var x := found[0];
      assert x in found;
      assert x.candidate in Resolved(found) || exists y :: BeatenBy(x, y, found);
    }
    if Resolved(found) != [] {
      assert Resolved(found)[0] in Resolved(found);
    }
  }

  // ---- no window names anybody ----

  ghost predicate NobodyIsNamed(w: Windows) {
    forall t, n :: !w.Qualifies(t, n)
  }

  lemma {:induction false} NothingFoundIff(w: Windows)
    ensures w.SearchFrom(0) == [] <==> NobodyIsNamed(w)
  {
    w.SearchIsLeftmostLongest(0);
    if w.SearchFrom(0) != [] {
      w.FirstWindow(w.SearchFrom(0), 0);
      assert w.Qualifies(w.SearchFrom(0)[0].first, w.SearchFrom(0)[0].count);
    }
    if t, n :| w.Qualifies(t, n) {
      w.QualifyingWindowIsCovered(t, n);
    }
  }

  // ---- a text left alone ----

  /** The scrub returns the text as it is, with no hits. */
  ghost predicate LeftAlone(e: Engine, rules: ScrubRules, text: string)
    requires Sound(e)
  {
    Scrubbed(e, rules, text) == Success(ScrubResult(text, []))
  }

  lemma {:induction false} NothingChosenIff(claimed: seq<Candidate>, names: seq<Candidate>, length: nat)
    requires Disjoint(claimed, length) && Disjoint(names, length)
    ensures Chosen(claimed, names) == [] <==> claimed == [] && names == []
  {
    ChosenIsDisjoint(claimed, names, length);
    if claimed != [] {
      assert claimed[0] in Chosen(claimed, names);
    } else if names != [] {
      assert names[0] in Chosen(claimed, names);
    } else {
      assert Chosen([], []) == [];
    }
  }

  lemma {:induction false} LeftAloneIffNothingChosen(e: Engine, rules: ScrubRules, text: string)
    requires Sound(e) && text != "" && Collected(e, rules.regexRules, text).Success?
    ensures LeftAlone(e, rules, text) <==> ChosenIn(e, rules, text, Collected(e, rules.regexRules, text).value) == []
  {
    var chosen := ChosenIn(e, rules, text, Collected(e, rules.regexRules, text).value);
    ChosenFits(e, rules, text);
    assert |Replaced(text, chosen).hits| == |chosen|;
    if chosen == [] { NothingReplaced(text); }
  }

  /** A text is left alone exactly when no rule matches in it and no window of it names anybody. */
  lemma {:induction false} LeftAloneIff(e: Engine, rules: ScrubRules, text: string)
    requires Sound(e) && text != ""
    ensures LeftAlone(e, rules, text) <==>
              NoRuleMatches(e, rules.regexRules, text) && NobodyIsNamed(ReadingOf(e, rules, text).Search())
  {
    var r := ReadingOf(e, rules, text);
    NothingCollectedIff(e, rules.regexRules, text);
    NothingFoundIff(r.Search());
    NamesCount(r);
    if Collected(e, rules.regexRules, text).Success? {
      var found := Collected(e, rules.regexRules, text).value;
      CollectedFacts(e, rules.regexRules, text);
      ChosenFits(e, rules, text);
      NamesAreDisjoint(e, rules, text);
      NothingClaimedIff(found, |text|);
      NothingChosenIff(Resolved(found), NamesIn(r), |text|);
      LeftAloneIffNothingChosen(e, rules, text);
    }
  }
}
