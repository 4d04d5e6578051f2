/** Deciding first name, last name or undecided name for each match, in one pass. */
module NameTagging {
  import opened Wrappers
  import opened ScrubTypes

  datatype Decision = Decision(tag: NameTag, key: string)

  /** What the matcher hands over: real windows on at least one list, left to right, disjoint. */
  ghost predicate Taggable(matches: seq<NameMatch>, tokens: seq<Token>, joined: seq<bool>) {
    && |joined| == (if tokens == [] then 0 else |tokens| - 1)
    && (forall k | 0 <= k < |matches| ::
          && matches[k].count >= 1 && matches[k].first + matches[k].count <= |tokens|
          && (matches[k].firstname.Some? || matches[k].lastname.Some?))
    && (forall k, l | 0 <= k < l < |matches| :: matches[k].first + matches[k].count <= matches[l].first)
  }

  predicate Adjacent(left: NameMatch, right: NameMatch, joined: seq<bool>)
    requires left.count >= 1 && right.first == left.first + left.count ==> left.first + left.count - 1 < |joined|
  {
    left.count >= 1 && right.first == left.first + left.count && joined[left.first + left.count - 1]
  }

  /** A first name because a last-name match follows right after it. */
  ghost predicate LeadsLastname(matches: seq<NameMatch>, joined: seq<bool>, tokens: seq<Token>, i: nat)
    requires Taggable(matches, tokens, joined) && i < |matches|
  {
    i + 1 < |matches| && Adjacent(matches[i], matches[i + 1], joined) && matches[i + 1].lastname.Some?
  }

  /** The first match up to `i` that is on both lists with this last-name key. */
  ghost function FirstBoth(matches: seq<NameMatch>, key: string, i: nat): (j: nat)
    requires i < |matches|
    ensures j <= i
  {
    if i == 0 then 0
    else
      var j := FirstBoth(matches, key, i - 1);
      if matches[j].Both() && matches[j].lastname == Some(key) then j else i
  }

  lemma {:induction false} FirstBothIsFirst(matches: seq<NameMatch>, key: string, i: nat)
    requires i < |matches|
    ensures var j := FirstBoth(matches, key, i);
            && (forall k | 0 <= k < j :: !(matches[k].Both() && matches[k].lastname == Some(key)))
            && ((exists k :: 0 <= k <= i && matches[k].Both() && matches[k].lastname == Some(key)) ==>
                  matches[j].Both() && matches[j].lastname == Some(key))
  {
    if i > 0 { FirstBothIsFirst(matches, key, i - 1); }
  }

  /** The rule, match by match: one list decides; on both lists the neighbours decide, then the
      first match of the same name, and failing all three it is an undecided name. */
  ghost function Decide(matches: seq<NameMatch>, tokens: seq<Token>, joined: seq<bool>, i: nat): Decision
    requires Taggable(matches, tokens, joined) && i < |matches|
    decreases i
  {
    var m := matches[i];
    if m.lastname.None? then Decision(Firstname, m.firstname.value)
    else if m.firstname.None? then Decision(Lastname, m.lastname.value)
    else if LeadsLastname(matches, joined, tokens, i) then Decision(Firstname, m.firstname.value)
    else if i > 0 && Adjacent(matches[i - 1], m, joined) && Decide(matches, tokens, joined, i - 1).tag == Firstname then
      Decision(Lastname, m.lastname.value)
    else
      var j := FirstBoth(matches, m.lastname.value, i);
      if j < i then Decide(matches, tokens, joined, j) else Decision(Name, m.lastname.value)
  }

  function Tagged(m: NameMatch, d: Decision, tokens: seq<Token>): Candidate
    requires m.count >= 1 && m.first + m.count <= |tokens|
  {
    Candidate(tokens[m.first].start, tokens[m.first + m.count - 1].end, d.tag.Value(), d.tag.RuleId(), d.key, Some(d.key))
  }

  ghost function Decisions(matches: seq<NameMatch>, tokens: seq<Token>, joined: seq<bool>): (ds: seq<Decision>)
    requires Taggable(matches, tokens, joined)
  {
    seq(|matches|, i requires 0 <= i < |matches| => Decide(matches, tokens, joined, i))
  }

  /** The candidates of all matches, one each, on exactly the tokens matched. */
  ghost function TaggedNames(matches: seq<NameMatch>, tokens: seq<Token>, joined: seq<bool>): seq<Candidate>
    requires Taggable(matches, tokens, joined)
  {
    Candidates(matches, Decisions(matches, tokens, joined), tokens, |matches|)
  }

  ghost function Candidates(matches: seq<NameMatch>, ds: seq<Decision>, tokens: seq<Token>, n: nat): (cs: seq<Candidate>)
    requires n <= |matches| == |ds|
    requires forall k | 0 <= k < |matches| :: matches[k].count >= 1 && matches[k].first + matches[k].count <= |tokens|
    ensures |cs| == n
  {
    if n == 0 then [] else Candidates(matches, ds, tokens, n - 1) + [Tagged(matches[n - 1], ds[n - 1], tokens)]
  }

  lemma {:induction false} CandidateAt(matches: seq<NameMatch>, ds: seq<Decision>, tokens: seq<Token>, n: nat, i: nat)
    requires i < n <= |matches| == |ds|
    requires forall k | 0 <= k < |matches| :: matches[k].count >= 1 && matches[k].first + matches[k].count <= |tokens|
    ensures Candidates(matches, ds, tokens, n)[i] == Tagged(matches[i], ds[i], tokens)
  {
    if i < n - 1 { CandidateAt(matches, ds, tokens, n - 1, i); }
  }

  /** Wherever the decisions come from, candidate `i` spans exactly the tokens of match `i`. */
  lemma {:induction false} CandidateSpan(matches: seq<NameMatch>, ds: seq<Decision>, tokens: seq<Token>, i: nat)
    requires i < |matches| == |ds|
    requires forall k | 0 <= k < |matches| :: matches[k].count >= 1 && matches[k].first + matches[k].count <= |tokens|
    ensures var c, m := Candidates(matches, ds, tokens, |matches|)[i], matches[i];
            c.start == tokens[m.first].start && c.end == tokens[m.first + m.count - 1].end && c.entry.Some?
  {
    CandidateAt(matches, ds, tokens, |matches|, i);
  }

  // ---- the one-pass form: a dictionary of first decisions and the previous tag ----

  ghost predicate HasKey(m: NameMatch, key: string) { m.Both() && m.lastname.value == key }

  ghost predicate IsFirstBoth(matches: seq<NameMatch>, key: string, j: nat) {
    j < |matches| && HasKey(matches[j], key) && forall k | 0 <= k < j :: !HasKey(matches[k], key)
  }

  /** `decided` holds the decision of the first both-list match of every last-name key among the
      first `n` matches. */
  ghost predicate Remembers(decided: map<string, Decision>, matches: seq<NameMatch>, ds: seq<Decision>, n: nat)
    requires n <= |matches| == |ds|
  {
    && (forall k | 0 <= k < n && matches[k].Both() :: matches[k].lastname.value in decided)
    && (forall key | key in decided :: exists j: nat :: j < n && IsFirstBoth(matches, key, j) && decided[key] == ds[j])
  }

  lemma {:induction false} RecallFirst(decided: map<string, Decision>, matches: seq<NameMatch>, ds: seq<Decision>, n: nat)
    requires n < |matches| == |ds| && Remembers(decided, matches, ds, n) && matches[n].Both()
    ensures var key := matches[n].lastname.value;
            var j := FirstBoth(matches, key, n);
            (key in decided <==> j < n) && (key in decided ==> decided[key] == ds[j])
  {
    var key := matches[n].lastname.value;
    var j := FirstBoth(matches, key, n);
    FirstBothIsFirst(matches, key, n);
    assert IsFirstBoth(matches, key, j);
    if key in decided {
      var k: nat :| k < n && IsFirstBoth(matches, key, k) && decided[key] == ds[k];
      assert k == j;
    }
  }

  function SetDefault(decided: map<string, Decision>, key: string, d: Decision): map<string, Decision> {
    if key in decided then decided else decided[key := d]
  }

  lemma {:induction false} RememberNext(decided: map<string, Decision>, matches: seq<NameMatch>, ds: seq<Decision>, n: nat)
    requires n < |matches| == |ds| && Remembers(decided, matches, ds, n)
    ensures Remembers(if matches[n].Both() then SetDefault(decided, matches[n].lastname.value, ds[n]) else decided,
                      matches, ds, n + 1)
  {}

  /** What decides a match on both lists. */
  lemma {:induction false} DecideBoth(matches: seq<NameMatch>, tokens: seq<Token>, joined: seq<bool>, i: nat, leads: bool, follows: bool)
    requires Taggable(matches, tokens, joined) && i < |matches| && matches[i].Both()
    requires leads == LeadsLastname(matches, joined, tokens, i)
    requires follows == (i > 0 && Adjacent(matches[i - 1], matches[i], joined) && Decide(matches, tokens, joined, i - 1).tag == Firstname)
    ensures var key := matches[i].lastname.value;
            var j := FirstBoth(matches, key, i);
            Decide(matches, tokens, joined, i) ==
              if leads then Decision(Firstname, matches[i].firstname.value)
              else if follows then Decision(Lastname, key)
              else if j < i then Decide(matches, tokens, joined, j)
              else Decision(Name, key)
  {}

  /** The decision for one match, from what the pass carries along. */
  method DecideNext(tokens: seq<Token>, joined: seq<bool>, matches: seq<NameMatch>, index: nat,
                    previousTag: Option<NameTag>, decided: map<string, Decision>)
    returns (d: Decision)
    requires Taggable(matches, tokens, joined) && index < |matches|
    requires index > 0 ==> previousTag == Some(Decide(matches, tokens, joined, index - 1).tag)
    requires Remembers(decided, matches, Decisions(matches, tokens, joined), index)
    ensures d == Decide(matches, tokens, joined, index)
  {
    var m := matches[index];
    var adjacentNext := index + 1 < |matches| && Adjacent(m, matches[index + 1], joined);
    var adjacentPrevious := index > 0 && Adjacent(matches[index - 1], m, joined);
    if m.firstname.Some? && m.lastname.Some? {
      RecallFirst(decided, matches, Decisions(matches, tokens, joined), index);
      var leads := adjacentNext && matches[index + 1].lastname.Some?;
      var follows := adjacentPrevious && previousTag == Some(Firstname);
      DecideBoth(matches, tokens, joined, index, leads, follows);
      if leads {
        d := Decision(Firstname, m.firstname.value);
      } else if follows {
        d := Decision(Lastname, m.lastname.value);
      } else if m.lastname.value in decided {
        d := decided[m.lastname.value];
      } else {
        d := Decision(Name, m.lastname.value);
      }
    } else if m.firstname.Some? {
      d := Decision(Firstname, m.firstname.value);
    } else {
      d := Decision(Lastname, m.lastname.value);
    }
  }

  /** The pass after `n` matches: their candidates, the last tag, and the decisions to recall. */
  ghost predicate TaggedUpTo(matches: seq<NameMatch>, ds: seq<Decision>, tokens: seq<Token>, n: nat,
                             tagged: seq<Candidate>, previousTag: Option<NameTag>, decided: map<string, Decision>)
    requires forall k | 0 <= k < |matches| :: matches[k].count >= 1 && matches[k].first + matches[k].count <= |tokens|
  {
    && n <= |matches| == |ds|
    && tagged == Candidates(matches, ds, tokens, n)
    && (n > 0 ==> previousTag == Some(ds[n - 1].tag))
    && Remembers(decided, matches, ds, n)
  }

  lemma {:induction false} TagNext(matches: seq<NameMatch>, ds: seq<Decision>, tokens: seq<Token>, n: nat,
                                   tagged: seq<Candidate>, previousTag: Option<NameTag>, decided: map<string, Decision>)
    requires forall k | 0 <= k < |matches| :: matches[k].count >= 1 && matches[k].first + matches[k].count <= |tokens|
    requires TaggedUpTo(matches, ds, tokens, n, tagged, previousTag, decided) && n < |matches|
    ensures TaggedUpTo(matches, ds, tokens, n + 1, tagged + [Tagged(matches[n], ds[n], tokens)], Some(ds[n].tag),
                       if matches[n].Both() then SetDefault(decided, matches[n].lastname.value, ds[n]) else decided)
  {
    RememberNext(decided, matches, ds, n);
  }

  method TagNames(tokens: seq<Token>, joined: seq<bool>, matches: seq<NameMatch>) returns (tagged: seq<Candidate>)
    requires Taggable(matches, tokens, joined)
    ensures tagged == TaggedNames(matches, tokens, joined)
  {
    ghost var ds := Decisions(matches, tokens, joined);
    tagged := [];
    var previousTag: Option<NameTag> := None;
    var decided: map<string, Decision> := map[];
    for index := 0 to |matches|
      invariant TaggedUpTo(matches, ds, tokens, index, tagged, previousTag, decided)
    {
      var m := matches[index];
      var d := DecideNext(tokens, joined, matches, index, previousTag, decided);
      TagNext(matches, ds, tokens, index, tagged, previousTag, decided);
      if m.Both() {
        decided := SetDefault(decided, m.lastname.value, d);
      }
      tagged := tagged + [Tagged(m, d, tokens)];
      previousTag := Some(d.tag);
    }
  }

  // ---- what the rule means for a reader ----

  /** Two matches of one ambiguous name that no neighbour decides, neither a last name after nor a
      first name before, carry one tag and one key: those of the name's first match. */
  lemma {:induction false} UndecidedMatchesAgree(matches: seq<NameMatch>, tokens: seq<Token>, joined: seq<bool>, i: nat, k: nat)
    requires Taggable(matches, tokens, joined) && i < k < |matches|
    requires matches[i].Both() && matches[k].Both() && matches[i].lastname == matches[k].lastname
    requires !LeadsLastname(matches, joined, tokens, k)
    requires !(Adjacent(matches[k - 1], matches[k], joined) && Decide(matches, tokens, joined, k - 1).tag == Firstname)
    ensures Decide(matches, tokens, joined, k)
         == Decide(matches, tokens, joined, FirstBoth(matches, matches[k].lastname.value, k))
    ensures FirstBoth(matches, matches[k].lastname.value, k) <= i
  {
    FirstBothIsFirst(matches, matches[k].lastname.value, k);
  }

  /** A tag is only ever given from a list the match is on, under that list's key or the key
      the same name was given before. */
  lemma {:induction false} TagsComeFromLists(matches: seq<NameMatch>, tokens: seq<Token>, joined: seq<bool>, i: nat)
    requires Taggable(matches, tokens, joined) && i < |matches|
    ensures var d := Decide(matches, tokens, joined, i);
            && (d.tag == Firstname ==> matches[i].firstname.Some?)
            && (d.tag == Lastname ==> matches[i].lastname.Some?)
            && (d.tag == Name ==> matches[i].Both())
    ensures exists j :: 0 <= j <= i && (matches[j].firstname == Some(Decide(matches, tokens, joined, i).key)
                                     || matches[j].lastname == Some(Decide(matches, tokens, joined, i).key))
    decreases i
  {
    var m := matches[i];
    if m.Both() && FirstBoth(matches, m.lastname.value, i) < i {
      FirstBothIsFirst(matches, m.lastname.value, i);
      TagsComeFromLists(matches, tokens, joined, FirstBoth(matches, m.lastname.value, i));
    }
  }

  /** The tag a candidate was given: it stands for a list its match is on. */
  lemma {:induction false} TaggedAs(matches: seq<NameMatch>, tokens: seq<Token>, joined: seq<bool>, k: nat) returns (tag: NameTag)
    requires Taggable(matches, tokens, joined) && k < |matches|
    ensures |TaggedNames(matches, tokens, joined)| == |matches|
    ensures TaggedNames(matches, tokens, joined)[k].ruleId == tag.RuleId()
    ensures tag == Firstname ==> matches[k].firstname.Some?
    ensures tag == Lastname ==> matches[k].lastname.Some?
    ensures tag == Name ==> matches[k].Both()
  {
    TagsComeFromLists(matches, tokens, joined, k);
    tag := Decide(matches, tokens, joined, k).tag;
    CandidateAt(matches, Decisions(matches, tokens, joined), tokens, |matches|, k);
  }

  /** Candidate `k` spans exactly the tokens of match `k`. */
  lemma {:induction false} TaggedSpan(matches: seq<NameMatch>, tokens: seq<Token>, joined: seq<bool>, k: nat) returns (c: Candidate, m: NameMatch)
    requires Taggable(matches, tokens, joined) && k < |matches|
    ensures |TaggedNames(matches, tokens, joined)| == |matches|
    ensures c == TaggedNames(matches, tokens, joined)[k] && m == matches[k]
    ensures m.count >= 1 && m.first + m.count <= |tokens|
    ensures c.start == tokens[m.first].start && c.end == tokens[m.first + m.count - 1].end && c.entry.Some?
  {
    CandidateSpan(matches, Decisions(matches, tokens, joined), tokens, k);
    c, m := TaggedNames(matches, tokens, joined)[k], matches[k];
  }

  // ---- the rule, case by case, told of the matches ----

  lemma {:induction false} TaggedBy(matches: seq<NameMatch>, tokens: seq<Token>, joined: seq<bool>, i: nat)
    requires Taggable(matches, tokens, joined) && i < |matches|
    ensures |TaggedNames(matches, tokens, joined)| == |matches|
    ensures var c, d := TaggedNames(matches, tokens, joined)[i], Decide(matches, tokens, joined, i);
            c.tag == d.tag.Value() && c.ruleId == d.tag.RuleId() && c.valueKey == d.key && c.entry == Some(d.key)
  {
    CandidateAt(matches, Decisions(matches, tokens, joined), tokens, |matches|, i);
  }

  ghost predicate IsFirstname(c: Candidate, key: string) {
    c.tag == "Firstname" && c.ruleId == "firstnames" && c.valueKey == key && c.entry == Some(key)
  }

  ghost predicate IsLastname(c: Candidate, key: string) {
    c.tag == "Lastname" && c.ruleId == "lastnames" && c.valueKey == key && c.entry == Some(key)
  }

  ghost predicate IsUndecided(c: Candidate, key: string) {
    c.tag == "Name" && c.ruleId == "both-lists" && c.valueKey == key && c.entry == Some(key)
  }

  /** On one list only, that list decides. */
  lemma {:induction false} OneListDecides(matches: seq<NameMatch>, tokens: seq<Token>, joined: seq<bool>, i: nat)
    requires Taggable(matches, tokens, joined) && i < |matches|
    ensures |TaggedNames(matches, tokens, joined)| == |matches|
    ensures matches[i].lastname.None? ==> IsFirstname(TaggedNames(matches, tokens, joined)[i], matches[i].firstname.value)
    ensures matches[i].firstname.None? ==> IsLastname(TaggedNames(matches, tokens, joined)[i], matches[i].lastname.value)
  {
    TaggedBy(matches, tokens, joined, i);
  }

  /** On both lists, with a match on the last-name list joined right behind: a first name. */
  lemma {:induction false} BeforeALastname(matches: seq<NameMatch>, tokens: seq<Token>, joined: seq<bool>, i: nat)
    requires Taggable(matches, tokens, joined) && i + 1 < |matches|
    requires matches[i].firstname.Some? && matches[i].lastname.Some?
    requires matches[i + 1].first == matches[i].first + matches[i].count && matches[i + 1].lastname.Some?
    requires joined[matches[i + 1].first - 1]
    ensures |TaggedNames(matches, tokens, joined)| == |matches|
    ensures IsFirstname(TaggedNames(matches, tokens, joined)[i], matches[i].firstname.value)
  {
    TaggedBy(matches, tokens, joined, i);
  }

  /** The next match is joined right behind and on the last-name list. */
  ghost predicate LastnameBehind(matches: seq<NameMatch>, tokens: seq<Token>, joined: seq<bool>, i: nat)
    requires Taggable(matches, tokens, joined) && i < |matches|
  {
    && i + 1 < |matches| && matches[i + 1].first == matches[i].first + matches[i].count
    && joined[matches[i + 1].first - 1] && matches[i + 1].lastname.Some?
  }

  /** The candidate before is joined right before and tagged a first name. */
  ghost predicate FirstnameAhead(matches: seq<NameMatch>, tokens: seq<Token>, joined: seq<bool>, i: nat)
    requires Taggable(matches, tokens, joined) && i < |matches|
  {
    && i > 0 && matches[i].first == matches[i - 1].first + matches[i - 1].count && joined[matches[i].first - 1]
    && |TaggedNames(matches, tokens, joined)| == |matches| && TaggedNames(matches, tokens, joined)[i - 1].tag == "Firstname"
  }

  lemma {:induction false} TagValuesDiffer()
    ensures Firstname.Value() != Lastname.Value() && Firstname.Value() != Name.Value()
  {
    assert Firstname.Value()[0] == 'F' && Lastname.Value()[0] == 'L' && Name.Value()[0] == 'N';
  }

  /** On both lists, with no last name behind it and a first name right before it: a last name. */
  lemma {:induction false} AfterAFirstname(matches: seq<NameMatch>, tokens: seq<Token>, joined: seq<bool>, i: nat)
    requires Taggable(matches, tokens, joined) && i < |matches|
    requires matches[i].firstname.Some? && matches[i].lastname.Some?
    requires !LastnameBehind(matches, tokens, joined, i) && FirstnameAhead(matches, tokens, joined, i)
    ensures |TaggedNames(matches, tokens, joined)| == |matches|
    ensures IsLastname(TaggedNames(matches, tokens, joined)[i], matches[i].lastname.value)
  {
    TaggedBy(matches, tokens, joined, i);
    NeighboursRead(matches, tokens, joined, i);
    DecideBoth(matches, tokens, joined, i, false, true);
  }

  lemma {:induction false} NeighboursRead(matches: seq<NameMatch>, tokens: seq<Token>, joined: seq<bool>, i: nat)
    requires Taggable(matches, tokens, joined) && i < |matches|
    ensures LeadsLastname(matches, joined, tokens, i) <==> LastnameBehind(matches, tokens, joined, i)
    ensures (i > 0 && Adjacent(matches[i - 1], matches[i], joined) && Decide(matches, tokens, joined, i - 1).tag == Firstname)
       <==> FirstnameAhead(matches, tokens, joined, i)
  {
    if i > 0 { TaggedBy(matches, tokens, joined, i - 1); }
    TagValuesDiffer();
  }

  lemma {:induction false} FirstMentionIs(matches: seq<NameMatch>, key: string, i: nat, j: nat)
    requires j <= i < |matches| && FirstMention(matches, key, j) && matches[i].Both() && matches[i].lastname == Some(key)
    ensures FirstBoth(matches, key, i) == j
  {
    FirstBothIsFirst(matches, key, i);
  }

  /** Match `j` is the first on both lists with this last-name key. */
  ghost predicate FirstMention(matches: seq<NameMatch>, key: string, j: nat) {
    && j < |matches| && matches[j].firstname.Some? && matches[j].lastname == Some(key)
    && forall k | 0 <= k < j :: !(matches[k].firstname.Some? && matches[k].lastname == Some(key))
  }

  /** On both lists and decided by no neighbour: undecided where the name is first mentioned, and
      later whatever it was there. */
  lemma {:induction false} NoNeighbourDecides(matches: seq<NameMatch>, tokens: seq<Token>, joined: seq<bool>, i: nat, j: nat)
    requires Taggable(matches, tokens, joined) && j <= i < |matches|
    requires matches[i].firstname.Some? && matches[i].lastname.Some? && FirstMention(matches, matches[i].lastname.value, j)
    requires !LastnameBehind(matches, tokens, joined, i) && !FirstnameAhead(matches, tokens, joined, i)
    ensures |TaggedNames(matches, tokens, joined)| == |matches|
    ensures var cs := TaggedNames(matches, tokens, joined);
            if j == i then IsUndecided(cs[i], matches[i].lastname.value)
            else cs[i].tag == cs[j].tag && cs[i].ruleId == cs[j].ruleId && cs[i].valueKey == cs[j].valueKey && cs[i].entry == cs[j].entry
  {
    TaggedBy(matches, tokens, joined, i);
    TaggedBy(matches, tokens, joined, j);
    NeighboursRead(matches, tokens, joined, i);
    DecideBoth(matches, tokens, joined, i, false, false);
    FirstMentionIs(matches, matches[i].lastname.value, i, j);
  }
}
