/** Whether a composed rule set may be stored: the identity of every rule, and what else refuses it. */
module RuleChecks {
  import opened ScrubTypes
  import opened NameMatching
  import opened RegexClaims
  import opened Scrubbing
  import opened ScrubTwice

  datatype ErrorCode = IdMalformed | DuplicateId | IdReserved | TagMalformed | TagReserved | PatternTooSlow | ProtectedAltered | OtherError

  datatype ImportError = ImportError(code: ErrorCode, ruleId: string)

  predicate IdChar(c: char) { 'a' <= c <= 'z' || '0' <= c <= '9' }

  predicate Letter(c: char) { 'A' <= c <= 'Z' || 'a' <= c <= 'z' }

  /** `[a-z0-9][a-z0-9-]{0,63}` */
  predicate IdShape(id: string) {
    1 <= |id| <= 64 && IdChar(id[0]) && forall i | 1 <= i < |id| :: IdChar(id[i]) || id[i] == '-'
  }

  /** `[A-Z][A-Za-z]{1,31}` */
  predicate TagShape(tag: string) {
    2 <= |tag| <= 32 && 'A' <= tag[0] <= 'Z' && forall i | 1 <= i < |tag| :: Letter(tag[i])
  }

  ghost predicate Identified(rule: RegexRule) {
    && IdShape(rule.ruleId) && rule.ruleId !in RESERVED_RULE_IDS
    && TagShape(rule.tag) && rule.tag !in RESERVED_TAGS
  }

  /** The shapes at their bounds, and what each refuses. */
  lemma {:induction false} ShapeBounds(n: nat)
    ensures IdShape(seq(n, _ => 'a')) <==> 1 <= n <= 64
    ensures TagShape("A" + seq(n, _ => 'b')) <==> 1 <= n <= 31
    ensures IdShape("a-") && IdShape("0z9") && !IdShape("-a") && !IdShape("aA") && !IdShape("a_") && !IdShape("")
    ensures TagShape("AZ") && TagShape("Az") && !TagShape("aZ") && !TagShape("A1") && !TagShape("A-")
  {
    var id, tag := seq(n, _ => 'a'), "A" + seq(n, _ => 'b');
    assert |id| == n && |tag| == n + 1;
    assert "A1"[1] == '1' && "A-"[1] == '-' && "aA"[1] == 'A' && "a_"[1] == '_';
  }

  /** Reserved are the ids and tags that names from the lists get, and no others. */
  lemma {:induction false} NamesAreReserved(id: string, tag: string)
    ensures id in RESERVED_RULE_IDS <==> exists t: NameTag :: t.RuleId() == id
    ensures tag in RESERVED_TAGS <==> exists t: NameTag :: t.Value() == tag
  {
    assert Firstname.RuleId() == FIRSTNAME_RULE_ID && Lastname.RuleId() == LASTNAME_RULE_ID && Name.RuleId() == BOTH_LISTS_RULE_ID;
    assert Firstname.Value() == "Firstname" && Lastname.Value() == "Lastname" && Name.Value() == "Name";
  }

  ghost predicate Refuses(errors: seq<ImportError>, code: ErrorCode, ruleId: string) {
    ImportError(code, ruleId) in errors
  }

  method CheckIdentity(rule: RegexRule, seen: set<string>, mandatory: set<string>) returns (errors: seq<ImportError>)
    ensures errors == [] <==> Identified(rule) && rule.ruleId !in seen
    ensures Refuses(errors, IdMalformed, rule.ruleId) <==> !IdShape(rule.ruleId)
    ensures Refuses(errors, DuplicateId, rule.ruleId) <==>
              rule.ruleId in seen && !(rule.ruleId in mandatory && rule.source != Mandatory)
    ensures Refuses(errors, IdReserved, rule.ruleId) <==>
              (rule.ruleId in seen && rule.ruleId in mandatory && rule.source != Mandatory) || rule.ruleId in RESERVED_RULE_IDS
    ensures Refuses(errors, TagReserved, rule.ruleId) <==> rule.tag in RESERVED_TAGS
    ensures Refuses(errors, TagMalformed, rule.ruleId) <==> rule.tag !in RESERVED_TAGS && !TagShape(rule.tag)
  {
    var rid := rule.ruleId;
    errors := [];
    if !IdShape(rid) {
      errors := errors + [ImportError(IdMalformed, rid)];
    }
    if rid in seen {
      var code := if rid in mandatory && rule.source != Mandatory then IdReserved else DuplicateId;
      errors := errors + [ImportError(code, rid)];
    }
    if rid in RESERVED_RULE_IDS {
      errors := errors + [ImportError(IdReserved, rid)];
    }
    if rule.tag in RESERVED_TAGS {
      errors := errors + [ImportError(TagReserved, rid)];
    } else if !TagShape(rule.tag) {
      errors := errors + [ImportError(TagMalformed, rid)];
    }
  }

  /** Every rule is well named and no two share an id. */
  ghost predicate WellIdentified(rules: seq<RegexRule>) {
    && (forall i | 0 <= i < |rules| :: Identified(rules[i]))
    && (forall i, j | 0 <= i < j < |rules| :: rules[i].ruleId != rules[j].ruleId)
  }

  // ---- the strings a rule set must leave alone ----

  ghost function ErrorsOf(e: Engine, rules: ScrubRules, text: string): seq<ImportError>
    requires Sound(e)
  {
    match Scrubbed(e, rules, text)
    case Failure(timeout) => [ImportError(PatternTooSlow, timeout.ruleId)]
    case Success(r) => if r.hits == [] then [] else [ImportError(ProtectedAltered, r.hits[0].ruleId)]
  }

  /** The error names the first rule that ran out of time, or else the rule of the leftmost hit. */
  lemma {:induction false} ErrorNamesTheRule(e: Engine, rules: ScrubRules, text: string)
    requires Sound(e) && text != ""
    ensures forall i | 0 <= i < |rules.regexRules| && e.find(rules.regexRules[i].pattern, text).None?
                && (forall j | 0 <= j < i :: e.find(rules.regexRules[j].pattern, text).Some?) ::
              ErrorsOf(e, rules, text) == [ImportError(PatternTooSlow, rules.regexRules[i].ruleId)]
    ensures var r := Scrubbed(e, rules, text);
            r.Success? && r.value.hits != [] ==> ErrorsOf(e, rules, text) == [ImportError(ProtectedAltered, r.value.hits[0].ruleId)]
  {
    FailsClosed(e, rules.regexRules, text);
  }

  ghost function ProtectedErrors(e: Engine, rules: ScrubRules, protected: seq<string>): seq<ImportError>
    requires Sound(e)
  {
    if protected == [] then []
    else ProtectedErrors(e, rules, protected[..|protected| - 1]) + ErrorsOf(e, rules, protected[|protected| - 1])
  }

  method CheckString(scrubber: Scrubber, text: string) returns (errors: seq<ImportError>)
    requires scrubber.Valid()
    ensures errors == ErrorsOf(scrubber.engine, scrubber.rules, text)
  {
    var result := scrubber.Scrub(text);
    if result.Failure? {
      return [ImportError(PatternTooSlow, result.error.ruleId)];
    }
    return if result.value.hits == [] then [] else [ImportError(ProtectedAltered, result.value.hits[0].ruleId)];
  }

  /** Scrub every protected string with the whole rule set. */
  method CheckProtected(e: Engine, rules: ScrubRules, protected: seq<string>) returns (errors: seq<ImportError>)
    requires Sound(e)
    ensures errors == ProtectedErrors(e, rules, protected)
  {
    var scrubber := new Scrubber(e, rules);
    errors := [];
    for n := 0 to |protected|
      invariant scrubber.Valid()
      invariant errors == ProtectedErrors(e, rules, protected[..n])
    {
      ProtectedNext(e, rules, protected, n);
      var found := CheckString(scrubber, protected[n]);
      errors := errors + found;
    }
    assert protected[..|protected|] == protected;
  }

  lemma {:induction false} ProtectedNext(e: Engine, rules: ScrubRules, protected: seq<string>, n: nat)
    requires Sound(e) && n < |protected|
    ensures ProtectedErrors(e, rules, protected[..n + 1]) == ProtectedErrors(e, rules, protected[..n]) + ErrorsOf(e, rules, protected[n])
  {
    assert protected[..n + 1][..n] == protected[..n];
  }

  /** No rule matches in the string, and no window of it names anybody. */
  ghost predicate Untouched(e: Engine, rules: ScrubRules, text: string)
    requires Sound(e)
  {
    text == "" || (NoRuleMatches(e, rules.regexRules, text) && NobodyIsNamed(ReadingOf(e, rules, text).Search()))
  }

  lemma {:induction false} NoHitsIff(e: Engine, rules: ScrubRules, text: string)
    requires Sound(e)
    ensures ErrorsOf(e, rules, text) == [] <==> LeftAlone(e, rules, text)
  {
    if text != "" && Collected(e, rules.regexRules, text).Success? {
      ChosenFits(e, rules, text);
      LeftAloneIffNothingChosen(e, rules, text);
      assert |Scrubbed(e, rules, text).value.hits| == |ChosenIn(e, rules, text, Collected(e, rules.regexRules, text).value)|;
    }
  }

  lemma {:induction false} UntouchedIff(e: Engine, rules: ScrubRules, text: string)
    requires Sound(e)
    ensures ErrorsOf(e, rules, text) == [] <==> Untouched(e, rules, text)
  {
    NoHitsIff(e, rules, text);
    if text != "" { LeftAloneIff(e, rules, text); }
  }

  ghost predicate AllUntouched(e: Engine, rules: ScrubRules, protected: seq<string>, n: nat)
    requires Sound(e) && n <= |protected|
  {
    forall i | 0 <= i < n :: Untouched(e, rules, protected[i])
  }

  lemma {:induction false} UntouchedNext(e: Engine, rules: ScrubRules, protected: seq<string>, n: nat)
    requires Sound(e) && n < |protected|
    ensures AllUntouched(e, rules, protected, n + 1) <==> AllUntouched(e, rules, protected, n) && Untouched(e, rules, protected[n])
  {}

  lemma {:induction false} NoneInEither(a: seq<ImportError>, b: seq<ImportError>)
    ensures a + b == [] <==> a == [] && b == []
  {}

  /** No error about the protected strings if and only if nothing in any of them is found. */
  lemma {:induction false} ProtectedErrorsIff(e: Engine, rules: ScrubRules, protected: seq<string>, n: nat)
    requires Sound(e) && n <= |protected|
    ensures ProtectedErrors(e, rules, protected[..n]) == [] <==> AllUntouched(e, rules, protected, n)
  {
    if n > 0 {
      ProtectedErrorsIff(e, rules, protected, n - 1);
      ProtectedNext(e, rules, protected, n - 1);
      UntouchedIff(e, rules, protected[n - 1]);
      UntouchedNext(e, rules, protected, n - 1);
      NoneInEither(ProtectedErrors(e, rules, protected[..n - 1]), ErrorsOf(e, rules, protected[n - 1]));
    }
  }

  // ---- a whole rule set ----

  /** `ofPattern` is what compiling and trying a rule's pattern reports; `protected` are the fixed
      strings and those of the rule file. */
  method CheckRules(e: Engine, rules: ScrubRules, ofPattern: RegexRule -> seq<ImportError>, protected: seq<string>)
    returns (errors: seq<ImportError>)
    requires Sound(e)
    ensures errors == [] <==>
              && WellIdentified(rules.regexRules)
              && (forall i | 0 <= i < |rules.regexRules| :: ofPattern(rules.regexRules[i]) == [])
              && AllUntouched(e, rules, protected, |protected|)
  {
    errors := CheckEachRule(rules.regexRules, ofPattern);
    if errors == [] {
      errors := CheckProtected(e, rules, protected);
      ProtectedErrorsIff(e, rules, protected, |protected|);
      assert protected[..|protected|] == protected;
    }
  }

  method CheckEachRule(rules: seq<RegexRule>, ofPattern: RegexRule -> seq<ImportError>) returns (errors: seq<ImportError>)
    ensures errors == [] <==> WellIdentified(rules) && forall i | 0 <= i < |rules| :: ofPattern(rules[i]) == []
  {
    errors := [];
    var seen: set<string> := {};
    var mandatory := set r | r in rules && r.source == Mandatory :: r.ruleId;
    for n := 0 to |rules|
      invariant seen == set i | 0 <= i < n :: rules[i].ruleId
      invariant errors == [] <==> WellIdentified(rules[..n]) && forall i | 0 <= i < n :: ofPattern(rules[i]) == []
    {
      var identity := CheckIdentity(rules[n], seen, mandatory);
      errors := errors + identity;
      seen := seen + {rules[n].ruleId};
      errors := errors + ofPattern(rules[n]);
      IdentifiedNext(rules, n);
    }
    assert rules[..|rules|] == rules;
  }

  lemma {:induction false} IdentifiedNext(rules: seq<RegexRule>, n: nat)
    requires n < |rules|
    ensures WellIdentified(rules[..n + 1]) <==>
              WellIdentified(rules[..n]) && Identified(rules[n]) && forall i | 0 <= i < n :: rules[i].ruleId != rules[n].ruleId
  {
    var longer, shorter := rules[..n + 1], rules[..n];
    assert longer == shorter + [rules[n]];
    assert forall i | 0 <= i < n :: longer[i] == shorter[i] == rules[i];
  }
}
