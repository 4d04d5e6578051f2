/** Reading one model response: which problems are recorded, and what is kept of each answer. */
module OutputParsing {
  import opened Wrappers
  import opened PythonText
  import opened JsonText

  datatype ValueType = Enumerated | Boolean | Integer | Decimal | Date | Time | FreeText

  datatype Feature = Feature(key: string, valueType: ValueType)

  /** The validated answer of one feature, beside its value. */
  datatype Answer = Answer(present: bool, evidence: Option<string>)

  datatype Entity = Entity(kind: string, ref: string, attributes: map<string, string>)

  /** Code this module calls and does not define: scanning JSON, with the limits of `int` and of
      recursion; what a text literal reads as and a number literal prints as; validating answers and
      entities; and `str` of any other value. */
  datatype Reader = Reader(scan: string -> Scanned, digitLimit: nat, depthLimit: nat,
                           unescape: string -> string, number: string -> string,
                           answer: Json -> Option<Answer>, entity: Json -> Option<Entity>, show: Json -> string)

  datatype IssueCode = MissingFeature | UnknownFeature | MissingEvidence | EnumCodeNotInCodelist | ValueTypeMismatch

  datatype Issue = Issue(code: IssueCode, featureKey: string, valueRaw: Option<string>)

  datatype ParsedValue = ParsedValue(featureKey: string, valueRaw: Option<string>, valueNormalised: Option<string>,
                                     presentFlag: bool, evidence: Option<string>)

  datatype FailureReason = InvalidJson | NotAnObject | FeaturesNotObject

  /** Why there is no reading: a reason that is returned, or an error that is raised. */
  datatype Refusal = Failed(reason: FailureReason) | Raised

  datatype Parsed = Parsed(values: seq<ParsedValue>, entities: seq<Entity>, issues: seq<Issue>)

  type Codelists = Option<map<string, set<string>>>

  // ---- scalars ----

  /** A JSON scalar as it is stored: read, and a number then printed again. */
  function Stringify(reader: Reader, value: Json): Option<string> {
    match value
    case Null => None
    case Bool(flag) => Some(if flag then "true" else "false")
    case Text(literal) => Some(reader.unescape(literal))
    case Number(literal) => Some(reader.number(literal))
    case _ => Some(reader.show(value))
  }

  /** Could this possibly have been meant as a value of the type. */
  predicate Fits(reader: Reader, value: Json, valueType: ValueType) {
    if value.Null? then true
    else if valueType == Boolean then value.Bool?
    else if value.Bool? then false
    else if valueType == Integer || valueType == Decimal then value.Number? || (value.Text? && !Blank(reader.unescape(value.literal)))
    else value.Text?
  }

  // ---- one feature ----

  /** Nothing is known of an answer that is missing or unreadable. */
  function NoValue(key: string): ParsedValue { ParsedValue(key, None, None, false, None) }

  function RawValue(raw: Json): Json {
    if raw.Object? && Get(raw.members, "value").Some? then Get(raw.members, "value").value else Null
  }

  function ValueOf(reader: Reader, feature: Feature, members: seq<Member>): ParsedValue {
    var raw := Get(members, feature.key);
    if raw.None? || reader.answer(raw.value).None? then NoValue(feature.key)
    else
      var answer, text := reader.answer(raw.value).value, Stringify(reader, RawValue(raw.value));
      ParsedValue(feature.key, text, if text.Some? then Some(Trim(text.value)) else None, answer.present, answer.evidence)
  }

  predicate OutsideCodelist(reader: Reader, feature: Feature, value: Json, codelists: Codelists) {
    && feature.valueType == Enumerated && value.Text? && codelists.Some?
    && feature.key in codelists.value && reader.unescape(value.literal) !in codelists.value[feature.key]
  }

  function IssuesOf(reader: Reader, feature: Feature, members: seq<Member>, codelists: Codelists): seq<Issue> {
    var raw := Get(members, feature.key);
    if raw.None? then [Issue(MissingFeature, feature.key, None)]
    else if reader.answer(raw.value).None? then [Issue(ValueTypeMismatch, feature.key, Some(reader.show(raw.value)))]
    else
      var value := RawValue(raw.value);
      var text := Stringify(reader, value);
      (if !value.Null? && reader.answer(raw.value).value.evidence.None? then [Issue(MissingEvidence, feature.key, text)] else []) +
      (if !Fits(reader, value, feature.valueType) then [Issue(ValueTypeMismatch, feature.key, text)]
       else if OutsideCodelist(reader, feature, value, codelists) then [Issue(EnumCodeNotInCodelist, feature.key, text)]
       else [])
  }

  // ---- a whole response ----

  function AllIssues(reader: Reader, features: seq<Feature>, members: seq<Member>, codelists: Codelists): seq<Issue> {
    if features == [] then []
    else AllIssues(reader, features[..|features| - 1], members, codelists)
         + IssuesOf(reader, features[|features| - 1], members, codelists)
  }

  function AllValues(reader: Reader, features: seq<Feature>, members: seq<Member>): seq<ParsedValue> {
    seq(|features|, i requires 0 <= i < |features| => ValueOf(reader, features[i], members))
  }

  predicate Configured(features: seq<Feature>, key: string) {
    exists f | f in features :: f.key == key
  }

  function ExtraIssues(reader: Reader, features: seq<Feature>, members: seq<Member>): seq<Issue> {
    if members == [] then []
    else
      var before, m := ExtraIssues(reader, features, members[..|members| - 1]), members[|members| - 1];
      if Configured(features, m.key) then before else before + [Issue(UnknownFeature, m.key, Some(reader.show(m.value)))]
  }

  function Entities(reader: Reader, items: seq<Json>): seq<Entity> {
    if items == [] then []
    else
      var before, e := Entities(reader, items[..|items| - 1]), reader.entity(items[|items| - 1]);
      if e.Some? then before + [e.value] else before
  }

  function EntitiesIn(reader: Reader, members: seq<Member>): seq<Entity> {
    var raw := Get(members, "entities");
    if raw.Some? && raw.value.Array? then Entities(reader, raw.value.items) else []
  }

  function LoadOf(reader: Reader, raw: string): Loaded { Load(reader.scan(raw), reader.digitLimit, reader.depthLimit) }

  /** The dictionary a response is read as, or why there is none. */
  function Response(reader: Reader, raw: string): Result<seq<Member>, Refusal> {
    match LoadOf(reader, raw)
    case OtherError => Failure(Raised)
    case DecodeError => Failure(Failed(InvalidJson))
    case Value(value) => if value.Object? then Success(Dict(value.members)) else Failure(Failed(NotAnObject))
  }

  /** Its features dictionary, or why there is none. */
  function Envelope(reader: Reader, raw: string): Result<seq<Member>, Refusal> {
    var data := Response(reader, raw);
    if data.Failure? then Failure(data.error)
    else
      var features := Get(data.value, "features");
      if features.None? || !features.value.Object? then Failure(Failed(FeaturesNotObject)) else Success(Dict(features.value.members))
  }

  function Reading(reader: Reader, raw: string, features: seq<Feature>, codelists: Codelists): Result<Parsed, Refusal> {
    var envelope := Envelope(reader, raw);
    if envelope.Failure? then Failure(envelope.error)
    else
      Success(Parsed(AllValues(reader, features, envelope.value), EntitiesIn(reader, Response(reader, raw).value),
                     AllIssues(reader, features, envelope.value, codelists) + ExtraIssues(reader, features, envelope.value)))
  }

  method ParseFeature(reader: Reader, feature: Feature, members: seq<Member>, codelists: Codelists)
    returns (value: ParsedValue, issues: seq<Issue>)
    ensures value == ValueOf(reader, feature, members) && issues == IssuesOf(reader, feature, members, codelists)
  {
    var raw := Get(members, feature.key);
    if raw.None? {
      return NoValue(feature.key), [Issue(MissingFeature, feature.key, None)];
    }
    var answer := reader.answer(raw.value);
    if answer.None? {
      return NoValue(feature.key), [Issue(ValueTypeMismatch, feature.key, Some(reader.show(raw.value)))];
    }
    var rawValue := RawValue(raw.value);
    var valueRaw := Stringify(reader, rawValue);
    issues := [];
    if !rawValue.Null? && answer.value.evidence.None? {
      issues := issues + [Issue(MissingEvidence, feature.key, valueRaw)];
    }
    if !Fits(reader, rawValue, feature.valueType) {
      issues := issues + [Issue(ValueTypeMismatch, feature.key, valueRaw)];
    } else if OutsideCodelist(reader, feature, rawValue, codelists) {
      issues := issues + [Issue(EnumCodeNotInCodelist, feature.key, Some(reader.unescape(rawValue.literal)))];
    }
    value := ParsedValue(feature.key, valueRaw, if valueRaw.Some? then Some(Trim(valueRaw.value)) else None,
                         answer.value.present, answer.value.evidence);
  }

  method ParseFeatures(reader: Reader, features: seq<Feature>, members: seq<Member>, codelists: Codelists)
    returns (values: seq<ParsedValue>, issues: seq<Issue>)
    ensures values == AllValues(reader, features, members)
    ensures issues == AllIssues(reader, features, members, codelists)
  {
    values, issues := [], [];
    for n := 0 to |features|
      invariant values == AllValues(reader, features[..n], members)
      invariant issues == AllIssues(reader, features[..n], members, codelists)
    {
      FeatureNext(reader, features, n, members, codelists);
      var value, found := ParseFeature(reader, features[n], members, codelists);
      values, issues := values + [value], issues + found;
    }
    assert features[..|features|] == features;
  }

  lemma {:induction false} FeatureNext(reader: Reader, features: seq<Feature>, n: nat, members: seq<Member>, codelists: Codelists)
    requires n < |features|
    ensures AllValues(reader, features[..n + 1], members)
         == AllValues(reader, features[..n], members) + [ValueOf(reader, features[n], members)]
    ensures AllIssues(reader, features[..n + 1], members, codelists)
         == AllIssues(reader, features[..n], members, codelists) + IssuesOf(reader, features[n], members, codelists)
  {
    assert features[..n + 1][..n] == features[..n];
  }

  method FindExtra(reader: Reader, features: seq<Feature>, members: seq<Member>) returns (issues: seq<Issue>)
    ensures issues == ExtraIssues(reader, features, members)
  {
    issues := [];
    for n := 0 to |members|
      invariant issues == ExtraIssues(reader, features, members[..n])
    {
      assert members[..n + 1][..n] == members[..n];
      if !Configured(features, members[n].key) {
        issues := issues + [Issue(UnknownFeature, members[n].key, Some(reader.show(members[n].value)))];
      }
    }
    assert members[..|members|] == members;
  }

  method ReadEntities(reader: Reader, members: seq<Member>) returns (entities: seq<Entity>)
    ensures entities == EntitiesIn(reader, members)
  {
    entities := [];
    var raw := Get(members, "entities");
    if raw.Some? && raw.value.Array? {
      var items := raw.value.items;
      for n := 0 to |items|
        invariant entities == Entities(reader, items[..n])
      {
        assert items[..n + 1][..n] == items[..n];
        var entity := reader.entity(items[n]);
        if entity.Some? {
          entities := entities + [entity.value];
        }
      }
      assert items[..|items|] == items;
    }
  }

  /** What was read, or why nothing was; or the error of `json.loads` that is not caught. */
  method ParseOutput(reader: Reader, raw: string, features: seq<Feature>, codelists: Codelists) returns (r: Result<Parsed, Refusal>)
    ensures r == Reading(reader, raw, features, codelists)
  {
    var loaded := LoadOf(reader, raw);
    if loaded.OtherError? {
      return Failure(Raised);
    }
    if loaded.DecodeError? {
      return Failure(Failed(InvalidJson));
    }
    if !loaded.value.Object? {
      return Failure(Failed(NotAnObject));
    }
    var data := Dict(loaded.value.members);
    var featuresRaw := Get(data, "features");
    if featuresRaw.None? || !featuresRaw.value.Object? {
      return Failure(Failed(FeaturesNotObject));
    }
    var members := Dict(featuresRaw.value.members);
    var values, issues := ParseFeatures(reader, features, members, codelists);
    var extra := FindExtra(reader, features, members);
    var entities := ReadEntities(reader, data);
    return Success(Parsed(values, entities, issues + extra));
  }

  // ---- when parsing raises ----

  /** Parsing raises exactly when the scan meets a whole number of more digits than can be converted,
      or nesting deeper than can be followed, before it ends. */
  lemma {:induction false} ParsingRaisesIff(reader: Reader, raw: string, features: seq<Feature>, codelists: Codelists)
    ensures Reading(reader, raw, features, codelists) == Failure(Raised) <==>
              MeetsLimit(reader.scan(raw), reader.digitLimit, reader.depthLimit)
  {}

  // ---- what a reading keeps ----

  lemma {:induction false} EnvelopeIsDict(reader: Reader, raw: string)
    requires Envelope(reader, raw).Success?
    ensures KeysDiffer(Envelope(reader, raw).value)
  {
    DictHolds(Get(Response(reader, raw).value, "features").value.members);
  }

  ghost predicate ComesFrom(reader: Reader, f: Feature, members: seq<Member>, codelists: Codelists, issue: Issue) {
    issue in IssuesOf(reader, f, members, codelists)
  }

  lemma {:induction false} IssueOfLast(reader: Reader, features: seq<Feature>, members: seq<Member>, codelists: Codelists, issue: Issue)
    requires features != []
    ensures issue in AllIssues(reader, features, members, codelists)
       <==> issue in AllIssues(reader, features[..|features| - 1], members, codelists)
            || ComesFrom(reader, features[|features| - 1], members, codelists, issue)
  {}

  lemma {:induction false} IssueComesFromSome(reader: Reader, features: seq<Feature>, members: seq<Member>, codelists: Codelists, issue: Issue)
    ensures issue in AllIssues(reader, features, members, codelists)
       <==> exists f :: f in features && ComesFrom(reader, f, members, codelists, issue)
  {
    if features != [] {
      var n := |features| - 1;
      IssueComesFromSome(reader, features[..n], members, codelists, issue);
      IssueOfLast(reader, features, members, codelists, issue);
      assert features == features[..n] + [features[n]];
    }
  }

  lemma {:induction false} IssueComesFromFeature(reader: Reader, features: seq<Feature>, members: seq<Member>, codelists: Codelists, issue: Issue)
    ensures issue in AllIssues(reader, features, members, codelists)
       <==> exists f :: f in features && issue in IssuesOf(reader, f, members, codelists)
  {
    IssueComesFromSome(reader, features, members, codelists, issue);
    if f :| f in features && issue in IssuesOf(reader, f, members, codelists) {
      assert ComesFrom(reader, f, members, codelists, issue);
    }
  }

  lemma {:induction false} ExtraIff(reader: Reader, features: seq<Feature>, members: seq<Member>, issue: Issue)
    ensures issue in ExtraIssues(reader, features, members)
       <==> exists m :: m in members && !Configured(features, m.key) && issue == Issue(UnknownFeature, m.key, Some(reader.show(m.value)))
  {
    if members != [] {
      var n := |members| - 1;
      ExtraIff(reader, features, members[..n], issue);
      assert members == members[..n] + [members[n]];
    }
  }

  /** One value for each configured feature, in the configured order, whatever the response holds. */
  lemma {:induction false} OneValuePerFeature(reader: Reader, raw: string, features: seq<Feature>, codelists: Codelists)
    requires Reading(reader, raw, features, codelists).Success?
    ensures var values := Reading(reader, raw, features, codelists).value.values;
            |values| == |features| && forall i | 0 <= i < |values| :: values[i].featureKey == features[i].key
  {}

  lemma {:induction false} MissingOfFeature(reader: Reader, f: Feature, members: seq<Member>, codelists: Codelists, key: string)
    ensures Issue(MissingFeature, key, None) in IssuesOf(reader, f, members, codelists) <==> f.key == key && Get(members, f.key).None?
    ensures forall text :: Issue(UnknownFeature, key, text) !in IssuesOf(reader, f, members, codelists)
  {}

  /** Missing features are exactly the configured ones without a key in the response, unknown
      features exactly the keys of the response nobody configured. */
  lemma {:induction false} MissingAndUnknownAreExact(reader: Reader, raw: string, features: seq<Feature>, codelists: Codelists, key: string)
    requires Reading(reader, raw, features, codelists).Success?
    ensures var issues, members := Reading(reader, raw, features, codelists).value.issues, Envelope(reader, raw).value;
            && (Issue(MissingFeature, key, None) in issues <==> Configured(features, key) && Get(members, key).None?)
            && ((exists text :: Issue(UnknownFeature, key, text) in issues) <==> Get(members, key).Some? && !Configured(features, key))
  {
    var members := Envelope(reader, raw).value;
    MissingIsExact(reader, features, members, codelists, key);
    UnknownIsExact(reader, features, members, codelists, key);
  }

  lemma {:induction false} MissingIsExact(reader: Reader, features: seq<Feature>, members: seq<Member>, codelists: Codelists, key: string)
    ensures Issue(MissingFeature, key, None) in AllIssues(reader, features, members, codelists) + ExtraIssues(reader, features, members)
       <==> Configured(features, key) && Get(members, key).None?
  {
    var issue := Issue(MissingFeature, key, None);
    IssueComesFromFeature(reader, features, members, codelists, issue);
    ExtraIff(reader, features, members, issue);
    forall f | f in features ensures issue in IssuesOf(reader, f, members, codelists) <==> f.key == key && Get(members, f.key).None? {
      MissingOfFeature(reader, f, members, codelists, key);
    }
  }

  lemma {:induction false} UnknownIsExact(reader: Reader, features: seq<Feature>, members: seq<Member>, codelists: Codelists, key: string)
    ensures (exists text :: Issue(UnknownFeature, key, text) in AllIssues(reader, features, members, codelists) + ExtraIssues(reader, features, members))
       <==> Get(members, key).Some? && !Configured(features, key)
  {
    GetIff(members, key);
    var all := AllIssues(reader, features, members, codelists) + ExtraIssues(reader, features, members);
    if text :| Issue(UnknownFeature, key, text) in all {
      var issue := Issue(UnknownFeature, key, text);
      NeverUnknown(reader, features, members, codelists, issue);
      ExtraIff(reader, features, members, issue);
    }
    if Get(members, key).Some? && !Configured(features, key) {
      var m :| m in members && m.key == key;
      var issue := Issue(UnknownFeature, key, Some(reader.show(m.value)));
      ExtraIff(reader, features, members, issue);
      assert issue in all;
    }
  }

  lemma {:induction false} NeverUnknown(reader: Reader, features: seq<Feature>, members: seq<Member>, codelists: Codelists, issue: Issue)
    requires issue.code == UnknownFeature
    ensures issue !in AllIssues(reader, features, members, codelists)
  {
    IssueComesFromFeature(reader, features, members, codelists, issue);
    forall f | f in features ensures issue !in IssuesOf(reader, f, members, codelists) {
      MissingOfFeature(reader, f, members, codelists, issue.featureKey);
    }
  }

  /** The answer of a feature was readable and not null. */
  ghost predicate Answered(reader: Reader, members: seq<Member>, key: string) {
    && Get(members, key).Some? && reader.answer(Get(members, key).value).Some?
    && !RawValue(Get(members, key).value).Null?
  }

  /** Code lists decide what is reported, never what is kept. */
  lemma {:induction false} CodelistsChangeNoValue(reader: Reader, raw: string, features: seq<Feature>, a: Codelists, b: Codelists)
    ensures Reading(reader, raw, features, a).Success? <==> Reading(reader, raw, features, b).Success?
    ensures Reading(reader, raw, features, a).Success? ==>
              Reading(reader, raw, features, a).value.values == Reading(reader, raw, features, b).value.values &&
              Reading(reader, raw, features, a).value.entities == Reading(reader, raw, features, b).value.entities
  {}

  /** What fits, told by the value: null everywhere, a truth value only a truth value's type and the
      other way round, numbers only the number types, text no truth value and, when blank, no number. */
  lemma {:induction false} FitsByValue(reader: Reader, value: Json, valueType: ValueType)
    ensures value.Null? ==> Fits(reader, value, valueType)
    ensures !value.Null? && (value.Bool? || valueType == Boolean) ==> (Fits(reader, value, valueType) <==> value.Bool? && valueType == Boolean)
    ensures value.Number? ==> (Fits(reader, value, valueType) <==> valueType in {Integer, Decimal})
    ensures value.Text? ==> (Fits(reader, value, valueType) <==> valueType != Boolean && (Trim(reader.unescape(value.literal)) == "" ==> valueType !in {Integer, Decimal}))
    ensures value.Array? || value.Object? ==> !Fits(reader, value, valueType)
  {
    if value.Text? { var a, b := TrimFacts(reader.unescape(value.literal)); }
  }

  // ---- which issue is reported when ----

  /** What the issue says is so of this feature: not in the response; unreadable or of another type;
      a value without evidence; a code of the right type that is not on the feature's list. */
  ghost predicate SaidOf(reader: Reader, f: Feature, members: seq<Member>, codelists: Codelists, issue: Issue) {
    var raw := Get(members, f.key);
    && issue.featureKey == f.key
    && if raw.None? then issue.code == MissingFeature && issue.valueRaw == None
       else if reader.answer(raw.value).None? then issue.code == ValueTypeMismatch && issue.valueRaw == Some(reader.show(raw.value))
       else
         var value := RawValue(raw.value);
         && issue.valueRaw == Stringify(reader, value)
         && match issue.code
            case MissingEvidence => Answered(reader, members, f.key) && reader.answer(raw.value).value.evidence.None?
            case ValueTypeMismatch => !Fits(reader, value, f.valueType)
            case EnumCodeNotInCodelist =>
              && f.valueType == Enumerated && value.Text? && codelists.Some?
              && f.key in codelists.value && reader.unescape(value.literal) !in codelists.value[f.key]
            case _ => false
  }

  lemma {:induction false} FeatureIssueIff(reader: Reader, f: Feature, members: seq<Member>, codelists: Codelists, issue: Issue)
    ensures issue in IssuesOf(reader, f, members, codelists) <==> SaidOf(reader, f, members, codelists, issue)
  {}

  /** The issues of a response are exactly those that are so of a configured feature, and for each key
      nobody configured just one. */
  lemma {:induction false} IssuesAreExact(reader: Reader, raw: string, features: seq<Feature>, codelists: Codelists, issue: Issue)
    requires Reading(reader, raw, features, codelists).Success?
    ensures issue.code == UnknownFeature ==> multiset(Reading(reader, raw, features, codelists).value.issues)[issue] <= 1
    ensures issue in Reading(reader, raw, features, codelists).value.issues <==>
              || (exists f :: f in features && SaidOf(reader, f, Envelope(reader, raw).value, codelists, issue))
              || (exists m :: m in Envelope(reader, raw).value && !Configured(features, m.key)
                              && issue == Issue(UnknownFeature, m.key, Some(reader.show(m.value))))
  {
    var members := Envelope(reader, raw).value;
    IssueComesFromFeature(reader, features, members, codelists, issue);
    ExtraIff(reader, features, members, issue);
    forall f | f in features ensures issue in IssuesOf(reader, f, members, codelists) <==> SaidOf(reader, f, members, codelists, issue) {
      FeatureIssueIff(reader, f, members, codelists, issue);
    }
    if issue.code == UnknownFeature {
      EnvelopeIsDict(reader, raw);
      NeverUnknown(reader, features, members, codelists, issue);
      ExtraOnce(reader, features, members, issue);
      assert multiset(AllIssues(reader, features, members, codelists))[issue] == 0;
    }
  }

  // ---- a response without issues ----

  /** The feature is answered as asked: readable, evidence beside a value, of its type, and a listed code. */
  ghost predicate Conforms(reader: Reader, f: Feature, members: seq<Member>, codelists: Codelists) {
    var raw := Get(members, f.key);
    && raw.Some? && reader.answer(raw.value).Some?
    && (Answered(reader, members, f.key) ==> reader.answer(raw.value).value.evidence.Some?)
    && Fits(reader, RawValue(raw.value), f.valueType)
    && (f.valueType == Enumerated && RawValue(raw.value).Text? && codelists.Some? && f.key in codelists.value ==>
          reader.unescape(RawValue(raw.value).literal) in codelists.value[f.key])
  }

  lemma {:induction false} ConformsIff(reader: Reader, f: Feature, members: seq<Member>, codelists: Codelists)
    ensures IssuesOf(reader, f, members, codelists) == [] <==> Conforms(reader, f, members, codelists)
  {}

  lemma {:induction false} NoFeatureIssues(reader: Reader, features: seq<Feature>, members: seq<Member>, codelists: Codelists)
    requires forall i | 0 <= i < |features| :: IssuesOf(reader, features[i], members, codelists) == []
    ensures AllIssues(reader, features, members, codelists) == []
  {
    if features != [] { NoFeatureIssues(reader, features[..|features| - 1], members, codelists); }
  }

  lemma {:induction false} NoFeatureIssuesIff(reader: Reader, features: seq<Feature>, members: seq<Member>, codelists: Codelists)
    ensures AllIssues(reader, features, members, codelists) == [] <==> forall f | f in features :: Conforms(reader, f, members, codelists)
  {
    if AllIssues(reader, features, members, codelists) == [] {
      forall f | f in features ensures Conforms(reader, f, members, codelists) {
        ConformsIff(reader, f, members, codelists);
        if IssuesOf(reader, f, members, codelists) != [] {
          IssueComesFromFeature(reader, features, members, codelists, IssuesOf(reader, f, members, codelists)[0]);
        }
      }
    }
    if forall f | f in features :: Conforms(reader, f, members, codelists) {
      forall i | 0 <= i < |features| ensures IssuesOf(reader, features[i], members, codelists) == [] {
        ConformsIff(reader, features[i], members, codelists);
      }
      NoFeatureIssues(reader, features, members, codelists);
    }
  }

  lemma {:induction false} NoExtraIssuesIff(reader: Reader, features: seq<Feature>, members: seq<Member>)
    ensures ExtraIssues(reader, features, members) == [] <==> forall m | m in members :: Configured(features, m.key)
  {
    if members != [] {
      var n := |members| - 1;
      NoExtraIssuesIff(reader, features, members[..n]);
      assert members == members[..n] + [members[n]];
    }
  }

  /** A response is read without an issue exactly when its keys are the configured ones and every
      feature is answered as asked. */
  lemma {:induction false} NoIssuesIff(reader: Reader, raw: string, features: seq<Feature>, codelists: Codelists)
    requires Reading(reader, raw, features, codelists).Success?
    ensures Reading(reader, raw, features, codelists).value.issues == [] <==>
              && (forall f | f in features :: Conforms(reader, f, Envelope(reader, raw).value, codelists))
              && (forall m | m in Envelope(reader, raw).value :: Configured(features, m.key))
  {
    NoFeatureIssuesIff(reader, features, Envelope(reader, raw).value, codelists);
    NoExtraIssuesIff(reader, features, Envelope(reader, raw).value);
  }

  // ---- the order of a response's keys ----

  lemma {:induction false} SameMembersSameGet(a: seq<Member>, b: seq<Member>, key: string)
    requires KeysDiffer(a) && KeysDiffer(b) && forall m :: m in a <==> m in b
    ensures Get(a, key) == Get(b, key)
  {
    GetIff(a, key);
    GetIff(b, key);
    if m :| m in a && m.key == key {
      GetsItsValue(a, m);
      GetsItsValue(b, m);
    }
  }

  lemma {:induction false} SameGetsSameFeatures(reader: Reader, features: seq<Feature>, a: seq<Member>, b: seq<Member>, codelists: Codelists)
    requires forall key :: Get(a, key) == Get(b, key)
    ensures AllValues(reader, features, a) == AllValues(reader, features, b)
    ensures AllIssues(reader, features, a, codelists) == AllIssues(reader, features, b, codelists)
  {
    if features != [] {
      var n := |features| - 1;
      SameGetsSameFeatures(reader, features[..n], a, b, codelists);
      FeatureNext(reader, features, n, a, codelists);
      FeatureNext(reader, features, n, b, codelists);
      assert features[..n + 1] == features;
      assert Get(a, features[n].key) == Get(b, features[n].key);
    }
  }

  lemma {:induction false} ExtraOnce(reader: Reader, features: seq<Feature>, members: seq<Member>, issue: Issue)
    requires KeysDiffer(members)
    ensures multiset(ExtraIssues(reader, features, members))[issue] <= 1
  {
    if members != [] {
      var n := |members| - 1;
      ExtraOnce(reader, features, members[..n], issue);
      if issue.featureKey == members[n].key {
        ExtraIff(reader, features, members[..n], issue);
      }
    }
  }

  lemma {:induction false} SameMembersSameExtras(reader: Reader, features: seq<Feature>, a: seq<Member>, b: seq<Member>)
    requires KeysDiffer(a) && KeysDiffer(b) && forall m :: m in a <==> m in b
    ensures multiset(ExtraIssues(reader, features, a)) == multiset(ExtraIssues(reader, features, b))
  {
    var p, q := ExtraIssues(reader, features, a), ExtraIssues(reader, features, b);
    forall issue ensures multiset(p)[issue] == multiset(q)[issue] {
      ExtraOnce(reader, features, a, issue);
      ExtraOnce(reader, features, b, issue);
      ExtraIff(reader, features, a, issue);
      ExtraIff(reader, features, b, issue);
      assert issue in p <==> multiset(p)[issue] > 0;
      assert issue in q <==> multiset(q)[issue] > 0;
    }
  }

  /** Two responses with the same features object, listed in different orders, are read alike: the
      same values and feature issues in the same order, and the same issues of unknown keys. */
  lemma {:induction false} KeyOrderDecidesNothing(reader: Reader, raw: string, other: string, features: seq<Feature>, codelists: Codelists)
    requires Reading(reader, raw, features, codelists).Success? && Reading(reader, other, features, codelists).Success?
    requires forall m :: m in Envelope(reader, raw).value <==> m in Envelope(reader, other).value
    ensures var p, q := Reading(reader, raw, features, codelists).value, Reading(reader, other, features, codelists).value;
            var own := AllIssues(reader, features, Envelope(reader, raw).value, codelists);
            && p.values == q.values && multiset(p.issues) == multiset(q.issues)
            && own <= p.issues && own <= q.issues
  {
    var a, b := Envelope(reader, raw).value, Envelope(reader, other).value;
    EnvelopeIsDict(reader, raw);
    EnvelopeIsDict(reader, other);
    forall key ensures Get(a, key) == Get(b, key) {
      SameMembersSameGet(a, b, key);
    }
    SameGetsSameFeatures(reader, features, a, b, codelists);
    SameMembersSameExtras(reader, features, a, b);
  }

  // ---- what is kept of an answer ----

  /** A value of the feature is stored, as this scalar is stored. */
  ghost predicate StoredAs(reader: Reader, values: seq<ParsedValue>, key: string, value: Json) {
    exists i :: 0 <= i < |values| && values[i].featureKey == key && values[i].valueRaw == Stringify(reader, value)
  }

  /** What each key of the features dictionary holds is stored, as the value of that answer, or shown by
      an issue of a key nobody configured or of an unreadable answer. */
  lemma {:induction false} EveryMemberIsKept(reader: Reader, raw: string, features: seq<Feature>, codelists: Codelists, m: Member)
    requires Reading(reader, raw, features, codelists).Success?
    requires m in Envelope(reader, raw).value
    ensures var r := Reading(reader, raw, features, codelists).value;
            if !Configured(features, m.key) then Issue(UnknownFeature, m.key, Some(reader.show(m.value))) in r.issues
            else if reader.answer(m.value).None? then Issue(ValueTypeMismatch, m.key, Some(reader.show(m.value))) in r.issues
            else StoredAs(reader, r.values, m.key, RawValue(m.value))
  {
    var members := Envelope(reader, raw).value;
    EnvelopeIsDict(reader, raw);
    GetsItsValue(members, m);
    if Configured(features, m.key) {
      var f :| f in features && f.key == m.key;
      if reader.answer(m.value).None? {
        IssueComesFromFeature(reader, features, members, codelists, Issue(ValueTypeMismatch, m.key, Some(reader.show(m.value))));
      } else {
        var i :| 0 <= i < |features| && features[i] == f;
        assert AllValues(reader, features, members)[i] == ValueOf(reader, f, members);
      }
    } else {
      ExtraIff(reader, features, members, Issue(UnknownFeature, m.key, Some(reader.show(m.value))));
    }
  }

  /** A raw value is stored for exactly the readable answers that are not null, and beside it the
      same text without whitespace at its ends. */
  lemma {:induction false} AnswersAreKept(reader: Reader, raw: string, features: seq<Feature>, codelists: Codelists, i: nat)
    requires Reading(reader, raw, features, codelists).Success? && i < |features|
    ensures var value := Reading(reader, raw, features, codelists).value.values[i];
            && (value.valueRaw.Some? <==> Answered(reader, Envelope(reader, raw).value, features[i].key))
            && value.valueNormalised == if value.valueRaw.Some? then Some(Trim(value.valueRaw.value)) else None
  {}

  /** A scalar as its characters stand in the response, a text between its quotes. */
  function Spelt(value: Json): Option<string> {
    match value
    case Bool(flag) => Some(if flag then "true" else "false")
    case Number(literal) => Some(literal)
    case Text(literal) => Some(literal)
    case _ => None
  }

  /** The literal of a number prints as it is, that of a text reads as it is. */
  predicate ReadsAsSpelt(reader: Reader, value: Json) {
    match value
    case Number(literal) => reader.number(literal) == literal
    case Text(literal) => reader.unescape(literal) == literal
    case _ => true
  }

  /** An answered scalar is stored as it was spelt if and only if it is a truth value, a number whose
      literal is also how it prints, or a text without escapes that read as something else. */
  lemma {:induction false} KeptAsSpeltIff(reader: Reader, raw: string, features: seq<Feature>, codelists: Codelists, i: nat)
    requires Reading(reader, raw, features, codelists).Success? && i < |features|
    requires Answered(reader, Envelope(reader, raw).value, features[i].key)
    requires Spelt(RawValue(Get(Envelope(reader, raw).value, features[i].key).value)).Some?
    ensures var stored := Reading(reader, raw, features, codelists).value.values[i].valueRaw;
            var value := RawValue(Get(Envelope(reader, raw).value, features[i].key).value);
            stored == Spelt(value) <==> ReadsAsSpelt(reader, value)
  {
    assert AllValues(reader, features, Envelope(reader, raw).value)[i] == ValueOf(reader, features[i], Envelope(reader, raw).value);
  }

  // ---- one answer, spelt in different ways ----

  /** `{"features": {key: {"value": ...}}}` */
  function OneAnswer(key: string, value: Json): Json {
    Object([Member("features", Object([Member(key, Object([Member("value", value)]))]))])
  }

  lemma {:induction false} OneEntry(key: string, value: Json)
    ensures Dict([Member(key, value)]) == [Member(key, value)] && Get([Member(key, value)], key) == Some(value)
  {
    assert [Member(key, value)][..0] == [];
    assert Dict([]) == [];
  }

  lemma {:induction false} OneAnswerMeets(key: string, value: Json)
    requires value.Number? || value.Text?
    ensures Depth(OneAnswer(key, value)) == 3 && Numbers(OneAnswer(key, value)) == Numbers(value)
  {
    OneMember("value", value);
    OneMember(key, Object([Member("value", value)]));
    OneMember("features", Object([Member(key, Object([Member("value", value)]))]));
  }

  lemma {:induction false} OneMember(key: string, value: Json)
    ensures Depth(Object([Member(key, value)])) == 1 + Depth(value) && Numbers(Object([Member(key, value)])) == Numbers(value)
  {
    assert [Member(key, value)][1..] == [];
    assert DepthIn([Member(key, value)]) == Larger(Depth(value), DepthIn([]));
    assert NumbersIn([Member(key, value)]) == Numbers(value) + NumbersIn([]);
  }

  /** Such a response is read, with limits it does not meet. */
  ghost predicate Readable(reader: Reader, raw: string, f: Feature, value: Json) {
    && reader.scan(raw) == Complete(OneAnswer(f.key, value)) && reader.answer(Object([Member("value", value)])).Some?
    && reader.depthLimit >= 3
  }

  lemma {:induction false} OneAnswerStored(reader: Reader, raw: string, f: Feature, value: Json)
    requires Readable(reader, raw, f, value) && (value.Number? || value.Text?)
    requires value.Number? ==> !TooLong(value.literal, reader.digitLimit)
    ensures Reading(reader, raw, [f], None).Success?
    ensures Reading(reader, raw, [f], None).value.values[0].valueRaw == Stringify(reader, value)
  {
    var answer := Object([Member("value", value)]);
    OneAnswerMeets(f.key, value);
    assert LoadOf(reader, raw) == Value(OneAnswer(f.key, value));
    OneEntry("features", Object([Member(f.key, answer)]));
    OneEntry(f.key, answer);
    OneEntry("value", value);
    assert Envelope(reader, raw) == Success([Member(f.key, answer)]);
    assert RawValue(answer) == value;
  }

  /** Literals read and print as in Python: a trailing zero goes, an exponent is written out, an
      escape is the character it stands for. */
  ghost predicate ReadsAsPython(reader: Reader) {
    && reader.number("1.10") == "1.1" && reader.number("1e2") == "100.0"
    && reader.unescape("\\u0041") == "A"
  }

  /** An answer of `1.10` is stored as `1.1`, one of `1e2` as `100.0`, and one of `"\u0041"` as `A`. */
  lemma {:induction false} LiteralsAreNotKept(reader: Reader, raw: string, f: Feature, value: Json, stored: string)
    requires ReadsAsPython(reader) && Readable(reader, raw, f, value)
    requires (value, stored) in {(Number("1.10"), "1.1"), (Number("1e2"), "100.0"), (Text("\\u0041"), "A")}
    ensures Reading(reader, raw, [f], None).Success?
    ensures Reading(reader, raw, [f], None).value.values[0].valueRaw == Some(stored) != Spelt(value)
  {
    assert |"1.1"| == 3 && |"1.10"| == 4 && |"100.0"| == 5 && |"1e2"| == 3 && |"A"| == 1 && |"\\u0041"| == 6;
    assert "1.10"[1] == '.' && "1e2"[1] == 'e';
    OneAnswerStored(reader, raw, f, value);
  }

  /** A whole number as it is written: a minus or not, and digits. */
  function Whole(minus: bool, digits: string): string { (if minus then "-" else "") + digits }

  /** A number of as many digits as `int` converts is read; with one digit more, parsing raises. */
  lemma {:induction false} OneDigitTooMany(reader: Reader, raw: string, f: Feature, minus: bool, digits: string)
    requires digits != "" && forall i | 0 <= i < |digits| :: digits[i] in "0123456789"
    requires Readable(reader, raw, f, Number(Whole(minus, digits)))
    ensures |digits| == reader.digitLimit ==> Reading(reader, raw, [f], None).Success?
    ensures |digits| == reader.digitLimit + 1 ==> Reading(reader, raw, [f], None) == Failure(Raised)
  {
    var literal := Whole(minus, digits);
    assert Unsigned(literal) == digits by { if !minus { assert digits[0] in "0123456789"; } }
    DigitsAre(digits);
    if |digits| <= reader.digitLimit {
      OneAnswerStored(reader, raw, f, Number(literal));
    } else {
      OneAnswerMeets(f.key, Number(literal));
      assert TooLong(Numbers(OneAnswer(f.key, Number(literal)))[0], reader.digitLimit);
    }
  }

  lemma {:induction false} DigitsAre(digits: string)
    requires digits != ""
    ensures DigitsOnly(digits) <==> forall i | 0 <= i < |digits| :: digits[i] in "0123456789"
  {
    forall i | 0 <= i < |digits| ensures '0' <= digits[i] <= '9' <==> digits[i] in "0123456789" {
      DigitIs(digits[i]);
    }
  }

  lemma {:induction false} DigitIs(c: char)
    ensures '0' <= c <= '9' <==> c in "0123456789"
  {
    var all := "0123456789";
    assert all[0] == '0' && all[1] == '1' && all[2] == '2' && all[3] == '3' && all[4] == '4'
        && all[5] == '5' && all[6] == '6' && all[7] == '7' && all[8] == '8' && all[9] == '9';
    if '0' <= c <= '9' {
      assert c == all[c as int - '0' as int];
    }
  }
}
