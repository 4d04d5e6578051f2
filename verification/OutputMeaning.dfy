/** What a reading of a response holds, told of the members of its JSON objects. */
module OutputMeaning {
  import opened Wrappers
  import opened PythonText
  import opened JsonText
  import opened OutputParsing

  /** Member `k` has the key, and no later one has: the one a dictionary keeps. */
  ghost predicate LastWith(members: seq<Member>, key: string, k: nat) {
    && k < |members| && members[k].key == key
    && forall j | k < j < |members| :: members[j].key != key
  }

  /** The object says `value` of the key: its last member with the key does. */
  ghost predicate Says(members: seq<Member>, key: string, value: Json) {
    exists k: nat :: LastWith(members, key, k) && members[k].value == value
  }

  ghost predicate Silent(members: seq<Member>, key: string) {
    forall k | 0 <= k < |members| :: members[k].key != key
  }

  lemma {:induction false} GetMeans(members: seq<Member>, key: string)
    ensures Get(members, key).Some? ==> Says(members, key, Get(members, key).value)
    ensures Get(members, key).None? <==> Silent(members, key)
  {
    if members != [] {
      var n := |members| - 1;
      if members[n].key == key {
        assert LastWith(members, key, n);
      } else {
        GetMeans(members[..n], key);
        if Get(members, key).Some? {
          var k: nat :| LastWith(members[..n], key, k) && members[..n][k].value == Get(members, key).value;
          assert LastWith(members, key, k);
        }
      }
    }
  }

  lemma {:induction false} SaysOnce(members: seq<Member>, key: string, a: Json, b: Json)
    requires Says(members, key, a) && Says(members, key, b)
    ensures a == b && !Silent(members, key)
  {
    var i: nat :| LastWith(members, key, i) && members[i].value == a;
    var j: nat :| LastWith(members, key, j) && members[j].value == b;
    assert i == j;
  }

  lemma {:induction false} GetIs(members: seq<Member>, key: string, value: Json)
    ensures Get(members, key) == Some(value) <==> Says(members, key, value)
  {
    GetMeans(members, key);
    if Says(members, key, value) {
      var k: nat :| LastWith(members, key, k) && members[k].value == value;
      assert Get(members, key).Some?;
      SaysOnce(members, key, value, Get(members, key).value);
    }
  }

  /** A dictionary is asked as the object it was read from. */
  lemma {:induction false} DictSays(members: seq<Member>, key: string)
    ensures Get(Dict(members), key) == Get(members, key)
  {
    DictHolds(members);
    GetIff(Dict(members), key);
    if Get(members, key).Some? {
      GetsItsValue(Dict(members), Member(key, Get(members, key).value));
    } else {
      assert forall m | m in Dict(members) :: m.key != key;
    }
  }

  // ---- which response is read ----

  /** The response is an object, with this text of members and this features object. */
  ghost predicate Reads(reader: Reader, raw: string, members: seq<Member>, features: seq<Member>) {
    LoadOf(reader, raw) == Value(Object(members)) && Says(members, "features", Object(features))
  }

  ghost predicate SaysNoObject(members: seq<Member>, key: string) {
    Silent(members, key) || exists value: Json :: Says(members, key, value) && !value.Object?
  }

  /** A response is read, or refused because it is no JSON, no object, or has no features object. */
  lemma {:induction false} RefusedIff(reader: Reader, raw: string, features: seq<Feature>, codelists: Codelists)
    ensures var r, loaded := Reading(reader, raw, features, codelists), LoadOf(reader, raw);
            && (r == Failure(Failed(InvalidJson)) <==> loaded == DecodeError)
            && (r == Failure(Failed(NotAnObject)) <==> loaded.Value? && !loaded.value.Object?)
            && (r == Failure(Failed(FeaturesNotObject)) <==> loaded.Value? && loaded.value.Object? && SaysNoObject(loaded.value.members, "features"))
            && (r.Success? <==> exists members, own :: Reads(reader, raw, members, own))
  {
    var r, loaded := Reading(reader, raw, features, codelists), LoadOf(reader, raw);
    if loaded.Value? && loaded.value.Object? {
      var members := loaded.value.members;
      DictSays(members, "features");
      GetMeans(members, "features");
      if value: Json :| Says(members, "features", value) && !value.Object? {
        GetIs(members, "features", value);
      }
      if r.Success? {
        assert Reads(reader, raw, members, Get(members, "features").value.members);
      }
      if own :| Reads(reader, raw, members, own) {
        GetIs(members, "features", Object(own));
      }
    }
  }

  lemma {:induction false} ReadsEnvelope(reader: Reader, raw: string, members: seq<Member>, own: seq<Member>)
    requires Reads(reader, raw, members, own)
    ensures Response(reader, raw) == Success(Dict(members)) && Envelope(reader, raw) == Success(Dict(own))
  {
    DictSays(members, "features");
    GetIs(members, "features", Object(own));
  }

  // ---- what is stored of an answer ----

  /** The value an answer gives: none unless it is an object that says one. */
  ghost predicate Gives(answer: Json, value: Json) {
    if answer.Object? && !Silent(answer.members, "value") then Says(answer.members, "value", value) else value == Null
  }

  /** How a JSON value is stored. */
  ghost predicate Stored(reader: Reader, value: Json, text: Option<string>) {
    match value
    case Null => text == None
    case Bool(flag) => text == Some(if flag then "true" else "false")
    case Number(literal) => text == Some(reader.number(literal))
    case Text(literal) => text == Some(reader.unescape(literal))
    case Array(_) => text == Some(reader.show(value))
    case Object(_) => text == Some(reader.show(value))
  }

  /** Of a readable answer the flag and the evidence are stored as they are, whatever the value is,
      and the value beside its trimmed copy; of any other, nothing. */
  ghost predicate KeptOf(reader: Reader, key: string, own: seq<Member>, v: ParsedValue) {
    v.featureKey == key &&
    if exists answer: Json :: Says(own, key, answer) && reader.answer(answer).Some? then
      exists answer: Json, value: Json ::
        && Says(own, key, answer) && reader.answer(answer).Some? && Gives(answer, value)
        && v.presentFlag == reader.answer(answer).value.present && v.evidence == reader.answer(answer).value.evidence
        && Stored(reader, value, v.valueRaw)
        && v.valueNormalised == if v.valueRaw.Some? then Some(Trim(v.valueRaw.value)) else None
    else v == ParsedValue(key, None, None, false, None)
  }

  lemma {:induction false} GivesRaw(answer: Json)
    ensures Gives(answer, RawValue(answer))
  {
    if answer.Object? { GetMeans(answer.members, "value"); }
  }

  lemma {:induction false} ValueIsKept(reader: Reader, feature: Feature, own: seq<Member>)
    ensures KeptOf(reader, feature.key, own, ValueOf(reader, feature, Dict(own)))
  {
    var v, given := ValueOf(reader, feature, Dict(own)), Get(own, feature.key);
    DictSays(own, feature.key);
    GetMeans(own, feature.key);
    if answer: Json :| Says(own, feature.key, answer) && reader.answer(answer).Some? {
      GetIs(own, feature.key, answer);
      GivesRaw(answer);
      assert Stored(reader, RawValue(answer), v.valueRaw);
    }
  }

  /** Value `i` is what is kept of the answer of feature `i`. */
  lemma {:induction false} ValuesAreKept(reader: Reader, raw: string, features: seq<Feature>, codelists: Codelists,
                                         members: seq<Member>, own: seq<Member>, i: nat)
    requires Reads(reader, raw, members, own) && i < |features|
    ensures var r := Reading(reader, raw, features, codelists);
            r.Success? && i < |r.value.values| && KeptOf(reader, features[i].key, own, r.value.values[i])
  {
    ReadsEnvelope(reader, raw, members, own);
    ValueIsKept(reader, features[i], own);
  }

  // ---- the order of the issues ----

  /** Issue `k` is about feature `of[k]`, features in order; of one feature a missing piece of evidence
      comes first, and no issue twice. */
  ghost predicate InFeatureOrder(features: seq<Feature>, issues: seq<Issue>, of: seq<nat>) {
    && |of| == |issues|
    && (forall k | 0 <= k < |of| :: of[k] < |features| && issues[k].featureKey == features[of[k]].key)
    && (forall k, l | 0 <= k < l < |of| :: of[k] <= of[l])
    && (forall k, l | 0 <= k < l < |of| && of[k] == of[l] :: issues[k].code == MissingEvidence && issues[l].code != MissingEvidence)
  }

  lemma {:induction false} FewIssues(reader: Reader, f: Feature, members: seq<Member>, codelists: Codelists)
    ensures var issues := IssuesOf(reader, f, members, codelists);
            && |issues| <= 2 && (forall k | 0 <= k < |issues| :: issues[k].featureKey == f.key)
            && (|issues| == 2 ==> issues[0].code == MissingEvidence && issues[1].code != MissingEvidence)
  {}

  lemma {:induction false} Appended(features: seq<Feature>, before: seq<Issue>, of: seq<nat>, more: seq<Issue>)
    requires features != [] && InFeatureOrder(features[..|features| - 1], before, of)
    requires |more| <= 2 && forall k | 0 <= k < |more| :: more[k].featureKey == features[|features| - 1].key
    requires |more| == 2 ==> more[0].code == MissingEvidence && more[1].code != MissingEvidence
    ensures InFeatureOrder(features, before + more, of + seq(|more|, _ => |features| - 1))
  {
    var all, places := before + more, of + seq(|more|, _ => |features| - 1);
    forall k, l | 0 <= k < l < |places|
      ensures places[k] <= places[l]
      ensures places[k] == places[l] ==> all[k].code == MissingEvidence && all[l].code != MissingEvidence
    {
      if l >= |of| && k >= |of| { assert all[k] == more[k - |of|] && all[l] == more[l - |of|]; }
    }
  }

  lemma {:induction false} OwnIssuesInOrder(reader: Reader, features: seq<Feature>, members: seq<Member>, codelists: Codelists) returns (of: seq<nat>)
    ensures InFeatureOrder(features, AllIssues(reader, features, members, codelists), of)
  {
    of := [];
    if features != [] {
      var n := |features| - 1;
      var before := OwnIssuesInOrder(reader, features[..n], members, codelists);
      var more := IssuesOf(reader, features[n], members, codelists);
      FewIssues(reader, features[n], members, codelists);
      Appended(features, AllIssues(reader, features[..n], members, codelists), before, more);
      of := before + seq(|more|, _ => n);
    }
  }

  /** The issues of the features come first, in the order of the features, and then those of unknown keys. */
  lemma {:induction false} IssuesInTurn(reader: Reader, raw: string, features: seq<Feature>, codelists: Codelists) returns (of: seq<nat>)
    requires Reading(reader, raw, features, codelists).Success?
    ensures var issues := Reading(reader, raw, features, codelists).value.issues;
            && |of| <= |issues| && InFeatureOrder(features, issues[..|of|], of)
            && forall k | |of| <= k < |issues| :: issues[k].code == UnknownFeature
  {
    var members := Envelope(reader, raw).value;
    of := OwnIssuesInOrder(reader, features, members, codelists);
    var own, extra := AllIssues(reader, features, members, codelists), ExtraIssues(reader, features, members);
    assert (own + extra)[..|own|] == own;
    forall k | 0 <= k < |extra| ensures extra[k].code == UnknownFeature {
      ExtraIff(reader, features, members, extra[k]);
    }
  }

  // ---- the entities ----

  /** The entities are those of the items at these places, every readable item, in order. */
  ghost predicate ReadableAt(reader: Reader, items: seq<Json>, entities: seq<Entity>, at: seq<nat>) {
    && |entities| == |at|
    && (forall k | 0 <= k < |at| :: at[k] < |items| && reader.entity(items[at[k]]) == Some(entities[k]))
    && (forall k, l | 0 <= k < l < |at| :: at[k] < at[l])
    && (forall i | 0 <= i < |items| && reader.entity(items[i]).Some? :: i in at)
  }

  lemma {:induction false} EntitiesAreReadable(reader: Reader, items: seq<Json>) returns (at: seq<nat>)
    ensures ReadableAt(reader, items, Entities(reader, items), at)
  {
    if items == [] {
      at := [];
    } else {
      var n := |items| - 1;
      at := EntitiesAreReadable(reader, items[..n]);
      if reader.entity(items[n]).Some? { at := at + [n]; }
    }
  }

  /** The entities of a response are the readable items of its entities array, in order, and none
      when it has no such array. */
  lemma {:induction false} EntitiesAreKept(reader: Reader, raw: string, features: seq<Feature>, codelists: Codelists,
                                           members: seq<Member>, own: seq<Member>, items: seq<Json>)
    requires Reads(reader, raw, members, own)
    ensures var r := Reading(reader, raw, features, codelists);
            && r.Success?
            && (Says(members, "entities", Array(items)) ==> exists at :: ReadableAt(reader, items, r.value.entities, at))
            && ((forall other :: !Says(members, "entities", Array(other))) ==> r.value.entities == [])
  {
    ReadsEnvelope(reader, raw, members, own);
    DictSays(members, "entities");
    GetMeans(members, "entities");
    if Says(members, "entities", Array(items)) {
      GetIs(members, "entities", Array(items));
      var at := EntitiesAreReadable(reader, items);
    }
  }

  // ---- an answer that contradicts itself ----

  /** `{"features": {key: {"present": false, "value": "2"}}}` */
  function Contradiction(key: string): Json {
    Object([Member("features", Object([Member(key, Object([Member("present", Bool(false)), Member("value", Text("2"))]))]))])
  }

  lemma {:induction false} LastSays(before: seq<Member>, m: Member)
    ensures Says(before + [m], m.key, m.value)
  {
    assert LastWith(before + [m], m.key, |before|);
  }

  /** A value is given and the answer says that there is none: both are stored. */
  lemma {:induction false} ContradictionIsStored(reader: Reader, raw: string, f: Feature, evidence: Option<string>)
    requires LoadOf(reader, raw) == Value(Contradiction(f.key)) && reader.unescape("2") == "2"
    requires reader.answer(Object([Member("present", Bool(false)), Member("value", Text("2"))])) == Some(Answer(false, evidence))
    ensures var r := Reading(reader, raw, [f], None);
            r.Success? && r.value.values == [ParsedValue(f.key, Some("2"), Some(Trim("2")), false, evidence)]
  {
    var answer := Object([Member("present", Bool(false)), Member("value", Text("2"))]);
    var own := [Member(f.key, answer)];
    var members := [Member("features", Object(own))];
    LastSays([], members[0]);
    LastSays([], own[0]);
    LastSays([Member("present", Bool(false))], Member("value", Text("2")));
    assert Reads(reader, raw, members, own);
    ReadsEnvelope(reader, raw, members, own);
    DictSays(own, f.key);
    GetIs(own, f.key, answer);
    GetIs(answer.members, "value", Text("2"));
  }
}
