/** When reading a response raises, told of its literals and its nesting. */
module JsonLimits {
  import opened Wrappers
  import opened JsonText
  import opened OutputParsing

  /** A whole number, with or without a minus, of more digits than the limit. */
  ghost predicate TooManyDigits(literal: string, limit: nat) {
    exists minus: bool, digits: string :: literal == Whole(minus, digits) && AllDigits(digits) && |digits| > limit
  }

  predicate AllDigits(digits: string) { digits != "" && forall i | 0 <= i < |digits| :: digits[i] in "0123456789" }

  lemma {:induction false} TooLongIff(literal: string, limit: nat)
    ensures TooLong(literal, limit) <==> TooManyDigits(literal, limit)
  {
    var digits, minus := Unsigned(literal), literal != "" && literal[0] == '-';
    if digits != "" { DigitsAre(digits); }
    if TooLong(literal, limit) {
      assert literal == Whole(minus, digits);
    }
    if m: bool, ds: string :| literal == Whole(m, ds) && AllDigits(ds) && |ds| > limit {
      assert ds[0] in "0123456789" && ds[0] != '-';
      assert literal == ds || literal[1..] == ds;
      assert Unsigned(literal) == ds;
      DigitsAre(ds);
    }
  }

  /** The literal stands somewhere in the value. */
  ghost predicate StandsIn(literal: string, value: Json) {
    match value
    case Number(own) => own == literal
    case Array(items) => exists i :: 0 <= i < |items| && StandsIn(literal, items[i])
    case Object(members) => exists i :: 0 <= i < |members| && StandsIn(literal, members[i].value)
    case _ => false
  }

  lemma {:induction false} NumbersAre(value: Json, literal: string)
    ensures literal in Numbers(value) <==> StandsIn(literal, value)
    decreases value
  {
    match value
    case Array(items) =>
      forall i | 0 <= i < |items| ensures literal in Numbers(items[i]) <==> StandsIn(literal, items[i]) { NumbersAre(items[i], literal); }
      NumbersOfAre(items, literal);
    case Object(members) =>
      forall i | 0 <= i < |members| ensures literal in Numbers(members[i].value) <==> StandsIn(literal, members[i].value) {
        NumbersAre(members[i].value, literal);
      }
      NumbersInAre(members, literal);
    case _ =>
  }

  lemma {:induction false} NumbersOfAre(items: seq<Json>, literal: string)
    ensures literal in NumbersOf(items) <==> exists i :: 0 <= i < |items| && literal in Numbers(items[i])
  {
    if items != [] {
      NumbersOfAre(items[1..], literal);
      assert items == [items[0]] + items[1..];
      assert forall i | 0 <= i < |items[1..]| :: items[1..][i] == items[i + 1];
      if i :| 0 <= i < |items| && literal in Numbers(items[i]) {
        if i > 0 { assert literal in Numbers(items[1..][i - 1]); }
      }
    }
  }

  lemma {:induction false} NumbersInAre(members: seq<Member>, literal: string)
    ensures literal in NumbersIn(members) <==> exists i :: 0 <= i < |members| && literal in Numbers(members[i].value)
  {
    if members != [] {
      NumbersInAre(members[1..], literal);
      assert members == [members[0]] + members[1..];
      assert forall i | 0 <= i < |members[1..]| :: members[1..][i] == members[i + 1];
      if i :| 0 <= i < |members| && literal in Numbers(members[i].value) {
        if i > 0 { assert literal in Numbers(members[1..][i - 1].value); }
      }
    }
  }

  /** So many arrays and objects are open at once somewhere in the value. */
  ghost predicate Nests(value: Json, levels: nat) {
    levels == 0 ||
    match value
    case Array(items) => levels == 1 || exists i :: 0 <= i < |items| && Nests(items[i], levels - 1)
    case Object(members) => levels == 1 || exists i :: 0 <= i < |members| && Nests(members[i].value, levels - 1)
    case _ => false
  }

  lemma {:induction false} DepthIs(value: Json, levels: nat)
    ensures levels <= Depth(value) <==> Nests(value, levels)
    decreases value
  {
    if levels > 1 {
      match value
      case Array(items) =>
        forall i | 0 <= i < |items| ensures levels - 1 <= Depth(items[i]) <==> Nests(items[i], levels - 1) { DepthIs(items[i], levels - 1); }
        DepthOfIs(items, levels - 1);
      case Object(members) =>
        forall i | 0 <= i < |members| ensures levels - 1 <= Depth(members[i].value) <==> Nests(members[i].value, levels - 1) {
          DepthIs(members[i].value, levels - 1);
        }
        DepthInIs(members, levels - 1);
      case _ =>
    }
  }

  lemma {:induction false} DepthOfIs(items: seq<Json>, levels: nat)
    requires levels > 0
    ensures levels <= DepthOf(items) <==> exists i :: 0 <= i < |items| && levels <= Depth(items[i])
  {
    if items != [] {
      DepthOfIs(items[1..], levels);
      assert forall i | 0 <= i < |items[1..]| :: items[1..][i] == items[i + 1];
      if i :| 0 <= i < |items| && levels <= Depth(items[i]) {
        if i > 0 { assert levels <= Depth(items[1..][i - 1]); }
      }
    }
  }

  lemma {:induction false} DepthInIs(members: seq<Member>, levels: nat)
    requires levels > 0
    ensures levels <= DepthIn(members) <==> exists i :: 0 <= i < |members| && levels <= Depth(members[i].value)
  {
    if members != [] {
      DepthInIs(members[1..], levels);
      assert forall i | 0 <= i < |members[1..]| :: members[1..][i] == members[i + 1];
      if i :| 0 <= i < |members| && levels <= Depth(members[i].value) {
        if i > 0 { assert levels <= Depth(members[1..][i - 1].value); }
      }
    }
  }

  /** The scan meets a whole number of too many digits, or nesting past the limit. */
  ghost predicate Meets(scanned: Scanned, digitLimit: nat, depthLimit: nat) {
    match scanned
    case Complete(value) => Nests(value, depthLimit + 1) || exists literal :: StandsIn(literal, value) && TooManyDigits(literal, digitLimit)
    case Broken(numbers, depth) => depth > depthLimit || exists literal :: literal in numbers && TooManyDigits(literal, digitLimit)
  }

  lemma {:induction false} SomeTooLong(numbers: seq<string>, limit: nat)
    ensures (exists i :: 0 <= i < |numbers| && TooLong(numbers[i], limit)) <==> exists literal :: literal in numbers && TooManyDigits(literal, limit)
  {
    forall i | 0 <= i < |numbers| ensures TooLong(numbers[i], limit) <==> TooManyDigits(numbers[i], limit) { TooLongIff(numbers[i], limit); }
    if literal :| literal in numbers && TooManyDigits(literal, limit) {
      var i :| 0 <= i < |numbers| && numbers[i] == literal;
      assert TooLong(numbers[i], limit);
    }
    if i :| 0 <= i < |numbers| && TooLong(numbers[i], limit) {
      assert numbers[i] in numbers;
    }
  }

  lemma {:induction false} MeetsIff(scanned: Scanned, digitLimit: nat, depthLimit: nat)
    ensures MeetsLimit(scanned, digitLimit, depthLimit) <==> Meets(scanned, digitLimit, depthLimit)
  {
    match scanned
    case Complete(value) =>
      DepthIs(value, depthLimit + 1);
      SomeTooLong(Numbers(value), digitLimit);
      forall literal ensures literal in Numbers(value) <==> StandsIn(literal, value) { NumbersAre(value, literal); }
    case Broken(numbers, depth) =>
      SomeTooLong(numbers, digitLimit);
  }

  /** Reading raises exactly then; otherwise the scan ends, with JSON or with the decode error. */
  lemma {:induction false} ReadingRaisesIff(reader: Reader, raw: string, features: seq<Feature>, codelists: Codelists)
    ensures Reading(reader, raw, features, codelists) == Failure(Raised) <==> Meets(reader.scan(raw), reader.digitLimit, reader.depthLimit)
    ensures LoadOf(reader, raw) == DecodeError <==> reader.scan(raw).Broken? && !Meets(reader.scan(raw), reader.digitLimit, reader.depthLimit)
    ensures forall value :: LoadOf(reader, raw) == Value(value) <==>
              reader.scan(raw) == Complete(value) && !Meets(reader.scan(raw), reader.digitLimit, reader.depthLimit)
  {
    MeetsIff(reader.scan(raw), reader.digitLimit, reader.depthLimit);
  }
}
