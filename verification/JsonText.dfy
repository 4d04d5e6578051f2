/** JSON as it is written: literals before they are read, and objects before they are dictionaries. */
module JsonText {
  import opened Wrappers

  /** A number and a text as their literals stand in the response, a text between its quotes; an
      object as its members in order, a key as it reads. */
  datatype Json =
    | Null
    | Bool(flag: bool)
    | Number(literal: string)
    | Text(literal: string)
    | Array(items: seq<Json>)
    | Object(members: seq<Member>)

  datatype Member = Member(key: string, value: Json)

  // ---- an object as a dictionary ----

  /** The value of the last member with the key. */
  function Get(members: seq<Member>, key: string): Option<Json> {
    if members == [] then None
    else if members[|members| - 1].key == key then Some(members[|members| - 1].value)
    else Get(members[..|members| - 1], key)
  }

  /** The dictionary entry of `m`: in the place of an earlier one with its key, or else behind all. */
  function Put(entries: seq<Member>, m: Member): seq<Member> {
    if entries == [] then [m]
    else if entries[0].key == m.key then [m] + entries[1..]
    else [entries[0]] + Put(entries[1..], m)
  }

  function Dict(members: seq<Member>): seq<Member> {
    if members == [] then [] else Put(Dict(members[..|members| - 1]), members[|members| - 1])
  }

  ghost predicate KeysDiffer(members: seq<Member>) {
    forall i, j | 0 <= i < j < |members| :: members[i].key != members[j].key
  }

  lemma {:induction false} PutKeys(entries: seq<Member>, m: Member)
    requires KeysDiffer(entries)
    ensures KeysDiffer(Put(entries, m))
    ensures forall x :: x in Put(entries, m) <==> x == m || (x in entries && x.key != m.key)
  {
    if entries != [] {
      var first, rest := entries[0], entries[1..];
      assert entries == [first] + rest;
      if first.key != m.key {
        PutKeys(rest, m);
        assert forall x | x in Put(rest, m) :: x.key != first.key;
      }
    }
  }

  /** A dictionary has every key once, with the value of its last member. */
  lemma {:induction false} DictHolds(members: seq<Member>)
    ensures KeysDiffer(Dict(members))
    ensures forall x :: x in Dict(members) <==> Get(members, x.key) == Some(x.value)
  {
    if members != [] {
      var n := |members| - 1;
      DictHolds(members[..n]);
      PutKeys(Dict(members[..n]), members[n]);
    }
  }

  lemma {:induction false} GetIff(members: seq<Member>, key: string)
    ensures Get(members, key).Some? <==> exists m :: m in members && m.key == key
  {
    if members != [] {
      var n := |members| - 1;
      GetIff(members[..n], key);
      assert members == members[..n] + [members[n]];
    }
  }

  lemma {:induction false} GetsItsValue(members: seq<Member>, m: Member)
    requires KeysDiffer(members) && m in members
    ensures Get(members, m.key) == Some(m.value)
  {
    var n := |members| - 1;
    if members[n] != m {
      assert members == members[..n] + [members[n]];
      GetsItsValue(members[..n], m);
      assert members[n].key != m.key;
    }
  }

  // ---- literals and nesting ----

  /** The number literals of a JSON text, from left to right. */
  function Numbers(value: Json): seq<string> {
    match value
    case Number(literal) => [literal]
    case Array(items) => NumbersOf(items)
    case Object(members) => NumbersIn(members)
    case _ => []
  }

  function NumbersOf(items: seq<Json>): seq<string> {
    if items == [] then [] else Numbers(items[0]) + NumbersOf(items[1..])
  }

  function NumbersIn(members: seq<Member>): seq<string> {
    if members == [] then [] else Numbers(members[0].value) + NumbersIn(members[1..])
  }

  function Larger(a: nat, b: nat): nat { if a >= b then a else b }

  /** How many arrays and objects are open at once, at most. */
  function Depth(value: Json): nat {
    match value
    case Array(items) => 1 + DepthOf(items)
    case Object(members) => 1 + DepthIn(members)
    case _ => 0
  }

  function DepthOf(items: seq<Json>): nat {
    if items == [] then 0 else Larger(Depth(items[0]), DepthOf(items[1..]))
  }

  function DepthIn(members: seq<Member>): nat {
    if members == [] then 0 else Larger(Depth(members[0].value), DepthIn(members[1..]))
  }

  predicate DigitsOnly(s: string) { s != "" && forall i | 0 <= i < |s| :: '0' <= s[i] <= '9' }

  function Unsigned(literal: string): string {
    if literal != "" && literal[0] == '-' then literal[1..] else literal
  }

  /** A whole number of more digits than `int` converts. */
  predicate TooLong(literal: string, limit: nat) {
    DigitsOnly(Unsigned(literal)) && |Unsigned(literal)| > limit
  }

  // ---- reading a response ----

  /** What scanning comes to: JSON, or not; then with the number literals and the nesting it met
      before the error. */
  datatype Scanned = Complete(value: Json) | Broken(numbers: seq<string>, depth: nat)

  datatype Loaded = Value(value: Json) | DecodeError | OtherError

  /** The scan met a number too long to convert, or nesting too deep to follow. */
  predicate MeetsLimit(scanned: Scanned, digitLimit: nat, depthLimit: nat) {
    match scanned
    case Complete(value) => Depth(value) > depthLimit || exists i | 0 <= i < |Numbers(value)| :: TooLong(Numbers(value)[i], digitLimit)
    case Broken(numbers, depth) => depth > depthLimit || exists i | 0 <= i < |numbers| :: TooLong(numbers[i], digitLimit)
  }

  /** `json.loads`: a limit is met before the scan ends, so it comes before the decode error. */
  function Load(scanned: Scanned, digitLimit: nat, depthLimit: nat): Loaded {
    if MeetsLimit(scanned, digitLimit, depthLimit) then OtherError
    else match scanned case Complete(value) => Value(value) case Broken(_, _) => DecodeError
  }
}
