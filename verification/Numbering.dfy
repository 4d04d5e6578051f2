/** Numbered placeholders: the values of one tag are numbered by first occurrence. */
module Numbering {
  import opened Text

  /** What a number is given to: the tag and the value it stands for. */
  datatype Value = Value(tag: string, key: string)

  function Placeholder(tag: string, number: nat): string {
    "<" + tag + "_" + Decimal(number) + ">"
  }

  /** A placeholder gives back its tag and its number, whatever characters the tag has. */
  lemma {:induction false} PlaceholderInjective(t1: string, n1: nat, t2: string, n2: nat)
    requires Placeholder(t1, n1) == Placeholder(t2, n2)
    ensures t1 == t2 && n1 == n2
  {
    var p := Placeholder(t1, n1);
    var d1, d2 := Decimal(n1), Decimal(n2);
    var u1, u2 := 1 + |t1|, 1 + |t2|;
    DecimalIsDigits(n1);
    DecimalIsDigits(n2);
    assert p[u1] == '_' && p[u1 + 1..|p| - 1] == d1 && p[1..u1] == t1;
    assert p[u2] == '_' && p[u2 + 1..|p| - 1] == d2 && p[1..u2] == t2;
    assert forall k | u1 < k < |p| - 1 :: p[k] == d1[k - u1 - 1] && p[k] != '_';
    assert forall k | u2 < k < |p| - 1 :: p[k] == d2[k - u2 - 1] && p[k] != '_';
    assert u1 == u2;
    DecimalInjective(n1, n2);
  }

  predicate IsFirst(vs: seq<Value>, i: nat)
    requires i < |vs|
  {
    forall k | 0 <= k < i :: vs[k] != vs[i]
  }

  function IndexFrom(vs: seq<Value>, i: nat, from: nat): (j: nat)
    requires from <= i < |vs|
    ensures from <= j <= i && vs[j] == vs[i]
    ensures forall k | from <= k < j :: vs[k] != vs[i]
    decreases i - from
  {
    if vs[from] == vs[i] then from else IndexFrom(vs, i, from + 1)
  }

  /** Where the value at `i` first occurs. */
  function FirstIndex(vs: seq<Value>, i: nat): nat
    requires i < |vs|
  {
    IndexFrom(vs, i, 0)
  }

  /** How many different values of `tag` occur among the first `n`. */
  function ValuesBefore(vs: seq<Value>, n: nat, tag: string): nat
    requires n <= |vs|
  {
    if n == 0 then 0
    else ValuesBefore(vs, n - 1, tag) + if vs[n - 1].tag == tag && IsFirst(vs, n - 1) then 1 else 0
  }

  function Number(vs: seq<Value>, i: nat): nat
    requires i < |vs|
  {
    ValuesBefore(vs, FirstIndex(vs, i), vs[i].tag) + 1
  }

  lemma {:induction false} SameFirst(vs: seq<Value>, i: nat, k: nat)
    requires i < |vs| && k < |vs|
    ensures vs[i] == vs[k] <==> FirstIndex(vs, i) == FirstIndex(vs, k)
    ensures IsFirst(vs, i) <==> FirstIndex(vs, i) == i
    ensures IsFirst(vs, FirstIndex(vs, i))
  {}

  lemma {:induction false} ValuesGrow(vs: seq<Value>, m: nat, n: nat, tag: string)
    requires m < n <= |vs|
    ensures ValuesBefore(vs, m, tag) <= ValuesBefore(vs, n, tag)
    ensures vs[m].tag == tag && IsFirst(vs, m) ==> ValuesBefore(vs, m, tag) < ValuesBefore(vs, n, tag)
  {
    if m < n - 1 { ValuesGrow(vs, m, n - 1, tag); }
  }

  /** One placeholder means one tag and one value, and the other way round. */
  lemma {:induction false} SamePlaceholderIffSameValue(vs: seq<Value>, i: nat, k: nat)
    requires i < |vs| && k < |vs|
    ensures Placeholder(vs[i].tag, Number(vs, i)) == Placeholder(vs[k].tag, Number(vs, k)) <==> vs[i] == vs[k]
  {
    SameFirst(vs, i, k);
    SameFirst(vs, k, i);
    var a, b := FirstIndex(vs, i), FirstIndex(vs, k);
    if Placeholder(vs[i].tag, Number(vs, i)) == Placeholder(vs[k].tag, Number(vs, k)) {
      PlaceholderInjective(vs[i].tag, Number(vs, i), vs[k].tag, Number(vs, k));
      if a < b {
        ValuesGrow(vs, a, b, vs[i].tag);
      } else if b < a {
        ValuesGrow(vs, b, a, vs[i].tag);
      }
    }
  }

  ghost predicate Given(vs: seq<Value>, n: nat, tag: string, number: nat)
    requires n <= |vs|
  {
    exists i {:trigger Number(vs, i)} :: 0 <= i < n && vs[i].tag == tag && Number(vs, i) == number
  }

  /** Each tag's numbers are 1 to k without a gap. */
  lemma {:induction false} NumbersHaveNoGaps(vs: seq<Value>, n: nat, tag: string, number: nat)
    requires n <= |vs|
    ensures Given(vs, n, tag, number) <==> 1 <= number <= ValuesBefore(vs, n, tag)
  {
    if n > 0 {
      NumbersHaveNoGaps(vs, n - 1, tag, number);
      GivenGrows(vs, n - 1, tag, number);
      LastNumber(vs, n - 1);
    }
  }

  lemma {:induction false} GivenGrows(vs: seq<Value>, n: nat, tag: string, number: nat)
    requires n < |vs|
    ensures Given(vs, n + 1, tag, number) <==> Given(vs, n, tag, number) || (vs[n].tag == tag && Number(vs, n) == number)
  {}

  /** The value at `n` either repeats a number already given for its tag or takes the next one. */
  lemma {:induction false} LastNumber(vs: seq<Value>, n: nat)
    requires n < |vs|
    ensures IsFirst(vs, n) ==> Number(vs, n) == ValuesBefore(vs, n + 1, vs[n].tag)
    ensures !IsFirst(vs, n) ==> Given(vs, n, vs[n].tag, Number(vs, n))
  {
    SameFirst(vs, n, n);
    var first := FirstIndex(vs, n);
    SameFirst(vs, first, n);
    assert Number(vs, first) == Number(vs, n);
  }

  /** Numbers are given out in the order values first occur. */
  lemma {:induction false} NumbersFollowFirstOccurrence(vs: seq<Value>, i: nat, k: nat)
    requires i < |vs| && k < |vs| && vs[i].tag == vs[k].tag
    ensures Number(vs, i) < Number(vs, k) <==> FirstIndex(vs, i) < FirstIndex(vs, k)
  {
    SameFirst(vs, i, k);
    SameFirst(vs, k, i);
    var a, b := FirstIndex(vs, i), FirstIndex(vs, k);
    if a < b {
      ValuesGrow(vs, a, b, vs[i].tag);
    } else if b < a {
      ValuesGrow(vs, b, a, vs[i].tag);
    }
  }

  // ---- the two dictionaries of the one-pass form ----

  function CounterOf(counters: map<string, nat>, tag: string): nat {
    if tag in counters then counters[tag] else 0
  }

  ghost predicate Occurs(vs: seq<Value>, n: nat, v: Value)
    requires n <= |vs|
  {
    exists i :: 0 <= i < n && vs[i] == v
  }

  /** `numbers` holds exactly the values among the first `n`, with their numbers. */
  ghost predicate HoldsNumbers(vs: seq<Value>, n: nat, numbers: map<Value, nat>)
    requires n <= |vs|
  {
    && (forall i | 0 <= i < n :: vs[i] in numbers)
    && (forall i {:trigger Number(vs, i)} | 0 <= i < n :: numbers[vs[i]] == Number(vs, i))
    && (forall v | v in numbers :: Occurs(vs, n, v))
  }

  ghost predicate HoldsCounters(vs: seq<Value>, n: nat, counters: map<string, nat>)
    requires n <= |vs|
  {
    forall tag :: ValuesBefore(vs, n, tag) == CounterOf(counters, tag)
  }

  ghost predicate Counted(vs: seq<Value>, n: nat, numbers: map<Value, nat>, counters: map<string, nat>)
    requires n <= |vs|
  {
    HoldsNumbers(vs, n, numbers) && HoldsCounters(vs, n, counters)
  }

  lemma {:induction false} SeenBefore(vs: seq<Value>, n: nat, numbers: map<Value, nat>)
    requires n < |vs| && HoldsNumbers(vs, n, numbers)
    ensures vs[n] in numbers <==> !IsFirst(vs, n)
    ensures vs[n] in numbers ==> numbers[vs[n]] == Number(vs, n)
  {
    if vs[n] in numbers {
      assert Occurs(vs, n, vs[n]);
      var i :| 0 <= i < n && vs[i] == vs[n];
      SameFirst(vs, i, n);
      assert numbers[vs[i]] == Number(vs, i) == Number(vs, n);
    }
  }

  lemma {:induction false} NextCounter(vs: seq<Value>, n: nat, counters: map<string, nat>, tag: string)
    requires n < |vs| && IsFirst(vs, n) && HoldsCounters(vs, n, counters)
    ensures ValuesBefore(vs, n + 1, tag) == CounterOf(counters[vs[n].tag := CounterOf(counters, vs[n].tag) + 1], tag)
  {}

  lemma {:induction false} AddNumber(vs: seq<Value>, n: nat, numbers: map<Value, nat>)
    requires n < |vs| && HoldsNumbers(vs, n, numbers) && IsFirst(vs, n)
    ensures HoldsNumbers(vs, n + 1, numbers[vs[n] := Number(vs, n)])
  {}

  lemma {:induction false} NewValue(vs: seq<Value>, n: nat, numbers: map<Value, nat>, counters: map<string, nat>)
    requires n < |vs| && Counted(vs, n, numbers, counters) && IsFirst(vs, n)
    ensures Number(vs, n) == CounterOf(counters, vs[n].tag) + 1
    ensures Counted(vs, n + 1, numbers[vs[n] := Number(vs, n)], counters[vs[n].tag := Number(vs, n)])
  {
    SameFirst(vs, n, n);
    assert ValuesBefore(vs, n, vs[n].tag) == CounterOf(counters, vs[n].tag);
    AddNumber(vs, n, numbers);
    var more := counters[vs[n].tag := Number(vs, n)];
    forall tag ensures ValuesBefore(vs, n + 1, tag) == CounterOf(more, tag) {
      NextCounter(vs, n, counters, tag);
    }
  }

  lemma {:induction false} RepeatedValue(vs: seq<Value>, n: nat, numbers: map<Value, nat>, counters: map<string, nat>)
    requires n < |vs| && Counted(vs, n, numbers, counters) && !IsFirst(vs, n)
    ensures Counted(vs, n + 1, numbers, counters)
  {
    SeenBefore(vs, n, numbers);
    forall v | v in numbers ensures Occurs(vs, n + 1, v) {
      assert Occurs(vs, n, v);
    }
    forall tag ensures ValuesBefore(vs, n + 1, tag) == CounterOf(counters, tag) {
      assert ValuesBefore(vs, n, tag) == CounterOf(counters, tag);
    }
  }
}
