/** Python's stable `sorted`, as insertion sort over a comparison, and the one fact the
    callers need: a list sorted under a comparison that separates its elements is unique. */
module Sorting {

  ghost predicate TotalPreorder<T(!new)>(le: (T, T) -> bool) {
    && (forall x, y :: le(x, y) || le(y, x))
    && (forall x, y, z :: le(x, y) && le(y, z) ==> le(x, z))
  }

  /** No two different elements of `s` compare equal. */
  ghost predicate Separates<T(!new)>(le: (T, T) -> bool, s: seq<T>) {
    forall x, y | x in s && y in s :: le(x, y) && le(y, x) ==> x == y
  }

  ghost predicate SortedBy<T(!new)>(le: (T, T) -> bool, s: seq<T>) {
    forall i, j | 0 <= i < j < |s| :: le(s[i], s[j])
  }

  // An element goes in front of those it compares equal to, which keeps the sort stable.
  function Insert<T>(le: (T, T) -> bool, x: T, s: seq<T>): seq<T> {
    if s == [] || le(x, s[0]) then [x] + s else [s[0]] + Insert(le, x, s[1..])
  }

  function Sort<T>(le: (T, T) -> bool, s: seq<T>): seq<T> {
    if s == [] then [] else Insert(le, s[0], Sort(le, s[1..]))
  }

  lemma {:induction false} InsertPermutes<T>(le: (T, T) -> bool, x: T, s: seq<T>)
    ensures multiset(Insert(le, x, s)) == multiset{x} + multiset(s)
  {
    if s == [] || le(x, s[0]) {
      assert Insert(le, x, s) == [x] + s;
    } else {
      InsertPermutes(le, x, s[1..]);
      assert s == [s[0]] + s[1..];
    }
  }

  lemma {:induction false} ConsSorted<T(!new)>(le: (T, T) -> bool, x: T, s: seq<T>)
    requires SortedBy(le, s) && forall y | y in s :: le(x, y)
    ensures SortedBy(le, [x] + s)
  {}

  lemma {:induction false} InsertKeeps<T(!new)>(le: (T, T) -> bool, x: T, s: seq<T>)
    requires TotalPreorder(le) && SortedBy(le, s)
    ensures SortedBy(le, Insert(le, x, s))
  {
    if s == [] || le(x, s[0]) {
      forall y | y in s ensures le(x, y) {
        assert y == s[0] || le(s[0], y);
      }
      ConsSorted(le, x, s);
    } else {
      InsertKeeps(le, x, s[1..]);
      var t := Insert(le, x, s[1..]);
      InsertPermutes(le, x, s[1..]);
      forall y | y in t ensures le(s[0], y) {
        assert y in multiset(t);
        assert y == x || y in s[1..];
      }
      ConsSorted(le, s[0], t);
    }
  }

  lemma {:induction false} SortSorts<T(!new)>(le: (T, T) -> bool, s: seq<T>)
    requires TotalPreorder(le)
    ensures SortedBy(le, Sort(le, s))
    ensures multiset(Sort(le, s)) == multiset(s)
    ensures |Sort(le, s)| == |s|
  {
    if s != [] {
      SortSorts(le, s[1..]);
      InsertKeeps(le, s[0], Sort(le, s[1..]));
      InsertPermutes(le, s[0], Sort(le, s[1..]));
      assert s == [s[0]] + s[1..];
      assert |multiset(Sort(le, s))| == |multiset(s)|;
    }
  }

  lemma {:induction false} SameElements<T>(a: seq<T>, b: seq<T>)
    requires multiset(a) == multiset(b)
    ensures forall x :: x in a <==> x in b
  {
    forall x ensures x in a <==> x in b {
      assert x in multiset(a) <==> x in multiset(b);
    }
  }

  lemma {:induction false} SameHead<T(!new)>(le: (T, T) -> bool, a: seq<T>, b: seq<T>)
    requires a != [] && b != []
    requires SortedBy(le, a) && SortedBy(le, b) && Separates(le, a)
    requires forall x :: x in a <==> x in b
    ensures a[0] == b[0]
  {
    assert a[0] in b && b[0] in a;
    var i :| 0 <= i < |b| && b[i] == a[0];
    var j :| 0 <= j < |a| && a[j] == b[0];
  }

  lemma {:induction false} SameTail<T>(a: seq<T>, b: seq<T>)
    requires a != [] && b != [] && a[0] == b[0]
    requires multiset(a) == multiset(b)
    ensures multiset(a[1..]) == multiset(b[1..])
  {
    assert a == [a[0]] + a[1..] && b == [b[0]] + b[1..];
    assert multiset(a[1..]) == multiset(a) - multiset{a[0]};
  }

  lemma {:induction false} SortedIsUnique<T(!new)>(le: (T, T) -> bool, a: seq<T>, b: seq<T>)
    requires SortedBy(le, a) && SortedBy(le, b) && Separates(le, a)
    requires multiset(a) == multiset(b)
    ensures a == b
  {
    assert |a| == |multiset(a)| == |multiset(b)| == |b|;
    if a != [] {
      SameElements(a, b);
      SameHead(le, a, b);
      SameTail(a, b);
      SortedIsUnique(le, a[1..], b[1..]);
      assert a == [a[0]] + a[1..] && b == [b[0]] + b[1..];
    }
  }

  ghost predicate DistinctKeys<T, K>(key: T -> K, s: seq<T>) {
    forall i, j | 0 <= i < j < |s| :: key(s[i]) != key(s[j])
  }

  lemma {:induction false} OncePerKey<T, K>(key: T -> K, s: seq<T>, x: T)
    requires DistinctKeys(key, s)
    ensures multiset(s)[x] <= 1
  {
    if s != [] {
      assert s == [s[0]] + s[1..];
      OncePerKey(key, s[1..], x);
    }
  }

  lemma {:induction false} TwicePresent<T>(s: seq<T>, i: nat, j: nat)
    requires i < j < |s| && s[i] == s[j]
    ensures multiset(s)[s[i]] >= 2
  {
    assert s == s[..i] + [s[i]] + s[i + 1..j] + [s[j]] + s[j + 1..];
  }

  /** Keys that are distinct stay distinct in any order. */
  lemma {:induction false} DistinctKeysPermute<T, K>(key: T -> K, a: seq<T>, b: seq<T>)
    requires DistinctKeys(key, a) && multiset(a) == multiset(b)
    ensures DistinctKeys(key, b)
  {
    SameElements(a, b);
    forall i, j | 0 <= i < j < |b| ensures key(b[i]) != key(b[j]) {
      var x, y := b[i], b[j];
      assert x in a && y in a;
      if x == y {
        TwicePresent(b, i, j);
        OncePerKey(key, a, x);
      }
    }
  }

  /** Reordering the input of a sort changes nothing when the comparison separates it. */
  lemma {:induction false} SortIgnoresOrder<T(!new)>(le: (T, T) -> bool, s: seq<T>, t: seq<T>)
    requires TotalPreorder(le) && Separates(le, s)
    requires multiset(s) == multiset(t)
    ensures Sort(le, s) == Sort(le, t)
  {
    SortSorts(le, s);
    SortSorts(le, t);
    SameElements(s, Sort(le, s));
    SortedIsUnique(le, Sort(le, s), Sort(le, t));
  }
}
