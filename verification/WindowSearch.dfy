/** Leftmost-longest search for windows of consecutive tokens, whatever makes a window qualify. */
module WindowSearch {

  datatype Window = Window(first: nat, count: nat) {
    predicate Covers(t: nat) { first <= t < first + count }
  }

  /** Windows over `length` tokens, at most `widest` of them at a time. */
  datatype Windows = Windows(length: nat, widest: nat, listed: (nat, nat) -> bool) {

    predicate Qualifies(i: nat, n: nat) {
      1 <= n <= widest && i + n <= length && listed(i, n)
    }

    function WidestAt(i: nat): nat
      requires i <= length
    {
      if widest <= length - i then widest else length - i
    }

    /** The longest qualifying window at `i` of at most `n` tokens, or 0. */
    function Longest(i: nat, n: nat): (r: nat)
      ensures r <= n && (r > 0 ==> Qualifies(i, r))
      ensures forall m | r < m <= n :: !Qualifies(i, m)
    {
      if n == 0 || Qualifies(i, n) then n else Longest(i, n - 1)
    }

    function SearchFrom(i: nat): seq<Window>
      requires i <= length
      decreases length - i
    {
      if i == length then []
      else
        var n := Longest(i, WidestAt(i));
        if n == 0 then SearchFrom(i + 1) else [Window(i, n)] + SearchFrom(i + n)
    }

    // ---- the declarative reading ----

    ghost predicate Covered(ws: seq<Window>, t: nat) {
      exists w :: w in ws && w.Covers(t)
    }

    /** It qualifies, and no longer window qualifies at its start. */
    ghost predicate Proper(w: Window) {
      Qualifies(w.first, w.count) && forall n | n > w.count :: !Qualifies(w.first, n)
    }

    ghost predicate NothingAt(t: nat) {
      forall n :: !Qualifies(t, n)
    }

    /** The windows from token `from` on are proper, disjoint and increasing, and no window
        starting at a token they leave out qualifies. */
    ghost predicate LeftmostLongest(ws: seq<Window>, from: nat) {
      && (forall w | w in ws :: from <= w.first && Proper(w))
      && (forall k, l | 0 <= k < l < |ws| :: ws[k].first + ws[k].count <= ws[l].first)
      && (forall t: nat | from <= t :: Covered(ws, t) || NothingAt(t))
    }

    lemma {:induction false} CoveredCons(w: Window, rest: seq<Window>, t: nat)
      ensures Covered([w] + rest, t) <==> w.Covers(t) || Covered(rest, t)
    {}

    lemma {:induction false} PrependWindow(w: Window, rest: seq<Window>)
      requires Proper(w) && LeftmostLongest(rest, w.first + w.count)
      ensures LeftmostLongest([w] + rest, w.first)
    {
      var all := [w] + rest;
      forall t: nat | w.first <= t ensures Covered(all, t) || NothingAt(t) {
        CoveredCons(w, rest, t);
      }
      forall k, l | 0 <= k < l < |all| ensures all[k].first + all[k].count <= all[l].first {
        assert all[l] == rest[l - 1] && rest[l - 1] in rest;
      }
    }

    lemma {:induction false} SkipToken(ws: seq<Window>, i: nat)
      requires NothingAt(i)
      ensures LeftmostLongest(ws, i + 1) <==> LeftmostLongest(ws, i)
    {}

    lemma {:induction false} LongestAt(i: nat)
      requires i < length
      ensures var n := Longest(i, WidestAt(i));
              if n == 0 then NothingAt(i) else Proper(Window(i, n))
      ensures forall w | Proper(w) && w.first == i :: w.count == Longest(i, WidestAt(i))
    {}

    lemma {:induction false} SearchStep(i: nat)
      requires i < length
      ensures var n := Longest(i, WidestAt(i));
              i + n <= length && SearchFrom(i) == if n == 0 then SearchFrom(i + 1) else [Window(i, n)] + SearchFrom(i + n)
    {}

    lemma {:induction false} SearchStaysLeftmostLongest(i: nat)
      requires i < length && i + Longest(i, WidestAt(i)) <= length
      requires var n := Longest(i, WidestAt(i));
               if n == 0 then LeftmostLongest(SearchFrom(i + 1), i + 1) else LeftmostLongest(SearchFrom(i + n), i + n)
      ensures LeftmostLongest(SearchFrom(i), i)
    {
      LongestAt(i);
      SearchStep(i);
      var n := Longest(i, WidestAt(i));
      if n == 0 {
        SkipToken(SearchFrom(i + 1), i);
      } else {
        PrependWindow(Window(i, n), SearchFrom(i + n));
      }
    }

    lemma {:induction false} SearchIsLeftmostLongest(i: nat)
      requires i <= length
      ensures LeftmostLongest(SearchFrom(i), i)
      decreases length - i
    {
      if i < length {
        var n := Longest(i, WidestAt(i));
        SearchIsLeftmostLongest(if n == 0 then i + 1 else i + n);
        SearchStaysLeftmostLongest(i);
      }
    }

    lemma {:induction false} FirstWindow(ws: seq<Window>, i: nat)
      requires LeftmostLongest(ws, i) && ws != []
      ensures Proper(ws[0]) && i <= ws[0].first < length
    {}

    lemma {:induction false} StartsLater(ws: seq<Window>, i: nat)
      requires LeftmostLongest(ws, i) && (ws == [] || ws[0].first != i)
      ensures !Covered(ws, i)
    {}

    lemma {:induction false} DropWindow(ws: seq<Window>, i: nat)
      requires i < length && LeftmostLongest(ws, i) && ws != [] && ws[0].first == i
      ensures ws[0].count == Longest(i, WidestAt(i)) > 0
      ensures LeftmostLongest(ws[1..], i + ws[0].count)
    {}

    lemma {:induction false} DropToken(ws: seq<Window>, i: nat)
      requires i < length && LeftmostLongest(ws, i) && (ws == [] || ws[0].first != i)
      ensures Longest(i, WidestAt(i)) == 0
      ensures LeftmostLongest(ws, i + 1)
    {
      StartsLater(ws, i);
      SkipToken(ws, i);
    }

    lemma {:induction false} WindowThenSearch(ws: seq<Window>, i: nat)
      requires i < length && ws != [] && ws[0].first == i && ws[0].count == Longest(i, WidestAt(i)) > 0
      requires ws[1..] == SearchFrom(i + ws[0].count)
      ensures ws == SearchFrom(i)
    {
      SearchStep(i);
      assert ws[0] == Window(i, ws[0].count);
      assert ws == [ws[0]] + ws[1..];
    }

    lemma {:induction false} UniqueAtWindow(ws: seq<Window>, i: nat)
      requires i < length && LeftmostLongest(ws, i) && ws != [] && ws[0].first == i
      ensures ws == SearchFrom(i)
      decreases length - i, 0
    {
      DropWindow(ws, i);
      LeftmostLongestIsUnique(ws[1..], i + ws[0].count);
      WindowThenSearch(ws, i);
    }

    lemma {:induction false} UniqueAtToken(ws: seq<Window>, i: nat)
      requires i < length && LeftmostLongest(ws, i) && (ws == [] || ws[0].first != i)
      ensures ws == SearchFrom(i)
      decreases length - i, 0
    {
      DropToken(ws, i);
      SearchStep(i);
      LeftmostLongestIsUnique(ws, i + 1);
    }

    /** Leftmost-longest leaves no choice: the search result is the only such list. */
    lemma {:induction false} LeftmostLongestIsUnique(ws: seq<Window>, i: nat)
      requires i <= length && LeftmostLongest(ws, i)
      ensures ws == SearchFrom(i)
      decreases length - i, 1
    {
      if i == length {
        if ws != [] { FirstWindow(ws, i); }
      } else if ws != [] && ws[0].first == i {
        UniqueAtWindow(ws, i);
      } else {
        UniqueAtToken(ws, i);
      }
    }

    /** Nothing that qualifies escapes: its first token lies inside a window of the result. */
    lemma {:induction false} QualifyingWindowIsCovered(t: nat, n: nat)
      requires Qualifies(t, n)
      ensures Covered(SearchFrom(0), t)
    {
      SearchIsLeftmostLongest(0);
      assert !NothingAt(t);
    }
  }

  /** The result depends on nothing but which windows qualify. */
  lemma {:induction false} SameWindowsSameSearch(a: Windows, b: Windows, i: nat)
    requires a.length == b.length && a.widest == b.widest && i <= a.length
    requires forall t, n :: a.Qualifies(t, n) <==> b.Qualifies(t, n)
    ensures a.SearchFrom(i) == b.SearchFrom(i)
  {
    a.SearchIsLeftmostLongest(i);
    forall ws | a.LeftmostLongest(ws, i) ensures b.LeftmostLongest(ws, i) {
      assert forall t :: a.Covered(ws, t) <==> b.Covered(ws, t);
      assert forall w | w in ws :: a.Proper(w) && b.Proper(w);
    }
    b.LeftmostLongestIsUnique(a.SearchFrom(i), i);
  }
}
