/** Shared ranks over a table of intervals: whoever overlaps a leader shares its rank. */
module RankGroups {
  import opened Wilson
  import opened Ties

  datatype Summary = Summary(modelId: string, macroF1: real, interval: Interval, best: nat, tied: nat, worse: nat)

  ghost predicate DistinctIds(t: seq<Summary>) {
    forall i, j | 0 <= i < j < |t| :: t[i].modelId != t[j].modelId
  }

  ghost predicate Ordered(t: seq<Summary>) {
    forall i | 0 <= i < |t| :: t[i].interval.low <= t[i].interval.high
  }

  predicate Touch(t: seq<Summary>, i: nat, j: nat)
    requires i < |t| && j < |t|
  {
    Overlaps(t[i].interval, t[j].interval)
  }

  /** A row leads a rank when it overlaps no leader above it. */
  ghost predicate Leads(t: seq<Summary>, i: nat)
    requires i < |t|
    decreases i
  {
    forall j: nat | j < i :: Leads(t, j) ==> !Touch(t, i, j)
  }

  ghost function LeaderFrom(t: seq<Summary>, i: nat, from: nat): (l: nat)
    requires from <= i < |t|
    ensures from <= l <= i
    decreases i - from
  {
    if from == i || (Leads(t, from) && Touch(t, i, from)) then from else LeaderFrom(t, i, from + 1)
  }

  lemma {:induction false} LeaderFromIsFirst(t: seq<Summary>, i: nat, from: nat)
    requires from <= i < |t|
    ensures forall j: nat | from <= j < LeaderFrom(t, i, from) :: !(Leads(t, j) && Touch(t, i, j))
    ensures LeaderFrom(t, i, from) < i ==> Leads(t, LeaderFrom(t, i, from)) && Touch(t, i, LeaderFrom(t, i, from))
    decreases i - from
  {
    if !(from == i || (Leads(t, from) && Touch(t, i, from))) { LeaderFromIsFirst(t, i, from + 1); }
  }

  /** The leader whose rank row `i` shares: the first one it overlaps. */
  ghost function LeaderOf(t: seq<Summary>, i: nat): nat
    requires i < |t|
  {
    LeaderFrom(t, i, 0)
  }

  lemma {:induction false} LeaderLeads(t: seq<Summary>, i: nat)
    requires i < |t| && Ordered(t)
    ensures LeaderOf(t, i) <= i && Leads(t, LeaderOf(t, i)) && Touch(t, i, LeaderOf(t, i))
    ensures LeaderOf(t, LeaderOf(t, i)) == LeaderOf(t, i)
    ensures forall j: nat | j < |t| && Leads(t, j) && Touch(t, i, j) && j <= i :: LeaderOf(t, i) <= j
  {
    var l := LeaderOf(t, i);
    LeaderFromIsFirst(t, i, 0);
    if l == i {
      forall j: nat | j < i ensures Leads(t, j) ==> !Touch(t, i, j) {}
      assert Leads(t, i);
    }
    LeaderIsItself(t, l);
  }

  /** How many of the first `n` rows share the rank of a leader above `l`. */
  ghost function CountBelow(t: seq<Summary>, l: nat, n: nat): nat
    requires n <= |t|
  {
    if n == 0 then 0 else CountBelow(t, l, n - 1) + if LeaderOf(t, n - 1) < l then 1 else 0
  }

  ghost function Rank(t: seq<Summary>, i: nat): nat
    requires i < |t|
  {
    1 + CountBelow(t, LeaderOf(t, i), |t|)
  }

  // ---- the ranks are competition ranks ----

  lemma {:induction false} CountMonotone(t: seq<Summary>, a: nat, b: nat, n: nat)
    requires n <= |t| && a <= b
    ensures CountBelow(t, a, n) <= CountBelow(t, b, n)
    ensures (exists k: nat :: k < n && a <= LeaderOf(t, k) < b) ==> CountBelow(t, a, n) < CountBelow(t, b, n)
  {
    if n > 0 { CountMonotone(t, a, b, n - 1); }
  }

  lemma {:induction false} RankOrderIsLeaderOrder(t: seq<Summary>, i: nat, k: nat)
    requires i < |t| && k < |t|
    ensures Rank(t, k) < Rank(t, i) <==> LeaderOf(t, k) < LeaderOf(t, i)
  {
    var a, b := LeaderOf(t, k), LeaderOf(t, i);
    if a <= b { CountMonotone(t, a, b, |t|); } else { CountMonotone(t, b, a, |t|); }
  }

  ghost function CountSmaller(t: seq<Summary>, r: nat, n: nat): nat
    requires n <= |t|
  {
    if n == 0 then 0 else CountSmaller(t, r, n - 1) + if Rank(t, n - 1) < r then 1 else 0
  }

  lemma {:induction false} SmallerAreBelow(t: seq<Summary>, i: nat, n: nat)
    requires i < |t| && n <= |t|
    ensures CountSmaller(t, Rank(t, i), n) == CountBelow(t, LeaderOf(t, i), n)
  {
    if n > 0 {
      SmallerAreBelow(t, i, n - 1);
      RankOrderIsLeaderOrder(t, i, n - 1);
    }
  }

  /** A rank is one more than the number of models with a strictly smaller rank: `1, 1, 3`. */
  lemma {:induction false} RanksAreCompetitionRanks(t: seq<Summary>, i: nat)
    requires i < |t|
    ensures Rank(t, i) == 1 + CountSmaller(t, Rank(t, i), |t|)
  {
    SmallerAreBelow(t, i, |t|);
  }

  /** Two models share a rank exactly when they share a leader. */
  lemma {:induction false} SharedRankIsSharedLeader(t: seq<Summary>, i: nat, k: nat)
    requires i < |t| && k < |t|
    ensures Rank(t, i) == Rank(t, k) <==> LeaderOf(t, i) == LeaderOf(t, k)
  {
    RankOrderIsLeaderOrder(t, i, k);
    RankOrderIsLeaderOrder(t, k, i);
  }

  // ---- rank 1 is what the tie marks of the table say ----

  function Cells(t: seq<Summary>): seq<TiedCell> {
    seq(|t|, i requires 0 <= i < |t| => TiedCell(t[i].macroF1, t[i].interval))
  }

  lemma {:induction false} TopRowLeads(t: seq<Summary>)
    requires t != [] && forall i, j | 0 <= i < j < |t| :: t[i].macroF1 >= t[j].macroF1
    ensures Leader(Cells(t)) == 0
  {
    var cells := Cells(t);
    assert cells[Leader(cells)].point <= cells[0].point;
  }

  /** The rank-1 models are exactly those that are not left unmarked when the macro cells are
      marked in table order. */
  lemma {:induction false} RankOneIffMarked(t: seq<Summary>, i: nat)
    requires i < |t| && Ordered(t) && forall i, j | 0 <= i < j < |t| :: t[i].macroF1 >= t[j].macroF1
    ensures Rank(t, i) == 1 <==> MarkTies(Cells(t))[i] != NoMark
  {
    TopRowLeads(t);
    TiedMeansOverlapsLeader(Cells(t), i);
    LeaderLeads(t, i);
    LeaderLeads(t, 0);
    RankOrderIsLeaderOrder(t, i, 0);
    RankOrderIsLeaderOrder(t, 0, i);
    assert CountBelow(t, 0, |t|) == 0 by { NothingBelowZero(t, |t|); }
    assert Leads(t, 0);
    assert Touch(t, i, 0) <==> LeaderOf(t, i) == 0;
  }

  lemma {:induction false} NothingBelowZero(t: seq<Summary>, n: nat)
    requires n <= |t|
    ensures CountBelow(t, 0, n) == 0
  {
    if n > 0 { NothingBelowZero(t, n - 1); }
  }

  // ---- "the ranking table, in rank order" ----

  ghost predicate InRankOrder(t: seq<Summary>) {
    forall i, j | 0 <= i < j < |t| :: Rank(t, i) <= Rank(t, j)
  }

  /** Below the second of two leaders nothing overlaps the first. */
  ghost predicate LeadersAreLeftBehind(t: seq<Summary>) {
    forall l: nat, g: nat, k: nat | l < g < k < |t| && Leads(t, l) && Leads(t, g) :: !Touch(t, k, l)
  }

  /** The table is in rank order exactly when no row below a later leader overlaps an earlier one. */
  lemma {:induction false} InRankOrderIff(t: seq<Summary>)
    requires Ordered(t)
    ensures InRankOrder(t) <==> LeadersAreLeftBehind(t)
  {
    if InRankOrder(t) {
      forall l: nat, g: nat, k: nat | l < g < k < |t| && Leads(t, l) && Leads(t, g) ensures !Touch(t, k, l) {
        LeaderLeads(t, g);
        LeaderLeads(t, k);
        RankOrderIsLeaderOrder(t, g, k);
        assert Rank(t, g) <= Rank(t, k);
        LeaderIsItself(t, g);
      }
    }
    if LeadersAreLeftBehind(t) {
      forall i: nat, j: nat | i < j < |t| ensures Rank(t, i) <= Rank(t, j) {
        LeaderLeads(t, i);
        LeaderLeads(t, j);
        RankOrderIsLeaderOrder(t, i, j);
      }
    }
  }

  lemma {:induction false} LeaderIsItself(t: seq<Summary>, g: nat)
    requires g < |t| && Leads(t, g)
    ensures LeaderOf(t, g) == g
  {
    LeaderFromIsFirst(t, g, 0);
  }

  /** That is so whenever both interval bounds fall with the macro F1. */
  lemma {:induction false} FallingBoundsKeepRankOrder(t: seq<Summary>)
    requires Ordered(t)
    requires forall i, j | 0 <= i < j < |t| :: t[i].interval.low >= t[j].interval.low && t[i].interval.high >= t[j].interval.high
    ensures InRankOrder(t)
  {
    forall l: nat, g: nat, k: nat | l < g < k < |t| && Leads(t, l) && Leads(t, g) ensures !Touch(t, k, l) {
      assert !Touch(t, g, l);
    }
    InRankOrderIff(t);
  }

  /** Of three rows the second overlaps no row above it and the third the first: ranks 1, 3, 1. */
  lemma {:induction false} ThirdSharesFirst(t: seq<Summary>)
    requires |t| == 3 && Ordered(t) && !Touch(t, 1, 0) && Touch(t, 2, 0)
    ensures Rank(t, 0) == 1 && Rank(t, 1) == 3 && Rank(t, 2) == 1 && !InRankOrder(t)
  {
    assert Leads(t, 0) && Leads(t, 1);
    LeaderIsItself(t, 0);
    LeaderIsItself(t, 1);
    LeaderFromIsFirst(t, 2, 0);
    assert LeaderOf(t, 0) == 0 && LeaderOf(t, 1) == 1 && LeaderOf(t, 2) == 0;
    assert CountBelow(t, 1, 0) == 0;
    assert CountBelow(t, 1, 1) == 1;
    assert CountBelow(t, 1, 2) == 1;
    assert CountBelow(t, 1, 3) == 2;
    NothingBelowZero(t, 3);
    assert Rank(t, 1) > Rank(t, 2);
  }
}
