/** Marking the leader of a row of cells, or the tie it is part of. */
module Ties {
  import opened Wilson

  datatype TieMark = Best | Tied | NoMark

  datatype TiedCell = TiedCell(point: real, interval: Interval)

  /** Both bounds belong to an interval, so a shared bound counts. */
  predicate Overlaps(left: Interval, right: Interval) {
    left.low <= right.high && right.low <= left.high
  }

  /** Two intervals overlap when they have a point in common. */
  lemma {:induction false} OverlapsIffSharedPoint(left: Interval, right: Interval)
    requires left.low <= left.high && right.low <= right.high
    ensures Overlaps(left, right) <==> exists x: real :: Within(x, left) && Within(x, right)
  {
    if Overlaps(left, right) {
      assert Within(Max(left.low, right.low), left) && Within(Max(left.low, right.low), right);
    }
  }

  predicate Within(x: real, i: Interval) { i.low <= x <= i.high }

  /** `max(range(n), key=...)`: the first of the highest points. */
  function LeaderUpTo(cells: seq<TiedCell>, n: nat): (l: nat)
    requires 1 <= n <= |cells|
    ensures l < n
    ensures forall i | 0 <= i < n :: cells[i].point <= cells[l].point
    ensures forall i | 0 <= i < l :: cells[i].point < cells[l].point
  {
    if n == 1 then 0
    else
      var before := LeaderUpTo(cells, n - 1);
      if cells[n - 1].point > cells[before].point then n - 1 else before
  }

  function Leader(cells: seq<TiedCell>): nat
    requires cells != []
  {
    LeaderUpTo(cells, |cells|)
  }

  predicate HasRival(cells: seq<TiedCell>, leader: nat)
    requires leader < |cells|
  {
    exists i | 0 <= i < |cells| :: i != leader && Overlaps(cells[i].interval, cells[leader].interval)
  }

  function MarkTies(cells: seq<TiedCell>): (marks: seq<TieMark>) {
    if cells == [] then []
    else
      var leader := Leader(cells);
      if !HasRival(cells, leader) then seq(|cells|, _ => NoMark)[leader := Best]
      else
        seq(|cells|, i requires 0 <= i < |cells| =>
          if i == leader || Overlaps(cells[i].interval, cells[leader].interval) then Tied else NoMark)
  }

  /** Every non-empty row is marked: one best cell and no tie, or two or more tied cells and no best. */
  lemma {:induction false} SomebodyIsMarked(cells: seq<TiedCell>)
    requires cells != []
    ensures |MarkTies(cells)| == |cells|
    ensures var marks, leader := MarkTies(cells), Leader(cells);
            (marks[leader] == Best && forall i | 0 <= i < |cells| && i != leader :: marks[i] == NoMark) ||
            (marks[leader] == Tied && (forall i | 0 <= i < |cells| :: marks[i] != Best)
                                  && exists i | 0 <= i < |cells| :: i != leader && marks[i] == Tied)
  {}

  /** A cell is tied exactly when it overlaps the leader and the leader has a rival. */
  lemma {:induction false} TiedMeansOverlapsLeader(cells: seq<TiedCell>, i: nat)
    requires i < |cells|
    requires forall k | 0 <= k < |cells| :: cells[k].interval.low <= cells[k].interval.high
    ensures MarkTies(cells)[i] == Tied
       <==> HasRival(cells, Leader(cells)) && Overlaps(cells[i].interval, cells[Leader(cells)].interval)
    ensures MarkTies(cells)[i] != NoMark <==> Overlaps(cells[i].interval, cells[Leader(cells)].interval)
  {}

  // ---- can disjoint cells both be tied? ----

  ghost predicate TiedCellsOverlap(cells: seq<TiedCell>) {
    forall i, j | 0 <= i < |cells| && 0 <= j < |cells| && MarkTies(cells)[i] == Tied && MarkTies(cells)[j] == Tied ::
      Overlaps(cells[i].interval, cells[j].interval)
  }

  /** It fails when the leader's interval is wide enough to touch two cells that do not touch each other. */
  lemma {:induction false} WideLeaderTiesDisjointCells()
    ensures var cells := [TiedCell(0.6, Interval(0.1, 0.9, 5)), TiedCell(0.15, Interval(0.1, 0.2, 900)),
                          TiedCell(0.52, Interval(0.5, 0.55, 900))];
            && MarkTies(cells) == [Tied, Tied, Tied]
            && !Overlaps(cells[1].interval, cells[2].interval)
            && !TiedCellsOverlap(cells)
  {
    var cells := [TiedCell(0.6, Interval(0.1, 0.9, 5)), TiedCell(0.15, Interval(0.1, 0.2, 900)),
                  TiedCell(0.52, Interval(0.5, 0.55, 900))];
    assert LeaderUpTo(cells, 1) == 0 && LeaderUpTo(cells, 2) == 0 && LeaderUpTo(cells, 3) == 0;
    assert Overlaps(cells[1].interval, cells[0].interval) && Overlaps(cells[2].interval, cells[0].interval);
    assert MarkTies(cells)[1] == Tied && MarkTies(cells)[2] == Tied;
  }

  /** The highest lower bound among the first `n` cells that overlap the leader. */
  function HighestLow(cells: seq<TiedCell>, leader: Interval, n: nat): real
    requires n <= |cells|
  {
    if n == 0 then leader.low
    else if Overlaps(cells[n - 1].interval, leader) then Max(HighestLow(cells, leader, n - 1), cells[n - 1].interval.low)
    else HighestLow(cells, leader, n - 1)
  }

  /** The lowest upper bound among the first `n` cells that overlap the leader. */
  function LowestHigh(cells: seq<TiedCell>, leader: Interval, n: nat): real
    requires n <= |cells|
  {
    if n == 0 then leader.high
    else if Overlaps(cells[n - 1].interval, leader) then Min(LowestHigh(cells, leader, n - 1), cells[n - 1].interval.high)
    else LowestHigh(cells, leader, n - 1)
  }

  lemma {:induction false} BoundsOfOverlapping(cells: seq<TiedCell>, leader: Interval, n: nat)
    requires n <= |cells|
    ensures var low, high := HighestLow(cells, leader, n), LowestHigh(cells, leader, n);
            && leader.low <= low && high <= leader.high
            && (forall i | 0 <= i < n && Overlaps(cells[i].interval, leader) ::
                  cells[i].interval.low <= low && high <= cells[i].interval.high)
            && (low == leader.low || exists i | 0 <= i < n :: Overlaps(cells[i].interval, leader) && cells[i].interval.low == low)
            && (high == leader.high || exists i | 0 <= i < n :: Overlaps(cells[i].interval, leader) && cells[i].interval.high == high)
  {
    if n > 0 { BoundsOfOverlapping(cells, leader, n - 1); }
  }

  /** Exactly when the claim holds: among the cells that overlap the leader, no lower bound lies
      above an upper bound. A caller can read this off the intervals before marking. */
  lemma {:induction false} TiedCellsOverlapIff(cells: seq<TiedCell>)
    requires cells != [] && forall k | 0 <= k < |cells| :: cells[k].interval.low <= cells[k].interval.high
    ensures var leader := cells[Leader(cells)].interval;
            TiedCellsOverlap(cells) <==> HighestLow(cells, leader, |cells|) <= LowestHigh(cells, leader, |cells|)
  {
    var leader := cells[Leader(cells)].interval;
    BoundsOfOverlapping(cells, leader, |cells|);
    forall i: nat | i < |cells| ensures MarkTies(cells)[i] == Tied ==> Overlaps(cells[i].interval, leader) {
      TiedMeansOverlapsLeader(cells, i);
    }
    if TiedCellsOverlap(cells) {
      assert Overlaps(leader, leader);
      var i := LowWitness(cells);
      var j := HighWitness(cells);
      if HasRival(cells, Leader(cells)) {
        TiedMeansOverlapsLeader(cells, i);
        TiedMeansOverlapsLeader(cells, j);
        assert Overlaps(cells[i].interval, cells[j].interval);
      } else {
        assert i == Leader(cells) && j == Leader(cells);
      }
    }
  }

  lemma {:induction false} LowWitness(cells: seq<TiedCell>) returns (i: nat)
    requires cells != [] && forall k | 0 <= k < |cells| :: cells[k].interval.low <= cells[k].interval.high
    ensures var leader := cells[Leader(cells)].interval;
            i < |cells| && Overlaps(cells[i].interval, leader) && cells[i].interval.low == HighestLow(cells, leader, |cells|)
  {
    var leader := cells[Leader(cells)].interval;
    BoundsOfOverlapping(cells, leader, |cells|);
    i := Leader(cells);
    if HighestLow(cells, leader, |cells|) != leader.low {
      i :| 0 <= i < |cells| && Overlaps(cells[i].interval, leader) && cells[i].interval.low == HighestLow(cells, leader, |cells|);
    }
  }

  lemma {:induction false} HighWitness(cells: seq<TiedCell>) returns (i: nat)
    requires cells != [] && forall k | 0 <= k < |cells| :: cells[k].interval.low <= cells[k].interval.high
    ensures var leader := cells[Leader(cells)].interval;
            i < |cells| && Overlaps(cells[i].interval, leader) && cells[i].interval.high == LowestHigh(cells, leader, |cells|)
  {
    var leader := cells[Leader(cells)].interval;
    BoundsOfOverlapping(cells, leader, |cells|);
    i := Leader(cells);
    if LowestHigh(cells, leader, |cells|) != leader.high {
      i :| 0 <= i < |cells| && Overlaps(cells[i].interval, leader) && cells[i].interval.high == LowestHigh(cells, leader, |cells|);
    }
  }

  /** It always holds when no cell's lower bound lies above that of a cell with a higher point. */
  lemma {:induction false} MonotoneLowsSuffice(cells: seq<TiedCell>)
    requires cells != [] && forall k | 0 <= k < |cells| :: cells[k].interval.low <= cells[k].interval.high
    requires forall i, j | 0 <= i < |cells| && 0 <= j < |cells| && cells[i].point <= cells[j].point ::
               cells[i].interval.low <= cells[j].interval.low
    ensures TiedCellsOverlap(cells)
  {}
}
