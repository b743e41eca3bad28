/** When a bootstrapped market graduates: the refresh step and its 24 hour dwell time (app/src/api/evm.rs). */
module Graduation {
  import opened Numbers
  import opened Options
  import Planner
  import OrderBook
  import SyntheticBook
  import opened Lifecycle

  const NANOS_PER_SECOND: int := 1_000_000_000
  const QUALIFY_NANOS: int := 24 * 3_600 * NANOS_PER_SECOND
  const I64_MAX: int := 0x7FFF_FFFF_FFFF_FFFF

  /** The part of the market row a refresh reads and writes; times are in nanoseconds. */
  datatype Row = Row(hybrid: bool, status: Status, since: Option<int>, reason: Option<Reason>)

  /** What one refresh reads: the clock, the market, its configuration and the organic book. */
  datatype Reading = Reading(
    now: int, resolved: bool, closeTime: nat, activatedAt: int, maxAge: nat,
    volume: Option<real>, seedUsdc: real, volumeMultiplier: real, depthMultiplier: real,
    config: Planner.Config, window: nat, organicYes: OrderBook.Levels, organicNo: OrderBook.Levels)
  {
    function Depth(): SyntheticBook.Depth { SyntheticBook.DepthSnapshot(config, window, organicYes, organicNo) }
  }

  predicate Closed(r: Reading) { r.resolved || r.closeTime <= Max(r.now / NANOS_PER_SECOND, 0) }

  predicate Aged(r: Reading) { r.activatedAt + Min(r.maxAge, I64_MAX) * NANOS_PER_SECOND <= r.now }

  predicate Traded(r: Reading) { r.volume.Some? && r.volume.value >= r.seedUsdc * r.volumeMultiplier }

  predicate Qualifies(r: Reading)
  {
    r.Depth().organic as real >= r.Depth().bootstrap as real * r.depthMultiplier
  }

  function Graduate(row: Row, reason: Reason): Row { row.(status := Graduated, reason := Some(reason)) }

  function Refresh(row: Row, r: Reading): Row
  {
    if !row.hybrid || !row.status.Active? then row
    else if Closed(r) then Graduate(row, MarketClosed)
    else if Aged(r) then Graduate(row, MaxAge)
    else if Traded(r) then Graduate(row, Volume)
    else if r.Depth().bootstrap == 0 then row
    else if Qualifies(r) then
      match row.since
      case Some(since) => if r.now - since >= QUALIFY_NANOS then Graduate(row, OrganicDepth) else row
      case None => row.(since := Some(r.now))
    else row.(since := None)
  }

  lemma RefreshKeepsMode(row: Row, r: Reading)
    ensures Refresh(row, r).hybrid == row.hybrid
  {
    hide Closed;
    hide Aged;
    hide Traded;
    hide Qualifies;
  }

  /** A refresh, or anything else that happens to the row; nothing else touches `since`. */
  datatype Step = RefreshStep(reading: Reading) | OtherStep(hybrid: bool, status: Status, reason: Option<Reason>)

  function Apply(row: Row, s: Step): Row
  {
    match s
    case RefreshStep(r) => Refresh(row, r)
    case OtherStep(hybrid, status, reason) => row.(hybrid := hybrid, status := status, reason := reason)
  }

  /** The row after the first `n` steps of a run. */
  function RowAt(start: Row, steps: seq<Step>, n: nat): Row
    requires n <= |steps|
  {
    if n == 0 then start else Apply(RowAt(start, steps, n - 1), steps[n - 1])
  }

  lemma {:induction false} RowAtConcat(start: Row, a: seq<Step>, b: seq<Step>, n: nat)
    requires n <= |b|
    ensures RowAt(start, a + b, |a| + n) == RowAt(RowAt(start, a, |a|), b, n)
    decreases |a| + n
  {
    hide Apply;
    if n > 0 {
      RowAtConcat(start, a, b, n - 1);
    } else if a != [] {
      var front := a[..|a| - 1];
      assert a == front + [a[|a| - 1]] && a + b == front + ([a[|a| - 1]] + b);
      RowAtConcat(start, front, [a[|a| - 1]] + b, 0);
      RowAtConcat(start, front, [a[|a| - 1]], 0);
    }
  }

  /** What a step shows about the depth: nothing, or a measurement that qualified or did not. */
  datatype Mark = Skip | Hit(time: int) | Miss(time: int)

  function MarkOf(row: Row, s: Step): Mark
  {
    match s
    case OtherStep(_, _, _) => Skip
    case RefreshStep(r) =>
      if !row.hybrid || !row.status.Active? || Closed(r) || Aged(r) || Traded(r) || r.Depth().bootstrap == 0 then Skip
      else if Qualifies(r) then Hit(r.now) else Miss(r.now)
  }

  function Marks(start: Row, steps: seq<Step>, n: nat): (r: seq<Mark>)
    requires n <= |steps|
    ensures |r| == n
  {
    if n == 0 then [] else Marks(start, steps, n - 1) + [MarkOf(RowAt(start, steps, n - 1), steps[n - 1])]
  }

  /** How the stored instant follows the marks. */
  function Since(marks: seq<Mark>): Option<int>
  {
    if marks == [] then None
    else
      var before := Since(marks[..|marks| - 1]);
      match marks[|marks| - 1]
      case Skip => before
      case Hit(t) => before.OrElse(Some(t))
      case Miss(_) => None
  }

  lemma ApplySince(row: Row, s: Step)
    ensures
      Apply(row, s).since ==
      match MarkOf(row, s)
      case Skip => row.since
      case Hit(t) => row.since.OrElse(Some(t))
      case Miss(_) => None
  {
    hide Closed;
    hide Aged;
    hide Traded;
    hide Qualifies;
  }

  lemma {:induction false} RowSince(start: Row, steps: seq<Step>, n: nat)
    requires n <= |steps| && start.since.None?
    ensures RowAt(start, steps, n).since == Since(Marks(start, steps, n))
  {
    hide Apply;
    hide MarkOf;
    if n > 0 {
      RowSince(start, steps, n - 1);
      ApplySince(RowAt(start, steps, n - 1), steps[n - 1]);
      assert Marks(start, steps, n)[..n - 1] == Marks(start, steps, n - 1);
    }
  }

  /** A qualifying measurement at `j`, and none since, within `marks`, that failed to qualify. */
  predicate Streak(marks: seq<Mark>, j: nat)
  {
    j < |marks| && marks[j].Hit? && forall i :: j <= i < |marks| ==> !marks[i].Miss?
  }

  lemma StreakAppend(marks: seq<Mark>, m: Mark, j: nat)
    ensures Streak(marks + [m], j) <==> !m.Miss? && (Streak(marks, j) || (j == |marks| && m.Hit?))
  {
    if Streak(marks, j) && !m.Miss? {
      assert (marks + [m])[j] == marks[j];
    }
    if Streak(marks + [m], j) {
      assert (marks + [m])[|marks|] == m;
      forall i | j <= i < |marks|
        ensures !marks[i].Miss?
      {
        assert (marks + [m])[i] == marks[i];
      }
    }
  }

  /** The stored instant is when the longest current streak started; none is stored when there is no streak. */
  lemma {:induction false} SinceIsStreakStart(marks: seq<Mark>) returns (first: nat)
    ensures Since(marks).Some? ==> Streak(marks, first) && marks[first].time == Since(marks).value
    ensures forall j: nat :: Streak(marks, j) ==> Since(marks).Some? && first <= j
  {
    first := 0;
    if marks != [] {
      var before, m := marks[..|marks| - 1], marks[|marks| - 1];
      var earlier := SinceIsStreakStart(before);
      first := if Since(before).Some? then earlier else |before|;
      assert marks == before + [m];
      StreakAppend(before, m, first);
      forall j: nat | Streak(marks, j)
        ensures Since(marks).Some? && first <= j
      {
        StreakAppend(before, m, j);
      }
    }
  }

  /** The step is a refresh that graduates the market of this row for its organic depth. */
  predicate GraduatesAt(row: Row, s: Step)
  {
    && s.RefreshStep? && row.status.Active?
    && Apply(row, s).status.Graduated? && Apply(row, s).reason == Some(OrganicDepth)
  }

  /** The refreshes' clock never runs backwards. */
  predicate MonotoneClock(marks: seq<Mark>)
  {
    forall i, j :: 0 <= i < j < |marks| && !marks[i].Skip? && !marks[j].Skip? ==> marks[i].time <= marks[j].time
  }

  lemma {:induction false} RefreshGraduates(row: Row, s: Step)
    ensures
      GraduatesAt(row, s)
      <==> MarkOf(row, s).Hit? && row.since.Some? && MarkOf(row, s).time - row.since.value >= QUALIFY_NANOS
    ensures MarkOf(row, s).Hit? ==> s.RefreshStep? && MarkOf(row, s).time == s.reading.now
  {
    hide SyntheticBook.DepthSnapshot;
    hide Closed;
    hide Aged;
    hide Traded;
    hide Qualifies;
  }

  lemma DwellOfMarks(marks: seq<Mark>, now: int)
    requires MonotoneClock(marks)
    ensures Since(marks).Some? && now - Since(marks).value >= QUALIFY_NANOS
       <==> exists j: nat :: Streak(marks, j) && now - marks[j].time >= QUALIFY_NANOS
  {
    var first := SinceIsStreakStart(marks);
    if j: nat :| Streak(marks, j) && now - marks[j].time >= QUALIFY_NANOS {
      assert first <= j && marks[first].time <= marks[j].time;
    }
  }

  /**
   * Dwell time, exactly: after every run from a fresh row, a step graduates the market for its organic depth if
   * and only if it is a refresh that measured qualifying depth and some refresh at least 24 hours earlier did
   * so too, with every measurement in between qualifying.
   */
  lemma {:induction false} DwellTime(start: Row, steps: seq<Step>, n: nat, s: Step)
    requires start.since.None? && n <= |steps| && MonotoneClock(Marks(start, steps, n))
    ensures
      var marks, row := Marks(start, steps, n), RowAt(start, steps, n);
      var last := MarkOf(row, s);
      GraduatesAt(row, s) <==>
        last.Hit? && exists j: nat :: Streak(marks, j) && last.time - marks[j].time >= QUALIFY_NANOS
  {
    hide *;
    RowSince(start, steps, n);
    var row := RowAt(start, steps, n);
    RefreshGraduates(row, s);
    if MarkOf(row, s).Hit? {
      DwellOfMarks(Marks(start, steps, n), MarkOf(row, s).time);
    }
  }

  /** Even with an erratic clock, such a graduation rests on a qualifying refresh 24 hours earlier. */
  lemma {:induction false} DwellTimeAnyClock(start: Row, steps: seq<Step>, n: nat, s: Step) returns (j: nat)
    requires start.since.None? && n <= |steps|
    ensures GraduatesAt(RowAt(start, steps, n), s) ==>
      && j < n && Streak(Marks(start, steps, n), j)
      && s.reading.now - Marks(start, steps, n)[j].time >= QUALIFY_NANOS
  {
    hide Apply;
    hide MarkOf;
    RowSince(start, steps, n);
    j := SinceIsStreakStart(Marks(start, steps, n));
    RefreshGraduates(RowAt(start, steps, n), s);
  }
}
