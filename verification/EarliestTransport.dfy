/** Looking up the first transport of a route that can be boarded at a stop
    (forward) or the last one that arrives there in time (backward). */
module EarliestTransport {
  import opened Basics
  import opened Deltas
  import opened Grouping
  import opened StopTimes

  /** A transport of the route, running on a service day. */
  datatype Run = Run(row: nat, startDay: int)

  predicate Active(active: seq<set<int>>, run: Run) {
    run.row < |active| && run.startDay in active[run.row]
  }

  /** The rows of a route and, for event `e`, the packed times the router sees. */
  ghost predicate RouteAt(rows: seq<Times>, e: nat, times: seq<Delta>) {
    && Fifo(rows) && |times| == |rows|
    && (forall i :: 0 <= i < |rows| ==> |rows[i]| == |rows[0]| && e < |rows[i]|)
    && (forall i :: 0 <= i < |rows| ==> times[i].days == rows[i][e] / 1440 && times[i].mam == rows[i][e] % 1440)
  }

  /** The `i`-th entry of `event_times_at_stop` is `time`. */
  ghost predicate Shows(tt: Timetable, b: RouteBlock, r: nat, e: nat, i: nat, time: Delta)
    reads tt
  {
    && r < |tt.routeTimes| && tt.routeTimes[r].from == b.from && tt.routeTimes[r].to == b.to && i < b.to - b.from
    && b.to <= |tt.transportFirstDep| && b.to <= |tt.transportPattern|
    && Slot(tt.routeTimes[r], tt.transportPattern[b.from + i], e) < |tt.patternOffsets|
    && tt.EventTimeAt(r, e, i) == time
  }

  lemma StoredEventIsShown(tt: Timetable, blocks: seq<RouteBlock>, table: seq<Delta>, r: nat, rows: seq<Times>, e: nat, i: nat)
    requires r < |blocks| && RouteWritten(blocks[r], table, rows) && tt.RouteStored(blocks, table, r)
    requires e < blocks[r].nEvents && i < |rows| && rows[i][0] <= rows[i][e]
    ensures Shows(tt, blocks[r], r, e, i, FromMinutes(rows[i][e]))
  {
    hide EventMajor, PackedRows, FromMinutes, Slot, EventStored, Minutes, Timetable.EventMam, Timetable.EventTimeAt, Plus;
    GroupedTimesSurvive(tt, blocks, table, r, rows, e, i);
  }

  /** What `event_times_at_stop` yields for a grouped and compressed route is what the
      lookup below takes for granted. */
  lemma StoredRouteIsRouteAt(tt: Timetable, blocks: seq<RouteBlock>, table: seq<Delta>, r: nat, rows: seq<Times>, e: nat)
    returns (times: seq<Delta>)
    requires r < |blocks| && RouteWritten(blocks[r], table, rows) && tt.RouteStored(blocks, table, r)
    requires Fifo(rows) && e < blocks[r].nEvents && forall i :: 0 <= i < |rows| ==> rows[i][0] <= rows[i][e]
    ensures RouteAt(rows, e, times) && forall i :: 0 <= i < |rows| ==> Shows(tt, blocks[r], r, e, i, times[i])
  {
    hide Fifo, EventMajor, PackedRows, Shows, Timetable.RouteStored, FromMinutes;
    times := seq(|rows|, i requires 0 <= i < |rows| => FromMinutes(rows[i][e]));
    forall i | 0 <= i < |rows|
      ensures times[i].days == rows[i][e] / 1440 && times[i].mam == rows[i][e] % 1440
      ensures Shows(tt, blocks[r], r, e, i, times[i])
    {
      FromMinutesExact(rows[i][e]);
      StoredEventIsShown(tt, blocks, table, r, rows, e, i);
    }
  }

  function TimeOf(rows: seq<Times>, e: nat, run: Run): int
    requires run.row < |rows| && e < |rows[run.row]|
  {
    EventTime(rows, run.startDay, run.row, e)
  }

  /** Calendar day of the event, not of the start of the run. */
  function EventDay(rows: seq<Times>, e: nat, run: Run): int
    requires run.row < |rows| && e < |rows[run.row]|
  {
    run.startDay + rows[run.row][e] / 1440
  }

  /** The run departs at or after the request, or arrives at or before it. */
  predicate Usable(fwd: bool, rows: seq<Times>, e: nat, day: int, mam: int, run: Run)
    requires run.row < |rows| && e < |rows[run.row]|
  {
    if fwd then day * 1440 + mam <= TimeOf(rows, e, run) else TimeOf(rows, e, run) <= day * 1440 + mam
  }

  /** How many days the scan has to advance before it reaches calendar day `d`. */
  function Ahead(fwd: bool, day: int, d: int): int { if fwd then d - day else day - d }

  function Position(fwd: bool, n: nat, row: nat): int { if fwd then row else n - 1 - row }

  predicate InWindow(fwd: bool, rows: seq<Times>, e: nat, day: int, run: Run)
    requires run.row < |rows| && e < |rows[run.row]|
  {
    0 <= Ahead(fwd, day, EventDay(rows, e, run)) < 2
  }

  ghost predicate NotBetter(fwd: bool, a: int, b: int) { if fwd then a <= b else b <= a }

  /** Once a time is worse than the destination bound, all later (earlier) ones are. */
  ghost predicate Monotone(fwd: bool, worse: (int, int) -> bool) {
    forall d, m, d', m' ::
      (worse(d, m) && 0 <= m < 1440 && 0 <= m' < 1440
       && (if fwd then d * 1440 + m <= d' * 1440 + m' else d' * 1440 + m' <= d * 1440 + m)) ==> worse(d', m')
  }

  /** No active usable run comes before day `i`, position `pos` of the scan. */
  ghost predicate NoneBefore(fwd: bool, rows: seq<Times>, e: nat, active: seq<set<int>>,
                             day: int, mam: int, i: int, pos: int)
    requires forall k :: 0 <= k < |rows| ==> e < |rows[k]|
  {
    forall run: Run :: run.row < |rows| && Active(active, run) && Usable(fwd, rows, e, day, mam, run) ==>
      var a := Ahead(fwd, day, EventDay(rows, e, run));
      !(a < i || (a == i && Position(fwd, |rows|, run.row) < pos))
  }

  /** The `k`-th time in scan order: rows upwards (forward) or downwards (backward). */
  function Scanned(fwd: bool, times: seq<Delta>, k: nat): Delta
    requires k < |times|
  {
    times[if fwd then k else |times| - 1 - k]
  }

  ghost predicate Better(fwd: bool, a: int, b: int) { if fwd then a < b else a > b }

  /** `linear_lb`: the first position whose time is not better than the request. */
  method SeekFirstDay(fwd: bool, times: seq<Delta>, mam: nat) returns (pos: nat)
    ensures pos <= |times|
    ensures forall k :: 0 <= k < pos ==> Better(fwd, Scanned(fwd, times, k).mam, mam)
    ensures pos < |times| ==> !Better(fwd, Scanned(fwd, times, pos).mam, mam)
  {
    for k := 0 to |times|
      invariant forall k' :: 0 <= k' < k ==> Better(fwd, Scanned(fwd, times, k').mam, mam)
    {
      var better := if fwd then times[k].mam < mam else times[|times| - 1 - k].mam > mam;
      if !better {
        return k;
      }
    }
    pos := |times|;
  }

  /** `get_earliest_transport`, forward and backward. */
  method GetEarliestTransport(fwd: bool, times: seq<Delta>, active: seq<set<int>>, day: int, mam: nat,
                              worseThanDest: (int, int) -> bool, ghost rows: seq<Times>, ghost e: nat)
    returns (r: Option<Run>)
    requires RouteAt(rows, e, times) && |active| == |rows| && mam < 1440
    ensures r.Some? ==>
      && Active(active, r.value) && Usable(fwd, rows, e, day, mam, r.value) && InWindow(fwd, rows, e, day, r.value)
      && !worseThanDest(EventDay(rows, e, r.value), rows[r.value.row][e] % 1440)
    ensures r.Some? ==> forall run, e' ::
      Active(active, run) && Usable(fwd, rows, e, day, mam, run) && 0 <= e' < |rows[run.row]| ==>
        if fwd then TimeOf(rows, e', r.value) <= TimeOf(rows, e', run) else TimeOf(rows, e', run) <= TimeOf(rows, e', r.value)
    ensures r.None? && Monotone(fwd, worseThanDest) ==> forall run ::
      Active(active, run) && Usable(fwd, rows, e, day, mam, run) && InWindow(fwd, rows, e, day, run) ==>
        worseThanDest(EventDay(rows, e, run), rows[run.row][e] % 1440)
  {
    var n := |times|;
    for i := 0 to 2
      invariant NoneBefore(fwd, rows, e, active, day, mam, i, 0)
    {
      var pos := 0;
      if i == 0 {
        pos := SeekFirstDay(fwd, times, mam);
        SkippedAreUnusable(fwd, rows, e, times, active, day, mam, pos);
      }
      var d := if fwd then day + i else day - i;
      while pos < n
        invariant 0 <= pos <= n
        invariant NoneBefore(fwd, rows, e, active, day, mam, i, pos)
      {
        var tOffset := if fwd then pos else n - 1 - pos;
        var ev := times[tOffset];
        if worseThanDest(d, ev.mam) {
          if Monotone(fwd, worseThanDest) {
            RestIsWorse(fwd, rows, e, times, active, day, mam, worseThanDest, i, pos);
          }
          return None;
        }
        var run := Run(tOffset, d - ev.days);
        assert EventDay(rows, e, run) == d;
        assert TimeOf(rows, e, run) == d * 1440 + ev.mam;
        if !(i == 0 && if fwd then ev.mam < mam else mam < ev.mam) {
          if run.startDay in active[tOffset] {
            FirstIsBest(fwd, rows, e, times, active, day, mam, i, pos, run);
            return Some(run);
          }
        }
        PositionDone(fwd, rows, e, active, day, mam, i, pos, run);
        pos := pos + 1;
      }
      DayDone(fwd, rows, e, active, day, mam, i);
    }
    r := None;
  }

  lemma SkippedAreUnusable(fwd: bool, rows: seq<Times>, e: nat, times: seq<Delta>, active: seq<set<int>>,
                           day: int, mam: nat, pos: nat)
    requires RouteAt(rows, e, times) && pos <= |times| && mam < 1440
    requires forall k :: 0 <= k < pos ==> Better(fwd, Scanned(fwd, times, k).mam, mam)
    ensures NoneBefore(fwd, rows, e, active, day, mam, 0, pos)
  {
    forall run: Run | run.row < |rows| && Active(active, run) && Usable(fwd, rows, e, day, mam, run)
      ensures var a := Ahead(fwd, day, EventDay(rows, e, run));
        !(a < 0 || (a == 0 && Position(fwd, |rows|, run.row) < pos))
    {
      var k := Position(fwd, |rows|, run.row);
      assert TimeOf(rows, e, run) == EventDay(rows, e, run) * 1440 + rows[run.row][e] % 1440;
      if k < pos {
        assert Scanned(fwd, times, k) == times[run.row];
      }
    }
  }

  lemma PositionDone(fwd: bool, rows: seq<Times>, e: nat, active: seq<set<int>>,
                     day: int, mam: nat, i: nat, pos: nat, run: Run)
    requires forall k :: 0 <= k < |rows| ==> e < |rows[k]|
    requires pos < |rows| && mam < 1440 && run.row == Position(fwd, |rows|, pos)
    requires Ahead(fwd, day, EventDay(rows, e, run)) == i
    requires !(Active(active, run) && Usable(fwd, rows, e, day, mam, run))
    requires NoneBefore(fwd, rows, e, active, day, mam, i, pos)
    ensures NoneBefore(fwd, rows, e, active, day, mam, i, pos + 1)
  {
  }

  lemma DayDone(fwd: bool, rows: seq<Times>, e: nat, active: seq<set<int>>, day: int, mam: nat, i: nat)
    requires forall k :: 0 <= k < |rows| ==> e < |rows[k]|
    requires NoneBefore(fwd, rows, e, active, day, mam, i, |rows|)
    ensures NoneBefore(fwd, rows, e, active, day, mam, i + 1, 0)
  {
  }

  /** A run that is not before another one in the scan is not better anywhere. */
  lemma ScanOrderIsTemporal(fwd: bool, rows: seq<Times>, e: nat, times: seq<Delta>, day: int, run: Run, run': Run, e': nat)
    requires RouteAt(rows, e, times) && run.row < |rows| && run'.row < |rows| && e' < |rows[0]|
    requires var a, a' := Ahead(fwd, day, EventDay(rows, e, run)), Ahead(fwd, day, EventDay(rows, e, run'));
      a < a' || (a == a' && Position(fwd, |rows|, run.row) <= Position(fwd, |rows|, run'.row))
    ensures NotBetter(fwd, TimeOf(rows, e', run), TimeOf(rows, e', run'))
  {
    CommonDayOffset(rows, run.row, run'.row, e);
    if fwd {
      LexicographicIsTemporal(rows, run.startDay, run.row, run'.startDay, run'.row, e');
    } else {
      LexicographicIsTemporal(rows, run'.startDay, run'.row, run.startDay, run.row, e');
    }
  }

  lemma FirstIsBest(fwd: bool, rows: seq<Times>, e: nat, times: seq<Delta>, active: seq<set<int>>,
                    day: int, mam: nat, i: nat, pos: nat, best: Run)
    requires RouteAt(rows, e, times) && |active| == |rows|
    requires pos < |rows| && best.row == Position(fwd, |rows|, pos)
    requires Ahead(fwd, day, EventDay(rows, e, best)) == i
    requires NoneBefore(fwd, rows, e, active, day, mam, i, pos)
    ensures forall run, e' ::
      Active(active, run) && Usable(fwd, rows, e, day, mam, run) && 0 <= e' < |rows[run.row]| ==>
        NotBetter(fwd, TimeOf(rows, e', best), TimeOf(rows, e', run))
  {
    forall run, e' | Active(active, run) && Usable(fwd, rows, e, day, mam, run) && 0 <= e' < |rows[run.row]|
      ensures NotBetter(fwd, TimeOf(rows, e', best), TimeOf(rows, e', run))
    {
      ScanOrderIsTemporal(fwd, rows, e, times, day, best, run, e');
    }
  }

  lemma RestIsWorse(fwd: bool, rows: seq<Times>, e: nat, times: seq<Delta>, active: seq<set<int>>,
                    day: int, mam: nat, worse: (int, int) -> bool, i: nat, pos: nat)
    requires RouteAt(rows, e, times) && |active| == |rows| && pos < |rows| && Monotone(fwd, worse)
    requires NoneBefore(fwd, rows, e, active, day, mam, i, pos)
    requires worse(if fwd then day + i else day - i, times[Position(fwd, |rows|, pos)].mam)
    ensures forall run :: Active(active, run) && Usable(fwd, rows, e, day, mam, run) && InWindow(fwd, rows, e, day, run) ==>
      worse(EventDay(rows, e, run), rows[run.row][e] % 1440)
  {
    var d, row := if fwd then day + i else day - i, Position(fwd, |rows|, pos);
    var here := Run(row, d - times[row].days);
    forall run | Active(active, run) && Usable(fwd, rows, e, day, mam, run)
      ensures worse(EventDay(rows, e, run), rows[run.row][e] % 1440)
    {
      ScanOrderIsTemporal(fwd, rows, e, times, day, here, run, e);
      assert TimeOf(rows, e, here) == d * 1440 + times[row].mam;
      assert TimeOf(rows, e, run) == EventDay(rows, e, run) * 1440 + rows[run.row][e] % 1440;
    }
  }
}
