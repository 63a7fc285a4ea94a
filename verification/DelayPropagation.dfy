/** What a trip update does to the event times of a run: a fold over its events from
    left to right, and the closing pass that makes the times non-decreasing. */
module DelayPropagation {
  import opened Basics
  import opened Intervals
  import opened RealTime
  import opened UpdateMatching

  /** The time of the last event and the delay that goes on from there. */
  datatype Pred = Pred(time: int, delay: int)

  /** What an event is told by its stop's entry: its own data, that there is none, or nothing. */
  datatype Command = OwnData(ev: TimeEvent) | NoRealTime | Silent

  /** A command for event `k`. */
  datatype EventCommand = At(k: nat, command: Command)

  /** Fixed facts of a run: its scheduled event times, if it is scheduled, the times
      that can be stored, and the first instant of the clock. */
  datatype Trip = Trip(sched: Option<seq<int>>, storable: Interval, clockZero: int)

  /** `cover` is the interval that the overlay covers; it grows by every time stored. */
  datatype Progress = Progress(pred: Option<Pred>, noData: bool, times: seq<int>, states: seq<DataState>, cover: Interval)

  predicate ProgressOk(tr: Trip, p: Progress) {
    |p.times| == |p.states| && (tr.sched.Some? ==> |tr.sched.value| == |p.times|)
  }

  predicate InRange(p: Progress, ec: EventCommand) {
    ec.k < |p.times|
  }

  predicate HasData(ev: TimeEvent) {
    ev.delay.Some? || ev.time.Some?
  }

  // ---------- single events ----------

  /** A time is stored if it can be. */
  function Store(tr: Trip, p: Progress, k: nat, t: int, state: DataState): (q: Progress)
    requires ProgressOk(tr, p) && k < |p.times|
    ensures ProgressOk(tr, q) && q.pred == p.pred && q.noData == p.noData
  {
    if tr.storable.Contains(t) then p.(times := p.times[k := t], states := p.states[k := state], cover := p.cover.Extend(t)) else p
  }

  /** `update_delay` */
  function Delayed(tr: Trip, p: Progress, k: nat, delay: int, floor: int, state: DataState): (q: Progress)
    requires ProgressOk(tr, p) && k < |p.times|
    ensures ProgressOk(tr, q)
  {
    var t := (if tr.sched.Some? then tr.sched.value[k] else floor) + delay;
    var q := Store(tr, p, k, Max(floor, t), if Max(floor, t) != t then Inconsistent else state);
    q.(pred := Some(Pred(q.times[k], delay)))
  }

  /** The time that an event's own data names; seconds count in whole minutes, cut
      off towards zero. */
  function NamedTime(tr: Trip, ev: TimeEvent): int {
    TruncDiv(if ev.time.Some? then ev.time.value else 0, 60) + tr.clockZero
  }

  /** `update_event` */
  function Updated(tr: Trip, p: Progress, k: nat, ev: TimeEvent, floor: int): (q: Progress)
    requires ProgressOk(tr, p) && k < |p.times|
    ensures ProgressOk(tr, q)
  {
    if ev.delay.Some? && tr.sched.Some? then
      Delayed(tr, p, k, TruncDiv(ev.delay.value, 60), floor, Predicted)
    else
      var t := NamedTime(tr, ev);
      var q := Store(tr, p, k, Max(floor, t), if Max(floor, t) != t then Inconsistent else Predicted);
      q.(pred := Some(Pred(q.times[k], q.times[k] - (if tr.sched.Some? then tr.sched.value[k] else t))))
  }

  /** `reset_to_schedule` */
  function Reset(tr: Trip, p: Progress, k: nat): (q: Progress)
    requires ProgressOk(tr, p) && k < |p.times|
    ensures ProgressOk(tr, q) && q.pred == p.pred && q.noData == p.noData
  {
    if tr.sched.Some? then Store(tr, p, k, tr.sched.value[k], NoRtData) else p
  }

  /** `fallback_pred`: the last event's time, else the stored time of the event before. */
  function Floor(tr: Trip, p: Progress, k: nat): int
    requires k < |p.times|
  {
    if p.pred.Some? then p.pred.value.time else if k == 0 then tr.clockZero else p.times[k - 1]
  }

  function Step(tr: Trip, p: Progress, ec: EventCommand): (q: Progress)
    requires ProgressOk(tr, p) && InRange(p, ec)
    ensures ProgressOk(tr, q) && |q.times| == |p.times|
  {
    match ec.command
    case OwnData(ev) => Updated(tr, p, ec.k, ev, Floor(tr, p, ec.k)).(noData := false)
    case NoRealTime => Reset(tr, p.(pred := None, noData := true), ec.k)
    case Silent =>
      if p.pred.Some? then Delayed(tr, p, ec.k, p.pred.value.delay, p.pred.value.time, Propagated)
      else if p.noData then Reset(tr, p, ec.k)
      else p
  }

  ghost predicate CommandsOk(p: Progress, ecs: seq<EventCommand>) {
    forall i :: 0 <= i < |ecs| ==> InRange(p, ecs[i])
  }

  ghost function Fold(tr: Trip, p: Progress, ecs: seq<EventCommand>): (q: Progress)
    requires ProgressOk(tr, p) && CommandsOk(p, ecs)
    ensures ProgressOk(tr, q) && |q.times| == |p.times|
    decreases |ecs|
  {
    if ecs == [] then p
    else
      assert InRange(p, ecs[|ecs| - 1]);
      Step(tr, Fold(tr, p, ecs[..|ecs| - 1]), ecs[|ecs| - 1])
  }

  lemma {:induction false} FoldAppends(tr: Trip, p: Progress, a: seq<EventCommand>, b: seq<EventCommand>)
    requires ProgressOk(tr, p) && CommandsOk(p, a) && CommandsOk(p, b)
    ensures CommandsOk(p, a + b) && Fold(tr, p, a + b) == Fold(tr, Fold(tr, p, a), b)
    decreases |b|
  {
    if b == [] {
      assert a + b == a;
    } else {
      FoldAppends(tr, p, a, b[..|b| - 1]);
      assert (a + b)[..|a + b| - 1] == a + b[..|b| - 1];
    }
  }

  // ---------- laws of the fold ----------

  /** The events come in their order along the run. */
  ghost predicate Ascending(ecs: seq<EventCommand>) {
    forall i, j :: 0 <= i < j < |ecs| ==> ecs[i].k < ecs[j].k
  }

  /** A step touches no event but its own. */
  lemma StepIsLocal(tr: Trip, p: Progress, ec: EventCommand)
    requires ProgressOk(tr, p) && InRange(p, ec)
    ensures forall k :: 0 <= k < |p.times| && k != ec.k ==>
      Step(tr, p, ec).times[k] == p.times[k] && Step(tr, p, ec).states[k] == p.states[k]
  {
  }

  /** After an event, the pending time is the one that the event has now. */
  lemma PendingIsStored(tr: Trip, p: Progress, ec: EventCommand)
    requires ProgressOk(tr, p) && InRange(p, ec)
    ensures Step(tr, p, ec).pred.Some? ==> Step(tr, p, ec).pred.value.time == Step(tr, p, ec).times[ec.k]
  {
  }

  /** Later commands leave the event of command `i` as it is. */
  lemma {:induction false} FoldKeeps(tr: Trip, p: Progress, ecs: seq<EventCommand>, i: nat)
    requires ProgressOk(tr, p) && CommandsOk(p, ecs) && Ascending(ecs) && i < |ecs|
    ensures Fold(tr, p, ecs).times[ecs[i].k] == Fold(tr, p, ecs[..i + 1]).times[ecs[i].k]
    ensures Fold(tr, p, ecs).states[ecs[i].k] == Fold(tr, p, ecs[..i + 1]).states[ecs[i].k]
    decreases |ecs|
  {
    if i < |ecs| - 1 {
      var front := ecs[..|ecs| - 1];
      FoldKeeps(tr, p, front, i);
      assert front[..i + 1] == ecs[..i + 1] && front[i] == ecs[i];
      StepIsLocal(tr, Fold(tr, p, front), ecs[|ecs| - 1]);
    } else {
      assert ecs[..i + 1] == ecs;
    }
  }

  /** Events that no command is for keep what they had. */
  lemma {:induction false} FoldIsLocal(tr: Trip, p: Progress, ecs: seq<EventCommand>, k: nat)
    requires ProgressOk(tr, p) && CommandsOk(p, ecs) && k < |p.times|
    requires forall i :: 0 <= i < |ecs| ==> ecs[i].k != k
    ensures Fold(tr, p, ecs).times[k] == p.times[k] && Fold(tr, p, ecs).states[k] == p.states[k]
    decreases |ecs|
  {
    if ecs != [] {
      FoldIsLocal(tr, p, ecs[..|ecs| - 1], k);
      StepIsLocal(tr, Fold(tr, p, ecs[..|ecs| - 1]), ecs[|ecs| - 1]);
    }
  }

  /** The state right before and right after command `i`. */
  lemma StepAt(tr: Trip, p: Progress, ecs: seq<EventCommand>, i: nat)
    requires ProgressOk(tr, p) && CommandsOk(p, ecs) && i < |ecs|
    ensures CommandsOk(p, ecs[..i]) && CommandsOk(p, ecs[..i + 1]) && InRange(Fold(tr, p, ecs[..i]), ecs[i])
    ensures Fold(tr, p, ecs[..i + 1]) == Step(tr, Fold(tr, p, ecs[..i]), ecs[i])
  {
    assert ecs[..i + 1][..i] == ecs[..i];
  }

  /** The delay that own data starts with. */
  function OwnDelay(tr: Trip, k: nat, ev: TimeEvent, newTime: int): int
    requires tr.sched.Some? && k < |tr.sched.value|
  {
    if ev.delay.Some? then TruncDiv(ev.delay.value, 60) else newTime - tr.sched.value[k]
  }

  lemma OwnDataSetsDelay(tr: Trip, p: Progress, ec: EventCommand)
    requires ProgressOk(tr, p) && InRange(p, ec) && tr.sched.Some? && ec.command.OwnData?
    ensures var q := Step(tr, p, ec);
      q.pred == Some(Pred(q.times[ec.k], OwnDelay(tr, ec.k, ec.command.ev, q.times[ec.k]))) && !q.noData
  {
  }

  /** After own data, silent events carry its delay on. */
  lemma {:induction false} DelayGoesOn(tr: Trip, p: Progress, ecs: seq<EventCommand>, j: nat, i: nat)
    requires ProgressOk(tr, p) && CommandsOk(p, ecs) && tr.sched.Some?
    requires j <= i < |ecs| && ecs[j].command.OwnData? && forall m :: j < m <= i ==> ecs[m].command.Silent?
    ensures var q := Fold(tr, p, ecs[..i + 1]);
      q.pred == Some(Pred(q.times[ecs[i].k],
                          OwnDelay(tr, ecs[j].k, ecs[j].command.ev, Fold(tr, p, ecs[..j + 1]).times[ecs[j].k])))
    decreases i
  {
    StepAt(tr, p, ecs, i);
    if i == j {
      OwnDataSetsDelay(tr, Fold(tr, p, ecs[..j]), ecs[j]);
    } else {
      DelayGoesOn(tr, p, ecs, j, i - 1);
    }
  }

  /** Earlier commands leave the event of command `i` as it was. */
  lemma NotYetTouched(tr: Trip, p: Progress, ecs: seq<EventCommand>, i: nat)
    requires ProgressOk(tr, p) && CommandsOk(p, ecs) && Ascending(ecs) && i < |ecs|
    ensures CommandsOk(p, ecs[..i]) && InRange(p, ecs[i])
    ensures Fold(tr, p, ecs[..i]).times[ecs[i].k] == p.times[ecs[i].k]
    ensures Fold(tr, p, ecs[..i]).states[ecs[i].k] == p.states[ecs[i].k]
  {
    FoldIsLocal(tr, p, ecs[..i], ecs[i].k);
  }

  lemma SilentStep(tr: Trip, p: Progress, ec: EventCommand)
    requires ProgressOk(tr, p) && InRange(p, ec) && tr.sched.Some? && ec.command.Silent? && p.pred.Some?
    ensures var q, planned := Step(tr, p, ec), tr.sched.value[ec.k] + p.pred.value.delay;
      var due := Max(p.pred.value.time, planned);
      if tr.storable.Contains(due)
      then q.times[ec.k] == due && q.states[ec.k] == (if due == planned then Propagated else Inconsistent)
      else q.times[ec.k] == p.times[ec.k] && q.states[ec.k] == p.states[ec.k]
  {
  }

  lemma OwnDataStep(tr: Trip, p: Progress, ec: EventCommand)
    requires ProgressOk(tr, p) && InRange(p, ec) && tr.sched.Some? && ec.command.OwnData?
    ensures var q, ev := Step(tr, p, ec), ec.command.ev;
      var named := if ev.delay.Some? then tr.sched.value[ec.k] + TruncDiv(ev.delay.value, 60) else NamedTime(tr, ev);
      var due := Max(Floor(tr, p, ec.k), named);
      if tr.storable.Contains(due)
      then q.times[ec.k] == due && q.states[ec.k] == (if due == named then Predicted else Inconsistent)
      else q.times[ec.k] == p.times[ec.k] && q.states[ec.k] == p.states[ec.k]
  {
  }

  /** An event without data of its own, after one with data and with only such events
      in between, is in the end the later of the preceding event's new time and its
      scheduled time plus the delay of the data; it keeps its old time only if that
      cannot be stored. */
  lemma DelaysPropagate(tr: Trip, p: Progress, ecs: seq<EventCommand>, j: nat, i: nat)
    requires ProgressOk(tr, p) && CommandsOk(p, ecs) && Ascending(ecs) && tr.sched.Some?
    requires j < i < |ecs| && ecs[j].command.OwnData? && forall m :: j < m <= i ==> ecs[m].command.Silent?
    ensures var q, k := Fold(tr, p, ecs), ecs[i].k;
      var planned := tr.sched.value[k] + OwnDelay(tr, ecs[j].k, ecs[j].command.ev, q.times[ecs[j].k]);
      var due := Max(q.times[ecs[i - 1].k], planned);
      if tr.storable.Contains(due)
      then q.times[k] == due && q.states[k] == (if due == planned then Propagated else Inconsistent)
      else q.times[k] == p.times[k] && q.states[k] == p.states[k]
  {
    hide Fold, Step, ProgressOk, OwnDelay, CommandsOk, InRange, Ascending;
    FoldKeeps(tr, p, ecs, i);
    FoldKeeps(tr, p, ecs, i - 1);
    FoldKeeps(tr, p, ecs, j);
    DelayGoesOn(tr, p, ecs, j, i - 1);
    StepAt(tr, p, ecs, i);
    SilentStep(tr, Fold(tr, p, ecs[..i]), ecs[i]);
    NotYetTouched(tr, p, ecs, i);
  }

  /** Data of an event's own is bounded below by the preceding event and wins
      otherwise. */
  lemma OwnDataIsBounded(tr: Trip, p: Progress, ecs: seq<EventCommand>, i: nat)
    requires ProgressOk(tr, p) && CommandsOk(p, ecs) && Ascending(ecs) && tr.sched.Some?
    requires 0 < i < |ecs| && ecs[i].command.OwnData? && ecs[i - 1].k + 1 == ecs[i].k
    ensures var q, k, ev := Fold(tr, p, ecs), ecs[i].k, ecs[i].command.ev;
      var named := if ev.delay.Some? then tr.sched.value[k] + TruncDiv(ev.delay.value, 60) else NamedTime(tr, ev);
      var due := Max(q.times[k - 1], named);
      if tr.storable.Contains(due)
      then q.times[k] == due && q.states[k] == (if due == named then Predicted else Inconsistent)
      else q.times[k] == p.times[k] && q.states[k] == p.states[k]
  {
    hide Fold, Step, ProgressOk, CommandsOk, InRange, Ascending, NamedTime;
    FoldKeeps(tr, p, ecs, i);
    FoldKeeps(tr, p, ecs, i - 1);
    StepAt(tr, p, ecs, i);
    StepAt(tr, p, ecs, i - 1);
    OwnDataStep(tr, Fold(tr, p, ecs[..i]), ecs[i]);
    PendingIsStored(tr, Fold(tr, p, ecs[..i - 1]), ecs[i - 1]);
    NotYetTouched(tr, p, ecs, i);
  }

  /** From a stop without real-time data on, events fall back to the schedule until
      one has data of its own. */
  lemma {:induction false} NoDataResets(tr: Trip, p: Progress, ecs: seq<EventCommand>, j: nat, i: nat)
    requires ProgressOk(tr, p) && CommandsOk(p, ecs) && Ascending(ecs) && tr.sched.Some?
    requires j <= i < |ecs| && ecs[j].command.NoRealTime? && forall m :: j < m <= i ==> !ecs[m].command.OwnData?
    ensures var k := ecs[i].k; tr.storable.Contains(tr.sched.value[k]) ==>
      Fold(tr, p, ecs).times[k] == tr.sched.value[k] && Fold(tr, p, ecs).states[k] == NoRtData
  {
    FoldKeeps(tr, p, ecs, i);
    NoDataGoesOn(tr, p, ecs, j, i);
    StepAt(tr, p, ecs, i);
    if i > j {
      NoDataGoesOn(tr, p, ecs, j, i - 1);
    }
  }

  lemma {:induction false} NoDataGoesOn(tr: Trip, p: Progress, ecs: seq<EventCommand>, j: nat, i: nat)
    requires ProgressOk(tr, p) && CommandsOk(p, ecs)
    requires j <= i < |ecs| && ecs[j].command.NoRealTime? && forall m :: j < m <= i ==> !ecs[m].command.OwnData?
    ensures Fold(tr, p, ecs[..i + 1]).pred == None && Fold(tr, p, ecs[..i + 1]).noData
    decreases i
  {
    StepAt(tr, p, ecs, i);
    if i > j {
      NoDataGoesOn(tr, p, ecs, j, i - 1);
    }
  }

  /** Before the first data an update leaves all events as they were. */
  lemma {:induction false} SilenceChangesNothing(tr: Trip, p: Progress, ecs: seq<EventCommand>)
    requires ProgressOk(tr, p) && CommandsOk(p, ecs) && p.pred == None && !p.noData
    requires forall i :: 0 <= i < |ecs| ==> ecs[i].command.Silent?
    ensures Fold(tr, p, ecs) == p
    decreases |ecs|
  {
    if ecs != [] {
      SilenceChangesNothing(tr, p, ecs[..|ecs| - 1]);
    }
  }

  // ---------- the closing pass ----------

  /** The latest of the first `n` times. */
  function Latest(times: seq<int>, n: nat): int
    requires 0 < n <= |times|
  {
    if n == 1 then times[0] else Max(Latest(times, n - 1), times[n - 1])
  }

  /** Every event is raised to the latest time so far, and exactly the events that
      change are marked. */
  ghost predicate IsSmoothed(times: seq<int>, states: seq<DataState>, times': seq<int>, states': seq<DataState>)
  {
    && |times| == |states| == |times'| == |states'|
    && (forall k :: 0 <= k < |times| ==> times'[k] == Latest(times, k + 1))
    && (forall k :: 0 <= k < |times| ==> states'[k] == if times'[k] != times[k] then Inconsistent else states[k])
  }

  /** Smoothed times never decrease and are the least such times above the given ones. */
  lemma {:induction false} LatestIsLeast(times: seq<int>, bound: seq<int>, n: nat)
    requires |bound| == |times| && 0 < n <= |times|
    requires forall k :: 0 <= k < |times| ==> times[k] <= bound[k]
    requires forall j, k :: 0 <= j <= k < |times| ==> bound[j] <= bound[k]
    ensures Latest(times, n) <= bound[n - 1]
    ensures forall k :: 0 <= k < n ==> times[k] <= Latest(times, n)
    decreases n
  {
    if n > 1 {
      LatestIsLeast(times, bound, n - 1);
    }
  }

  lemma {:induction false} LatestGrows(times: seq<int>, m: nat, n: nat)
    requires 0 < m <= n <= |times|
    ensures Latest(times, m) <= Latest(times, n) && times[m - 1] <= Latest(times, n)
    decreases n
  {
    if m < n {
      LatestGrows(times, m, n - 1);
    }
  }

  lemma SmoothedNeverDecreases(times: seq<int>, states: seq<DataState>, times': seq<int>, states': seq<DataState>)
    requires IsSmoothed(times, states, times', states')
    ensures forall j, k :: 0 <= j <= k < |times'| ==> times'[j] <= times'[k]
    ensures forall k :: 0 <= k < |times| ==> times[k] <= times'[k]
  {
    forall j, k | 0 <= j <= k < |times'| ensures times'[j] <= times'[k] && times[k] <= times'[k] {
      LatestGrows(times, j + 1, k + 1);
      LatestGrows(times, k + 1, k + 1);
    }
  }

  /** The closing pass leaves an event alone exactly if no earlier event is later. */
  lemma SmoothingKeepsIff(times: seq<int>, states: seq<DataState>, times': seq<int>, states': seq<DataState>, k: nat)
    requires IsSmoothed(times, states, times', states') && k < |times|
    ensures times'[k] == times[k] && states'[k] == states[k] <==> forall j :: 0 <= j < k ==> times[j] <= times[k]
  {
    forall j | 0 <= j <= k ensures times[j] <= times'[k] {
      LatestGrows(times, j + 1, k + 1);
    }
    if forall j :: 0 <= j < k ==> times[j] <= times[k] {
      LatestIsLeast(times[..k + 1], seq(k + 1, _ => times[k]), k + 1);
      LatestOfPrefix(times, k + 1, k + 1);
    }
  }

  lemma {:induction false} LatestOfPrefix(times: seq<int>, m: nat, n: nat)
    requires 0 < m <= n <= |times|
    ensures Latest(times[..n], m) == Latest(times, m)
    decreases m
  {
    if m > 1 {
      LatestOfPrefix(times, m - 1, n);
    }
  }

  /** The time that a command wants for its event can be stored. */
  predicate CanStore(tr: Trip, p: Progress, ec: EventCommand)
    requires ProgressOk(tr, p) && InRange(p, ec) && tr.sched.Some?
  {
    match ec.command
    case OwnData(ev) =>
      var named := if ev.delay.Some? then tr.sched.value[ec.k] + TruncDiv(ev.delay.value, 60) else NamedTime(tr, ev);
      tr.storable.Contains(Max(Floor(tr, p, ec.k), named))
    case Silent => p.pred.Some? ==> tr.storable.Contains(Max(p.pred.value.time, tr.sched.value[ec.k] + p.pred.value.delay))
    case NoRealTime => tr.storable.Contains(tr.sched.value[ec.k])
  }

  /** The commands of an update that rejects nothing and takes no data back. */
  ghost predicate Steady(tr: Trip, p: Progress, ecs: seq<EventCommand>, first: nat) {
    && ProgressOk(tr, p) && CommandsOk(p, ecs) && tr.sched.Some? && p.pred == None && !p.noData
    && (forall i :: 0 <= i < |ecs| ==> ecs[i].k == first + i && !ecs[i].command.NoRealTime?)
    && (forall i :: 0 <= i < |ecs| ==> CommandsOk(p, ecs[..i]) && CanStore(tr, Fold(tr, p, ecs[..i]), ecs[i]))
    && (forall j, k :: 0 <= j <= k < |p.times| ==> p.times[j] <= p.times[k])
  }

  lemma SteadyFront(tr: Trip, p: Progress, ecs: seq<EventCommand>, first: nat)
    requires Steady(tr, p, ecs, first) && ecs != []
    ensures Steady(tr, p, ecs[..|ecs| - 1], first)
    ensures var front, ec := ecs[..|ecs| - 1], ecs[|ecs| - 1];
      InRange(Fold(tr, p, front), ec) && CanStore(tr, Fold(tr, p, front), ec) && ec.k == first + |front| && !ec.command.NoRealTime?
  {
    var front := ecs[..|ecs| - 1];
    forall i | 0 <= i < |front| ensures CommandsOk(p, front[..i]) && CanStore(tr, Fold(tr, p, front[..i]), front[i]) {
      assert front[..i] == ecs[..i] && front[i] == ecs[i];
    }
  }

  /** Then the fold itself yields times that do not decrease. */
  lemma {:induction false} SteadyTimesNeverDecrease(tr: Trip, p: Progress, ecs: seq<EventCommand>, first: nat)
    requires Steady(tr, p, ecs, first) && first + |ecs| <= |p.times|
    ensures var q := Fold(tr, p, ecs);
      && !q.noData && (q.pred == None ==> q == p)
      && (q.pred.Some? ==> ecs != [] && q.pred.value.time == q.times[first + |ecs| - 1])
      && forall j, k :: 0 <= j <= k < first + |ecs| ==> q.times[j] <= q.times[k]
    decreases |ecs|
  {
    if ecs != [] {
      var front, ec := ecs[..|ecs| - 1], ecs[|ecs| - 1];
      SteadyFront(tr, p, ecs, first);
      SteadyTimesNeverDecrease(tr, p, front, first);
      var before := Fold(tr, p, front);
      hide Fold, CanStore;
      SteadyStep(tr, before, ec, first + |front|);
    }
  }

  lemma SteadyStep(tr: Trip, p: Progress, ec: EventCommand, k: nat)
    requires ProgressOk(tr, p) && InRange(p, ec) && tr.sched.Some? && !p.noData && CanStore(tr, p, ec)
    requires ec.k == k && !ec.command.NoRealTime? && (p.pred.Some? ==> k > 0 && p.pred.value.time == p.times[k - 1])
    requires forall i, j :: 0 <= i <= j < k ==> p.times[i] <= p.times[j]
    requires p.pred == None && k > 0 ==> p.times[k - 1] <= p.times[k]
    ensures var q := Step(tr, p, ec);
      && !q.noData && (q.pred == None ==> q == p && p.pred == None)
      && (q.pred.Some? ==> q.pred.value.time == q.times[k])
      && forall i, j :: 0 <= i <= j <= k ==> q.times[i] <= q.times[j]
  {
    StepIsLocal(tr, p, ec);
    PendingIsStored(tr, p, ec);
    if ec.command.OwnData? {
      OwnDataStep(tr, p, ec);
    } else if p.pred.Some? {
      SilentStep(tr, p, ec);
    }
    hide Updated, Delayed, Reset;
    assert k > 0 ==> p.times[k - 1] <= Step(tr, p, ec).times[k];
  }

  /** So the closing pass changes none of the events that the update handles: what the
      laws of the fold say of them holds in the end. */
  lemma ClosingPassKeepsSteadyEvents(tr: Trip, p: Progress, ecs: seq<EventCommand>, first: nat,
                                     times': seq<int>, states': seq<DataState>, k: nat)
    requires Steady(tr, p, ecs, first) && k < first + |ecs| <= |p.times|
    requires var q := Fold(tr, p, ecs); IsSmoothed(q.times, q.states, times', states')
    ensures var q := Fold(tr, p, ecs); times'[k] == q.times[k] && states'[k] == q.states[k]
  {
    var q := Fold(tr, p, ecs);
    SteadyTimesNeverDecrease(tr, p, ecs, first);
    SmoothingKeepsIff(q.times, q.states, times', states', k);
  }
}
