/** `update_run`: a trip update applied to the real-time copy of a run. */
module GtfsrtUpdate {
  import opened Basics
  import opened DelayPropagation
  import opened Intervals
  import opened RealTime
  import opened UpdateMatching

  // ---------- what an update asks for ----------

  predicate Offers(ev: Option<TimeEvent>) {
    ev.Some? && HasData(ev.value)
  }

  function CommandFor(entry: Option<StopTimeUpdate>, ev: Option<TimeEvent>): Command {
    if entry.None? then Silent
    else if entry.value.relationship == NoData then NoRealTime
    else if Offers(ev) then OwnData(ev.value)
    else Silent
  }

  function ArrivalOf(entry: Option<StopTimeUpdate>): Option<TimeEvent> {
    if entry.Some? then entry.value.arrival else None
  }

  function DepartureOf(entry: Option<StopTimeUpdate>): Option<TimeEvent> {
    if entry.Some? then entry.value.departure else None
  }

  /** The first departure takes its data from the arrival if it has none of its own. */
  predicate ArrivalStandsIn(s: nat, entry: Option<StopTimeUpdate>) {
    && s == 0 && entry.Some? && entry.value.relationship != NoData
    && Offers(entry.value.arrival) && entry.value.departure.None?
  }

  /** The events of stop `s` and what they are told: no arrival at the first, no
      departure at the last stop of the run. */
  function EventsAt(from: nat, to: nat, s: nat, entry: Option<StopTimeUpdate>): seq<EventCommand>
    requires from <= s
  {
    (if s == from then [] else [At(2 * s - 1, CommandFor(entry, ArrivalOf(entry)))]) +
    (if ArrivalStandsIn(s, entry) then [At(0, OwnData(entry.value.arrival.value))]
     else if s + 1 == to then []
     else [At(2 * s, CommandFor(entry, DepartureOf(entry)))])
  }

  ghost function EntryAt(c: Context, s: nat): Option<StopTimeUpdate>
    requires ContextOk(c) && c.from <= s < c.to
  {
    if UsedAt(c, s).Some? then Some(c.stus[UsedAt(c, s).value]) else None
  }

  /** The stop's entry is dropped together with the stop's events. */
  ghost predicate RejectedAt(c: Context, s: nat)
    requires ContextOk(c) && c.from <= s < c.to
  {
    EntryAt(c, s).Some? && Rejected(c, s, EntryAt(c, s).value)
  }

  /** All commands for the stops before `s`. */
  ghost function Commands(c: Context, s: nat): seq<EventCommand>
    requires ContextOk(c) && c.from <= s <= c.to
    decreases s
  {
    if s == c.from then []
    else Commands(c, s - 1) + (if RejectedAt(c, s - 1) then [] else EventsAt(c.from, c.to, s - 1, EntryAt(c, s - 1)))
  }

  /** A stop has up to two events: `2 * s - 1` and `2 * s`. */
  lemma EventsAtShape(from: nat, to: nat, s: nat, entry: Option<StopTimeUpdate>)
    requires from <= s < to
    ensures var es := EventsAt(from, to, s, entry);
      && Ascending(es)
      && (forall e :: e in es ==> 2 * s - 1 <= e.k <= 2 * s && (s + 1 == to && s > 0 ==> e.k == 2 * s - 1))
      && (from + 1 < to ==>
            if s == from then |es| == 1 && es[0].k == 2 * s
            else if s + 1 == to then |es| == 1 && es[0].k == 2 * s - 1
            else |es| == 2 && es[0].k == 2 * s - 1 && es[1].k == 2 * s)
  {
    hide CommandFor, ArrivalOf, DepartureOf, Offers;
  }

  /** Commands come in the order of the events, so the laws of the fold apply. */
  lemma {:induction false} CommandsAscend(c: Context, s: nat)
    requires ContextOk(c) && c.from <= s <= c.to
    ensures Ascending(Commands(c, s))
    ensures forall e :: e in Commands(c, s) ==> e.k <= 2 * s - 2 && (e.k == 0 || e.k < 2 * c.to - 2)
    decreases s
  {
    hide EventsAt, ContextOk, RejectedAt, EntryAt, Ascending;
    if s == c.from {
      NothingAscends();
    } else {
      CommandsAscend(c, s - 1);
      EventsAtShape(c.from, c.to, s - 1, EntryAt(c, s - 1));
      var front, es := Commands(c, s - 1), EventsAt(c.from, c.to, s - 1, EntryAt(c, s - 1));
      AscendingJoined(front, es, 2 * s - 3);
      assert front + [] == front;
      assert Commands(c, s) == if RejectedAt(c, s - 1) then front else front + es;
      assert forall e :: e in front + es ==> e in front || e in es;
    }
  }

  lemma NothingAscends()
    ensures Ascending([])
  {
  }

  lemma AscendingJoined(a: seq<EventCommand>, b: seq<EventCommand>, bound: int)
    requires Ascending(a) && Ascending(b)
    requires (forall e :: e in a ==> e.k < bound) && (forall e :: e in b ==> bound <= e.k)
    ensures Ascending(a + b)
  {
    forall i, j | 0 <= i < j < |a + b| ensures (a + b)[i].k < (a + b)[j].k {
      if i < |a| <= j {
        assert a[i] in a && b[j - |a|] in b;
      }
    }
  }

  /** Events of the stops before `s`: the first one departs from the first stop. */
  function EventCount(c: Context, s: nat): int
    requires c.from <= s <= c.to
  {
    if s == c.from then 0 else if s == c.to then 2 * (s - c.from) - 2 else 2 * (s - c.from) - 1
  }

  /** Every event of the run gets a command exactly if no entry is rejected; then the
      commands follow each other without a gap. */
  lemma {:induction false} CommandsAreGaplessIff(c: Context, s: nat)
    requires ContextOk(c) && c.from <= s <= c.to && c.from + 1 < c.to
    ensures |Commands(c, s)| <= EventCount(c, s)
    ensures |Commands(c, s)| == EventCount(c, s) <==> forall q :: c.from <= q < s ==> !RejectedAt(c, q)
    ensures |Commands(c, s)| == EventCount(c, s) ==> forall i :: 0 <= i < |Commands(c, s)| ==> Commands(c, s)[i].k == 2 * c.from + i
    decreases s
  {
    hide EventsAt, ContextOk, RejectedAt, EntryAt, Ascending;
    if s > c.from {
      CommandsAreGaplessIff(c, s - 1);
      EventsAtShape(c.from, c.to, s - 1, EntryAt(c, s - 1));
      if RejectedAt(c, s - 1) {
        assert Commands(c, s) == Commands(c, s - 1);
      } else {
        assert Commands(c, s) == Commands(c, s - 1) + EventsAt(c.from, c.to, s - 1, EntryAt(c, s - 1));
      }
    }
  }

  /** What a stop is after its entry was applied. */
  function NewStop(c: Context, s: nat, u: StopTimeUpdate, stop: Stop): Stop
    requires s < |c.stops| && c.stops[s].location < |c.ids| == |c.equivalences|
  {
    if u.relationship == Skipped then Stop(stop.location, false, false, false, false)
    else if Rejected(c, s, u) then stop
    else if ChangesTrack(c, s, u) then stop.(location := c.byId[NewLocationId(u)])
    else c.stops[s]
  }

  /** The stops before `s` are as their entries want them, all others as before. */
  ghost predicate StopsApplied(c: Context, s: nat, before: seq<Stop>, stops: seq<Stop>)
    requires ContextOk(c) && c.from <= s <= c.to
  {
    |before| == |stops| == |c.stops| && forall q :: 0 <= q < |stops| ==>
      stops[q] == if c.from <= q < s && EntryAt(c, q).Some? then NewStop(c, q, EntryAt(c, q).value, before[q]) else before[q]
  }

  // ---------- the copy as a fold state ----------

  ghost function TimesOf(rtt: RtTimetable, r: nat): (times: seq<int>)
    requires r < |rtt.rtTimes|
    reads rtt`rtTimes
    ensures |times| == |rtt.rtTimes[r]|
  {
    var base, row := rtt.baseDay * 1440, rtt.rtTimes[r];
    seq(|row|, k requires 0 <= k < |row| => base + row[k])
  }

  ghost predicate CopyOk(rtt: RtTimetable, r: nat, tr: Trip)
    reads rtt
  {
    && rtt.Valid() && r < |rtt.rtTimes| && tr.storable == rtt.RtInterval()
    && (tr.sched.Some? ==> |tr.sched.value| == |rtt.rtTimes[r]|)
  }

  ghost function StateOf(rtt: RtTimetable, r: nat, tr: Trip, pred: Option<Pred>, noData: bool): (p: Progress)
    requires CopyOk(rtt, r, tr)
    reads rtt
    ensures ProgressOk(tr, p) && |p.times| == |rtt.rtTimes[r]|
  {
    Progress(pred, noData, TimesOf(rtt, r), rtt.rtStates[r], rtt.coverage)
  }

  /** Two tables of rows that differ in row `r` at most. */
  ghost predicate OnlyRow<T>(r: nat, a: seq<seq<T>>, b: seq<seq<T>>) {
    |a| == |b| && forall i :: 0 <= i < |a| && i != r ==> a[i] == b[i]
  }

  /** A method touches nothing but row `r` of times and states. */
  ghost predicate Elsewhere(r: nat, times: seq<seq<int>>, states: seq<seq<DataState>>, times': seq<seq<int>>, states': seq<seq<DataState>>)
  {
    OnlyRow(r, times, times') && OnlyRow(r, states, states') && (r < |times| ==> |times[r]| == |times'[r]|)
  }

  // ---------- single events ----------

  /** `update_time` on one event, as the fold sees it. */
  method StoreTime(rtt: RtTimetable, r: nat, tr: Trip, k: nat, t: int, state: DataState, ghost pred: Option<Pred>, ghost noData: bool)
    requires CopyOk(rtt, r, tr) && k < |rtt.rtTimes[r]|
    modifies rtt`rtTimes, rtt`rtStates, rtt`coverage, rtt`given
    ensures CopyOk(rtt, r, tr) && rtt.given <= old(rtt.given)
    ensures Elsewhere(r, old(rtt.rtTimes), old(rtt.rtStates), rtt.rtTimes, rtt.rtStates)
    ensures StateOf(rtt, r, tr, pred, noData) == Store(tr, old(StateOf(rtt, r, tr, pred, noData)), k, t, state)
  {
    var _ := rtt.UpdateTime(r, k, t, state);
    assert TimesOf(rtt, r) == if tr.storable.Contains(t) then old(TimesOf(rtt, r))[k := t] else old(TimesOf(rtt, r));
  }

  /** `update_delay` */
  method UpdateDelay(rtt: RtTimetable, r: nat, tr: Trip, k: nat, delay: int, floor: int, state: DataState, ghost p: Progress)
    returns (pred: Pred)
    requires CopyOk(rtt, r, tr) && k < |rtt.rtTimes[r]| && p == StateOf(rtt, r, tr, p.pred, p.noData)
    modifies rtt`rtTimes, rtt`rtStates, rtt`coverage, rtt`given
    ensures CopyOk(rtt, r, tr) && rtt.given <= old(rtt.given)
    ensures Elsewhere(r, old(rtt.rtTimes), old(rtt.rtStates), rtt.rtTimes, rtt.rtStates)
    ensures StateOf(rtt, r, tr, Some(pred), p.noData) == Delayed(tr, p, k, delay, floor, state)
  {
    hide CopyOk, Elsewhere;
    var staticTime := if tr.sched.Some? then tr.sched.value[k] else floor;
    var newTime := staticTime + delay;
    var bounded := Max(floor, newTime);
    StoreTime(rtt, r, tr, k, bounded, if bounded != newTime then Inconsistent else state, p.pred, p.noData);
    pred := Pred(rtt.Time(r, k), delay);
  }

  /** `update_event` */
  method UpdateEvent(rtt: RtTimetable, r: nat, tr: Trip, k: nat, ev: TimeEvent, floor: int, ghost p: Progress)
    returns (pred: Pred)
    requires CopyOk(rtt, r, tr) && k < |rtt.rtTimes[r]| && p == StateOf(rtt, r, tr, p.pred, p.noData)
    modifies rtt`rtTimes, rtt`rtStates, rtt`coverage, rtt`given
    ensures CopyOk(rtt, r, tr) && rtt.given <= old(rtt.given)
    ensures Elsewhere(r, old(rtt.rtTimes), old(rtt.rtStates), rtt.rtTimes, rtt.rtStates)
    ensures StateOf(rtt, r, tr, Some(pred), p.noData) == Updated(tr, p, k, ev, floor)
  {
    hide CopyOk, Elsewhere;
    if ev.delay.Some? && tr.sched.Some? {
      pred := UpdateDelay(rtt, r, tr, k, TruncDiv(ev.delay.value, 60), floor, Predicted, p);
    } else {
      var newTime := TruncDiv(if ev.time.Some? then ev.time.value else 0, 60) + tr.clockZero;
      var staticTime := if tr.sched.Some? then tr.sched.value[k] else newTime;
      var bounded := Max(floor, newTime);
      StoreTime(rtt, r, tr, k, bounded, if bounded != newTime then Inconsistent else Predicted, p.pred, p.noData);
      pred := Pred(rtt.Time(r, k), rtt.Time(r, k) - staticTime);
    }
  }

  /** One event: its own data, the delay that is being propagated, or a reset. */
  method HandleEvent(rtt: RtTimetable, r: nat, tr: Trip, k: nat, own: Option<TimeEvent>, pred0: Option<Pred>, noData0: bool)
    returns (pred: Option<Pred>, noData: bool)
    requires CopyOk(rtt, r, tr) && k < |rtt.rtTimes[r]|
    modifies rtt`rtTimes, rtt`rtStates, rtt`coverage, rtt`given
    ensures CopyOk(rtt, r, tr) && rtt.given <= old(rtt.given)
    ensures Elsewhere(r, old(rtt.rtTimes), old(rtt.rtStates), rtt.rtTimes, rtt.rtStates)
    ensures StateOf(rtt, r, tr, pred, noData) ==
      Step(tr, old(StateOf(rtt, r, tr, pred0, noData0)), At(k, if own.Some? then OwnData(own.value) else Silent))
  {
    hide RtTimetable.Valid, Updated, Delayed;
    pred, noData := pred0, noData0;
    ghost var p := StateOf(rtt, r, tr, pred0, noData0);
    if own.Some? {
      var floor := if pred.Some? then pred.value.time else if k == 0 then tr.clockZero else rtt.Time(r, k - 1);
      var next := UpdateEvent(rtt, r, tr, k, own.value, floor, p);
      pred, noData := Some(next), false;
    } else if pred.Some? {
      var next := UpdateDelay(rtt, r, tr, k, pred.value.delay, pred.value.time, Propagated, p);
      pred := Some(next);
    } else if noData && tr.sched.Some? {
      StoreTime(rtt, r, tr, k, tr.sched.value[k], NoRtData, pred, noData);
    }
  }

  lemma FoldShort(tr: Trip, p: Progress, a: EventCommand, b: EventCommand)
    requires ProgressOk(tr, p) && InRange(p, a) && InRange(p, b)
    ensures CommandsOk(p, []) && Fold(tr, p, []) == p
    ensures CommandsOk(p, [a]) && Fold(tr, p, [a]) == Step(tr, p, a)
    ensures CommandsOk(p, [a] + [b]) && Fold(tr, p, [a] + [b]) == Step(tr, Step(tr, p, a), b)
  {
    hide Step;
    assert ([a] + [b])[..1] == [a] && [a][..0] == [];
  }

  lemma NoDataStep(tr: Trip, p: Progress, k: nat)
    requires ProgressOk(tr, p) && k < |p.times|
    ensures Step(tr, p, At(k, NoRealTime)) == Step(tr, p.(pred := None, noData := true), At(k, Silent))
    ensures Step(tr, p, At(k, NoRealTime)).pred == None && Step(tr, p, At(k, NoRealTime)).noData
  {
  }

  predicate IsNoData(entry: Option<StopTimeUpdate>) {
    entry.Some? && entry.value.relationship == NoData
  }

  /** One event of a stop whose entry is known; `p` is the state that the fold is in. */
  method HandleEntry(rtt: RtTimetable, r: nat, tr: Trip, k: nat, entry: Option<StopTimeUpdate>, ev: Option<TimeEvent>,
                     pred0: Option<Pred>, noData0: bool, ghost p: Progress)
    returns (pred: Option<Pred>, noData: bool)
    requires CopyOk(rtt, r, tr) && k < |rtt.rtTimes[r]| && ProgressOk(tr, p)
    requires StateOf(rtt, r, tr, pred0, noData0) == if IsNoData(entry) then p.(pred := None, noData := true) else p
    modifies rtt`rtTimes, rtt`rtStates, rtt`coverage, rtt`given
    ensures CopyOk(rtt, r, tr) && rtt.given <= old(rtt.given)
    ensures Elsewhere(r, old(rtt.rtTimes), old(rtt.rtStates), rtt.rtTimes, rtt.rtStates)
    ensures StateOf(rtt, r, tr, pred, noData) == Step(tr, p, At(k, CommandFor(entry, ev)))
    ensures IsNoData(entry) ==> pred == None && noData
  {
    hide Step, CopyOk, Elsewhere;
    var hasData := entry.Some? && entry.value.relationship != NoData;
    var own := if hasData && Offers(ev) then ev else None;
    NoDataStep(tr, p, k);
    pred, noData := HandleEvent(rtt, r, tr, k, own, pred0, noData0);
  }

  /** Arrival and departure of one stop. */
  method HandleStop(rtt: RtTimetable, r: nat, tr: Trip, from: nat, to: nat, s: nat, entry: Option<StopTimeUpdate>,
                    pred0: Option<Pred>, noData0: bool)
    returns (pred: Option<Pred>, noData: bool)
    requires CopyOk(rtt, r, tr) && from <= s < to && from + 1 < to && 2 * to - 2 <= |rtt.rtTimes[r]|
    requires s == from ==> pred0.None?
    modifies rtt`rtTimes, rtt`rtStates, rtt`coverage, rtt`given
    ensures CopyOk(rtt, r, tr) && rtt.given <= old(rtt.given)
    ensures Elsewhere(r, old(rtt.rtTimes), old(rtt.rtStates), rtt.rtTimes, rtt.rtStates)
    ensures CommandsOk(old(StateOf(rtt, r, tr, pred0, noData0)), EventsAt(from, to, s, entry))
    ensures StateOf(rtt, r, tr, pred, noData) == Fold(tr, old(StateOf(rtt, r, tr, pred0, noData0)), EventsAt(from, to, s, entry))
  {
    hide RtTimetable.Valid, Step, Fold, CommandFor, Updated;
    pred, noData := pred0, noData0;
    ghost var p := StateOf(rtt, r, tr, pred, noData);
    ghost var p0 := p;
    if IsNoData(entry) {
      noData, pred := true, None;
    }
    if s != from {
      ghost var arrival := At(2 * s - 1, CommandFor(entry, ArrivalOf(entry)));
      FoldShort(tr, p0, arrival, arrival);
      pred, noData := HandleEntry(rtt, r, tr, 2 * s - 1, entry, ArrivalOf(entry), pred, noData, p);
      p := Step(tr, p, arrival);
    }
    if ArrivalStandsIn(s, entry) {
      var next := UpdateEvent(rtt, r, tr, 0, entry.value.arrival.value, tr.clockZero, p);
      pred, noData := Some(next), false;
      FirstDeparture(tr, p0, entry.value.arrival.value);
    } else if s + 1 != to {
      ghost var departure := At(2 * s, CommandFor(entry, DepartureOf(entry)));
      FoldShort(tr, p0, if s == from then departure else At(2 * s - 1, CommandFor(entry, ArrivalOf(entry))), departure);
      pred, noData := HandleEntry(rtt, r, tr, 2 * s, entry, DepartureOf(entry), pred, noData, p);
    }
    ghost var es := EventsAt(from, to, s, entry);
    assert ArrivalStandsIn(s, entry) ==> es == [At(0, OwnData(entry.value.arrival.value))];
    assert s == from && !ArrivalStandsIn(s, entry) ==> es == [At(2 * s, CommandFor(entry, DepartureOf(entry)))];
    assert s != from && s + 1 == to ==> es == [At(2 * s - 1, CommandFor(entry, ArrivalOf(entry)))];
  }

  lemma FirstDeparture(tr: Trip, p: Progress, ev: TimeEvent)
    requires ProgressOk(tr, p) && p.pred.None? && 0 < |p.times|
    ensures CommandsOk(p, [At(0, OwnData(ev))])
    ensures Fold(tr, p, [At(0, OwnData(ev))]) == Updated(tr, p, 0, ev, tr.clockZero).(noData := false)
  {
    FoldShort(tr, p, At(0, OwnData(ev)), At(0, OwnData(ev)));
  }

  // ---------- the run ----------

  ghost predicate FitsRun(c: Context, tr: Trip, n: nat) {
    ContextOk(c) && c.from + 1 < c.to && n == 2 * |c.stops| - 2 && (tr.sched.Some? ==> |tr.sched.value| == n)
  }

  lemma CommandsFit(c: Context, tr: Trip, p: Progress, s: nat)
    requires FitsRun(c, tr, |p.times|) && c.from <= s <= c.to
    ensures CommandsOk(p, Commands(c, s))
  {
    CommandsAscend(c, s);
    var ecs := Commands(c, s);
    forall i | 0 <= i < |ecs| ensures InRange(p, ecs[i]) {
      assert ecs[i] in ecs;
    }
  }

  /** The fold over the commands for the stops before `s`. */
  ghost function Outcome(c: Context, tr: Trip, times: seq<int>, states: seq<DataState>, cover: Interval, s: nat): (q: Progress)
    requires FitsRun(c, tr, |times|) && |states| == |times| && c.from <= s <= c.to
    ensures ProgressOk(tr, q) && |q.times| == |times|
  {
    var p := Progress(None, false, times, states, cover);
    CommandsFit(c, tr, p, s);
    Fold(tr, p, Commands(c, s))
  }

  lemma OutcomeAtStart(c: Context, tr: Trip, times: seq<int>, states: seq<DataState>, cover: Interval)
    requires FitsRun(c, tr, |times|) && |states| == |times|
    ensures Outcome(c, tr, times, states, cover, c.from) == Progress(None, false, times, states, cover)
  {
  }

  lemma OutcomeStep(c: Context, tr: Trip, times: seq<int>, states: seq<DataState>, cover: Interval, s: nat)
    requires FitsRun(c, tr, |times|) && |states| == |times| && c.from <= s < c.to
    ensures RejectedAt(c, s) ==> Outcome(c, tr, times, states, cover, s + 1) == Outcome(c, tr, times, states, cover, s)
    ensures !RejectedAt(c, s) ==>
      var es, p := EventsAt(c.from, c.to, s, EntryAt(c, s)), Outcome(c, tr, times, states, cover, s);
      CommandsOk(p, es) && Outcome(c, tr, times, states, cover, s + 1) == Fold(tr, p, es)
  {
    hide Fold, EventsAt, EntryAt, RejectedAt, ContextOk;
    var p, ecs := Progress(None, false, times, states, cover), Commands(c, s);
    CommandsFit(c, tr, p, s);
    CommandsFit(c, tr, p, s + 1);
    if RejectedAt(c, s) {
      assert Commands(c, s + 1) == ecs;
    } else {
      var es := EventsAt(c.from, c.to, s, EntryAt(c, s));
      assert Commands(c, s + 1) == ecs + es;
      forall i | 0 <= i < |es| ensures InRange(p, es[i]) {
        assert (ecs + es)[|ecs| + i] == es[i];
      }
      FoldAppends(tr, p, ecs, es);
    }
  }

  /** The tables of the overlay that an update changes. */
  datatype Tables = Tables(times: seq<seq<int>>, states: seq<seq<DataState>>, stops: seq<seq<Stop>>, given: set<(nat, nat)>)

  ghost function TablesOf(rtt: RtTimetable): Tables
    reads rtt
  {
    Tables(rtt.rtTimes, rtt.rtStates, rtt.rtStops, rtt.given)
  }

  /** The update of a run that started in state `p` with the given stops has done the
      stops before `s`; `t0` are the tables it started from. */
  ghost predicate UpTo(rtt: RtTimetable, r: nat, tr: Trip, c: Context, s: nat, p: Progress, stops: seq<Stop>,
                       t0: Tables, u: nat, pred: Option<Pred>, noData: bool)
    reads rtt
  {
    && CopyOk(rtt, r, tr) && rtt.given <= t0.given
    && FitsRun(c, tr, |p.times|) && |p.states| == |p.times| && c.from <= s <= c.to
    && r < |rtt.rtTimes| == |rtt.rtStops| && |rtt.rtTimes[r]| == |p.times| && |rtt.rtStops[r]| == |c.stops|
    && Elsewhere(r, t0.times, t0.states, rtt.rtTimes, rtt.rtStates)
    && OnlyRow(r, t0.stops, rtt.rtStops) && StopsApplied(c, s, stops, rtt.rtStops[r])
    && StateOf(rtt, r, tr, pred, noData) == Outcome(c, tr, p.times, p.states, p.cover, s)
    && u == CursorBefore(c, s) && (s == c.from ==> pred.None?)
  }

  /** The loop over the stops of the run. */
  method HandleStops(rtt: RtTimetable, r: nat, tr: Trip, c: Context, ghost p: Progress, ghost stops: seq<Stop>)
    returns (ghost u: nat, ghost pred: Option<Pred>, ghost noData: bool)
    requires CopyOk(rtt, r, tr) && p == StateOf(rtt, r, tr, None, false) && FitsRun(c, tr, |p.times|)
    requires r < |rtt.rtStops| && rtt.rtStops[r] == stops && |stops| == |c.stops|
    modifies rtt`rtTimes, rtt`rtStates, rtt`coverage, rtt`given, rtt`rtStops
    ensures UpTo(rtt, r, tr, c, c.to, p, stops, old(TablesOf(rtt)), u, pred, noData)
  {
    hide *;
    RunStarts(rtt, r, tr, c, p, stops);
    ghost var t0 := TablesOf(rtt);
    var pending: Option<Pred>, none, next := None, false, 0;
    for s := c.from to c.to
      invariant UpTo(rtt, r, tr, c, s, p, stops, t0, next, pending, none)
    {
      next, pending, none := Advance(rtt, r, tr, c, s, p, stops, t0, next, pending, none);
    }
    u, pred, noData := next, pending, none;
  }

  lemma RunStarts(rtt: RtTimetable, r: nat, tr: Trip, c: Context, p: Progress, stops: seq<Stop>)
    requires CopyOk(rtt, r, tr) && p == StateOf(rtt, r, tr, None, false) && FitsRun(c, tr, |p.times|)
    requires r < |rtt.rtStops| && rtt.rtStops[r] == stops && |stops| == |c.stops|
    ensures c.from <= c.to && UpTo(rtt, r, tr, c, c.from, p, stops, TablesOf(rtt), 0, None, false)
  {
    OutcomeAtStart(c, tr, p.times, p.states, p.cover);
    CursorStarts(c);
    CopySizes(rtt, r, tr, c);
    hide RtTimetable.Valid, Outcome, Commands;
  }

  /** One round, seen from the start of the run. */
  method Advance(rtt: RtTimetable, r: nat, tr: Trip, c: Context, s: nat, ghost p: Progress, ghost stops: seq<Stop>,
                 ghost t0: Tables, u0: nat, pred0: Option<Pred>, noData0: bool)
    returns (u: nat, pred: Option<Pred>, noData: bool)
    requires UpTo(rtt, r, tr, c, s, p, stops, t0, u0, pred0, noData0) && s < c.to
    modifies rtt`rtTimes, rtt`rtStates, rtt`coverage, rtt`given, rtt`rtStops
    ensures UpTo(rtt, r, tr, c, s + 1, p, stops, t0, u, pred, noData)
  {
    hide CopyOk, FitsRun, Elsewhere, OnlyRow, StopsApplied, StateOf, Outcome, EntryAt, NewStop, RejectedAt, EventsAt, CommandsOk, Fold;
    hide CursorBefore, TimesOf, ContextOk;
    RunInRange(c, tr, p);
    OutcomeStep(c, tr, p.times, p.states, p.cover, s);
    ghost var times1, states1, rows1 := rtt.rtTimes, rtt.rtStates, rtt.rtStops;
    u, pred, noData := OneStop(rtt, r, tr, c, s, u0, pred0, noData0);
    RowsStay(r, t0.stops, rows1, rtt.rtStops);
    ElsewhereStays(r, t0.times, t0.states, times1, states1, rtt.rtTimes, rtt.rtStates);
    StopStep(c, s, stops, rows1[r], rtt.rtStops[r]);
  }

  lemma RunInRange(c: Context, tr: Trip, p: Progress)
    requires FitsRun(c, tr, |p.times|)
    ensures ContextOk(c) && c.from + 1 < c.to <= |c.stops|
  {
  }

  /** One round: find the stop's entry, apply it to the stop and to its events. */
  method OneStop(rtt: RtTimetable, r: nat, tr: Trip, c: Context, s: nat, u0: nat, pred0: Option<Pred>, noData0: bool)
    returns (u: nat, pred: Option<Pred>, noData: bool)
    requires CopyOk(rtt, r, tr) && FitsRun(c, tr, |rtt.rtTimes[r]|) && c.from <= s < c.to && u0 == CursorBefore(c, s)
    requires r < |rtt.rtStops| && |rtt.rtStops[r]| == |c.stops| && (s == c.from ==> pred0.None?)
    modifies rtt`rtTimes, rtt`rtStates, rtt`coverage, rtt`given, rtt`rtStops
    ensures CopyOk(rtt, r, tr) && rtt.given <= old(rtt.given)
    ensures Elsewhere(r, old(rtt.rtTimes), old(rtt.rtStates), rtt.rtTimes, rtt.rtStates)
    ensures OnlyRow(r, old(rtt.rtStops), rtt.rtStops)
    ensures r < |rtt.rtTimes| == |rtt.rtStops| && |rtt.rtTimes[r]| == old(|rtt.rtTimes[r]|)
    ensures rtt.rtStops[r] == if EntryAt(c, s).Some?
      then old(rtt.rtStops[r])[s := NewStop(c, s, EntryAt(c, s).value, old(rtt.rtStops[r][s]))] else old(rtt.rtStops[r])
    ensures RejectedAt(c, s) ==> StateOf(rtt, r, tr, pred, noData) == old(StateOf(rtt, r, tr, pred0, noData0))
    ensures !RejectedAt(c, s) ==> var p := old(StateOf(rtt, r, tr, pred0, noData0));
      var es := EventsAt(c.from, c.to, s, EntryAt(c, s));
      CommandsOk(p, es) && StateOf(rtt, r, tr, pred, noData) == Fold(tr, p, es)
    ensures u == CursorBefore(c, s + 1)
  {
    hide *;
    CopySizes(rtt, r, tr, c);
    CursorStep(c, s);
    RejectedIs(c, s);
    var v, matches := FindUpdate(c, s, u0);
    var entry := if matches then Some(c.stus[v]) else None;
    ghost var times1, states1 := rtt.rtTimes, rtt.rtStates;
    Unchanged(rtt, r, tr, c);
    if matches {
      ChangeStop(rtt, r, tr, s, NewStop(c, s, c.stus[v], rtt.rtStops[r][s]), pred0, noData0);
    }
    u, pred, noData := v, pred0, noData0;
    if matches && Rejected(c, s, c.stus[v]) {
      return;
    }
    pred, noData := HandleStop(rtt, r, tr, c.from, c.to, s, entry, pred, noData);
    ElsewhereStays(r, times1, states1, times1, states1, rtt.rtTimes, rtt.rtStates);
    if matches {
      u := u + 1;
    }
  }

  lemma CopySizes(rtt: RtTimetable, r: nat, tr: Trip, c: Context)
    requires CopyOk(rtt, r, tr) && FitsRun(c, tr, |rtt.rtTimes[r]|)
    ensures r < |rtt.rtTimes| == |rtt.rtStates| == |rtt.rtStops| && |rtt.rtStates[r]| == |rtt.rtTimes[r]|
    ensures ContextOk(c) && c.from + 1 < c.to <= |c.stops| && |rtt.rtTimes[r]| == 2 * |c.stops| - 2
    ensures forall s :: 0 <= s < |c.stops| ==> c.stops[s].location < |c.ids| == |c.equivalences|
  {
  }

  lemma Unchanged(rtt: RtTimetable, r: nat, tr: Trip, c: Context)
    requires CopyOk(rtt, r, tr) && r < |rtt.rtStops| && |rtt.rtStops[r]| == |c.stops| && ContextOk(c)
    ensures Elsewhere(r, rtt.rtTimes, rtt.rtStates, rtt.rtTimes, rtt.rtStates) && OnlyRow(r, rtt.rtStops, rtt.rtStops)
    ensures StopsApplied(c, c.from, rtt.rtStops[r], rtt.rtStops[r])
    ensures StateOf(rtt, r, tr, None, false) == Progress(None, false, TimesOf(rtt, r), rtt.rtStates[r], rtt.coverage)
  {
  }

  /** A stop of the copy is changed; times and states are not concerned. */
  method ChangeStop(rtt: RtTimetable, r: nat, tr: Trip, s: nat, stop: Stop, ghost pred: Option<Pred>, ghost noData: bool)
    requires CopyOk(rtt, r, tr) && r < |rtt.rtStops| && s < |rtt.rtStops[r]|
    modifies rtt`rtStops
    ensures CopyOk(rtt, r, tr) && rtt.rtStops == old(rtt.rtStops)[r := old(rtt.rtStops[r])[s := stop]]
    ensures OnlyRow(r, old(rtt.rtStops), rtt.rtStops)
    ensures StateOf(rtt, r, tr, pred, noData) == old(StateOf(rtt, r, tr, pred, noData))
  {
    rtt.SetStop(r, s, stop);
  }

  lemma StopStep(c: Context, s: nat, before: seq<Stop>, stops: seq<Stop>, stops': seq<Stop>)
    requires ContextOk(c) && c.from <= s < c.to && StopsApplied(c, s, before, stops) && |stops| == |c.stops|
    ensures |stops'| == |c.stops|
    requires stops' == if EntryAt(c, s).Some? then stops[s := NewStop(c, s, EntryAt(c, s).value, stops[s])] else stops
    ensures StopsApplied(c, s + 1, before, stops')
  {
    hide EntryAt, NewStop;
  }

  lemma RowsStay<T>(r: nat, a: seq<seq<T>>, b: seq<seq<T>>, c: seq<seq<T>>)
    requires OnlyRow(r, a, b) && OnlyRow(r, b, c)
    ensures OnlyRow(r, a, c) && |c| == |a|
  {
  }

  lemma ElsewhereStays(r: nat, t: seq<seq<int>>, d: seq<seq<DataState>>, t1: seq<seq<int>>, d1: seq<seq<DataState>>,
                       t2: seq<seq<int>>, d2: seq<seq<DataState>>)
    requires Elsewhere(r, t, d, t1, d1) && Elsewhere(r, t1, d1, t2, d2) && r < |t1|
    ensures Elsewhere(r, t, d, t2, d2) && |t2| == |t1| && |t2[r]| == |t1[r]|
  {
  }

  lemma CursorStarts(c: Context)
    requires ContextOk(c)
    ensures CursorBefore(c, c.from) == 0
  {
  }

  lemma RejectedIs(c: Context, s: nat)
    requires ContextOk(c) && c.from <= s < c.to
    ensures RejectedAt(c, s) <==> EntryAt(c, s).Some? && Rejected(c, s, EntryAt(c, s).value)
  {
  }

  lemma CursorStep(c: Context, s: nat)
    requires ContextOk(c) && c.from <= s < c.to
    ensures var u := CursorBefore(c, s); var v := Cursor(c, s, u);
      && (Matched(c, s, u) ==> v < |c.stus|)
      && (EntryAt(c, s) == if Matched(c, s, u) then Some(c.stus[v]) else None)
      && CursorBefore(c, s + 1) == if Matched(c, s, u) && !Rejected(c, s, c.stus[v]) then v + 1 else v
  {
  }

  /** The first `n` events are smoothed, the others as before. */
  ghost predicate SmoothedUpTo(n: nat, times: seq<int>, states: seq<DataState>, times': seq<int>, states': seq<DataState>)
  {
    && n <= |times| == |states| == |times'| == |states'|
    && (forall k :: 0 <= k < n ==> times'[k] == Latest(times, k + 1))
    && (forall k :: 0 <= k < n ==> states'[k] == if times'[k] != times[k] then Inconsistent else states[k])
    && (forall k :: n <= k < |times| ==> times'[k] == times[k] && states'[k] == states[k])
  }

  /** The closing pass over all events of the copy. */
  method Smooth(rtt: RtTimetable, r: nat, tr: Trip)
    requires CopyOk(rtt, r, tr)
    modifies rtt`rtTimes, rtt`rtStates, rtt`given
    ensures CopyOk(rtt, r, tr) && (old(rtt.given) == {} ==> rtt.given == {})
    ensures Elsewhere(r, old(rtt.rtTimes), old(rtt.rtStates), rtt.rtTimes, rtt.rtStates)
    ensures IsSmoothed(old(TimesOf(rtt, r)), old(rtt.rtStates[r]), TimesOf(rtt, r), rtt.rtStates[r])
  {
    hide *;
    SmoothStarts(rtt, r, tr);
    ghost var times, states := TimesOf(rtt, r), rtt.rtStates[r];
    ghost var times0, states0, given0 := rtt.rtTimes, rtt.rtStates, rtt.given;
    for k := 0 to |rtt.rtTimes[r]|
      invariant CopyOk(rtt, r, tr) && (given0 == {} ==> rtt.given == {})
      invariant r < |rtt.rtTimes| == |rtt.rtStates| && |rtt.rtTimes[r]| == |times|
      invariant Elsewhere(r, times0, states0, rtt.rtTimes, rtt.rtStates)
      invariant SmoothedUpTo(k, times, states, TimesOf(rtt, r), rtt.rtStates[r])
    {
      ghost var times1, states1, rows1, marks1 := TimesOf(rtt, r), rtt.rtStates[r], rtt.rtTimes, rtt.rtStates;
      SmoothEvent(rtt, r, tr, k);
      SmoothStep(k, times, states, times1, states1, TimesOf(rtt, r), rtt.rtStates[r]);
      ElsewhereStays(r, times0, states0, rows1, marks1, rtt.rtTimes, rtt.rtStates);
    }
    SmoothEnds(times, states, TimesOf(rtt, r), rtt.rtStates[r]);
  }

  lemma SmoothStarts(rtt: RtTimetable, r: nat, tr: Trip)
    requires CopyOk(rtt, r, tr)
    ensures r < |rtt.rtTimes| == |rtt.rtStates| && |rtt.rtStates[r]| == |rtt.rtTimes[r]|
    ensures Elsewhere(r, rtt.rtTimes, rtt.rtStates, rtt.rtTimes, rtt.rtStates)
    ensures SmoothedUpTo(0, TimesOf(rtt, r), rtt.rtStates[r], TimesOf(rtt, r), rtt.rtStates[r])
  {
  }

  lemma SmoothEnds(times: seq<int>, states: seq<DataState>, times': seq<int>, states': seq<DataState>)
    requires SmoothedUpTo(|times|, times, states, times', states')
    ensures IsSmoothed(times, states, times', states')
  {
  }

  /** One event of the closing pass. */
  method SmoothEvent(rtt: RtTimetable, r: nat, tr: Trip, k: nat)
    requires CopyOk(rtt, r, tr) && k < |rtt.rtTimes[r]|
    modifies rtt`rtTimes, rtt`rtStates, rtt`given
    ensures CopyOk(rtt, r, tr) && (old(rtt.given) == {} ==> rtt.given == {})
    ensures Elsewhere(r, old(rtt.rtTimes), old(rtt.rtStates), rtt.rtTimes, rtt.rtStates)
    ensures r < |rtt.rtTimes| == |rtt.rtStates| && |rtt.rtTimes[r]| == old(|rtt.rtTimes[r]|)
    ensures var times, states := old(TimesOf(rtt, r)), old(rtt.rtStates[r]);
      if 0 < k && times[k] < times[k - 1]
      then TimesOf(rtt, r) == times[k := times[k - 1]] && rtt.rtStates[r] == states[k := Inconsistent]
      else TimesOf(rtt, r) == times && rtt.rtStates[r] == states
  {
    hide RtTimetable.ActiveExact, RtTimetable.LookupOk, RtTimetable.RemovedCovered, RtTimetable.StoredCovered;
    if 0 < k && rtt.rtTimes[r][k] < rtt.rtTimes[r][k - 1] {
      rtt.RaiseEvent(r, k);
      assert TimesOf(rtt, r) == old(TimesOf(rtt, r))[k := old(TimesOf(rtt, r))[k - 1]];
    }
  }

  lemma SmoothStep(k: nat, times: seq<int>, states: seq<DataState>, times1: seq<int>, states1: seq<DataState>,
                   times2: seq<int>, states2: seq<DataState>)
    requires k < |times| && SmoothedUpTo(k, times, states, times1, states1)
    requires if 0 < k && times1[k] < times1[k - 1]
      then times2 == times1[k := times1[k - 1]] && states2 == states1[k := Inconsistent]
      else times2 == times1 && states2 == states1
    ensures SmoothedUpTo(k + 1, times, states, times2, states2)
  {
  }

  predicate IsCancelled(stop: Stop) {
    !stop.inAllowed && !stop.outAllowed
  }

  function Served(stops: seq<Stop>): nat {
    if stops == [] then 0 else Served(stops[..|stops| - 1]) + (if IsCancelled(stops[|stops| - 1]) then 0 else 1)
  }

  method CountServed(stops: seq<Stop>) returns (n: nat)
    ensures n == Served(stops)
  {
    n := 0;
    for s := 0 to |stops|
      invariant n == Served(stops[..s])
    {
      assert stops[..s + 1][..s] == stops[..s];
      if !IsCancelled(stops[s]) {
        n := n + 1;
      }
    }
    assert stops[..|stops|] == stops;
  }

  /** The coverage grows by every time the fold stores, and by the whole run if it is
      cancelled in the end. */
  ghost function CoverAfter(rtt: RtTimetable, r: nat, cover: Interval, t: Option<Transport>, cancelled: bool): Interval
    requires rtt.Valid() && r < |rtt.rtTimes| && (t.Some? ==> t.value.idx < |rtt.tt.events|)
    reads rtt
  {
    if !cancelled then cover
    else if t.None? then cover.Hull(rtt.TransportInterval(r))
    else cover.Hull(rtt.TransportInterval(r)).Hull(StaticInterval(rtt.tt, t.value))
  }

  /** `update_run` after the copy is there: the fold, the closing pass, and the
      cancellation of a run that serves at most one stop. */
  method ApplyUpdate(rtt: RtTimetable, r: nat, tr: Trip, c: Context, t: Option<Transport>)
    requires CopyOk(rtt, r, tr) && FitsRun(c, tr, |rtt.rtTimes[r]|) && |rtt.rtStops[r]| == |c.stops|
    requires |rtt.bitfields| < RT_BITFIELD_FLAG && (t.Some? ==> t.value.idx < |rtt.tt.trafficDays|)
    modifies rtt
    ensures CopyOk(rtt, r, tr) && (old(rtt.given) == {} ==> rtt.given == {})
    ensures Elsewhere(r, old(rtt.rtTimes), old(rtt.rtStates), rtt.rtTimes, rtt.rtStates)
    ensures OnlyRow(r, old(rtt.rtStops), rtt.rtStops) && StopsApplied(c, c.to, old(rtt.rtStops[r]), rtt.rtStops[r])
    ensures var q := Outcome(c, tr, old(TimesOf(rtt, r)), old(rtt.rtStates[r]), old(rtt.coverage), c.to);
      && IsSmoothed(q.times, q.states, TimesOf(rtt, r), rtt.rtStates[r])
      && rtt.coverage == CoverAfter(rtt, r, q.cover, t, Served(rtt.rtStops[r]) <= 1)
    ensures Served(rtt.rtStops[r]) <= 1 ==>
      rtt.cancelled == old(rtt.cancelled)[r := true] &&
      rtt.removed == old(rtt.removed) + (if t.Some? then {t.value} else {})
    ensures Served(rtt.rtStops[r]) > 1 ==> rtt.cancelled == old(rtt.cancelled) && rtt.removed == old(rtt.removed)
  {
    hide RtTimetable.ActiveExact, RtTimetable.LookupOk, RtTimetable.RemovedCovered, RtTimetable.StoredCovered;
    hide Outcome, StopsApplied, IsSmoothed, ScheduleOk, Served;
    ghost var u, pred, noData := HandleStops(rtt, r, tr, c, StateOf(rtt, r, tr, None, false), rtt.rtStops[r]);
    ghost var times, states := TimesOf(rtt, r), rtt.rtStates[r];
    Smooth(rtt, r, tr);
    var n := CountServed(rtt.rtStops[r]);
    if n <= 1 {
      rtt.CancelRun(t, Some(r));
    }
  }

  // ---------- updates for scheduled trips ----------

  /** `is_in_rt_interval`: first and last event keep a day's distance from the ends
      of the interval that can be stored. */
  predicate InRtInterval(rtt: RtTimetable, x: Transport)
    requires x.idx < |rtt.tt.events| && |rtt.tt.events[x.idx]| > 0
  {
    var iv := Interval(rtt.RtInterval().from + 1440, rtt.RtInterval().to - 1440);
    iv.Contains(EventTime(rtt.tt, x, 0)) && iv.Contains(EventTime(rtt.tt, x, |rtt.tt.events[x.idx]| - 1))
  }

  /** Scheduled times of all events. */
  function ScheduledTimes(tt: Schedule, x: Transport): (times: seq<int>)
    requires x.idx < |tt.events|
    ensures |times| == |tt.events[x.idx]|
  {
    seq(|tt.events[x.idx]|, k requires 0 <= k < |tt.events[x.idx]| => EventTime(tt, x, k))
  }

  /** Inside that interval a fresh copy starts with exactly the scheduled times. */
  lemma FreshCopyIsScheduled(rtt: RtTimetable, r: nat, x: Transport)
    requires rtt.Valid() && r < |rtt.rtTimes| && x.idx < |rtt.tt.events| && |rtt.tt.events[x.idx]| > 0
    requires InRtInterval(rtt, x) && rtt.rtTimes[r] == ScheduledDeltas(rtt.tt, rtt.baseDay, x)
    ensures TimesOf(rtt, r) == ScheduledTimes(rtt.tt, x)
  {
    var ev, last := rtt.tt.events[x.idx], |rtt.tt.events[x.idx]| - 1;
    forall k | 0 <= k <= last ensures TimesOf(rtt, r)[k] == EventTime(rtt.tt, x, k) {
      assert ev[0] <= ev[k] <= ev[last];
    }
  }

  lemma FreshCopyIsCovered(rtt: RtTimetable, r: nat, x: Transport, before: Interval)
    requires rtt.Valid() && r < |rtt.rtTimes| && x.idx < |rtt.tt.events| && |rtt.tt.events[x.idx]| > 0
    requires TimesOf(rtt, r) == ScheduledTimes(rtt.tt, x) && rtt.CoverageAfterAdding(Some(x), [], r, before)
    ensures rtt.coverage == before.Hull(StaticInterval(rtt.tt, x))
  {
    hide RtTimetable.ActiveExact, RtTimetable.LookupOk, RtTimetable.RemovedCovered, RtTimetable.StoredCovered;
    var last := |rtt.tt.events[x.idx]| - 1;
    assert TimesOf(rtt, r)[0] == EventTime(rtt.tt, x, 0) && TimesOf(rtt, r)[last] == EventTime(rtt.tt, x, last);
    assert rtt.TransportInterval(r) == StaticInterval(rtt.tt, x);
  }

  /** The copy that an update works on, if the run has one of its own shape. */
  ghost predicate CopyFits(rtt: RtTimetable, x: Transport)
    reads rtt
  {
    rtt.Valid() && x.idx < |rtt.tt.events| &&
    (x in rtt.lookup ==>
       |rtt.rtTimes[rtt.lookup[x]]| == |rtt.tt.events[x.idx]| && |rtt.rtStops[rtt.lookup[x]]| == |rtt.tt.stops[x.idx]|)
  }

  /** The copy of a run: made if there is none yet, unless the run lies outside the
      interval that can be stored; else taken back from a cancellation. */
  method EnsureCopy(rtt: RtTimetable, x: Transport) returns (copy: Option<nat>)
    requires CopyFits(rtt, x) && |rtt.bitfields| + 1 < RT_BITFIELD_FLAG
    modifies rtt
    ensures CopyFits(rtt, x) && |rtt.bitfields| < RT_BITFIELD_FLAG && (old(rtt.given) == {} ==> rtt.given == {})
    ensures copy == None <==> x !in old(rtt.lookup) && !InRtInterval(rtt, x)
    ensures copy == None ==> rtt.rtTimes == old(rtt.rtTimes) && rtt.removed == old(rtt.removed) && rtt.coverage == old(rtt.coverage)
    ensures copy.Some? ==> rtt.ResolveRt(x) == copy && x in rtt.removed && copy.value < |rtt.cancelled| && !rtt.cancelled[copy.value]
    ensures copy.Some? && x in old(rtt.lookup) ==>
      copy.value == old(rtt.lookup[x]) && rtt.rtStates == old(rtt.rtStates) &&
      TimesOf(rtt, copy.value) == old(TimesOf(rtt, rtt.lookup[x])) && rtt.coverage == old(rtt.coverage)
    ensures copy.Some? && x !in old(rtt.lookup) ==>
      TimesOf(rtt, copy.value) == ScheduledTimes(rtt.tt, x) && rtt.rtStates[copy.value] == FreshStates(|rtt.tt.events[x.idx]|) &&
      rtt.coverage == old(rtt.coverage).Hull(StaticInterval(rtt.tt, x))
  {
    hide RtTimetable.ActiveExact, RtTimetable.RemovedCovered, RtTimetable.StoredCovered, TimesOf;
    if x !in rtt.lookup {
      if !InRtInterval(rtt, x) {
        return None;
      }
      var r := rtt.AddRtTransport(Some(x), false, [], []);
      FreshCopyIsScheduled(rtt, r, x);
      FreshCopyIsCovered(rtt, r, x, old(rtt.coverage));
      copy := Some(r);
    } else {
      copy := Some(rtt.lookup[x]);
      rtt.Reinstate(rtt.lookup[x]);
    }
  }

  /** `update_run` for a trip of the schedule: the fold over the copy's times, which
      start as the schedule's, then the closing pass. */
  method UpdateRun(rtt: RtTimetable, x: Transport, c: Context, clockZero: int) returns (copy: Option<nat>)
    requires CopyFits(rtt, x) && |rtt.bitfields| + 1 < RT_BITFIELD_FLAG
    requires ContextOk(c) && c.scheduled && c.from + 1 < c.to && c.stops == rtt.tt.stops[x.idx]
    modifies rtt
    ensures rtt.Valid() && (old(rtt.given) == {} ==> rtt.given == {})
    ensures copy == None <==> x !in old(rtt.lookup) && !InRtInterval(rtt, x)
    ensures copy == None ==> rtt.rtTimes == old(rtt.rtTimes) && rtt.removed == old(rtt.removed) && rtt.coverage == old(rtt.coverage)
    ensures copy.Some? ==> copy.value < |rtt.rtTimes| && x in rtt.removed
    ensures copy.Some? ==>
      var times := if x in old(rtt.lookup) then old(TimesOf(rtt, rtt.lookup[x])) else ScheduledTimes(rtt.tt, x);
      var states := if x in old(rtt.lookup) then old(rtt.rtStates[rtt.lookup[x]]) else FreshStates(|times|);
      var cover := if x in old(rtt.lookup) then old(rtt.coverage) else old(rtt.coverage).Hull(StaticInterval(rtt.tt, x));
      var q := Outcome(c, Trip(Some(ScheduledTimes(rtt.tt, x)), rtt.RtInterval(), clockZero), times, states, cover, c.to);
      && IsSmoothed(q.times, q.states, TimesOf(rtt, copy.value), rtt.rtStates[copy.value])
      && rtt.cancelled[copy.value] == (Served(rtt.rtStops[copy.value]) <= 1)
      && rtt.coverage == CoverAfter(rtt, copy.value, q.cover, Some(x), Served(rtt.rtStops[copy.value]) <= 1)
  {
    hide RtTimetable.ActiveExact, RtTimetable.RemovedCovered, RtTimetable.StoredCovered;
    hide TimesOf, Outcome, IsSmoothed, Served, InRtInterval, ScheduledTimes, StopsApplied;
    copy := EnsureCopy(rtt, x);
    if copy.Some? {
      var tr := Trip(Some(ScheduledTimes(rtt.tt, x)), rtt.RtInterval(), clockZero);
      ApplyUpdate(rtt, copy.value, tr, c, Some(x));
    }
  }

  // ---------- a replacement trip ----------

  /** The update of a replacement trip with two stops: the first entry has an arrival
      time and a departure without data, the second one an arrival time. */
  function ReplacementUpdate(stops: seq<Stop>, first: int, second: int): Context {
    Context(["A", "B"], map["A" := 0, "B" := 1], [[], []], stops, [0, 1], false, 0, 2,
            [StopTimeUpdate(Scheduled, None, Some("A"), None, Some(TimeEvent(None, Some(first))), Some(TimeEvent(None, None))),
             StopTimeUpdate(Scheduled, None, Some("B"), None, Some(TimeEvent(None, Some(second))), None)])
  }

  /** Each of the two entries names its own stop. */
  ghost predicate EntriesInTurn(c: Context) {
    && ContextOk(c) && !c.scheduled && c.from == 0 && c.to == 2 && |c.stops| == 2 && |c.stus| == 2
    && (forall s :: 0 <= s < 2 ==>
          c.stus[s].stopId == Some(IdAt(c, s)) && c.stus[s].assignedId == None && c.stus[s].relationship == Scheduled)
  }

  lemma UsedInTurn(c: Context)
    requires EntriesInTurn(c)
    ensures EntryAt(c, 0) == Some(c.stus[0]) && EntryAt(c, 1) == Some(c.stus[1])
    ensures forall s :: 0 <= s < 2 ==> !ChangesTrack(c, s, c.stus[s]) && !RejectedAt(c, s)
  {
    assert StandsFor(c, c.stus[0], 0, 0) && StandsFor(c, c.stus[1], 1, 1);
    hide StandsFor;
    assert Cursor(c, 0, 0) == 0 && Matched(c, 0, 0);
    assert CursorBefore(c, 1) == 1;
    assert Cursor(c, 1, 1) == 1 && Matched(c, 1, 1);
  }

  lemma UpdateFits(c: Context, stops: seq<Stop>, first: int, second: int)
    requires |stops| == 2 && stops[0].location == 0 && stops[1].location == 1 && c == ReplacementUpdate(stops, first, second)
    ensures EntriesInTurn(c)
    ensures c.stus[0].departure == Some(TimeEvent(None, None)) && c.stus[1].departure == None
    ensures c.stus[1].arrival == Some(TimeEvent(None, Some(second)))
  {
  }

  /** The first event of the trip is told nothing. */
  lemma FirstEventIsSilent(c: Context, stops: seq<Stop>, first: int, second: int)
    requires |stops| == 2 && stops[0].location == 0 && stops[1].location == 1 && c == ReplacementUpdate(stops, first, second)
    ensures ContextOk(c) && Commands(c, 2) == [At(0, Silent), At(1, OwnData(TimeEvent(None, Some(second))))]
    ensures EntryAt(c, 0) == Some(c.stus[0]) && EntryAt(c, 1) == Some(c.stus[1])
    ensures !ChangesTrack(c, 0, c.stus[0]) && !ChangesTrack(c, 1, c.stus[1])
  {
    UpdateFits(c, stops, first, second);
    UsedInTurn(c);
    hide ReplacementUpdate, EntryAt, ContextOk, RejectedAt;
    assert Commands(c, 1) == EventsAt(0, 2, 0, EntryAt(c, 0)) == [At(0, Silent)];
    assert Commands(c, 2) == Commands(c, 1) + EventsAt(0, 2, 1, EntryAt(c, 1));
  }

  lemma FirstEventStays(c: Context, tr: Trip, times: seq<int>, states: seq<DataState>, cover: Interval, second: int)
    requires FitsRun(c, tr, 2) && |times| == |states| == 2 && tr.sched == None && c.from == 0 && c.to == 2
    requires Commands(c, 2) == [At(0, Silent), At(1, OwnData(TimeEvent(None, Some(second))))]
    requires var t := TruncDiv(second, 60) + tr.clockZero; times[0] <= t && tr.storable.Contains(t)
    ensures var q, t := Outcome(c, tr, times, states, cover, 2), TruncDiv(second, 60) + tr.clockZero;
      q.times == [times[0], t] && q.cover == cover.Extend(t)
  {
    hide Fold, Commands, ContextOk;
    var p, ev := Progress(None, false, times, states, cover), TimeEvent(None, Some(second));
    CommandsFit(c, tr, p, 2);
    FoldShort(tr, p, At(0, Silent), At(1, OwnData(ev)));
    assert Commands(c, 2) == [At(0, Silent)] + [At(1, OwnData(ev))];
    assert Step(tr, p, At(0, Silent)) == p;
    OwnTimeStep(tr, p, ev);
  }

  lemma OwnTimeStep(tr: Trip, p: Progress, ev: TimeEvent)
    requires |p.times| == |p.states| == 2 && tr.sched == None && p.pred == None && ev.delay == None
    requires p.times[0] <= NamedTime(tr, ev) && tr.storable.Contains(NamedTime(tr, ev))
    ensures var q := Step(tr, p, At(1, OwnData(ev)));
      q.times == [p.times[0], NamedTime(tr, ev)] && q.cover == p.cover.Extend(NamedTime(tr, ev))
  {
    hide NamedTime, Interval.Extend, Interval.Contains;
  }

  lemma BothStopsStay(c: Context, stops: seq<Stop>, stops': seq<Stop>, first: int, second: int)
    requires |stops| == 2 && stops[0].location == 0 && stops[1].location == 1 && c == ReplacementUpdate(stops, first, second)
    requires ContextOk(c) && StopsApplied(c, 2, stops, stops') && forall s :: 0 <= s < 2 ==> !IsCancelled(stops[s])
    ensures Served(stops') == 2
  {
    FirstEventIsSilent(c, stops, first, second);
    assert stops'[0] == stops[0] && stops'[1] == stops[1];
    assert Served(stops'[..1]) == Served(stops'[..0]) + 1 && stops'[..1][..0] == stops'[..0];
    assert stops'[..|stops'| - 1] == stops'[..1];
  }

  /** One scheduled run of two events on the base day. */
  function OneRun(baseDay: nat, stops: seq<Stop>): Schedule {
    Schedule([0], [{baseDay}], [stops], [[60, 70]])
  }

  /** The replacement as it is added, with zero times. */
  method AddReplacement(baseDay: nat, stops: seq<Stop>) returns (rtt: RtTimetable, r: nat)
    requires |stops| == 2
    ensures fresh(rtt) && rtt.Valid() && rtt.baseDay == baseDay && |rtt.bitfields| <= 1
    ensures r < |rtt.rtTimes| && r < |rtt.rtStops| && rtt.rtStops[r] == stops && |rtt.rtTimes[r]| == 2
    ensures TimesOf(rtt, r) == [baseDay * 1440, baseDay * 1440]
    ensures rtt.coverage == Interval(baseDay * 1440 + 60, baseDay * 1440 + 71)
  {
    hide RtTimetable.ActiveExact, RtTimetable.LookupOk, RtTimetable.RemovedCovered, RtTimetable.StoredCovered;
    rtt := new RtTimetable(OneRun(baseDay, stops), baseDay);
    r := rtt.AddRtTransport(Some(Transport(0, baseDay)), false, stops, [0, 0]);
    assert StaticInterval(rtt.tt, Transport(0, baseDay)) == Interval(baseDay * 1440 + 60, baseDay * 1440 + 71);
  }

  /** A replacement trip starts with zero times. If its first entry has an arrival time
      and a departure without data, the first event stays at midnight of the base day,
      which no interval test against the coverage reveals. */
  method ReplacementEscapes(baseDay: nat) returns (rtt: RtTimetable, iv: Interval)
    ensures fresh(rtt) && rtt.Valid() && !rtt.Affects(iv, false) && !rtt.SameEvents(iv)
  {
    hide RtTimetable.ActiveExact, RtTimetable.LookupOk, RtTimetable.RemovedCovered, RtTimetable.StoredCovered;
    hide Served, StopsApplied, Outcome, Commands, ReplacementUpdate, ContextOk, TimesOf, ScheduleOk, RtTimetable.PointersOk;
    var stops, midnight := [Stop(0, true, true, false, false), Stop(1, true, true, false, false)], baseDay * 1440;
    var r;
    rtt, r := AddReplacement(baseDay, stops);
    var first, second := (midnight + 60) * 60, (midnight + 70) * 60;
    var c, tr := ReplacementUpdate(stops, first, second), Trip(None, rtt.RtInterval(), 0);
    FirstEventIsSilent(c, stops, first, second);
    ReplacementFits(c, tr, stops, first, second);
    FirstEventStays(c, tr, TimesOf(rtt, r), rtt.rtStates[r], rtt.coverage, second);
    ghost var q := Outcome(c, tr, TimesOf(rtt, r), rtt.rtStates[r], rtt.coverage, 2);
    ApplyUpdate(rtt, r, tr, c, None);
    BothStopsStay(c, stops, rtt.rtStops[r], first, second);
    iv := Interval(midnight, midnight + 1);
    assert TimesOf(rtt, r)[0] == Latest(q.times, 1) == midnight;
    FirstEventIn(rtt, r, iv);
  }

  lemma ReplacementFits(c: Context, tr: Trip, stops: seq<Stop>, first: int, second: int)
    requires |stops| == 2 && c == ReplacementUpdate(stops, first, second) && ContextOk(c) && tr.sched == None
    ensures FitsRun(c, tr, 2) && c.from == 0 && c.to == 2 && |c.stops| == 2
  {
  }

  lemma FirstEventIn(rtt: RtTimetable, r: nat, iv: Interval)
    requires rtt.Valid() && r < |rtt.rtTimes| && |rtt.rtTimes[r]| > 0 && iv.Contains(TimesOf(rtt, r)[0])
    ensures !rtt.SameEvents(iv)
  {
    assert rtt.RtEventIn(iv, r, 0);
  }
}
