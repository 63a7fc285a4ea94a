/** What a trip update does to a run, said of the fields of its entries: which part of
    an entry reaches which event, and what becomes of a stop. */
module UpdateLaws {
  import opened Basics
  import opened DelayPropagation
  import opened GtfsrtUpdate
  import opened Intervals
  import opened RealTime
  import opened UpdateMatching

  /** Part of an entry that names a time or a delay. */
  predicate Gives(part: Option<TimeEvent>) {
    part.Some? && (part.value.delay.Some? || part.value.time.Some?)
  }

  /** Stop `s` takes entry `u`, which has real-time data. */
  ghost predicate Takes(c: Context, s: nat, u: nat)
    requires ContextOk(c) && c.from <= s < c.to
  {
    ConsumedAt(c, s, u) && c.stus[u].relationship != NoData
  }

  /** The time that data name for event `k`: a delay counts from the schedule, else the
      time itself counts; seconds are cut off to minutes. */
  function Named(tr: Trip, k: nat, ev: TimeEvent): int
    requires tr.sched.Some? ==> k < |tr.sched.value|
  {
    if ev.delay.Some? && tr.sched.Some? then tr.sched.value[k] + TruncDiv(ev.delay.value, 60)
    else TruncDiv(if ev.time.Some? then ev.time.value else 0, 60) + tr.clockZero
  }

  /** Event `k` has become the later of `before` and `wanted`, marked by `state` unless
      `before` is later; it keeps what it had if that time cannot be stored. */
  ghost predicate Becomes(tr: Trip, q: Progress, k: nat, before: int, wanted: int, state: DataState, time0: int, state0: DataState)
    requires k < |q.times| == |q.states|
  {
    var due := if before <= wanted then wanted else before;
    if tr.storable.Contains(due)
    then q.times[k] == due && q.states[k] == (if due == wanted then state else Inconsistent)
    else q.times[k] == time0 && q.states[k] == state0
  }

  /** A run that an update is applied to: what is matched, its schedule, and the times,
      states and coverage that the update finds. */
  datatype UpdatedRun = UpdatedRun(c: Context, tr: Trip, times: seq<int>, states: seq<DataState>, cover: Interval) {
    ghost predicate Ok() {
      FitsRun(c, tr, |times|) && |states| == |times|
    }

    /** What the fold has made of it after the stops before `s`. */
    ghost function After(s: nat): (q: Progress)
      requires Ok() && c.from <= s <= c.to
      ensures ProgressOk(tr, q) && |q.times| == |q.states| == |times|
    {
      Outcome(c, tr, times, states, cover, s)
    }

    ghost function Final(): (q: Progress)
      requires Ok()
      ensures ProgressOk(tr, q) && |q.times| == |q.states| == |times|
    {
      After(c.to)
    }

    lemma AtStart()
      requires Ok()
      ensures After(c.from) == Progress(None, false, times, states, cover)
    {
      OutcomeAtStart(c, tr, times, states, cover);
    }

    lemma NextStop(s: nat)
      requires Ok() && c.from <= s < c.to
      ensures RejectedAt(c, s) ==> After(s + 1) == After(s)
      ensures !RejectedAt(c, s) ==> var es := EventsAt(c.from, c.to, s, EntryAt(c, s));
        CommandsOk(After(s), es) && After(s + 1) == Fold(tr, After(s), es)
    {
      hide Outcome, EventsAt, EntryAt, RejectedAt, Fold;
      OutcomeStep(c, tr, times, states, cover, s);
    }

    lemma RunSize()
      requires Ok()
      ensures ContextOk(c) && c.from + 1 < c.to <= |c.stops| && |times| == |states| == 2 * |c.stops| - 2
      ensures tr.sched.Some? ==> |tr.sched.value| == |times|
    {
    }
  }

  lemma BecomesToo(tr: Trip, q: Progress, q': Progress, k: nat, before: int, wanted: int, state: DataState, time0: int, state0: DataState)
    requires k < |q.times| == |q.states| && k < |q'.times| == |q'.states|
    requires q'.times[k] == q.times[k] && q'.states[k] == q.states[k]
    requires Becomes(tr, q, k, before, wanted, state, time0, state0)
    ensures Becomes(tr, q', k, before, wanted, state, time0, state0)
  {
  }

  // ---------- from one stop to the next ----------

  lemma {:induction false} FoldStaysWithin(tr: Trip, p: Progress, ecs: seq<EventCommand>, k: nat)
    requires ProgressOk(tr, p) && CommandsOk(p, ecs) && k < |p.times| && forall e :: e in ecs ==> e.k != k
    ensures Fold(tr, p, ecs).times[k] == p.times[k] && Fold(tr, p, ecs).states[k] == p.states[k]
  {
    forall i | 0 <= i < |ecs| ensures ecs[i].k != k {
      assert ecs[i] in ecs;
    }
    FoldIsLocal(tr, p, ecs, k);
  }

  /** A stop touches no events but its own two, and none if its entry is rejected. */
  lemma StopIsLocal(r: UpdatedRun, s: nat, k: nat)
    requires r.Ok() && r.c.from <= s < r.c.to && k < |r.times|
    requires RejectedAt(r.c, s) || !(2 * s - 1 <= k <= 2 * s)
    ensures var p, q := r.After(s), r.After(s + 1);
      q.times[k] == p.times[k] && q.states[k] == p.states[k]
  {
    hide Fold, Commands, ContextOk, UpdatedRun.After;
    r.NextStop(s);
    if !RejectedAt(r.c, s) {
      EventsAtShape(r.c.from, r.c.to, s, EntryAt(r.c, s));
      FoldStaysWithin(r.tr, r.After(s), EventsAt(r.c.from, r.c.to, s, EntryAt(r.c, s)), k);
    }
  }

  /** Events that the stops from `s` up to `t` do not own stay as they are. */
  lemma {:induction false} StopsAreLocal(r: UpdatedRun, s: nat, t: nat, k: nat)
    requires r.Ok() && r.c.from <= s <= t <= r.c.to && k < |r.times|
    requires forall x :: s <= x < t ==> RejectedAt(r.c, x) || !(2 * x - 1 <= k <= 2 * x)
    ensures var p, q := r.After(s), r.After(t);
      q.times[k] == p.times[k] && q.states[k] == p.states[k]
    decreases t
  {
    hide UpdatedRun.After, ContextOk, RejectedAt;
    if s < t {
      StopsAreLocal(r, s, t - 1, k);
      StopIsLocal(r, t - 1, k);
    }
  }

  /** What stop `s` leaves its events at is what they are after the whole run; before
      it they are as they were. */
  lemma EventsAreFinal(r: UpdatedRun, s: nat, k: nat)
    requires r.Ok() && r.c.from <= s < r.c.to && k < |r.times|
    ensures k <= 2 * s ==>
      var p, q := r.After(s + 1), r.Final();
      q.times[k] == p.times[k] && q.states[k] == p.states[k]
    ensures 2 * s - 1 <= k ==>
      var p := r.After(s); p.times[k] == r.times[k] && p.states[k] == r.states[k]
  {
    hide UpdatedRun.After, ContextOk, RejectedAt;
    r.AtStart();
    if k <= 2 * s {
      StopsAreLocal(r, s + 1, r.c.to, k);
    }
    if 2 * s - 1 <= k {
      StopsAreLocal(r, r.c.from, s, k);
    }
  }

  /** A stop whose entry is rejected keeps its events. */
  lemma RejectedStopKeepsEvents(r: UpdatedRun, s: nat, k: nat)
    requires r.Ok() && r.c.from <= s < r.c.to && RejectedAt(r.c, s)
    requires k < |r.times| && 2 * s - 1 <= k <= 2 * s
    ensures var q := r.Final(); q.times[k] == r.times[k] && q.states[k] == r.states[k]
  {
    hide UpdatedRun.After, ContextOk, RejectedAt;
    EventsAreFinal(r, s, k);
    StopIsLocal(r, s, k);
  }

  // ---------- a stop that is handled ----------

  /** What the arrival of a stop is told, and its departure. */
  ghost function ToldArrival(c: Context, s: nat): Command
    requires ContextOk(c) && c.from <= s < c.to
  {
    CommandFor(EntryAt(c, s), ArrivalOf(EntryAt(c, s)))
  }

  ghost function ToldDeparture(c: Context, s: nat): Command
    requires ContextOk(c) && c.from <= s < c.to
  {
    var entry := EntryAt(c, s);
    if ArrivalStandsIn(s, entry) then OwnData(entry.value.arrival.value) else CommandFor(entry, DepartureOf(entry))
  }

  lemma CommandsOfStop(c: Context, s: nat)
    requires ContextOk(c) && c.from <= s < c.to && c.from + 1 < c.to
    ensures EventsAt(c.from, c.to, s, EntryAt(c, s)) ==
      if s == c.from then [At(2 * s, ToldDeparture(c, s))]
      else if s + 1 == c.to then [At(2 * s - 1, ToldArrival(c, s))]
      else [At(2 * s - 1, ToldArrival(c, s))] + [At(2 * s, ToldDeparture(c, s))]
  {
    hide EntryAt, CommandFor, Offers;
  }

  /** The two events of a stop as the fold is told about them, in order. */
  lemma StopSteps(r: UpdatedRun, s: nat)
    returns (p: Progress, mid: Progress, q: Progress)
    requires r.Ok() && r.c.from <= s < r.c.to && !RejectedAt(r.c, s)
    ensures p == r.After(s) && q == r.After(s + 1)
    ensures ProgressOk(r.tr, p) && |p.times| == |r.times| && ProgressOk(r.tr, mid) && |mid.times| == |mid.states| == |r.times|
    ensures mid == (if s == r.c.from then p else Step(r.tr, p, At(2 * s - 1, ToldArrival(r.c, s))))
    ensures q == (if s + 1 == r.c.to then mid else Step(r.tr, mid, At(2 * s, ToldDeparture(r.c, s))))
  {
    hide Step, Fold, Commands, ContextOk, UpdatedRun.After, ToldArrival, ToldDeparture, EventsAt;
    r.NextStop(s);
    p, q := r.After(s), r.After(s + 1);
    r.RunSize();
    CommandsOfStop(r.c, s);
    var arrival := At(if s == r.c.from then 0 else 2 * s - 1, ToldArrival(r.c, s));
    var departure := At(if s + 1 == r.c.to then 0 else 2 * s, ToldDeparture(r.c, s));
    mid := if s == r.c.from then p else Step(r.tr, p, arrival);
    if s == r.c.from {
      FoldShort(r.tr, p, departure, departure);
    } else {
      FoldShort(r.tr, p, arrival, departure);
    }
  }

  /** Data of its own, seen at one event. */
  lemma OwnStep(tr: Trip, p: Progress, k: nat, ev: TimeEvent)
    requires ProgressOk(tr, p) && k < |p.times|
    ensures var q := Step(tr, p, At(k, OwnData(ev)));
      Becomes(tr, q, k, Floor(tr, p, k), Named(tr, k, ev), Predicted, p.times[k], p.states[k])
  {
  }

  /** Right after the event before it, an event is bounded by that event's time. */
  lemma FloorIsBefore(tr: Trip, p: Progress, ec: EventCommand)
    requires ProgressOk(tr, p) && InRange(p, ec) && ec.k + 1 < |p.times|
    ensures var q := Step(tr, p, ec); Floor(tr, q, ec.k + 1) == q.times[ec.k]
  {
    PendingIsStored(tr, p, ec);
  }

  lemma {:induction false} NothingPendingAtStart(r: UpdatedRun)
    requires r.Ok()
    ensures var p := r.After(r.c.from);
      p.pred == None && !p.noData && p.times == r.times && p.states == r.states
  {
    r.AtStart();
  }

  lemma TakenEntry(c: Context, s: nat, u: nat)
    requires ContextOk(c) && c.from <= s < c.to && Takes(c, s, u)
    ensures u < |c.stus| && EntryAt(c, s) == Some(c.stus[u]) && !RejectedAt(c, s) && c.stus[u].relationship != NoData
  {
  }

  /** Right before the departure of a stop (`mid`) it is as it was before the update,
      and what bounds it is the arrival before it. */
  lemma BeforeDeparture(r: UpdatedRun, s: nat,
                        p: Progress, mid: Progress, arrival: Command)
    requires r.Ok() && r.c.from <= s && s + 1 < r.c.to && ProgressOk(r.tr, p)
    requires p == r.After(s) && |p.times| == |r.times| && 2 * s < |r.times|
    requires mid == if s == r.c.from then p else Step(r.tr, p, At(2 * s - 1, arrival))
    ensures |mid.times| == |r.times| == |mid.states| && ProgressOk(r.tr, mid)
    ensures mid.times[2 * s] == r.times[2 * s] && mid.states[2 * s] == r.states[2 * s]
    ensures Floor(r.tr, mid, 2 * s) == if s == 0 then r.tr.clockZero else mid.times[2 * s - 1]
  {
    hide Step, UpdatedRun.After, ContextOk, UpdatedRun.Ok;
    EventsAreFinal(r, s, 2 * s);
    if s == r.c.from {
      NothingPendingAtStart(r);
    } else {
      FloorIsBefore(r.tr, p, At(2 * s - 1, arrival));
      StepIsLocal(r.tr, p, At(2 * s - 1, arrival));
    }
  }

  /** What a stop is told that takes an entry with data. */
  lemma ToldIs(c: Context, s: nat, u: nat)
    requires ContextOk(c) && c.from <= s < c.to && Takes(c, s, u)
    ensures u < |c.stus| && !RejectedAt(c, s)
    ensures (Gives(c.stus[u].arrival) ==> c.stus[u].arrival.Some?) && (Gives(c.stus[u].departure) ==> c.stus[u].departure.Some?)
    ensures ToldArrival(c, s) == if Gives(c.stus[u].arrival) then OwnData(c.stus[u].arrival.value) else Silent
    ensures Gives(c.stus[u].departure) ==> ToldDeparture(c, s) == OwnData(c.stus[u].departure.value)
    ensures s > 0 && !Gives(c.stus[u].departure) ==> ToldDeparture(c, s) == Silent
  {
    TakenEntry(c, s, u);
    hide EntryAt, RejectedAt, ContextOk;
  }

  /** After its departure the events of a stop are final. */
  lemma AfterDeparture(r: UpdatedRun, s: nat,
                       mid: Progress, q1: Progress, departure: Command)
    requires r.Ok() && r.c.from <= s && s + 1 < r.c.to && ProgressOk(r.tr, mid)
    requires |mid.times| == |r.times| && 2 * s < |r.times|
    requires q1 == r.After(s + 1) && q1 == Step(r.tr, mid, At(2 * s, departure))
    ensures var q := r.Final();
      && |q1.times| == |q1.states| == |r.times| && q.times[2 * s] == q1.times[2 * s] && q.states[2 * s] == q1.states[2 * s]
      && (s > 0 ==> q.times[2 * s - 1] == mid.times[2 * s - 1] && q.states[2 * s - 1] == mid.states[2 * s - 1])
  {
    hide Step, UpdatedRun.After, ContextOk, UpdatedRun.Ok;
    StepIsLocal(r.tr, mid, At(2 * s, departure));
    EventsAreFinal(r, s, 2 * s);
    if s > 0 {
      EventsAreFinal(r, s, 2 * s - 1);
    }
  }

  // ---------- the laws ----------

  /** A departure with data in the entry that its stop takes becomes the later of the
      arrival before it and the time that its own data name. */
  lemma DepartureTakesItsData(r: UpdatedRun, s: nat, u: nat)
    requires r.Ok() && r.c.from <= s && s + 1 < r.c.to
    requires Takes(r.c, s, u) && Gives(r.c.stus[u].departure)
    ensures Becomes(r.tr, r.Final(), 2 * s, if s == 0 then r.tr.clockZero else r.Final().times[2 * s - 1],
                    Named(r.tr, 2 * s, r.c.stus[u].departure.value), Predicted, r.times[2 * s], r.states[2 * s])
  {
    TakenEntry(r.c, s, u);
    r.RunSize();
    hide Step, UpdatedRun.After, ContextOk, UpdatedRun.Ok, Named, Takes, EntryAt, RejectedAt, Floor;
    assert ToldDeparture(r.c, s) == OwnData(r.c.stus[u].departure.value);
    hide ToldArrival, ToldDeparture;
    var p, mid, q := StopSteps(r, s);
    BeforeDeparture(r, s, p, mid, ToldArrival(r.c, s));
    AfterDeparture(r, s, mid, q, OwnData(r.c.stus[u].departure.value));
    OwnStep(r.tr, mid, 2 * s, r.c.stus[u].departure.value);
  }

  /** An arrival that is not at the first stop, as it is in the end. */
  lemma ArrivalIsFinal(r: UpdatedRun, s: nat,
                       p: Progress, mid: Progress)
    requires r.Ok() && r.c.from < s < r.c.to && !RejectedAt(r.c, s) && ProgressOk(r.tr, p)
    requires p == r.After(s) && |p.times| == |r.times| && 2 * s - 1 < |r.times|
    requires mid == Step(r.tr, p, At(2 * s - 1, ToldArrival(r.c, s)))
    ensures |mid.times| == |mid.states| == |r.times|
    ensures p.times[2 * s - 1] == r.times[2 * s - 1] && p.states[2 * s - 1] == r.states[2 * s - 1]
    ensures r.Final().times[2 * s - 1] == mid.times[2 * s - 1] && r.Final().states[2 * s - 1] == mid.states[2 * s - 1]
  {
    hide *;
    r.RunSize();
    EventsAreFinal(r, s, 2 * s - 1);
    var _, mid', q := StopSteps(r, s);
    if s + 1 < r.c.to {
      AfterDeparture(r, s, mid, q, ToldDeparture(r.c, s));
    }
  }

  /** What bounds the event after a departure is that departure, if its stop was not
      rejected. */
  lemma DepartureBounds(r: UpdatedRun, s: nat)
    requires r.Ok() && r.c.from <= s && s + 1 < r.c.to && !RejectedAt(r.c, s)
    ensures var p, q := r.After(s + 1), r.Final();
      2 * s + 1 < |r.times| && Floor(r.tr, p, 2 * s + 1) == p.times[2 * s] && q.times[2 * s] == p.times[2 * s]
  {
    r.RunSize();
    hide Step, UpdatedRun.After, ContextOk, UpdatedRun.Ok, RejectedAt, ToldArrival, ToldDeparture, Floor;
    EventsAreFinal(r, s, 2 * s);
    var _, mid, q := StopSteps(r, s);
    FloorIsBefore(r.tr, mid, At(2 * s, ToldDeparture(r.c, s)));
  }

  /** The same for the arrival at the next stop: the later of the departure before and the
      time named. If the entry of stop `s` was rejected, the last event handled bounds it. */
  lemma ArrivalTakesItsData(r: UpdatedRun, s: nat, u: nat)
    requires r.Ok() && r.c.from <= s && s + 1 < r.c.to
    requires Takes(r.c, s + 1, u) && Gives(r.c.stus[u].arrival)
    ensures Becomes(r.tr, r.Final(), 2 * s + 1,
                    if RejectedAt(r.c, s) then Floor(r.tr, r.After(s + 1), 2 * s + 1) else r.Final().times[2 * s],
                    Named(r.tr, 2 * s + 1, r.c.stus[u].arrival.value), Predicted, r.times[2 * s + 1], r.states[2 * s + 1])
  {
    hide *;
    r.RunSize();
    if !RejectedAt(r.c, s) {
      DepartureBounds(r, s);
    }
    ToldIs(r.c, s + 1, u);
    var p, mid, q := StopSteps(r, s + 1);
    ArrivalIsFinal(r, s + 1, p, mid);
    OwnStep(r.tr, p, 2 * s + 1, r.c.stus[u].arrival.value);
    BecomesToo(r.tr, mid, r.Final(), 2 * s + 1, Floor(r.tr, p, 2 * s + 1), Named(r.tr, 2 * s + 1, r.c.stus[u].arrival.value),
               Predicted, r.times[2 * s + 1], r.states[2 * s + 1]);
  }

  /** At the very first stop the arrival's data stand in for a departure that is absent. */
  lemma FirstDepartureTakesArrival(r: UpdatedRun, u: nat)
    requires r.Ok() && r.c.from == 0
    requires Takes(r.c, 0, u) && Gives(r.c.stus[u].arrival) && r.c.stus[u].departure.None?
    ensures |r.times| > 0 && Becomes(r.tr, r.Final(), 0, r.tr.clockZero,
                                   Named(r.tr, 0, r.c.stus[u].arrival.value), Predicted, r.times[0], r.states[0])
  {
    TakenEntry(r.c, 0, u);
    r.RunSize();
    var ev := r.c.stus[u].arrival.value;
    hide Step, UpdatedRun.After, ContextOk, UpdatedRun.Ok, Named, Takes, EntryAt, RejectedAt;
    assert ToldDeparture(r.c, 0) == OwnData(ev);
    hide ToldArrival, ToldDeparture;
    var p, mid, q := StopSteps(r, 0);
    BeforeDeparture(r, 0, p, mid, Silent);
    AfterDeparture(r, 0, mid, q, OwnData(ev));
    OwnStep(r.tr, mid, 0, ev);
  }

  // ---------- events without data of their own ----------

  lemma QuietStop(c: Context, s: nat)
    requires ContextOk(c) && c.from <= s < c.to && UsedAt(c, s) == None
    ensures !RejectedAt(c, s) && ToldArrival(c, s) == Silent && ToldDeparture(c, s) == Silent
  {
  }

  lemma SilentKeepsDelay(tr: Trip, p: Progress, k: nat, before: int, delay: int)
    requires ProgressOk(tr, p) && k < |p.times| && tr.sched.Some? && p.pred == Some(Pred(before, delay))
    ensures var q := Step(tr, p, At(k, Silent));
      && Becomes(tr, q, k, before, tr.sched.value[k] + delay, Propagated, p.times[k], p.states[k])
      && q.pred == Some(Pred(q.times[k], delay))
  {
  }

  /** A delay comes into stop `t`, which no entry is for: both events are delayed by it,
      and it goes on. */
  lemma DelayThroughStop(r: UpdatedRun, t: nat, delay: int)
    requires r.Ok() && r.c.from < t < r.c.to && UsedAt(r.c, t) == None && r.tr.sched.Some?
    requires 2 * t - 1 < |r.times| == |r.tr.sched.value|
    requires var p := r.After(t); p.pred == Some(Pred(p.times[2 * t - 2], delay))
    ensures Becomes(r.tr, r.Final(), 2 * t - 1, r.After(t).times[2 * t - 2], r.tr.sched.value[2 * t - 1] + delay, Propagated,
                    r.times[2 * t - 1], r.states[2 * t - 1])
    ensures t + 1 < r.c.to ==> 2 * t < |r.times|
    ensures t + 1 < r.c.to ==>
      Becomes(r.tr, r.Final(), 2 * t, r.Final().times[2 * t - 1], r.tr.sched.value[2 * t] + delay, Propagated, r.times[2 * t], r.states[2 * t])
    ensures t + 1 < r.c.to ==> r.Final().times[2 * t] == r.After(t + 1).times[2 * t]
    ensures t + 1 < r.c.to ==> r.After(t + 1).pred == Some(Pred(r.Final().times[2 * t], delay))
  {
    hide *;
    r.RunSize();
    QuietStop(r.c, t);
    var p, mid, q := StopSteps(r, t);
    SilentKeepsDelay(r.tr, p, 2 * t - 1, p.times[2 * t - 2], delay);
    ArrivalIsFinal(r, t, p, mid);
    BecomesToo(r.tr, mid, r.Final(), 2 * t - 1, p.times[2 * t - 2], r.tr.sched.value[2 * t - 1] + delay, Propagated,
               r.times[2 * t - 1], r.states[2 * t - 1]);
    if t + 1 < r.c.to {
      SilentKeepsDelay(r.tr, mid, 2 * t, mid.times[2 * t - 1], delay);
      BeforeDeparture(r, t, p, mid, Silent);
      AfterDeparture(r, t, mid, q, Silent);
      BecomesToo(r.tr, q, r.Final(), 2 * t, mid.times[2 * t - 1], r.tr.sched.value[2 * t] + delay, Propagated,
                 r.times[2 * t], r.states[2 * t]);
    }
  }

  /** The delay that data of an event's own start with, given what the event became. */
  function DelayOf(tr: Trip, k: nat, ev: TimeEvent, newTime: int): int
    requires tr.sched.Some? && k < |tr.sched.value|
  {
    if ev.delay.Some? then TruncDiv(ev.delay.value, 60) else newTime - tr.sched.value[k]
  }

  lemma OwnDataPends(tr: Trip, p: Progress, k: nat, ev: TimeEvent)
    requires ProgressOk(tr, p) && k < |p.times| && tr.sched.Some?
    ensures Step(tr, p, At(k, OwnData(ev))).pred ==
      Some(Pred(Step(tr, p, At(k, OwnData(ev))).times[k], DelayOf(tr, k, ev, Step(tr, p, At(k, OwnData(ev))).times[k])))
  {
  }

  /** A departure with data of its own leaves its delay pending, through all stops that no
      entry is for. */
  lemma {:induction false} DelayPends(r: UpdatedRun, s: nat, u: nat, t: nat)
    requires r.Ok() && r.tr.sched.Some? && |r.tr.sched.value| == |r.times|
    requires r.c.from <= s <= t && t + 1 < r.c.to && Takes(r.c, s, u) && Gives(r.c.stus[u].departure)
    requires forall x :: s < x <= t ==> UsedAt(r.c, x) == None
    ensures 2 * t < |r.times| && r.Final().times[2 * t] == r.After(t + 1).times[2 * t]
    ensures r.After(t + 1).pred ==
      Some(Pred(r.Final().times[2 * t], DelayOf(r.tr, 2 * s, r.c.stus[u].departure.value, r.Final().times[2 * s])))
    decreases t
  {
    hide *;
    r.RunSize();
    ToldIs(r.c, s, u);
    if t == s {
      var p, mid, q := StopSteps(r, s);
      OwnDataPends(r.tr, mid, 2 * s, r.c.stus[u].departure.value);
      EventsAreFinal(r, s, 2 * s);
    } else {
      DelayPends(r, s, u, t - 1);
      DelayThroughStop(r, t, DelayOf(r.tr, 2 * s, r.c.stus[u].departure.value, r.Final().times[2 * s]));
    }
  }

  /** The delay of a departure travels on: at each following stop, until one has an entry,
      both events become the later of the event before and the schedule plus that delay. */
  lemma DelayTravelsOn(r: UpdatedRun, s: nat, u: nat, t: nat)
    requires r.Ok() && r.tr.sched.Some? && |r.tr.sched.value| == |r.times|
    requires r.c.from <= s <= t && t + 1 < r.c.to && Takes(r.c, s, u) && Gives(r.c.stus[u].departure)
    requires forall x :: s < x <= t + 1 ==> UsedAt(r.c, x) == None
    ensures Becomes(r.tr, r.Final(), 2 * t + 1, r.Final().times[2 * t],
                    r.tr.sched.value[2 * t + 1] + DelayOf(r.tr, 2 * s, r.c.stus[u].departure.value, r.Final().times[2 * s]),
                    Propagated, r.times[2 * t + 1], r.states[2 * t + 1])
    ensures t + 2 < r.c.to ==>
      Becomes(r.tr, r.Final(), 2 * t + 2, r.Final().times[2 * t + 1],
              r.tr.sched.value[2 * t + 2] + DelayOf(r.tr, 2 * s, r.c.stus[u].departure.value, r.Final().times[2 * s]),
              Propagated, r.times[2 * t + 2], r.states[2 * t + 2])
  {
    hide *;
    r.RunSize();
    ToldIs(r.c, s, u);
    DelayPends(r, s, u, t);
    DelayThroughStop(r, t + 1, DelayOf(r.tr, 2 * s, r.c.stus[u].departure.value, r.Final().times[2 * s]));
  }

  /** A departure without data of its own follows the data of its stop's arrival. */
  lemma DepartureFollowsArrival(r: UpdatedRun, s: nat, u: nat)
    requires r.Ok() && r.tr.sched.Some? && |r.tr.sched.value| == |r.times|
    requires r.c.from < s && s + 1 < r.c.to && Takes(r.c, s, u) && Gives(r.c.stus[u].arrival) && !Gives(r.c.stus[u].departure)
    ensures Becomes(r.tr, r.Final(), 2 * s, r.Final().times[2 * s - 1],
                    r.tr.sched.value[2 * s] + DelayOf(r.tr, 2 * s - 1, r.c.stus[u].arrival.value, r.Final().times[2 * s - 1]),
                    Propagated, r.times[2 * s], r.states[2 * s])
  {
    hide *;
    r.RunSize();
    ToldIs(r.c, s, u);
    var ev := r.c.stus[u].arrival.value;
    var p, mid, q := StopSteps(r, s);
    OwnDataPends(r.tr, p, 2 * s - 1, ev);
    var delay := DelayOf(r.tr, 2 * s - 1, ev, mid.times[2 * s - 1]);
    SilentKeepsDelay(r.tr, mid, 2 * s, mid.times[2 * s - 1], delay);
    BeforeDeparture(r, s, p, mid, OwnData(ev));
    AfterDeparture(r, s, mid, q, Silent);
    BecomesToo(r.tr, q, r.Final(), 2 * s, mid.times[2 * s - 1], r.tr.sched.value[2 * s] + delay, Propagated, r.times[2 * s], r.states[2 * s]);
  }

  // ---------- no data ----------

  /** Nothing is pending, and events fall back to the schedule. */
  ghost predicate FallsBack(p: Progress) {
    p.pred == None && p.noData
  }

  ghost predicate OnSchedule(tr: Trip, q: Progress, k: nat)
    requires tr.sched.Some? && k < |tr.sched.value| == |q.times| == |q.states|
  {
    tr.storable.Contains(tr.sched.value[k]) ==> q.times[k] == tr.sched.value[k] && q.states[k] == NoRtData
  }

  lemma FallBackStep(tr: Trip, p: Progress, k: nat, command: Command)
    requires ProgressOk(tr, p) && k < |p.times| && tr.sched.Some?
    requires command == NoRealTime || (command == Silent && FallsBack(p))
    ensures var q := Step(tr, p, At(k, command)); FallsBack(q) && OnSchedule(tr, q, k)
  {
  }

  lemma OnScheduleToo(tr: Trip, q: Progress, q': Progress, k: nat)
    requires tr.sched.Some? && k < |tr.sched.value| == |q.times| == |q.states| == |q'.times| == |q'.states|
    requires q'.times[k] == q.times[k] && q'.states[k] == q.states[k] && OnSchedule(tr, q, k)
    ensures OnSchedule(tr, q', k)
  {
  }

  /** From a stop whose entry says that there are no data, through all stops that no entry
      is for. */
  lemma {:induction false} FallsBackThrough(r: UpdatedRun, s: nat, u: nat, t: nat)
    requires r.Ok() && r.tr.sched.Some? && |r.tr.sched.value| == |r.times|
    requires r.c.from <= s <= t < r.c.to && ConsumedAt(r.c, s, u) && r.c.stus[u].relationship == NoData
    requires forall x :: s < x <= t ==> UsedAt(r.c, x) == None
    ensures FallsBack(r.After(t + 1))
    ensures t > r.c.from ==> 2 * t - 1 < |r.times| && OnSchedule(r.tr, r.Final(), 2 * t - 1)
    ensures t + 1 < r.c.to ==> 2 * t < |r.times| && OnSchedule(r.tr, r.Final(), 2 * t)
    decreases t
  {
    hide *;
    r.RunSize();
    if t > s {
      FallsBackThrough(r, s, u, t - 1);
      QuietStop(r.c, t);
    } else {
      NoDataStop(r.c, s, u);
    }
    StopFallsBack(r, t, if t > s then Silent else NoRealTime);
  }

  lemma NoDataStop(c: Context, s: nat, u: nat)
    requires ContextOk(c) && c.from <= s < c.to && ConsumedAt(c, s, u) && c.stus[u].relationship == NoData
    ensures !RejectedAt(c, s) && ToldArrival(c, s) == NoRealTime && ToldDeparture(c, s) == NoRealTime
  {
    assert EntryAt(c, s) == Some(c.stus[u]);
    hide UsedAt;
  }

  lemma StopFallsBack(r: UpdatedRun, t: nat, told: Command)
    requires r.Ok() && r.tr.sched.Some? && |r.tr.sched.value| == |r.times|
    requires r.c.from <= t < r.c.to && !RejectedAt(r.c, t) && ToldArrival(r.c, t) == told == ToldDeparture(r.c, t)
    requires told == NoRealTime || (told == Silent && FallsBack(r.After(t)))
    ensures FallsBack(r.After(t + 1))
    ensures t > r.c.from ==> 2 * t - 1 < |r.times| && OnSchedule(r.tr, r.Final(), 2 * t - 1)
    ensures t + 1 < r.c.to ==> 2 * t < |r.times| && OnSchedule(r.tr, r.Final(), 2 * t)
  {
    hide *;
    r.RunSize();
    var p, mid, q := StopSteps(r, t);
    if t > r.c.from {
      FallBackStep(r.tr, p, 2 * t - 1, told);
      ArrivalIsFinal(r, t, p, mid);
      OnScheduleToo(r.tr, mid, r.Final(), 2 * t - 1);
    }
    if t + 1 < r.c.to {
      FallBackStep(r.tr, mid, 2 * t, told);
      BeforeDeparture(r, t, p, mid, told);
      AfterDeparture(r, t, mid, q, told);
      OnScheduleToo(r.tr, q, r.Final(), 2 * t);
    }
  }

  lemma SilenceStep(tr: Trip, p: Progress, k: nat)
    requires ProgressOk(tr, p) && k < |p.times| && p.pred == None && !p.noData
    ensures Step(tr, p, At(k, Silent)) == p
  {
  }

  /** Before the first stop with an entry nothing changes. */
  lemma {:induction false} NothingBeforeFirstEntry(r: UpdatedRun, t: nat)
    requires r.Ok() && r.c.from <= t <= r.c.to
    requires forall x :: r.c.from <= x < t ==> UsedAt(r.c, x) == None
    ensures r.After(t) == Progress(None, false, r.times, r.states, r.cover)
    decreases t
  {
    hide *;
    r.RunSize();
    r.AtStart();
    if t > r.c.from {
      NothingBeforeFirstEntry(r, t - 1);
      QuietStop(r.c, t - 1);
      var p, mid, q := StopSteps(r, t - 1);
      if t - 1 > r.c.from {
        SilenceStep(r.tr, p, 2 * (t - 1) - 1);
      }
      if t < r.c.to {
        SilenceStep(r.tr, mid, 2 * (t - 1));
      }
    }
  }

  // ---------- stops ----------

  /** What becomes of a stop whose entry is `u`: a skipped one can neither be boarded nor
      left; one for which no other location is named is as scheduled; another location
      is taken if it is known and equivalent to the scheduled one, and the rest of the
      stop stays; else the stop stays and so do its events. */
  lemma StopIsAsTold(c: Context, before: seq<Stop>, stops: seq<Stop>, s: nat, u: nat)
    requires ContextOk(c) && c.from <= s < c.to && StopsApplied(c, c.to, before, stops)
    requires UsedAt(c, s) == Some(u) && u < |c.stus|
    ensures var entry, old', new', here := c.stus[u], before[s], stops[s], c.stops[s].location;
      var other := if entry.assignedId.Some? then entry.assignedId else if entry.stopId == Some(c.ids[here]) then None else entry.stopId;
      if entry.relationship == Skipped then
        !RejectedAt(c, s) && new'.location == old'.location
        && !new'.inAllowed && !new'.outAllowed && !new'.inWheelchair && !new'.outWheelchair
      else if other == None then !RejectedAt(c, s) && new' == c.stops[s]
      else if other.value in c.byId && c.byId[other.value] in c.equivalences[here] then
        && !RejectedAt(c, s) && new'.location == c.byId[other.value]
        && new'.inAllowed == old'.inAllowed && new'.outAllowed == old'.outAllowed
        && new'.inWheelchair == old'.inWheelchair && new'.outWheelchair == old'.outWheelchair
      else RejectedAt(c, s) && new' == old'
  {
    assert EntryAt(c, s) == Some(c.stus[u]);
    hide UsedAt;
  }

  lemma OtherStopsStay(c: Context, before: seq<Stop>, stops: seq<Stop>, s: nat)
    requires ContextOk(c) && StopsApplied(c, c.to, before, stops) && s < |before|
    requires c.from <= s < c.to ==> UsedAt(c, s) == None
    ensures stops[s] == before[s]
  {
  }

  /** The number of stops of a run that can still be boarded or left. */
  lemma {:induction false} ServedCounts(stops: seq<Stop>)
    ensures Served(stops) == |set s | 0 <= s < |stops| && (stops[s].inAllowed || stops[s].outAllowed)|
  {
    var open := set s | 0 <= s < |stops| && (stops[s].inAllowed || stops[s].outAllowed);
    if stops != [] {
      var n := |stops| - 1;
      ServedCounts(stops[..n]);
      var front := set s | 0 <= s < n && (stops[..n][s].inAllowed || stops[..n][s].outAllowed);
      assert open == front + (if stops[n].inAllowed || stops[n].outAllowed then {n} else {});
    } else {
      assert open == {};
    }
  }

  /** A run without a copy is refused unless each of its events could be stored a day
      earlier and a day later. */
  lemma RefusedUnlessADayFits(rtt: RtTimetable, x: Transport)
    requires rtt.Valid() && x.idx < |rtt.tt.events| && |rtt.tt.events[x.idx]| > 0
    ensures InRtInterval(rtt, x) <==> forall k :: 0 <= k < |rtt.tt.events[x.idx]| ==>
      rtt.RtInterval().Contains(EventTime(rtt.tt, x, k) - 1440) && rtt.RtInterval().Contains(EventTime(rtt.tt, x, k) + 1440)
  {
    var ev, last := rtt.tt.events[x.idx], |rtt.tt.events[x.idx]| - 1;
    assert forall k :: 0 <= k <= last ==> ev[0] <= ev[k] <= ev[last];
    assert EventTime(rtt.tt, x, 0) <= EventTime(rtt.tt, x, last);
  }
}
