/** The real-time overlay: traffic days that are copied on write, real-time copies
    of transports and the hull of everything that differs from the schedule. */
module RealTime {
  import opened Basics
  import opened Intervals

  /** Bitfield indices with this flag belong to the overlay. */
  const RT_BITFIELD_FLAG := 0x8000_0000

  const MIN_DELTA := -0x8000
  const MAX_DELTA := 0x7FFF

  datatype Transport = Transport(idx: nat, day: nat)

  datatype Stop = Stop(location: nat, inAllowed: bool, outAllowed: bool, inWheelchair: bool, outWheelchair: bool)

  datatype DataState = NoRtData | Inconsistent | Observed | Propagated | Predicted

  /** The static timetable as far as the overlay looks at it: days, stops and event
      times (minutes after midnight of the first day; departure, arrival, ...). */
  datatype Schedule = Schedule(trafficDays: seq<nat>, bitfields: seq<set<nat>>, stops: seq<seq<Stop>>, events: seq<seq<int>>)

  ghost predicate ScheduleOk(tt: Schedule) {
    && |tt.trafficDays| == |tt.stops| == |tt.events|
    && |tt.bitfields| < RT_BITFIELD_FLAG
    && (forall t :: 0 <= t < |tt.trafficDays| ==> tt.trafficDays[t] < |tt.bitfields|)
    && (forall t :: 0 <= t < |tt.stops| ==> |tt.stops[t]| >= 2 && |tt.events[t]| == 2 * |tt.stops[t]| - 2)
    && (forall t, i, j :: 0 <= t < |tt.events| && 0 <= i <= j < |tt.events[t]| ==> tt.events[t][i] <= tt.events[t][j])
  }

  ghost predicate Runs(tt: Schedule, x: Transport)
    requires ScheduleOk(tt)
  {
    x.idx < |tt.trafficDays| && x.day in tt.bitfields[tt.trafficDays[x.idx]]
  }

  /** Scheduled time of event `k` of a transport. */
  function EventTime(tt: Schedule, x: Transport, k: nat): int
    requires x.idx < |tt.events| && k < |tt.events[x.idx]|
  {
    x.day * 1440 + tt.events[x.idx][k]
  }

  function ClampDelta(d: int): (r: int)
    ensures MIN_DELTA <= r <= MAX_DELTA && (MIN_DELTA <= d <= MAX_DELTA ==> r == d)
  {
    Max(MIN_DELTA, Min(d, MAX_DELTA))
  }

  /** `static_transport_interval` */
  function StaticInterval(tt: Schedule, x: Transport): (i: Interval)
    requires ScheduleOk(tt) && x.idx < |tt.events|
    ensures i.Ordered() && forall k :: 0 <= k < |tt.events[x.idx]| ==> i.Contains(EventTime(tt, x, k))
  {
    var last := |tt.events[x.idx]| - 1;
    assert forall k :: 0 <= k <= last ==> tt.events[x.idx][0] <= tt.events[x.idx][k] <= tt.events[x.idx][last];
    Interval(EventTime(tt, x, 0), EventTime(tt, x, last) + 1)
  }

  /** The schedule of a transport relative to the base day, as the overlay stores it. */
  function ScheduledDeltas(tt: Schedule, baseDay: nat, x: Transport): (d: seq<int>)
    requires x.idx < |tt.events|
  {
    seq(|tt.events[x.idx]|, k requires 0 <= k < |tt.events[x.idx]| => ClampDelta(EventTime(tt, x, k) - baseDay * 1440))
  }

  /** The copy of a run on the base day counts from midnight, and every day on it counts
      1440 minutes more. */
  lemma DeltasCountFromBaseDay(tt: Schedule, baseDay: nat, x: Transport, k: nat)
    requires x.idx < |tt.events| && k < |tt.events[x.idx]|
    ensures x.day == baseDay ==> ScheduledDeltas(tt, baseDay, x)[k] == ClampDelta(tt.events[x.idx][k])
    ensures EventTime(tt, Transport(x.idx, x.day + 1), k) == EventTime(tt, x, k) + 1440
    ensures Wrap16(ScheduledDeltas(tt, baseDay, x)[k]) == ScheduledDeltas(tt, baseDay, x)[k]
  {
  }

  /** All events of copy `r`, which has `n` of them. */
  ghost function EventsOf(r: nat, n: nat): set<(nat, nat)> {
    set k: nat | k < n :: (r, k)
  }

  /** The states that a copy starts with. */
  function FreshStates(n: nat): (s: seq<DataState>)
    ensures |s| == n && forall k :: 0 <= k < n ==> s[k] == NoRtData
  {
    seq(n, _ => NoRtData)
  }

  ghost predicate SameSizes(times: seq<seq<int>>, states: seq<seq<DataState>>, statics: seq<Option<Transport>>,
                            stops: seq<seq<Stop>>, cancelled: seq<bool>)
  {
    && |times| == |states| == |statics| == |stops| == |cancelled|
    && forall r :: 0 <= r < |times| ==> |states[r]| == |times[r]|
  }

  lemma OneMoreCopy(times: seq<seq<int>>, states: seq<seq<DataState>>, statics: seq<Option<Transport>>,
                    stops: seq<seq<Stop>>, cancelled: seq<bool>, t: seq<int>, d: seq<DataState>, x: Option<Transport>, s: seq<Stop>)
    requires SameSizes(times, states, statics, stops, cancelled) && |d| == |t|
    ensures SameSizes(times + [t], states + [d], statics + [x], stops + [s], cancelled + [false])
  {
  }

  /** The lookup leads to copies of the transport, and every copied transport is in it. */
  ghost predicate LookupFits(lookup: map<Transport, nat>, statics: seq<Option<Transport>>, removed: set<Transport>) {
    && (forall x :: x in lookup ==> lookup[x] < |statics| && statics[lookup[x]] == Some(x))
    && (forall r :: 0 <= r < |statics| && statics[r].Some? ==> statics[r].value in removed && statics[r].value in lookup)
  }

  lemma MoreRemoved(lookup: map<Transport, nat>, statics: seq<Option<Transport>>, removed: set<Transport>, x: Transport)
    requires LookupFits(lookup, statics, removed)
    ensures LookupFits(lookup, statics, removed + {x})
  {
  }

  /** All scheduled events of the given transports lie in the interval. */
  ghost predicate AllCovered(tt: Schedule, xs: set<Transport>, i: Interval) {
    && (forall x :: x in xs ==> x.idx < |tt.events|)
    && (forall x, k :: x in xs && 0 <= k < |tt.events[x.idx]| ==> i.Contains(EventTime(tt, x, k)))
  }

  lemma MoreCovered(tt: Schedule, xs: set<Transport>, i: Interval, x: Transport)
    requires ScheduleOk(tt) && AllCovered(tt, xs, i) && x.idx < |tt.events|
    ensures AllCovered(tt, xs, i.Hull(StaticInterval(tt, x))) && AllCovered(tt, xs + {x}, i.Hull(StaticInterval(tt, x)))
  {
    hide ScheduleOk, StaticInterval, EventTime;
  }

  class RtTimetable {
    const tt: Schedule
    const baseDay: nat

    var trafficDays: seq<nat>
    var bitfields: seq<set<nat>>
    var lookup: map<Transport, nat>
    var rtStatic: seq<Option<Transport>>
    var rtStops: seq<seq<Stop>>
    var rtTimes: seq<seq<int>>
    var rtStates: seq<seq<DataState>>
    var cancelled: seq<bool>
    var coverage: Interval

    /** All transports that were ever replaced or cancelled. */
    ghost var removed: set<Transport>

    /** Events that still carry a time given when the transport was added. */
    ghost var given: set<(nat, nat)>

    // ---------- the invariant ----------

    /** Every index leads to a bitfield. */
    ghost predicate PointersOk()
      reads this`trafficDays, this`bitfields
    {
      && |trafficDays| == |tt.trafficDays|
      && forall t :: 0 <= t < |trafficDays| ==>
           if trafficDays[t] >= RT_BITFIELD_FLAG then trafficDays[t] - RT_BITFIELD_FLAG < |bitfields|
           else trafficDays[t] < |tt.bitfields|
    }

    /** `traffic_days` */
    function TrafficDays(i: nat): set<nat>
      requires if i >= RT_BITFIELD_FLAG then i - RT_BITFIELD_FLAG < |bitfields| else i < |tt.bitfields|
      reads this`bitfields
    {
      if i >= RT_BITFIELD_FLAG then bitfields[i - RT_BITFIELD_FLAG] else tt.bitfields[i]
    }

    predicate IsActive(x: Transport)
      requires PointersOk() && x.idx < |trafficDays|
      reads this`trafficDays, this`bitfields
    {
      x.day in TrafficDays(trafficDays[x.idx])
    }

    /** Exactly the scheduled runs that were never replaced or cancelled are active. */
    ghost predicate ActiveExact()
      requires ScheduleOk(tt) && PointersOk()
      reads this`trafficDays, this`bitfields, this`removed
    {
      forall x: Transport :: x.idx < |trafficDays| ==> (IsActive(x) <==> Runs(tt, x) && x !in removed)
    }

    ghost predicate SizesOk()
      reads this`rtTimes, this`rtStates, this`rtStatic, this`rtStops, this`cancelled
    {
      SameSizes(rtTimes, rtStates, rtStatic, rtStops, cancelled)
    }

    ghost predicate LookupOk()
      reads this`lookup, this`rtStatic, this`removed
    {
      LookupFits(lookup, rtStatic, removed)
    }

    /** All scheduled events of the removed transports lie in the coverage. */
    ghost predicate RemovedCovered()
      requires ScheduleOk(tt)
      reads this`removed, this`coverage
    {
      AllCovered(tt, removed, coverage)
    }

    /** So do all real-time events, except those with a time given from outside. */
    ghost predicate StoredCovered()
      reads this`rtTimes, this`coverage, this`given
    {
      forall r: nat, k: nat :: r < |rtTimes| && k < |rtTimes[r]| ==> coverage.Contains(Time(r, k)) || (r, k) in given
    }

    ghost predicate Valid()
      reads this
    {
      ScheduleOk(tt) && PointersOk() && ActiveExact() && SizesOk() && LookupOk() &&
      RemovedCovered() && StoredCovered()
    }

    /** Absolute time of a stored event (`unix_event_time`). */
    function Time(r: nat, k: nat): int
      requires r < |rtTimes| && k < |rtTimes[r]|
      reads this`rtTimes
    {
      baseDay * 1440 + rtTimes[r][k]
    }

    // ---------- queries ----------

    /** `rt_interval` */
    function RtInterval(): Interval {
      Interval(baseDay * 1440 + MIN_DELTA + 1, baseDay * 1440 + MAX_DELTA)
    }

    function UnixToDelta(t: int): int {
      ClampDelta(t - baseDay * 1440)
    }

    /** A time can be stored exactly if its distance from the base day fits 16 bits and is
        neither of the two extreme numbers. */
    lemma StorableIff(t: int)
      ensures RtInterval().Contains(t) <==> Wrap16(t - baseDay * 1440) == t - baseDay * 1440 && UnixToDelta(t) !in {MIN_DELTA, MAX_DELTA}
    {
    }

    /** `rt_transport_interval` */
    function TransportInterval(r: nat): Interval
      requires r < |rtTimes|
      reads this`rtTimes
    {
      if rtTimes[r] == [] then Interval(0, 0)
      else Interval(Time(r, 0), Time(r, |rtTimes[r]| - 1) + 1)
    }

    /** `affects`; the argument tells whether the profile has time-dependent footpaths. */
    predicate Affects(iv: Interval, tdFootpaths: bool)
      reads this
    {
      tdFootpaths || iv.Overlaps(coverage)
    }

    /** Without time-dependent footpaths a proper interval is affected exactly if it shares
        a minute with the coverage. */
    lemma AffectsIff(iv: Interval)
      requires iv.from < iv.to && coverage.from < coverage.to
      ensures Affects(iv, true) && (Affects(iv, false) <==> exists t :: iv.Contains(t) && coverage.Contains(t))
    {
      if Affects(iv, false) {
        var t := Max(iv.from, coverage.from);
        assert iv.Contains(t) && coverage.Contains(t);
      }
    }

    function ResolveStatic(r: nat): Option<Transport>
      requires r < |rtStatic|
      reads this
    {
      rtStatic[r]
    }

    function ResolveRt(x: Transport): Option<nat>
      reads this
    {
      if x in lookup then Some(lookup[x]) else None
    }

    /** Resolving a transport leads to a real-time copy that resolves back to it; a
        transport has a copy exactly when some copy is one of it. */
    lemma ResolvingIsConsistent(x: Transport)
      requires Valid()
      ensures ResolveRt(x).Some? ==> ResolveRt(x).value < |rtStatic| && ResolveStatic(ResolveRt(x).value) == Some(x)
      ensures ResolveRt(x).Some? <==> exists r: nat :: r < |rtStatic| && ResolveStatic(r) == Some(x)
    {
      if ResolveRt(x).Some? {
        assert ResolveStatic(lookup[x]) == Some(x);
      }
    }

    // ---------- changes ----------

    /** `create_rt_timetable` */
    constructor (tt: Schedule, baseDay: nat)
      requires ScheduleOk(tt)
      ensures this.tt == tt && this.baseDay == baseDay && Valid()
      ensures removed == {} && given == {} && rtTimes == [] && bitfields == [] && coverage == Interval(0, 0)
    {
      this.tt, this.baseDay := tt, baseDay;
      trafficDays, bitfields, lookup := tt.trafficDays, [], map[];
      rtStatic, rtStops, rtTimes, rtStates, cancelled := [], [], [], [], [];
      coverage := Interval(0, 0);
      removed, given := {}, {};
    }

    /** Clears one day of a transport in a fresh copy of its bitfield; all other
        transports keep the bitfield they had. */
    method ClearDay(x: Transport)
      requires ScheduleOk(tt) && PointersOk() && ActiveExact()
      requires x.idx < |trafficDays| && |bitfields| < RT_BITFIELD_FLAG
      modifies this`trafficDays, this`bitfields, this`removed
      ensures PointersOk() && ActiveExact() && removed == old(removed) + {x} && |bitfields| == old(|bitfields|) + 1
      ensures forall y: Transport :: y.idx < |trafficDays| ==> (IsActive(y) <==> old(IsActive(y)) && y != x)
    {
      var days := TrafficDays(trafficDays[x.idx]);
      bitfields := bitfields + [days - {x.day}];
      trafficDays := trafficDays[x.idx := (|bitfields| - 1) + RT_BITFIELD_FLAG];
      removed := removed + {x};
      forall y: Transport | y.idx < |trafficDays| ensures IsActive(y) <==> old(IsActive(y)) && y != x {
        if y.idx == x.idx {
          assert y == x <==> y.day == x.day;
        }
      }
    }

    /** `update_time`: refuses times outside the representable interval, else stores
        the exact time and extends the coverage. */
    method UpdateTime(r: nat, k: nat, newTime: int, state: DataState) returns (ok: bool)
      requires Valid() && r < |rtTimes| && k < |rtTimes[r]|
      modifies this`rtTimes, this`rtStates, this`coverage, this`given
      ensures Valid() && ok == RtInterval().Contains(newTime)
      ensures ok ==>
        && rtTimes == old(rtTimes)[r := old(rtTimes[r])[k := newTime - baseDay * 1440]]
        && rtStates == old(rtStates)[r := old(rtStates[r])[k := state]]
        && coverage == old(coverage).Extend(newTime) && given == old(given) - {(r, k)}
      ensures !ok ==> rtTimes == old(rtTimes) && rtStates == old(rtStates) && coverage == old(coverage) && given == old(given)
    {
      hide ActiveExact, PointersOk, LookupOk, ScheduleOk;
      if !RtInterval().Contains(newTime) {
        return false;
      }
      var d := UnixToDelta(newTime);
      rtTimes := rtTimes[r := rtTimes[r][k := d]];
      rtStates := rtStates[r := rtStates[r][k := state]];
      coverage := coverage.Extend(baseDay * 1440 + d);
      given := given - {(r, k)};
      ok := true;
    }

    /** The event times a scheduled transport starts with: two per section. */
    method InitialTimes(x: Transport) returns (times: seq<int>)
      requires ScheduleOk(tt) && x.idx < |tt.events|
      ensures times == ScheduledDeltas(tt, baseDay, x)
    {
      times := [];
      for s := 0 to |tt.stops[x.idx]| - 1
        invariant |times| == 2 * s
        invariant forall k :: 0 <= k < 2 * s ==> times[k] == UnixToDelta(EventTime(tt, x, k))
      {
        times := times + [UnixToDelta(EventTime(tt, x, 2 * s)), UnixToDelta(EventTime(tt, x, 2 * s + 1))];
      }
    }

    /** A transport from the schedule is linked to its copy and no longer active. */
    method Register(t: Option<Transport>, newTrip: bool)
      requires ScheduleOk(tt) && PointersOk() && ActiveExact() && LookupOk() && |bitfields| < RT_BITFIELD_FLAG
      requires t.Some? ==> t.value.idx < |tt.trafficDays|
      modifies this`lookup, this`rtStatic, this`trafficDays, this`bitfields, this`removed
      ensures PointersOk() && ActiveExact() && LookupOk() && |bitfields| <= old(|bitfields|) + 1
      ensures rtStatic == old(rtStatic) + [if newTrip then None else t]
      ensures lookup == if t.Some? && !newTrip && t.value !in old(lookup) then old(lookup)[t.value := old(|rtStatic|)] else old(lookup)
      ensures removed == old(removed) + (if t.Some? && !newTrip then {t.value} else {})
      ensures forall y: Transport :: y.idx < |trafficDays| ==>
        (IsActive(y) <==> old(IsActive(y)) && !(!newTrip && t == Some(y)))
    {
      hide ScheduleOk;
      if !newTrip && t.Some? {
        if t.value !in lookup {
          lookup := lookup[t.value := |rtStatic|];
        }
        rtStatic := rtStatic + [t];
        ClearDay(t.value);
      } else {
        rtStatic := rtStatic + [None];
      }
    }

    /** The times of a new copy; those taken from the schedule extend the coverage. */
    method StoreTimes(t: Option<Transport>, times: seq<int>)
      requires ScheduleOk(tt) && StoredCovered()
      requires t.Some? ==> t.value.idx < |tt.events|
      modifies this`rtTimes, this`coverage, this`given
      ensures StoredCovered() && forall p :: old(coverage).Contains(p) ==> coverage.Contains(p)
      ensures rtTimes == old(rtTimes) + [if t.Some? && times == [] then ScheduledDeltas(tt, baseDay, t.value) else times]
      ensures given == old(given) + EventsOf(old(|rtTimes|), |times|)
      ensures times != [] || t.None? ==> coverage == old(coverage)
      ensures times == [] && t.Some? ==> coverage == old(coverage).Hull(TransportInterval(old(|rtTimes|)))
    {
      hide ScheduleOk, StaticInterval, Interval.Hull, ScheduledDeltas, ClampDelta;
      var r := |rtTimes|;
      given := given + EventsOf(r, |times|);
      if times == [] && t.Some? {
        var initial := InitialTimes(t.value);
        rtTimes := rtTimes + [initial];
        InitialInterval(t.value, r);
        coverage := coverage.Hull(TransportInterval(r));
      } else {
        rtTimes := rtTimes + [times];
      }
    }

    /** The first and the last event bound all events of a copy of the schedule. */
    lemma InitialInterval(x: Transport, r: nat)
      requires ScheduleOk(tt) && x.idx < |tt.events| && r < |rtTimes| && rtTimes[r] == ScheduledDeltas(tt, baseDay, x)
      ensures TransportInterval(r).Ordered()
      ensures forall k :: 0 <= k < |rtTimes[r]| ==> TransportInterval(r).Contains(Time(r, k))
    {
      var ev, last := tt.events[x.idx], |tt.events[x.idx]| - 1;
      forall k | 0 <= k <= last ensures Time(r, 0) <= Time(r, k) <= Time(r, last) {
        assert ev[0] <= ev[k] <= ev[last];
      }
    }

    /** The coverage grows by all events of a scheduled transport. */
    method CoverStatic(x: Transport)
      requires ScheduleOk(tt) && StoredCovered() && x.idx < |tt.events|
      modifies this`coverage
      ensures StoredCovered() && coverage == old(coverage).Hull(StaticInterval(tt, x))
    {
      coverage := coverage.Hull(StaticInterval(tt, x));
    }

    /** The coverage grew by the copy's own times, if they came from the schedule, and
        by the scheduled times, and by nothing else. */
    ghost predicate CoverageAfterAdding(t: Option<Transport>, times: seq<int>, r: nat, before: Interval)
      reads this
    {
      if t.None? then coverage == before
      else
        && ScheduleOk(tt) && t.value.idx < |tt.events| && r < |rtTimes|
        && if times != [] then coverage == before.Hull(StaticInterval(tt, t.value))
           else coverage == before.Hull(TransportInterval(r)).Hull(StaticInterval(tt, t.value))
    }

    /** `add_rt_transport`: a real-time copy of a scheduled transport, or a new trip.
        Stops and times may be given from outside, else the schedule's are taken. */
    method AddRtTransport(t: Option<Transport>, newTrip: bool, stops: seq<Stop>, times: seq<int>) returns (r: nat)
      requires Valid() && |bitfields| < RT_BITFIELD_FLAG
      requires t.Some? ==> t.value.idx < |tt.trafficDays|
      requires |stops| == |times| == 0 || (|stops| >= 2 && |times| == 2 * |stops| - 2)
      modifies this
      ensures Valid() && r == old(|rtTimes|) && |bitfields| <= old(|bitfields|) + 1
      ensures rtTimes == old(rtTimes) + [if t.Some? && times == [] then ScheduledDeltas(tt, baseDay, t.value) else times]
      ensures rtStops == old(rtStops) + [if t.Some? && stops == [] then tt.stops[t.value.idx] else stops]
      ensures rtStates == old(rtStates) + [FreshStates(|rtTimes[r]|)]
      ensures cancelled == old(cancelled) + [false]
      ensures rtStatic == old(rtStatic) + [if newTrip then None else t]
      ensures lookup == if t.Some? && !newTrip && t.value !in old(lookup) then old(lookup)[t.value := old(|rtStatic|)] else old(lookup)
      ensures removed == old(removed) + (if t.Some? && !newTrip then {t.value} else {})
      ensures given == old(given) + EventsOf(r, |times|)
      ensures CoverageAfterAdding(t, times, r, old(coverage))
      ensures forall y: Transport :: y.idx < |trafficDays| ==>
        (IsActive(y) <==> old(IsActive(y)) && !(!newTrip && t == Some(y)))
    {
      hide *;
      PartsOfValid();
      r := |rtTimes|;
      ghost var times0, states0, statics0, stops0, cancelled0 := rtTimes, rtStates, rtStatic, rtStops, cancelled;
      ghost var before := coverage;
      Register(t, newTrip);
      AppendRows(t, stops, times);
      OneMoreCopy(times0, states0, statics0, stops0, cancelled0, rtTimes[r], rtStates[r], rtStatic[r], rtStops[r]);
      Assemble(old(removed), before, t, times, r, newTrip);
    }

    /** Stops, times, states and flag of a new copy, and the coverage. */
    method AppendRows(t: Option<Transport>, stops: seq<Stop>, times: seq<int>)
      requires ScheduleOk(tt) && StoredCovered() && (t.Some? ==> t.value.idx < |tt.events|)
      modifies this`rtStops, this`rtTimes, this`rtStates, this`cancelled, this`coverage, this`given
      ensures StoredCovered() && CoverageAfterAdding(t, times, old(|rtTimes|), old(coverage))
      ensures rtTimes == old(rtTimes) + [if t.Some? && times == [] then ScheduledDeltas(tt, baseDay, t.value) else times]
      ensures rtStops == old(rtStops) + [if t.Some? && stops == [] then tt.stops[t.value.idx] else stops]
      ensures rtStates == old(rtStates) + [FreshStates(|rtTimes[old(|rtTimes|)]|)]
      ensures cancelled == old(cancelled) + [false]
      ensures given == old(given) + EventsOf(old(|rtTimes|), |times|)
    {
      TableSizes();
      hide *;
      var r := |rtTimes|;
      ghost var before := coverage;
      rtStops := rtStops + [if t.Some? && stops == [] then tt.stops[t.value.idx] else stops];
      StoreTimes(t, times);
      ghost var between := coverage;
      rtStates := rtStates + [FreshStates(|rtTimes[r]|)];
      cancelled := cancelled + [false];
      if t.Some? {
        CoverStatic(t.value);
      }
      CoverageIs(t, times, r, before, between);
    }

    lemma TableSizes()
      requires ScheduleOk(tt)
      ensures |tt.trafficDays| == |tt.events| == |tt.stops|
    {
    }

    lemma PartsOfValid()
      requires Valid()
      ensures ScheduleOk(tt) && PointersOk() && ActiveExact() && LookupOk() && StoredCovered()
      ensures SameSizes(rtTimes, rtStates, rtStatic, rtStops, cancelled) && AllCovered(tt, removed, coverage)
      ensures LookupFits(lookup, rtStatic, removed)
      ensures |rtTimes| == |rtStates| == |rtStatic| == |rtStops| == |cancelled|
      ensures |tt.trafficDays| == |tt.events| == |tt.stops| == |trafficDays|
    {
    }

    lemma CoverageIs(t: Option<Transport>, times: seq<int>, r: nat, before: Interval, between: Interval)
      requires ScheduleOk(tt) && (t.Some? ==> t.value.idx < |tt.events|) && r < |rtTimes|
      requires times != [] || t.None? ==> between == before
      requires times == [] && t.Some? ==> between == before.Hull(TransportInterval(r))
      requires coverage == if t.Some? then between.Hull(StaticInterval(tt, t.value)) else between
      ensures CoverageAfterAdding(t, times, r, before)
    {
    }

    lemma Assemble(removed0: set<Transport>, before: Interval, t: Option<Transport>, times: seq<int>, r: nat, newTrip: bool)
      requires ScheduleOk(tt) && PointersOk() && ActiveExact() && LookupOk() && StoredCovered()
      requires SameSizes(rtTimes, rtStates, rtStatic, rtStops, cancelled)
      requires AllCovered(tt, removed0, before)
      requires CoverageAfterAdding(t, times, r, before)
      requires removed == removed0 + (if t.Some? && !newTrip then {t.value} else {})
      ensures Valid()
    {
      hide StaticInterval, ScheduleOk, ActiveExact, PointersOk, LookupOk, StoredCovered, SameSizes, TransportInterval;
      if t.Some? {
        var between := if times == [] then before.Hull(TransportInterval(r)) else before;
        assert AllCovered(tt, removed0, between);
        MoreCovered(tt, removed0, between, t.value);
      } else {
        assert removed0 + {} == removed0;
      }
    }

    /** `cancel_run`: hides the real-time copy and clears the scheduled day. */
    method CancelRun(t: Option<Transport>, rt: Option<nat>)
      requires Valid() && |bitfields| < RT_BITFIELD_FLAG
      requires t.Some? ==> t.value.idx < |tt.trafficDays|
      requires rt.Some? ==> rt.value < |rtTimes|
      modifies this`cancelled, this`coverage, this`trafficDays, this`bitfields, this`removed
      ensures Valid() && |bitfields| <= old(|bitfields|) + 1
      ensures cancelled == if rt.Some? then old(cancelled)[rt.value := true] else old(cancelled)
      ensures removed == old(removed) + (if t.Some? then {t.value} else {})
      ensures var c := if rt.Some? then old(coverage).Hull(TransportInterval(rt.value)) else old(coverage);
        coverage == if t.Some? then c.Hull(StaticInterval(tt, t.value)) else c
      ensures forall y: Transport :: y.idx < |trafficDays| ==> (IsActive(y) <==> old(IsActive(y)) && t != Some(y))
    {
      hide *;
      PartsOfValid();
      ghost var removed0, before := removed, coverage;
      if rt.Some? {
        cancelled := cancelled[rt.value := true];
        CoverCopy(rt.value);
        StillCovered(removed0, before);
      }
      SizesAfterCancel(old(cancelled));
      if t.Some? {
        ghost var between := coverage;
        CoverStatic(t.value);
        ClearDay(t.value);
        MoreCovered(tt, removed0, between, t.value);
        MoreRemoved(lookup, rtStatic, removed0, t.value);
      } else {
        assert removed0 + {} == removed0;
      }
      ValidFromParts();
    }

    /** The coverage grows by a copy, from its first to its last event. */
    method CoverCopy(r: nat)
      requires StoredCovered() && r < |rtTimes|
      modifies this`coverage
      ensures StoredCovered() && coverage == old(coverage).Hull(TransportInterval(r))
    {
      coverage := coverage.Hull(TransportInterval(r));
    }

    lemma StillCovered(xs: set<Transport>, before: Interval)
      requires AllCovered(tt, xs, before) && forall p :: before.Contains(p) ==> coverage.Contains(p)
      ensures AllCovered(tt, xs, coverage)
    {
    }

    lemma SizesAfterCancel(before: seq<bool>)
      requires SameSizes(rtTimes, rtStates, rtStatic, rtStops, before) && |cancelled| == |before|
      ensures SizesOk()
    {
    }

    lemma ValidFromParts()
      requires ScheduleOk(tt) && PointersOk() && ActiveExact() && SizesOk() && StoredCovered()
      requires LookupFits(lookup, rtStatic, removed) && AllCovered(tt, removed, coverage)
      ensures Valid()
    {
    }

    /** An update for a run takes back its cancellation. */
    method Reinstate(r: nat)
      requires Valid() && r < |cancelled|
      modifies this`cancelled
      ensures Valid() && cancelled == old(cancelled)[r := false]
    {
      cancelled := cancelled[r := false];
    }

    method SetStop(r: nat, s: nat, stop: Stop)
      requires Valid() && r < |rtStops| && s < |rtStops[r]|
      modifies this`rtStops
      ensures Valid() && rtStops == old(rtStops)[r := old(rtStops[r])[s := stop]]
    {
      rtStops := rtStops[r := rtStops[r][s := stop]];
    }

    /** Raises an event to the time of the one before it. */
    method RaiseEvent(r: nat, k: nat)
      requires Valid() && r < |rtTimes| && 0 < k < |rtTimes[r]|
      modifies this`rtTimes, this`rtStates, this`given
      ensures Valid()
      ensures rtTimes == old(rtTimes)[r := old(rtTimes[r])[k := old(rtTimes[r][k - 1])]]
      ensures rtStates == old(rtStates)[r := old(rtStates[r])[k := Inconsistent]]
      ensures given == if (r, k - 1) in old(given) then old(given) + {(r, k)} else old(given) - {(r, k)}
    {
      given := if (r, k - 1) in given then given + {(r, k)} else given - {(r, k)};
      rtTimes := rtTimes[r := rtTimes[r][k := rtTimes[r][k - 1]]];
      rtStates := rtStates[r := rtStates[r][k := Inconsistent]];
    }

    // ---------- dropping the overlay ----------

    /** A scheduled event inside `iv` in the static view. */
    ghost predicate StaticEventIn(iv: Interval, x: Transport, k: nat)
      requires ScheduleOk(tt)
    {
      Runs(tt, x) && k < |tt.events[x.idx]| && iv.Contains(EventTime(tt, x, k))
    }

    /** A scheduled event inside `iv` that the overlay leaves active. */
    ghost predicate ActiveEventIn(iv: Interval, x: Transport, k: nat)
      requires ScheduleOk(tt) && PointersOk()
      reads this
    {
      x.idx < |trafficDays| && IsActive(x) && k < |tt.events[x.idx]| && iv.Contains(EventTime(tt, x, k))
    }

    ghost predicate RtEventIn(iv: Interval, r: nat, k: nat)
      reads this
    {
      r < |rtTimes| && k < |rtTimes[r]| && iv.Contains(Time(r, k))
    }

    /** Inside `iv` the overlay changes nothing: no scheduled event is missing and no
        real-time event is added. */
    ghost predicate SameEvents(iv: Interval)
      requires ScheduleOk(tt) && PointersOk()
      reads this
    {
      && (forall x: Transport, k: nat :: StaticEventIn(iv, x, k) <==> ActiveEventIn(iv, x, k))
      && (forall r: nat, k: nat :: !RtEventIn(iv, r, k))
    }

    ghost predicate GivenEventIn(iv: Interval)
      reads this
    {
      exists r: nat, k: nat :: (r, k) in given && RtEventIn(iv, r, k)
    }

    /** An interval that `affects` rejects has the same events with and without the
        overlay, exactly when no event in it still has a time given from outside. */
    lemma DroppingIsSoundIff(iv: Interval, tdFootpaths: bool)
      requires Valid() && !Affects(iv, tdFootpaths)
      ensures SameEvents(iv) <==> !GivenEventIn(iv)
    {
      NoCoveredPoint(iv);
      forall x: Transport, k: nat ensures StaticEventIn(iv, x, k) <==> ActiveEventIn(iv, x, k) {
        if x.idx < |trafficDays| && k < |tt.events[x.idx]| {
          assert IsActive(x) <==> Runs(tt, x) && x !in removed;
          assert x in removed ==> coverage.Contains(EventTime(tt, x, k));
        }
      }
    }

    lemma NoCoveredPoint(iv: Interval)
      requires !iv.Overlaps(coverage)
      ensures forall t :: iv.Contains(t) ==> !coverage.Contains(t)
    {
    }

    /** As long as no times are given from outside, every interval that `affects`
        rejects may be searched on the static timetable. */
    lemma DroppingIsSound(iv: Interval, tdFootpaths: bool)
      requires Valid() && given == {} && !Affects(iv, tdFootpaths)
      ensures SameEvents(iv)
    {
      DroppingIsSoundIff(iv, tdFootpaths);
    }
  }

  // ---------- whole runs ----------

  /** What updates do to the overlay; a run is cancelled with its copy, if it has one. */
  datatype Change = Replace(x: Transport) | Delay(r: nat, k: nat, time: int, state: DataState) | Cancel(x: Transport)

  ghost predicate ChangeOk(tt: Schedule, c: Change) {
    c.Delay? || c.x.idx < |tt.trafficDays|
  }

  /** The transports that some change replaces or cancels. */
  function RemovedBy(changes: seq<Change>): set<Transport> {
    set c | c in changes && !c.Delay? :: c.x
  }

  method Apply(rtt: RtTimetable, c: Change)
    requires rtt.Valid() && ChangeOk(rtt.tt, c) && |rtt.bitfields| < RT_BITFIELD_FLAG
    modifies rtt
    ensures rtt.Valid() && |rtt.bitfields| <= old(|rtt.bitfields|) + 1
    ensures rtt.removed == old(rtt.removed) + RemovedBy([c])
    ensures old(rtt.given) == {} ==> rtt.given == {}
    ensures c.Cancel? && c.x in old(rtt.lookup) ==>
      rtt.lookup == old(rtt.lookup) && rtt.lookup[c.x] < |rtt.cancelled| && rtt.cancelled[rtt.lookup[c.x]]
    ensures c.Replace? ==> c.x in rtt.lookup && |rtt.rtTimes| == old(|rtt.rtTimes|) + 1 && rtt.rtStatic[old(|rtt.rtTimes|)] == Some(c.x)
    ensures c.Delay? && c.r < old(|rtt.rtTimes|) && c.k < old(|rtt.rtTimes[c.r]|) && rtt.RtInterval().Contains(c.time) ==>
      |rtt.rtTimes| == old(|rtt.rtTimes|) && c.k < |rtt.rtTimes[c.r]| && rtt.Time(c.r, c.k) == c.time && rtt.coverage.Contains(c.time)
  {
    hide RtTimetable.ActiveExact, RtTimetable.LookupOk, RtTimetable.StoredCovered, RtTimetable.RemovedCovered;
    match c
    case Replace(x) =>
      var _ := rtt.AddRtTransport(Some(x), false, [], []);
    case Delay(r, k, time, state) =>
      if r < |rtt.rtTimes| && k < |rtt.rtTimes[r]| {
        var _ := rtt.UpdateTime(r, k, time, state);
      }
    case Cancel(x) =>
      var rt := rtt.ResolveRt(x);
      rtt.ResolvingIsConsistent(x);
      rtt.CancelRun(Some(x), rt);
  }

  /** Any sequence of changes to scheduled transports: a run is active exactly when
      the schedule has it and no change removed it, and every interval that `affects`
      rejects may be searched on the static timetable. */
  method Replay(tt: Schedule, baseDay: nat, changes: seq<Change>) returns (rtt: RtTimetable)
    requires ScheduleOk(tt) && |changes| < RT_BITFIELD_FLAG
    requires forall c :: c in changes ==> ChangeOk(tt, c)
    ensures fresh(rtt) && rtt.Valid() && rtt.tt == tt
    ensures forall x: Transport :: x.idx < |tt.trafficDays| ==>
      (rtt.IsActive(x) <==> Runs(tt, x) && x !in RemovedBy(changes))
    ensures forall iv: Interval, td: bool :: !rtt.Affects(iv, td) ==> rtt.SameEvents(iv)
  {
    rtt := new RtTimetable(tt, baseDay);
    for i := 0 to |changes|
      invariant fresh(rtt) && rtt.tt == tt && rtt.Valid() && |rtt.bitfields| <= i
      invariant rtt.removed == RemovedBy(changes[..i]) && rtt.given == {}
    {
      Apply(rtt, changes[i]);
      assert changes[..i + 1] == changes[..i] + [changes[i]];
    }
    assert changes[..|changes|] == changes;
    forall iv: Interval, td: bool | !rtt.Affects(iv, td) ensures rtt.SameEvents(iv) {
      rtt.DroppingIsSound(iv, td);
    }
  }
}
