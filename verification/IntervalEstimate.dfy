/** How far a search interval may grow (`interval_estimator`). Times are minutes. */
module IntervalEstimate {
  import opened Basics
  import opened Intervals

  const DAY := 1440

  /** `kMaxSearchIntervalSize`: the days that 16-bit minutes hold, less seven. */
  const MAX_SEARCH_INTERVAL := (0x7FFF / 1440 - 7) * 1440

  /** Rounds to the nearest midnight, halves to the even day. */
  function RoundToDay(t: int): (r: int)
    ensures -720 <= r - t <= 720 && r % DAY == 0
  {
    var q, r := t / DAY, t % DAY;
    if r < 720 || (r == 720 && q % 2 == 0) then q * DAY else (q + 1) * DAY
  }

  lemma RoundIsMonotone(a: int, b: int)
    requires a <= b
    ensures RoundToDay(a) <= RoundToDay(b)
  {
    var q, p := a / DAY, b / DAY;
    if q == p {
      assert a % DAY <= b % DAY;
    }
  }

  /** `data_type_max_interval_`: at most one or two days beyond the query's interval,
      and no larger than the search can represent. */
  function DataTypeMax(start: Interval, fastestDirect: bool): Interval {
    var pad, size := if fastestDirect then DAY else 2 * DAY, start.to - start.from;
    Interval(Max(RoundToDay(start.from - pad), RoundToDay(start.from + TruncDiv(size - MAX_SEARCH_INTERVAL, 2))),
             Min(RoundToDay(start.to + pad), RoundToDay(start.from + TruncDiv(size + MAX_SEARCH_INTERVAL, 2))))
  }

  lemma DataTypeMaxIsOrdered(start: Interval, fastestDirect: bool)
    requires start.Ordered()
    ensures DataTypeMax(start, fastestDirect).Ordered()
    ensures DataTypeMax(start, fastestDirect).to - DataTypeMax(start, fastestDirect).from <= MAX_SEARCH_INTERVAL + DAY
  {
    hide RoundToDay;
    var pad, size := if fastestDirect then DAY else 2 * DAY, start.to - start.from;
    var a, b := start.from - pad, start.from + TruncDiv(size - MAX_SEARCH_INTERVAL, 2);
    var c, d := start.to + pad, start.from + TruncDiv(size + MAX_SEARCH_INTERVAL, 2);
    RoundIsMonotone(a, c);
    RoundIsMonotone(a, d);
    RoundIsMonotone(b, c);
    RoundIsMonotone(b, d);
  }

  lemma RoundAt(day: int, minute: int)
    requires 0 <= minute < DAY
    ensures RoundToDay(day * DAY + minute) == if minute < 720 || (minute == 720 && day % 2 == 0) then day * DAY else (day + 1) * DAY
  {
    assert (day * DAY + minute) / DAY == day && (day * DAY + minute) % DAY == minute;
  }

  /** Rounding moves the ends of an interval of the maximum size apart exactly if the
      lower one lies at noon of an even day: the upper one, an odd number of days
      later, is rounded the other way. */
  lemma RoundedApartIff(u: int, v: int)
    requires v == u + MAX_SEARCH_INTERVAL || v == u + MAX_SEARCH_INTERVAL - 1
    ensures RoundToDay(v) - RoundToDay(u) == MAX_SEARCH_INTERVAL + DAY
       <==> v == u + MAX_SEARCH_INTERVAL && u % DAY == 720 && u / DAY % 2 == 0
    ensures RoundToDay(v) - RoundToDay(u) != MAX_SEARCH_INTERVAL + DAY ==> RoundToDay(v) - RoundToDay(u) <= MAX_SEARCH_INTERVAL
  {
    var q, m := u / DAY, u % DAY;
    RoundAt(q, m);
    if v == u + MAX_SEARCH_INTERVAL {
      RoundAt(q + 15, m);
    } else if m > 0 {
      RoundAt(q + 15, m - 1);
    } else {
      RoundAt(q + 14, DAY - 1);
    }
  }

  /** The largest interval exceeds the maximum size exactly if the query's interval is
      so large that the maximum, not the day or two beyond it, is the bound at both
      ends, no minute is lost in halving, and the lower end lies at noon of an even day;
      then by exactly one day. */
  lemma RoundingExceedsTheMaximumIff(start: Interval, fastestDirect: bool)
    requires start.Ordered()
    ensures var i, size, pad := DataTypeMax(start, fastestDirect), start.to - start.from, if fastestDirect then DAY else 2 * DAY;
      var lower := start.from + TruncDiv(size - MAX_SEARCH_INTERVAL, 2);
      && (i.to - i.from > MAX_SEARCH_INTERVAL
          <==> size >= MAX_SEARCH_INTERVAL - 2 * pad && (size % 2 == 0 || size >= MAX_SEARCH_INTERVAL)
               && lower % DAY == 720 && lower / DAY % 2 == 0)
      && (i.to - i.from > MAX_SEARCH_INTERVAL ==> i.to - i.from == MAX_SEARCH_INTERVAL + DAY)
  {
    hide RoundToDay, TruncDiv;
    var size, pad := start.to - start.from, if fastestDirect then DAY else 2 * DAY;
    var a, c := start.from - pad, start.to + pad;
    var u, v := start.from + TruncDiv(size - MAX_SEARCH_INTERVAL, 2), start.from + TruncDiv(size + MAX_SEARCH_INTERVAL, 2);
    HalvesOf(size, pad);
    RoundedApartIff(u, v);
    if RoundToDay(v) - RoundToDay(u) == MAX_SEARCH_INTERVAL + DAY {
      NoonIsBinding(u, a, v, c);
      WholeDays(RoundToDay(a), RoundToDay(u), RoundToDay(v), RoundToDay(c));
    }
  }

  /** Half of what the size lacks to the maximum, and of what both have together. */
  lemma HalvesOf(size: nat, pad: int)
    requires pad == DAY || pad == 2 * DAY
    ensures var lo, hi := TruncDiv(size - MAX_SEARCH_INTERVAL, 2), TruncDiv(size + MAX_SEARCH_INTERVAL, 2);
      && hi - lo == (if size % 2 == 0 || size >= MAX_SEARCH_INTERVAL then MAX_SEARCH_INTERVAL else MAX_SEARCH_INTERVAL - 1)
      && (size % 2 == 0 || size >= MAX_SEARCH_INTERVAL ==>
            (-pad <= lo <==> size >= MAX_SEARCH_INTERVAL - 2 * pad) && (hi <= size + pad <==> size >= MAX_SEARCH_INTERVAL - 2 * pad))
  {
  }

  lemma WholeDays(a: int, u: int, v: int, c: int)
    requires a % DAY == u % DAY == v % DAY == c % DAY == 0 && v - u == MAX_SEARCH_INTERVAL + DAY
    ensures Min(c, v) - Max(a, u) > MAX_SEARCH_INTERVAL <==> a <= u && v <= c
    ensures Min(c, v) - Max(a, u) <= MAX_SEARCH_INTERVAL + DAY
  {
    if a > u {
      NextDay(u, a);
    }
    if v > c {
      NextDay(c, v);
    }
  }

  lemma NextDay(x: int, y: int)
    requires x % DAY == y % DAY == 0 && x < y
    ensures x + DAY <= y
  {
    assert x == (x / DAY) * DAY && y == (y / DAY) * DAY;
  }

  /** Next to a noon that is rounded down on one side and a noon that is rounded up on
      the other, the ends `a` and `c` are the binding ones exactly if they lie inside. */
  lemma NoonIsBinding(u: int, a: int, v: int, c: int)
    requires u % DAY == 720 && u / DAY % 2 == 0 && v == u + MAX_SEARCH_INTERVAL
    ensures (RoundToDay(a) <= RoundToDay(u) <==> a <= u) && (RoundToDay(v) <= RoundToDay(c) <==> v <= c)
    ensures RoundToDay(a) % DAY == RoundToDay(u) % DAY == RoundToDay(v) % DAY == RoundToDay(c) % DAY == 0
  {
    var q := u / DAY;
    RoundAt(q, 720);
    RoundAt(q + 15, 720);
    RoundAt(a / DAY, a % DAY);
    RoundAt(c / DAY, c % DAY);
  }

  /** The parts of timetable and query that the estimator uses. */
  datatype Estimator = Estimator(external: Interval, dataTypeMax: Interval, maxInterval: Option<Interval>,
                                 minCount: nat, earlier: bool, later: bool, forward: bool) {

    predicate Ok() {
      external.Ordered() && dataTypeMax.Ordered() && (maxInterval.Some? ==> maxInterval.value.Ordered())
    }

    /** One end of an interval through all three clamps. */
    function Clamped(x: int): int
      requires Ok()
    {
      var y := dataTypeMax.Clamp(external.Clamp(x));
      if maxInterval.Some? then maxInterval.value.Clamp(y) else y
    }

    /** What the three clamps leave of the whole time line. */
    function Bound(): (b: Interval)
      requires Ok()
    {
      Interval(Clamped(external.from), Clamped(external.to))
    }

    ghost predicate Extends() {
      minCount != 0 && (earlier || later)
    }
  }

  /** What a query with a start interval says about the search. */
  datatype SearchQuery = SearchQuery(start: Interval, fastestDirect: bool, maxInterval: Option<Interval>,
                                     minCount: nat, earlier: bool, later: bool, forward: bool) {
    predicate Ok() {
      start.Ordered() && (maxInterval.Some? ==> maxInterval.value.Ordered())
    }
  }

  lemma ClampKeepsSize(i: Interval, x: int, y: int)
    requires i.Ordered() && x <= y
    ensures 0 <= i.Clamp(y) - i.Clamp(x) <= y - x && i.Clamp(y) - i.Clamp(x) <= i.to - i.from
  {
  }

  /** The estimator of a query: no search goes beyond a bound of the size that 16-bit
      minutes can represent, rounded to days. */
  function EstimatorFor(external: Interval, q: SearchQuery): (e: Estimator)
    requires external.Ordered() && q.Ok()
    ensures e.Ok() && e.Bound().to - e.Bound().from <= MAX_SEARCH_INTERVAL + DAY
  {
    DataTypeMaxIsOrdered(q.start, q.fastestDirect);
    var d := DataTypeMax(q.start, q.fastestDirect);
    ClampKeepsSize(d, external.from, external.to);
    if q.maxInterval.Some? then
      ClampKeepsSize(q.maxInterval.value, d.Clamp(external.from), d.Clamp(external.to));
      Estimator(external, d, q.maxInterval, q.minCount, q.earlier, q.later, q.forward)
    else
      Estimator(external, d, q.maxInterval, q.minCount, q.earlier, q.later, q.forward)
  }

  lemma TwoClampsAreOne(a: Interval, b: Interval, x: int)
    requires a.Ordered() && b.Ordered()
    ensures b.Clamp(a.from) <= b.Clamp(a.to)
    ensures b.Clamp(a.Clamp(x)) == Interval(b.Clamp(a.from), b.Clamp(a.to)).Clamp(x)
  {
  }

  /** Three clamps, to intervals that need not even overlap, are one clamp to a fixed
      interval. */
  lemma ClampsAreOneClamp(e: Estimator, x: int)
    requires e.Ok()
    ensures e.Bound().Ordered() && e.Clamped(x) == e.Bound().Clamp(x)
  {
    TwoClampsAreOne(e.external, e.dataTypeMax, x);
    if e.maxInterval.Some? {
      var two := Interval(e.dataTypeMax.Clamp(e.external.from), e.dataTypeMax.Clamp(e.external.to));
      TwoClampsAreOne(two, e.maxInterval.value, x);
    }
  }

  /** Hence they keep the order, and clamping again changes nothing. */
  lemma ClampsAreMonotoneAndIdempotent(e: Estimator, x: int, y: int)
    requires e.Ok() && x <= y
    ensures e.Clamped(x) <= e.Clamped(y) && e.Clamped(e.Clamped(x)) == e.Clamped(x)
  {
    hide Estimator.Clamped, Estimator.Bound;
    ClampsAreOneClamp(e, x);
    ClampsAreOneClamp(e, y);
    ClampsAreOneClamp(e, e.Clamped(x));
  }

  /** `clamp` on both ends, one clamp after the other. */
  method ClampInterval(e: Estimator, itv0: Interval) returns (itv: Interval)
    requires e.Ok()
    ensures itv == Interval(e.Clamped(itv0.from), e.Clamped(itv0.to))
  {
    itv := itv0;
    itv := itv.(from := e.external.Clamp(itv.from), to := e.external.Clamp(itv.to));
    itv := itv.(from := e.dataTypeMax.Clamp(itv.from), to := e.dataTypeMax.Clamp(itv.to));
    if e.maxInterval.Some? {
      itv := itv.(from := e.maxInterval.value.Clamp(itv.from), to := e.maxInterval.value.Clamp(itv.to));
    }
  }

  /** `max_interval` is the bound, given a clock that covers the timetable. */
  method MaxInterval(e: Estimator, clock: Interval) returns (itv: Interval)
    requires e.Ok() && clock.Includes(e.external)
    ensures itv == e.Bound()
  {
    itv := ClampInterval(e, clock);
  }

  predicate CanExtendEarlier(e: Estimator, itv: Interval) {
    e.earlier && itv.from != e.external.from
  }

  predicate CanExtendLater(e: Estimator, itv: Interval) {
    e.later && itv.to != e.external.to
  }

  /** What the first interval adds before the clamps: an hour for each connection wanted
      and one more. It is added ahead, where a search cannot be resumed later on, but for
      one hour behind if that end can be extended; with nothing left ahead it is added
      behind, if that end is open. */
  ghost predicate InitialGrowth(e: Estimator, itv: Interval, earlier: int, later: int) {
    var hours := 60 * (e.minCount + 1);
    var ahead, behind := if e.forward then later else earlier, if e.forward then earlier else later;
    var free := (e.earlier && itv.from != e.external.from, e.later && itv.to != e.external.to);
    var freeAhead, freeBehind := if e.forward then free.1 else free.0, if e.forward then free.0 else free.1;
    if freeAhead then ahead + behind == hours && behind == (if freeBehind then 60 else 0)
    else ahead == 0 && behind == (if (if e.forward then e.earlier else e.later) then hours else 0)
  }

  /** `initial`: the first interval to search. It is left alone if the query wants no
      extension, else it contains all of the query's interval that the bound allows. */
  method Initial(e: Estimator, itv: Interval) returns (r: Interval)
    requires e.Ok() && itv.Ordered()
    ensures r.Ordered() && (!e.Extends() ==> r == itv)
    ensures e.Extends() ==> e.Bound().Includes(r) && r.Includes(Interval(e.Clamped(itv.from), e.Clamped(itv.to)))
    ensures e.Extends() ==> exists x, y ::
      InitialGrowth(e, itv, x, y) && r == Interval(e.Clamped(itv.from - x), e.Clamped(itv.to + y))
  {
    hide Estimator.Clamped, Estimator.Bound;
    if e.minCount == 0 || (!e.earlier && !e.later) {
      return itv;
    }
    r := itv;
    var ext := 60 * e.minCount;
    var badDir := if e.forward then CanExtendLater(e, itv) else CanExtendEarlier(e, itv);
    if badDir {
      if e.forward {
        r := if CanExtendEarlier(e, itv) then r.(from := r.from - 60) else r.(to := r.to + 60);
        r := r.(to := r.to + ext);
      } else {
        r := if CanExtendLater(e, itv) then r.(to := r.to + 60) else r.(from := r.from - 60);
        r := r.(from := r.from - ext);
      }
    } else if e.forward {
      if e.earlier {
        r := r.(from := r.from - (60 + ext));
      }
    } else if e.later {
      r := r.(to := r.to + (60 + ext));
    }
    assert r.Includes(itv);
    assert InitialGrowth(e, itv, itv.from - r.from, r.to - itv.to);
    ghost var x, y := itv.from - r.from, r.to - itv.to;
    ClampsAreOneClamp(e, r.from);
    ClampsAreOneClamp(e, r.to);
    ClampsAreOneClamp(e, itv.from);
    ClampsAreOneClamp(e, itv.to);
    r := ClampInterval(e, r);
    assert r == Interval(e.Clamped(itv.from - x), e.Clamped(itv.to + y));
  }

  /** By how much each open end moves if `num` more connections are wanted. */
  ghost function Growth(e: Estimator, itv: Interval, num: nat): int {
    var ext := (itv.to - itv.from) * num;
    if e.earlier && e.later && itv.from != e.external.from && itv.to != e.external.to then ext / 2 else ext
  }

  /** Nothing is left to extend: no growth, or every open end is at the bound. */
  ghost predicate Exhausted(e: Estimator, itv: Interval, num: nat)
    requires e.Ok()
  {
    || num == 0 || Growth(e, itv, num) == 0
    || ((!e.earlier || itv.from == e.Bound().from) && (!e.later || itv.to == e.Bound().to))
  }

  /** `extension`: grows within the bound, only at the ends that the query opens, and
      stays the same exactly if nothing is left to extend. */
  method Extension(e: Estimator, itv: Interval, num: nat) returns (r: Interval)
    requires e.Ok() && itv.Ordered() && e.Bound().Includes(itv)
    ensures r.Includes(itv) && e.Bound().Includes(r)
    ensures (!e.earlier ==> r.from == itv.from) && (!e.later ==> r.to == itv.to)
    ensures r == itv <==> Exhausted(e, itv, num)
    ensures r.from == if e.earlier then e.Clamped(itv.from - Growth(e, itv, num)) else itv.from
    ensures r.to == if e.later then e.Clamped(itv.to + Growth(e, itv, num)) else itv.to
  {
    hide Estimator.Clamped, Estimator.Bound;
    ClampsAreOneClamp(e, itv.from);
    ClampsAreOneClamp(e, itv.to);
    if num == 0 || (!e.earlier && !e.later) {
      return itv;
    }
    r := itv;
    var ext := (itv.to - itv.from) * num;
    GrowthIsNatural(itv.to - itv.from, num);
    if CanExtendEarlier(e, itv) && CanExtendLater(e, itv) {
      r := Interval(r.from - ext / 2, r.to + ext / 2);
    } else {
      if e.earlier {
        r := r.(from := r.from - ext);
      }
      if e.later {
        r := r.(to := r.to + ext);
      }
    }
    ClampsAreOneClamp(e, r.from);
    ClampsAreOneClamp(e, r.to);
    r := ClampInterval(e, r);
  }

  lemma GrowthIsNatural(size: nat, num: nat)
    ensures size * num >= 0
  {
  }
}
