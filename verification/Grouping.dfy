/** Packing trips into routes: `get_index` decides whether and where a trip may
    join a route, `add_expanded_trip` puts it into the first route that takes it. */
module Grouping {
  import opened Basics
  import opened Deltas
  import opened StopTimes

  /** Event times (dep, arr, dep, arr, ..) of one transport, in minutes. */
  type Times = seq<nat>

  /** Row `a` may stand directly or indirectly before row `b` in a route. */
  predicate Precedes(a: Times, b: Times) {
    |a| == |b| && forall e :: 0 <= e < |a| ==>
      a[e] % 1440 <= b[e] % 1440 && a[e] <= b[e] && b[e] - a[e] < 1440
  }

  /** The grouping invariant of a route. */
  predicate Fifo(rows: seq<Times>) {
    forall i, j :: 0 <= i < j < |rows| ==> Precedes(rows[i], rows[j])
  }

  function Insert<T>(s: seq<T>, p: nat, x: T): seq<T>
    requires p <= |s|
  {
    s[..p] + [x] + s[p..]
  }

  /** Where `std::lower_bound` by first departure modulo one day ends up. */
  function LowerBound(rows: seq<Times>, s: Times): (p: nat)
    requires |s| > 0 && forall i :: 0 <= i < |rows| ==> |rows[i]| == |s|
    ensures p <= |rows|
    ensures p < |rows| ==> s[0] % 1440 <= rows[p][0] % 1440
    ensures forall i :: 0 <= i < p ==> rows[i][0] % 1440 < s[0] % 1440
  {
    if rows == [] || rows[0][0] % 1440 >= s[0] % 1440 then 0 else 1 + LowerBound(rows[1..], s)
  }

  /** The insertion position of `s`, if inserting there keeps the invariant. */
  function IndexFor(rows: seq<Times>, s: Times): Option<nat>
    requires |s| > 0 && forall i :: 0 <= i < |rows| ==> |rows[i]| == |s|
  {
    var p := LowerBound(rows, s);
    if Fifo(Insert(rows, p, s)) then Some(p) else None
  }

  /** The binary search of `std::lower_bound`. */
  method FindLowerBound(rows: seq<Times>, s: Times) returns (p: nat)
    requires |s| > 0 && Fifo(rows) && forall i :: 0 <= i < |rows| ==> |rows[i]| == |s|
    ensures p == LowerBound(rows, s)
  {
    var first: nat, count: nat := 0, |rows|;
    while count > 0
      invariant first + count <= |rows|
      invariant forall i :: 0 <= i < first ==> rows[i][0] % 1440 < s[0] % 1440
      invariant forall i :: first + count <= i < |rows| ==> s[0] % 1440 <= rows[i][0] % 1440
    {
      var step := count / 2;
      var mid := first + step;
      if rows[mid][0] % 1440 < s[0] % 1440 {
        assert forall i :: 0 <= i < mid ==> Precedes(rows[i], rows[mid]);
        first, count := mid + 1, count - step - 1;
      } else {
        assert forall i :: mid < i < |rows| ==> Precedes(rows[mid], rows[i]);
        count := step;
      }
    }
    p := first;
    LowerBoundIsUnique(rows, s, p);
  }

  lemma LowerBoundIsUnique(rows: seq<Times>, s: Times, p: nat)
    requires |s| > 0 && forall i :: 0 <= i < |rows| ==> |rows[i]| == |s|
    requires p <= |rows|
    requires forall i :: 0 <= i < p ==> rows[i][0] % 1440 < s[0] % 1440
    requires forall i :: p <= i < |rows| ==> s[0] % 1440 <= rows[i][0] % 1440
    ensures p == LowerBound(rows, s)
  {
    var q := LowerBound(rows, s);
    var atP, atQ := if p < |rows| then rows[p] else s, if q < |rows| then rows[q] else s;
    assert !(p < q) && !(q < p);
  }

  /** What the loop of `get_index` checks at one event. */
  predicate EventFits(rows: seq<Times>, s: Times, p: nat, e: nat)
    requires p <= |rows| && e < |s| && forall i :: 0 <= i < |rows| ==> |rows[i]| == |s|
  {
    && !(p > 0 && s[e] % 1440 < rows[p - 1][e] % 1440)
    && !(p < |rows| && s[e] % 1440 > rows[p][e] % 1440)
    && (rows != [] ==>
          && !(p > 0 && s[e] < rows[p - 1][e])
          && !(p < |rows| && s[e] > rows[p][e])
          && Max(s[e], rows[|rows| - 1][e]) - Min(s[e], rows[0][e]) < 1440)
  }

  /** Looking at the two neighbours and the two ends is as good as looking at
      every row of the route. */
  lemma EventsFitIffFifo(rows: seq<Times>, s: Times, p: nat)
    requires Fifo(rows) && p <= |rows| && forall i :: 0 <= i < |rows| ==> |rows[i]| == |s|
    ensures (forall e :: 0 <= e < |s| ==> EventFits(rows, s, p, e)) <==> Fifo(Insert(rows, p, s))
  {
    if forall e :: 0 <= e < |s| ==> EventFits(rows, s, p, e) {
      forall i | 0 <= i < p ensures Precedes(rows[i], s) {
        FitsAfter(rows, s, p, i);
      }
      forall i | p <= i < |rows| ensures Precedes(s, rows[i]) {
        FitsBefore(rows, s, p, i);
      }
      FifoByParts(rows, s, p);
    }
    if Fifo(Insert(rows, p, s)) {
      forall e | 0 <= e < |s| ensures EventFits(rows, s, p, e) {
        FifoFits(rows, s, p, e);
      }
    }
  }

  lemma FifoByParts(rows: seq<Times>, s: Times, p: nat)
    requires Fifo(rows) && p <= |rows|
    requires forall i :: 0 <= i < p ==> Precedes(rows[i], s)
    requires forall i :: p <= i < |rows| ==> Precedes(s, rows[i])
    ensures Fifo(Insert(rows, p, s))
  {
    var ins := Insert(rows, p, s);
    forall i, j | 0 <= i < j < |ins| ensures Precedes(ins[i], ins[j]) {
      assert ins[i] == if i < p then rows[i] else if i == p then s else rows[i - 1];
      assert ins[j] == if j < p then rows[j] else if j == p then s else rows[j - 1];
    }
  }

  lemma FifoFits(rows: seq<Times>, s: Times, p: nat, e: nat)
    requires p <= |rows| && forall i :: 0 <= i < |rows| ==> |rows[i]| == |s|
    requires Fifo(Insert(rows, p, s)) && e < |s|
    ensures EventFits(rows, s, p, e)
  {
    var ins := Insert(rows, p, s);
    assert ins[p] == s;
    if p > 0 {
      assert ins[0] == rows[0] && ins[p - 1] == rows[p - 1];
      assert Precedes(ins[0], ins[p]) && Precedes(ins[p - 1], ins[p]);
    }
    if p < |rows| {
      assert ins[p + 1] == rows[p] && ins[|rows|] == rows[|rows| - 1];
      assert Precedes(ins[p], ins[p + 1]) && Precedes(ins[p], ins[|rows|]);
      if p > 0 {
        assert Precedes(ins[0], ins[|rows|]);
      }
    }
  }

  lemma FitsAfter(rows: seq<Times>, s: Times, p: nat, i: nat)
    requires Fifo(rows) && i < p <= |rows| && forall k :: 0 <= k < |rows| ==> |rows[k]| == |s|
    requires forall e :: 0 <= e < |s| ==> EventFits(rows, s, p, e)
    ensures Precedes(rows[i], s)
  {
    forall e | 0 <= e < |s|
      ensures rows[i][e] % 1440 <= s[e] % 1440 && rows[i][e] <= s[e] && s[e] - rows[i][e] < 1440
    {
      assert EventFits(rows, s, p, e);
      assert i < p - 1 ==> Precedes(rows[i], rows[p - 1]);
      assert 0 < i ==> Precedes(rows[0], rows[i]);
    }
  }

  lemma FitsBefore(rows: seq<Times>, s: Times, p: nat, i: nat)
    requires Fifo(rows) && p <= i < |rows| && forall k :: 0 <= k < |rows| ==> |rows[k]| == |s|
    requires forall e :: 0 <= e < |s| ==> EventFits(rows, s, p, e)
    ensures Precedes(s, rows[i])
  {
    forall e | 0 <= e < |s|
      ensures s[e] % 1440 <= rows[i][e] % 1440 && s[e] <= rows[i][e] && rows[i][e] - s[e] < 1440
    {
      assert EventFits(rows, s, p, e);
      assert p < i ==> Precedes(rows[p], rows[i]);
      assert i < |rows| - 1 ==> Precedes(rows[i], rows[|rows| - 1]);
    }
  }

  /** `get_index`: the lower-bound position when the invariant survives the
      insertion there, rejection when it does not. */
  method GetIndex(rows: seq<Times>, s: Times) returns (r: Option<nat>)
    requires |s| > 0 && Fifo(rows) && forall i :: 0 <= i < |rows| ==> |rows[i]| == |s|
    ensures r == IndexFor(rows, s)
    ensures r.Some? ==> r.value <= |rows| && Fifo(Insert(rows, r.value, s))
  {
    hide Fifo, LowerBound;
    var index := FindLowerBound(rows, s);
    EventsFitIffFifo(rows, s, index);
    for e := 0 to |s|
      invariant forall e' :: 0 <= e' < e ==> EventFits(rows, s, index, e')
    {
      var isEarlier := index > 0 && s[e] % 1440 < rows[index - 1][e] % 1440;
      var isLater := index < |rows| && s[e] % 1440 > rows[index][e] % 1440;
      if isEarlier || isLater {
        assert !EventFits(rows, s, index, e);
        return None;
      }
      if rows != [] {
        var fullBeforePrev := index > 0 && s[e] < rows[index - 1][e];
        var fullAfterNext := index < |rows| && s[e] > rows[index][e];
        var lo := Min(s[e], rows[0][e]);
        var hi := Max(s[e], rows[|rows| - 1][e]);
        if fullBeforePrev || fullAfterNext || hi - lo >= 1440 {
          assert !EventFits(rows, s, index, e);
          return None;
        }
      }
    }
    r := Some(index);
  }

  /** A trip that fits at `p` is rejected exactly if one of the rows it would follow
      departs at the same minute of the day and is another one: the lower bound lies
      before all such rows, and there a slower trip does not fit. If it is taken, the
      route is the one with the trip at `p`. */
  lemma WronglyRejectedIff(rows: seq<Times>, s: Times, p: nat)
    requires |s| > 0 && forall i :: 0 <= i < |rows| ==> |rows[i]| == |s|
    requires p <= |rows| && Fifo(Insert(rows, p, s))
    ensures IndexFor(rows, s) == None
       <==> exists i :: 0 <= i < p && rows[i][0] % 1440 == s[0] % 1440 && rows[i] != s
    ensures IndexFor(rows, s).Some? ==> Insert(rows, IndexFor(rows, s).value, s) == Insert(rows, p, s)
  {
    hide Insert;
    var q := LowerBound(rows, s);
    FitsBetween(rows, s, p);
    assert p < q ==> Precedes(s, rows[p]);
    if i :| 0 <= i < p && rows[i][0] % 1440 == s[0] % 1440 && rows[i] != s {
      var ins := Insert(rows, q, s);
      InsertedAt(rows, q, s, i);
      if Precedes(ins[q], ins[i + 1]) {
        OrderedBothWays(rows[i], s);
      }
    } else {
      forall i | q <= i < p ensures rows[i] == s {
        assert Precedes(rows[i], s);
        InsertedAt(rows, p, s, q);
        InsertedAt(rows, p, s, i);
        assert q < i ==> Precedes(rows[q], rows[i]);
      }
      SameInsertion(rows, p, q, s);
    }
  }

  lemma InsertedAt<T>(rows: seq<T>, p: nat, s: T, i: nat)
    requires p <= |rows| && i < |rows|
    ensures |Insert(rows, p, s)| == |rows| + 1 && Insert(rows, p, s)[p] == s
    ensures Insert(rows, p, s)[if i < p then i else i + 1] == rows[i]
  {
  }

  lemma SameInsertion<T>(rows: seq<T>, p: nat, q: nat, s: T)
    requires q <= p <= |rows| && forall i :: q <= i < p ==> rows[i] == s
    ensures Insert(rows, q, s) == Insert(rows, p, s)
  {
  }

  lemma FitsBetween(rows: seq<Times>, s: Times, p: nat)
    requires p <= |rows| && Fifo(Insert(rows, p, s))
    ensures forall i :: 0 <= i < p ==> Precedes(rows[i], s)
    ensures forall i :: p <= i < |rows| ==> Precedes(s, rows[i])
  {
    var ins := Insert(rows, p, s);
    forall i | 0 <= i < p ensures Precedes(rows[i], s) {
      assert ins[i] == rows[i] && ins[p] == s && Precedes(ins[i], ins[p]);
    }
    forall i | p <= i < |rows| ensures Precedes(s, rows[i]) {
      assert ins[i + 1] == rows[i] && ins[p] == s && Precedes(ins[p], ins[i + 1]);
    }
  }

  lemma OrderedBothWays(a: Times, b: Times)
    requires Precedes(a, b) && Precedes(b, a)
    ensures a == b
  {
  }

  /** Unless another row departs at the same minute of the day, a rejected trip
      fits nowhere in the route: the only position worth trying was tried. */
  lemma RejectionIsFinal(rows: seq<Times>, s: Times, p: nat)
    requires |s| > 0 && forall i :: 0 <= i < |rows| ==> |rows[i]| == |s|
    requires forall i :: 0 <= i < |rows| ==> rows[i][0] % 1440 != s[0] % 1440
    requires p <= |rows| && Fifo(Insert(rows, p, s))
    ensures IndexFor(rows, s) == Some(p)
  {
    WronglyRejectedIff(rows, s, p);
    FitsBetween(rows, s, p);
    LowerBoundIsUnique(rows, s, p);
  }

  /** Such routes and trips exist. */
  lemma TieIsRejectedThoughItFits()
    ensures Fifo([[100, 200]]) && IndexFor([[100, 200]], [100, 210]) == None
    ensures Fifo(Insert([[100, 200]], 1, [100, 210]))
  {
    var rows, s: Times := [[100, 200]], [100, 210];
    assert Insert(rows, 1, s) == [rows[0], s] && Precedes(rows[0], s);
    WronglyRejectedIff(rows, s, 1);
    assert rows[0][1] != s[1];
  }

  /** All transports of a route are on the same day offset at an event. */
  lemma CommonDayOffset(rows: seq<Times>, i: nat, j: nat, e: nat)
    requires Fifo(rows) && i < |rows| && j < |rows| && |rows[i]| == |rows[j]| && e < |rows[i]|
    ensures rows[i][e] / 1440 == rows[j][e] / 1440
  {
    if i < j {
      assert Precedes(rows[i], rows[j]);
    } else if j < i {
      assert Precedes(rows[j], rows[i]);
    }
  }

  /** Absolute minute of event `e` of row `i` started on service day `day`. */
  function EventTime(rows: seq<Times>, day: int, i: nat, e: nat): int
    requires i < |rows| && e < |rows[i]|
  {
    day * 1440 + rows[i][e]
  }

  /** (day, row) order is event time order at every stop. */
  lemma LexicographicIsTemporal(rows: seq<Times>, day: int, i: nat, day': int, j: nat, e: nat)
    requires Fifo(rows) && i < |rows| && j < |rows| && |rows[i]| == |rows[j]| && e < |rows[i]|
    requires day < day' || (day == day' && i <= j)
    ensures EventTime(rows, day, i, e) <= EventTime(rows, day', j, e)
    ensures day < day' ==> EventTime(rows, day, i, e) < EventTime(rows, day', j, e)
  {
    if i < j {
      assert Precedes(rows[i], rows[j]);
    } else if j < i {
      assert Precedes(rows[j], rows[i]);
    }
  }

  // ---------- grouping ----------

  datatype RouteKey = RouteKey(clasz: int, stopSeq: seq<int>, flags: seq<seq<bool>>)

  datatype Trip = Trip(id: int, utcTimes: Times)

  type SubRoutes = seq<seq<Trip>>

  function Rows(trips: seq<Trip>): (rows: seq<Times>)
    ensures |rows| == |trips| && forall i :: 0 <= i < |rows| ==> rows[i] == trips[i].utcTimes
  {
    seq(|trips|, i requires 0 <= i < |trips| => trips[i].utcTimes)
  }

  predicate HasKey(t: Trip, key: RouteKey) {
    |key.stopSeq| >= 2 && |t.utcTimes| == 2 * |key.stopSeq| - 2
  }

  ghost predicate RouteOk(route: seq<Trip>, key: RouteKey) {
    route != [] && Fifo(Rows(route)) && forall i :: 0 <= i < |route| ==> HasKey(route[i], key)
  }

  ghost predicate SubRoutesOk(subs: SubRoutes, key: RouteKey) {
    forall r :: 0 <= r < |subs| ==> RouteOk(subs[r], key)
  }

  function AllTrips(subs: SubRoutes): multiset<Trip> {
    if subs == [] then multiset{} else multiset(subs[0]) + AllTrips(subs[1..])
  }

  predicate RowsMatch(route: seq<Trip>, t: Trip) {
    |t.utcTimes| > 0 && forall i :: 0 <= i < |route| ==> |route[i].utcTimes| == |t.utcTimes|
  }

  /** First fit: the first sub-route with a position for `t`, else a new one. */
  ghost function FirstFit(subs: SubRoutes, key: RouteKey, t: Trip): SubRoutes
    requires SubRoutesOk(subs, key) && HasKey(t, key)
    decreases |subs|
  {
    if subs == [] then [[t]]
    else
      assert forall i :: 0 <= i < |subs[0]| ==> HasKey(subs[0][i], key);
      match IndexFor(Rows(subs[0]), t.utcTimes)
      case Some(p) => [Insert(subs[0], p, t)] + subs[1..]
      case None => [subs[0]] + FirstFit(subs[1..], key, t)
  }

  lemma InsertedRows(route: seq<Trip>, p: nat, t: Trip)
    requires p <= |route|
    ensures Rows(Insert(route, p, t)) == Insert(Rows(route), p, t.utcTimes)
    ensures multiset(Insert(route, p, t)) == multiset(route) + multiset{t}
  {
    assert route == route[..p] + route[p..];
  }

  lemma RouteGrows(route: seq<Trip>, key: RouteKey, t: Trip, p: nat)
    requires RouteOk(route, key) && HasKey(t, key) && RowsMatch(route, t) && IndexFor(Rows(route), t.utcTimes) == Some(p)
    ensures p <= |route| && RouteOk(Insert(route, p, t), key) && multiset(Insert(route, p, t)) == multiset(route) + multiset{t}
  {
    hide Fifo, Precedes, LowerBound, Rows;
    InsertedRows(route, p, t);
  }

  lemma SingleRoute(key: RouteKey, t: Trip)
    requires HasKey(t, key)
    ensures RouteOk([t], key)
  {
    assert Rows([t]) == [t.utcTimes];
  }

  lemma {:induction false} FirstFitKeepsAll(subs: SubRoutes, key: RouteKey, t: Trip)
    requires SubRoutesOk(subs, key) && HasKey(t, key)
    ensures SubRoutesOk(FirstFit(subs, key, t), key)
    ensures AllTrips(FirstFit(subs, key, t)) == AllTrips(subs) + multiset{t}
    decreases |subs|
  {
    assert subs != [] ==> forall i :: 0 <= i < |subs[0]| ==> HasKey(subs[0][i], key);
    hide Fifo, LowerBound, Rows, IndexFor, RouteOk, Insert;
    if subs == [] {
      SingleRoute(key, t);
      assert AllTrips([[t]][1..]) == multiset{};
    } else {
      match IndexFor(Rows(subs[0]), t.utcTimes)
      case Some(p) =>
        RouteGrows(subs[0], key, t, p);
        assert FirstFit(subs, key, t)[1..] == subs[1..];
      case None =>
        FirstFitKeepsAll(subs[1..], key, t);
        assert FirstFit(subs, key, t)[1..] == FirstFit(subs[1..], key, t);
    }
  }

  /** Sub-routes without a position for `t` are passed over. */
  lemma {:induction false} FirstFitSkips(subs: SubRoutes, key: RouteKey, t: Trip, r: nat)
    requires SubRoutesOk(subs, key) && HasKey(t, key) && r <= |subs|
    requires forall k :: 0 <= k < r ==> RowsMatch(subs[k], t) && IndexFor(Rows(subs[k]), t.utcTimes) == None
    ensures r == |subs| ==> FirstFit(subs, key, t) == subs + [[t]]
    ensures r < |subs| && RowsMatch(subs[r], t) && IndexFor(Rows(subs[r]), t.utcTimes).Some? ==>
      FirstFit(subs, key, t) == subs[r := Insert(subs[r], IndexFor(Rows(subs[r]), t.utcTimes).value, t)]
    decreases r
  {
    hide Fifo, Precedes, LowerBound, Rows;
    if r > 0 {
      assert subs[0] == subs[..][0];
      assert forall k :: 0 <= k < r - 1 ==> subs[1..][k] == subs[k + 1];
      FirstFitSkips(subs[1..], key, t, r - 1);
    }
  }

  ghost predicate ServicesOk(services: map<RouteKey, SubRoutes>) {
    forall k :: k in services ==> SubRoutesOk(services[k], k)
  }

  /** What adding a trip does to the routes found so far. */
  ghost function Added(services: map<RouteKey, SubRoutes>, key: RouteKey, t: Trip): map<RouteKey, SubRoutes>
    requires ServicesOk(services) && HasKey(t, key)
  {
    services[key := FirstFit(if key in services then services[key] else [], key, t)]
  }

  /** Some sub-route has a position for the trip. */
  ghost predicate IsTaken(subs: SubRoutes, t: Trip) {
    exists r :: 0 <= r < |subs| && RowsMatch(subs[r], t) && IndexFor(Rows(subs[r]), t.utcTimes).Some?
  }

  lemma {:induction false} FirstFitOpensIff(subs: SubRoutes, key: RouteKey, t: Trip)
    requires SubRoutesOk(subs, key) && HasKey(t, key)
    ensures |FirstFit(subs, key, t)| == if IsTaken(subs, t) then |subs| else |subs| + 1
    decreases |subs|
  {
    hide Fifo, Precedes, LowerBound, Rows;
    if subs != [] {
      assert forall i :: 0 <= i < |subs[0]| ==> HasKey(subs[0][i], key);
      FirstFitOpensIff(subs[1..], key, t);
      if r :| 0 <= r < |subs| && RowsMatch(subs[r], t) && IndexFor(Rows(subs[r]), t.utcTimes).Some? && r > 0 {
        assert subs[1..][r - 1] == subs[r];
      }
      if r :| 0 <= r < |subs[1..]| && RowsMatch(subs[1..][r], t) && IndexFor(Rows(subs[1..][r]), t.utcTimes).Some? {
        assert subs[r + 1] == subs[1..][r];
      }
    }
  }

  /** Adding a trip opens a new sub-route exactly if no sub-route of its key takes the
      trip, and concerns no other key. */
  lemma AddingOpensIff(services: map<RouteKey, SubRoutes>, key: RouteKey, t: Trip)
    requires ServicesOk(services) && HasKey(t, key)
    ensures var added, n := Added(services, key, t), if key in services then |services[key]| else 0;
      && added.Keys == services.Keys + {key} && (forall k :: k in services && k != key ==> added[k] == services[k])
      && |added[key]| == (if key in services && IsTaken(services[key], t) then n else n + 1)
  {
    hide FirstFit, IsTaken;
    FirstFitOpensIff(if key in services then services[key] else [], key, t);
    NobodyTakes(t);
  }

  lemma NobodyTakes(t: Trip)
    ensures !IsTaken([], t)
  {
  }

  /** The loop over the sub-routes of a key. */
  method Place(subs: SubRoutes, key: RouteKey, t: Trip) returns (subs': SubRoutes)
    requires SubRoutesOk(subs, key) && HasKey(t, key)
    ensures subs' == FirstFit(subs, key, t)
  {
    for r := 0 to |subs|
      invariant forall k :: 0 <= k < r ==> RowsMatch(subs[k], t) && IndexFor(Rows(subs[k]), t.utcTimes) == None
    {
      assert RouteOk(subs[r], key);
      var index := GetIndex(Rows(subs[r]), t.utcTimes);
      if index.Some? {
        FirstFitSkips(subs, key, t, r);
        return subs[r := Insert(subs[r], index.value, t)];
      }
    }
    FirstFitSkips(subs, key, t, |subs|);
    subs' := subs + [[t]];
  }

  class RouteServices {
    var services: map<RouteKey, SubRoutes>

    constructor ()
      ensures services == map[]
    {
      services := map[];
    }

    method AddExpandedTrip(key: RouteKey, t: Trip)
      requires ServicesOk(services) && HasKey(t, key)
      modifies this
      ensures services == Added(old(services), key, t)
      ensures ServicesOk(services)
    {
      FirstFitKeepsAll(if key in services then services[key] else [], key, t);
      if key in services {
        var subs := Place(services[key], key, t);
        services := services[key := subs];
      } else {
        services := services[key := [[t]]];
      }
    }
  }

  datatype Keyed = Keyed(key: RouteKey, trip: Trip)

  function TripsOf(input: seq<Keyed>, key: RouteKey): multiset<Trip> {
    if input == [] then multiset{}
    else
      var rest := TripsOf(input[..|input| - 1], key);
      if input[|input| - 1].key == key then rest + multiset{input[|input| - 1].trip} else rest
  }

  /** The routes after a whole sequence of `add_expanded_trip` calls. */
  ghost function Grouped(input: seq<Keyed>): (services: map<RouteKey, SubRoutes>)
    requires forall i :: 0 <= i < |input| ==> HasKey(input[i].trip, input[i].key)
    ensures ServicesOk(services)
  {
    if input == [] then map[]
    else
      var k := input[|input| - 1];
      var before := Grouped(input[..|input| - 1]);
      FirstFitKeepsAll(if k.key in before then before[k.key] else [], k.key, k.trip);
      Added(before, k.key, k.trip)
  }

  /** Grouping is a partition: after any sequence of trips the sub-routes of a key
      hold exactly the trips added under that key, and each is FIFO. */
  lemma {:induction false} GroupingIsPartition(input: seq<Keyed>, key: RouteKey)
    requires forall i :: 0 <= i < |input| ==> HasKey(input[i].trip, input[i].key)
    ensures AllTrips(if key in Grouped(input) then Grouped(input)[key] else []) == TripsOf(input, key)
    ensures key in Grouped(input) ==> SubRoutesOk(Grouped(input)[key], key)
  {
    if input != [] {
      var k := input[|input| - 1];
      var before := Grouped(input[..|input| - 1]);
      GroupingIsPartition(input[..|input| - 1], key);
      FirstFitKeepsAll(if k.key in before then before[k.key] else [], k.key, k.trip);
    }
  }

  // ---------- writing the routes ----------

  /** Every row has `n` times that fit the source's 16-bit minutes. */
  predicate Storable(rows: seq<Times>, n: nat) {
    forall i :: 0 <= i < |rows| ==> |rows[i]| == n && forall e :: 0 <= e < n ==> rows[i][e] < 0x8000
  }

  function PackedRows(rows: seq<Times>, n: nat): (p: seq<seq<Delta>>)
    requires Storable(rows, n)
    ensures |p| == |rows| && forall i :: 0 <= i < |p| ==> |p[i]| == n
  {
    seq(|rows|, i requires 0 <= i < |rows| =>
      seq(n, e requires 0 <= e < n => FromMinutes(rows[i][e])))
  }

  /** The stop-time writer: for each pair of consecutive stops first all
      departures, then all arrivals. The result is event-major. */
  method WriteStopTimes(services: seq<Times>, nStops: nat, table: seq<Delta>) returns (table': seq<Delta>)
    requires nStops >= 2 && Storable(services, 2 * nStops - 2)
    ensures table' == table + EventMajor(PackedRows(services, 2 * nStops - 2), 2 * nStops - 2)
  {
    table' := table;
    ghost var rows := PackedRows(services, 2 * nStops - 2);
    for from := 0 to nStops - 1
      invariant table' == table + EventMajor(rows, 2 * from)
    {
      hide PackedRows, Column, EventMajor;
      EventMajorGrows(rows, 2 * from, table);
      EventMajorGrows(rows, 2 * from + 1, table);
      var to := from + 1;
      table' := AppendColumn(services, 2 * nStops - 2, from * 2, table');
      table' := AppendColumn(services, 2 * nStops - 2, to * 2 - 1, table');
    }
  }

  method AppendColumn(services: seq<Times>, n: nat, e: nat, table: seq<Delta>) returns (table': seq<Delta>)
    requires Storable(services, n) && e < n
    ensures table' == table + Column(PackedRows(services, n), e)
  {
    table' := table;
    ghost var column := Column(PackedRows(services, n), e);
    for i := 0 to |services|
      invariant table' == table + column[..i]
    {
      table' := table' + [FromMinutes(services[i][e])];
    }
  }

  /** The block of the table holds what the writer wrote for these rows. */
  predicate RouteWritten(b: RouteBlock, table: seq<Delta>, rows: seq<Times>) {
    && InTable(b, table) && |rows| == b.to - b.from && Storable(rows, b.nEvents)
    && table[b.base..b.base + RowStart(b.nEvents, |rows|)] == EventMajor(PackedRows(rows, b.nEvents), b.nEvents)
  }

  lemma WrittenRoute(b: RouteBlock, table: seq<Delta>, rows: seq<Times>, e: nat, i: nat)
    requires RouteWritten(b, table, rows) && e < b.nEvents && i < |rows|
    ensures StopTime(b, table, e, i) == FromMinutes(rows[i][e])
  {
    var packed := PackedRows(rows, b.nEvents);
    var block := table[b.base..b.base + RowStart(b.nEvents, |rows|)];
    RowsDoNotOverlap(e, b.nEvents, |rows|);
    EventMajorAt(packed, b.nEvents, e, i);
    assert block[RowStart(e, |rows|) + i] == packed[i][e];
    assert block[RowStart(e, |rows|) + i] == table[b.base + RowStart(e, |rows|) + i];
  }

  // ---------- how many patterns a grouped route needs ----------

  function Total(row: Times, n: nat): nat
    requires n <= |row|
  {
    if n == 0 then 0 else Total(row, n - 1) + row[n - 1]
  }

  /** A later row of a route is the same one or has a larger sum, but by less than a
      day per event. */
  lemma {:induction false} TotalsGrow(a: Times, b: Times, n: nat)
    requires Precedes(a, b) && n <= |a|
    ensures Total(a, n) <= Total(b, n) <= Total(a, n) + 1439 * n
    ensures Total(a, n) == Total(b, n) ==> forall e :: 0 <= e < n ==> a[e] == b[e]
  {
    if n > 0 {
      TotalsGrow(a, b, n - 1);
    }
  }

  lemma SameRowSameOffsets(b: RouteBlock, table: seq<Delta>, rows: seq<Times>, i: nat, j: nat)
    requires RouteWritten(b, table, rows) && i < |rows| && j < |rows| && rows[i] == rows[j]
    ensures Offsets(b, table, i) == Offsets(b, table, j)
  {
    forall e: nat | e < b.nEvents
      ensures StopTime(b, table, e, i) == StopTime(b, table, e, j)
    {
      WrittenRoute(b, table, rows, e, i);
      WrittenRoute(b, table, rows, e, j);
    }
  }

  /** Up to row `k` there are at most as many patterns as the sums of the rows grew. */
  lemma {:induction false} PatternsUpTo(b: RouteBlock, table: seq<Delta>, rows: seq<Times>, k: nat)
    requires RouteWritten(b, table, rows) && Fifo(rows) && 0 < k <= |rows|
    ensures |Distinct(OffsetRows(b, table, k))| <= 1 + Total(rows[k - 1], b.nEvents) - Total(rows[0], b.nEvents)
  {
    hide PackedRows, EventMajor, Offsets, Distinct, OffsetRows;
    RowsGrow(b, table, k - 1, Offsets(b, table, k - 1));
    if k == 1 {
      NoRowsYet(b, table);
    } else {
      PatternsUpTo(b, table, rows, k - 1);
      assert Precedes(rows[k - 2], rows[k - 1]);
      TotalsGrow(rows[k - 2], rows[k - 1], b.nEvents);
      if Total(rows[k - 2], b.nEvents) == Total(rows[k - 1], b.nEvents) {
        assert rows[k - 2] == rows[k - 1];
        SameRowSameOffsets(b, table, rows, k - 2, k - 1);
        LastIsDistinct(b, table, k - 1);
      }
    }
  }

  lemma NoRowsYet(b: RouteBlock, table: seq<Delta>)
    requires InTable(b, table)
    ensures Distinct(OffsetRows(b, table, 0)) == []
  {
  }

  lemma LastIsDistinct(b: RouteBlock, table: seq<Delta>, k: nat)
    requires InTable(b, table) && 0 < k <= b.to - b.from
    ensures Offsets(b, table, k - 1) in Distinct(OffsetRows(b, table, k))
  {
    RowsGrow(b, table, k - 1, Offsets(b, table, k - 1));
  }

  /** The rows of a grouped route form a chain within a day at every event, so that it
      has fewer than a day's minutes of patterns per event. Routes with at most 45
      events, that is 23 stops, never reach the limit of 16 bits. */
  lemma GroupedRouteHasFewPatterns(b: RouteBlock, table: seq<Delta>, rows: seq<Times>)
    requires RouteWritten(b, table, rows) && Fifo(rows)
    ensures PatternCount(b, table) <= 1439 * b.nEvents + 1
    ensures b.nEvents <= 45 ==> PatternCount(b, table) < 0x1_0000
  {
    var n := |rows|;
    if n == 0 {
      NoRowsYet(b, table);
    } else {
      PatternsUpTo(b, table, rows, n);
      if n > 1 {
        assert Precedes(rows[0], rows[n - 1]);
        TotalsGrow(rows[0], rows[n - 1], b.nEvents);
      }
    }
  }

  /** From the loader to the router: every time of every grouped transport is read
      back from the compressed timetable, whether through the transport or
      through its route. */
  lemma GroupedTimesSurvive(tt: Timetable, blocks: seq<RouteBlock>, table: seq<Delta>, r: nat,
                            rows: seq<Times>, e: nat, i: nat)
    requires r < |blocks| && RouteWritten(blocks[r], table, rows) && tt.RouteStored(blocks, table, r)
    requires e < blocks[r].nEvents && i < |rows| && rows[i][0] <= rows[i][e]
    ensures Slot(tt.routeTimes[r], tt.transportPattern[blocks[r].from + i], e) < |tt.patternOffsets|
    ensures tt.EventMam(r, blocks[r].from + i, e) == tt.EventTimeAt(r, e, i) == FromMinutes(rows[i][e])
    ensures Minutes(tt.EventTimeAt(r, e, i)) == rows[i][e]
  {
    WrittenRoute(blocks[r], table, rows, e, i);
    WrittenRoute(blocks[r], table, rows, 0, i);
    FromMinutesExact(rows[i][e]);
    FromMinutesExact(rows[i][0]);
    tt.ReadsBack(blocks, table, r, i, e);
  }
}
