/** Finding and merging duplicate transports of two routes. */
module TransportMerging {
  import opened Basics
  import opened Deltas
  import Grouping

  /** Event times of one transport in minutes, as the packed times count them:
      departure, arrival, departure, ... */
  type Times = seq<int>

  /** All transports: their times and the days they run on before merging. */
  datatype Fleet = Fleet(times: seq<Times>, before: seq<set<nat>>)

  /** The transports `first`, `first + 1`, ... of a route with `nStops` stops. */
  datatype Route = Route(first: nat, size: nat, nStops: nat) {
    predicate Has(t: nat) { first <= t < first + size }
  }

  ghost predicate RouteOk(f: Fleet, r: Route) {
    && |f.times| == |f.before| && r.first + r.size <= |f.times| && r.nStops >= 2
    && forall t: nat :: r.Has(t) ==> |f.times[t]| == 2 * r.nStops - 2
  }

  /** The order that the sliding window relies on. */
  ghost predicate DeparturesSorted(f: Fleet, r: Route)
    requires RouteOk(f, r)
  {
    forall t, u :: r.first <= t <= u < r.first + r.size ==> f.times[t][0] <= f.times[u][0]
  }

  /** Counting packed times keeps their order, unless the two lie on different sides
      of the largest signed 16-bit number. */
  lemma CountKeepsOrderIff(a: Delta, b: Delta)
    requires Normal(a) && Normal(b) && Minutes(a) <= Minutes(b)
    ensures Count(a) <= Count(b) <==> !(Minutes(a) < 0x8000 <= Minutes(b))
  {
    Wrapped(Minutes(a));
    Wrapped(Minutes(b));
  }

  lemma Wrapped(m: nat)
    requires m < 32 * 1440
    ensures Wrap16(m) == if m < 0x8000 then m else m - 0x1_0000
  {
  }

  /** The transports of a route that was grouped and written have the order that the
      window relies on: grouped times stay below the largest signed 16-bit number. */
  lemma GroupedDeparturesAreSorted(f: Fleet, r: Route, rows: seq<Grouping.Times>)
    requires RouteOk(f, r) && |rows| == r.size && Grouping.Fifo(rows) && Grouping.Storable(rows, 2 * r.nStops - 2)
    requires forall i :: 0 <= i < |rows| ==> f.times[r.first + i][0] == Count(FromMinutes(rows[i][0]))
    ensures DeparturesSorted(f, r)
  {
    forall t, u | r.first <= t <= u < r.first + r.size ensures f.times[t][0] <= f.times[u][0] {
      var a, b := rows[t - r.first], rows[u - r.first];
      assert t < u ==> Grouping.Precedes(a, b);
      FromMinutesExact(a[0]);
      FromMinutesExact(b[0]);
      CountKeepsOrderIff(FromMinutes(a[0]), FromMinutes(b[0]));
      assert f.times[r.first + (t - r.first)][0] <= f.times[r.first + (u - r.first)][0];
    }
  }

  // ---------- duplicates ----------

  /** Summed absolute difference of the first `n` events. */
  function Distance(a: Times, b: Times, n: nat): nat
    requires n <= |a| && n <= |b|
  {
    if n == 0 then 0 else Distance(a, b, n - 1) + Abs(a[n - 1] - b[n - 1])
  }

  lemma {:induction false} DistanceGrows(a: Times, b: Times, m: nat, n: nat)
    requires m <= n <= |a| && n <= |b|
    ensures Distance(a, b, m) <= Distance(a, b, n)
    decreases n
  {
    if m < n {
      DistanceGrows(a, b, m, n - 1);
    }
  }

  /** `is_duplicate`: stops summing as soon as the budget is exceeded. */
  method IsDuplicate(a: Times, b: Times, nStops: nat, budget: int) returns (r: bool)
    requires nStops >= 2 && |a| == |b| == 2 * nStops - 2
    ensures r <==> Distance(a, b, |a|) <= budget
  {
    var delta := 0;
    for i := 0 to nStops
      invariant delta == Distance(a, b, if i == 0 then 0 else if i == nStops then 2 * i - 2 else 2 * i - 1)
      invariant i > 0 ==> delta <= budget
    {
      if i != 0 {
        delta := delta + Abs(a[2 * i - 1] - b[2 * i - 1]);
      }
      if i != nStops - 1 {
        delta := delta + Abs(a[2 * i] - b[2 * i]);
      }
      if delta > budget {
        DistanceGrows(a, b, if i == nStops - 1 then 2 * i else 2 * i + 1, |a|);
        return false;
      }
    }
    r := true;
  }

  // ---------- merging ----------

  /** The days after merging: the transport whose days the other one has, too, loses
      all of them; else the first one loses the common days. */
  function Merged(days: seq<set<nat>>, a: nat, b: nat): (days': seq<set<nat>>)
    requires a < |days| && b < |days|
    ensures |days'| == |days|
  {
    if days[a] <= days[b] then days[a := {}]
    else if days[b] <= days[a] then days[b := {}]
    else days[a := days[a] - days[b]]
  }

  /** The days that both run on stay with the second one, unless it runs on fewer days
      than the first and on none of its own; no other day and no other transport is
      concerned. */
  lemma SecondKeepsSharedDays(days: seq<set<nat>>, a: nat, b: nat, u: nat, day: nat)
    requires a < |days| && b < |days| && a != b && u < |days|
    ensures day in days[a] && day in days[b] ==>
      (day in Merged(days, a, b)[b] <==> !(days[b] < days[a])) && (day in Merged(days, a, b)[a] <==> days[b] < days[a])
    ensures !(u in {a, b} && day in days[a] && day in days[b]) ==> (day in Merged(days, a, b)[u] <==> day in days[u])
  {
  }

  lemma NothingLeft(x: set<nat>, y: set<nat>)
    ensures x - y == {} <==> x <= y
  {
    forall d | d in x && d !in y ensures x - y != {} {
      assert d in x - y;
    }
  }

  /** `merge`; tells which transport disappears. */
  method Merge(days: array<set<nat>>, a: nat, b: nat) returns (absorbed: Option<nat>)
    requires a < days.Length && b < days.Length && a != b && days[a] * days[b] != {}
    modifies days
    ensures days[..] == Merged(old(days[..]), a, b)
    ensures absorbed.Some? ==> absorbed.value in {a, b} && days[absorbed.value] == {}
    ensures absorbed.None? <==> days[a] != {} && days[b] != {}
  {
    var shared := days[a] * days[b];
    var restA, restB := days[a] - shared, days[b] - shared;
    assert restA == days[a] - days[b] && restB == days[b] - days[a];
    NothingLeft(days[a], days[b]);
    NothingLeft(days[b], days[a]);
    if restA == {} {
      days[a] := {};
      absorbed := Some(a);
    } else if restB == {} {
      days[b] := {};
      absorbed := Some(b);
    } else {
      days[a] := restA;
      absorbed := None;
    }
  }

  /** The input calls the two duplicates: they share a day and are close enough. */
  predicate Duplicates(f: Fleet, budget: int, a: nat, b: nat)
    requires a < |f.times| == |f.before| && b < |f.times| && |f.times[a]| == |f.times[b]|
  {
    f.before[a] * f.before[b] != {} && Distance(f.times[a], f.times[b], |f.times[a]|) <= budget
  }

  /** One pair: merged if the input calls it duplicate and it still shares a day. */
  function PairStep(f: Fleet, budget: int, days: seq<set<nat>>, a: nat, b: nat): (days': seq<set<nat>>)
    requires |days| == |f.times| == |f.before| && a < |days| && b < |days| && |f.times[a]| == |f.times[b]|
    ensures |days'| == |days|
  {
    if Duplicates(f, budget, a, b) && days[a] * days[b] != {} then Merged(days, a, b) else days
  }

  /** All pairs of `a` with the transports from `lo` up to `hi`, in order. */
  ghost function RowSteps(f: Fleet, budget: int, days: seq<set<nat>>, r: Route, a: nat, lo: nat, hi: nat): (days': seq<set<nat>>)
    requires RouteOk(f, r) && |days| == |f.times| && a < |days| && |f.times[a]| == 2 * r.nStops - 2
    requires r.first <= lo <= hi <= r.first + r.size
    ensures |days'| == |days|
    decreases hi
  {
    if lo == hi then days
    else PairStep(f, budget, RowSteps(f, budget, days, r, a, lo, hi - 1), a, hi - 1)
  }

  /** Where the partners of `a` start: a route is only compared with itself above the diagonal. */
  function FirstPartner(ra: Route, rb: Route, same: bool, a: nat): nat {
    if same then a + 1 else rb.first
  }

  ghost predicate PairOk(f: Fleet, ra: Route, rb: Route, same: bool) {
    && RouteOk(f, ra) && RouteOk(f, rb) && ra.nStops == rb.nStops
    && DeparturesSorted(f, ra) && DeparturesSorted(f, rb)
    && (if same then ra == rb else forall t: nat :: ra.Has(t) ==> !rb.Has(t))
  }

  /** Brute force: every pair of the two routes, row by row. */
  ghost function AllSteps(f: Fleet, budget: int, days: seq<set<nat>>, ra: Route, rb: Route, same: bool, n: nat): (days': seq<set<nat>>)
    requires PairOk(f, ra, rb, same) && |days| == |f.times| && n <= ra.size
    ensures |days'| == |days|
  {
    if n == 0 then days
    else
      var a := ra.first + n - 1;
      RowSteps(f, budget, AllSteps(f, budget, days, ra, rb, same, n - 1), rb, a, FirstPartner(ra, rb, same, a), rb.first + rb.size)
  }

  /** First departures too far apart rule out a duplicate. */
  lemma TooFarApart(f: Fleet, budget: int, a: nat, b: nat)
    requires a < |f.times| == |f.before| && b < |f.times| && |f.times[a]| == |f.times[b]| > 0
    requires Abs(f.times[a][0] - f.times[b][0]) > budget
    ensures !Duplicates(f, budget, a, b)
  {
    DistanceGrows(f.times[a], f.times[b], 1, |f.times[a]|);
  }

  /** Pairs that are no duplicates may be skipped. */
  lemma {:induction false} SkipRow(f: Fleet, budget: int, days: seq<set<nat>>, r: Route, a: nat, lo: nat, mid: nat, hi: nat)
    requires RouteOk(f, r) && |days| == |f.times| && a < |days| && |f.times[a]| == 2 * r.nStops - 2
    requires r.first <= lo <= mid <= hi <= r.first + r.size
    requires forall b :: mid <= b < hi ==> !Duplicates(f, budget, a, b)
    ensures RowSteps(f, budget, days, r, a, lo, hi) == RowSteps(f, budget, days, r, a, lo, mid)
    decreases hi
  {
    if mid < hi {
      SkipRow(f, budget, days, r, a, lo, mid, hi - 1);
    }
  }

  lemma {:induction false} SkipRowStart(f: Fleet, budget: int, days: seq<set<nat>>, r: Route, a: nat, lo: nat, mid: nat)
    requires RouteOk(f, r) && |days| == |f.times| && a < |days| && |f.times[a]| == 2 * r.nStops - 2
    requires r.first <= lo <= mid <= r.first + r.size
    requires forall b :: lo <= b < mid ==> !Duplicates(f, budget, a, b)
    ensures RowSteps(f, budget, days, r, a, lo, mid) == days
  {
    SkipRow(f, budget, days, r, a, lo, lo, mid);
  }

  /** `merge_route_pair`: a window over the second route's first departures moves
      along with the first route's; the outcome is that of brute force. */
  method MergeRoutePair(f: Fleet, days: array<set<nat>>, ra: Route, rb: Route, same: bool, budget: int)
    requires PairOk(f, ra, rb, same) && days.Length == |f.times|
    modifies days
    ensures days[..] == AllSteps(f, budget, old(days[..]), ra, rb, same, ra.size)
  {
    hide DeparturesSorted, AllSteps, RowSteps;
    ghost var days0 := days[..];
    AllStepsAtStart(f, budget, days0, ra, rb, same);
    var bFirst := rb.first;
    for n := 0 to ra.size
      invariant rb.first <= bFirst <= rb.first + rb.size
      invariant n < ra.size ==> LeftOfWindow(f, budget, rb, ra.first + n, bFirst)
      invariant days[..] == AllSteps(f, budget, days0, ra, rb, same, n)
    {
      var a := ra.first + n;
      assert ra.Has(a);
      while bFirst != rb.first + rb.size && f.times[bFirst][0] + budget < f.times[a][0]
        invariant rb.first <= bFirst <= rb.first + rb.size && LeftOfWindow(f, budget, rb, a, bFirst)
        decreases rb.first + rb.size - bFirst
      {
        bFirst := bFirst + 1;
      }
      MergeRow(f, days, rb, a, FirstPartner(ra, rb, same, a), bFirst, budget);
      NextRow(f, budget, days0, ra, rb, same, n);
      if n + 1 < ra.size {
        WindowMoves(f, budget, ra, rb, a, bFirst);
      }
    }
  }

  /** All transports of the route before `b` depart too early for `a`. */
  ghost predicate LeftOfWindow(f: Fleet, budget: int, r: Route, a: nat, b: nat)
    requires RouteOk(f, r) && a < |f.times| && |f.times[a]| == 2 * r.nStops - 2
  {
    forall c: nat :: r.Has(c) && c < b ==> f.times[c][0] + budget < f.times[a][0]
  }

  lemma WindowMoves(f: Fleet, budget: int, ra: Route, rb: Route, a: nat, b: nat)
    requires RouteOk(f, ra) && RouteOk(f, rb) && ra.nStops == rb.nStops && DeparturesSorted(f, ra)
    requires ra.Has(a) && ra.Has(a + 1) && LeftOfWindow(f, budget, rb, a, b)
    ensures LeftOfWindow(f, budget, rb, a + 1, b)
  {
    assert f.times[a][0] <= f.times[a + 1][0];
  }

  lemma AllStepsAtStart(f: Fleet, budget: int, days: seq<set<nat>>, ra: Route, rb: Route, same: bool)
    requires PairOk(f, ra, rb, same) && |days| == |f.times|
    ensures AllSteps(f, budget, days, ra, rb, same, 0) == days
    ensures ra.size > 0 ==> LeftOfWindow(f, budget, rb, ra.first, rb.first)
  {
    assert ra.size > 0 ==> ra.Has(ra.first);
  }

  lemma NextRow(f: Fleet, budget: int, days: seq<set<nat>>, ra: Route, rb: Route, same: bool, n: nat)
    requires PairOk(f, ra, rb, same) && |days| == |f.times| && n < ra.size
    ensures ra.Has(ra.first + n)
    ensures AllSteps(f, budget, days, ra, rb, same, n + 1) ==
      RowSteps(f, budget, AllSteps(f, budget, days, ra, rb, same, n), rb, ra.first + n,
               FirstPartner(ra, rb, same, ra.first + n), rb.first + rb.size)
  {
  }

  /** One row of the window. */
  method MergeRow(f: Fleet, days: array<set<nat>>, rb: Route, a: nat, first: nat, bFirst: nat, budget: int)
    requires RouteOk(f, rb) && DeparturesSorted(f, rb) && days.Length == |f.times|
    requires a < |f.times| && |f.times[a]| == 2 * rb.nStops - 2 && LeftOfWindow(f, budget, rb, a, bFirst)
    requires rb.first <= first <= rb.first + rb.size && rb.first <= bFirst <= rb.first + rb.size
    requires first <= a ==> !rb.Has(a)
    modifies days
    ensures days[..] == RowSteps(f, budget, old(days[..]), rb, a, first, rb.first + rb.size)
  {
    hide DeparturesSorted, RowSteps, Duplicates, Merged;
    ghost var days0 := days[..];
    var b := Max(first, bFirst);
    RowStarts(f, budget, days0, rb, a, first, b);
    while b != rb.first + rb.size
      invariant first <= b <= rb.first + rb.size && days[..] == RowSteps(f, budget, days0, rb, a, first, b)
      decreases rb.first + rb.size - b
    {
      assert rb.Has(b);
      if f.times[b][0] > f.times[a][0] + budget {
        RightOfWindow(f, budget, rb, a, b);
        break;
      }
      RowStep(f, budget, days0, rb, a, first, b);
      MergePair(f, days, rb, a, b, budget);
      b := b + 1;
    }
    RowEnds(f, budget, days0, rb, a, first, b);
  }

  /** One pair of the window. */
  method MergePair(f: Fleet, days: array<set<nat>>, r: Route, a: nat, b: nat, budget: int)
    requires RouteOk(f, r) && days.Length == |f.times| && a != b && r.Has(b)
    requires a < |f.times| && |f.times[a]| == 2 * r.nStops - 2
    modifies days
    ensures days[..] == PairStep(f, budget, old(days[..]), a, b)
  {
    if f.before[a] * f.before[b] == {} {
      return;
    }
    var duplicate := IsDuplicate(f.times[a], f.times[b], r.nStops, budget);
    if !duplicate || days[a] * days[b] == {} {
      return;
    }
    var _ := Merge(days, a, b);
  }

  /** Everything from `b` on departs too late. */
  ghost predicate NoneFrom(f: Fleet, budget: int, r: Route, a: nat, b: nat)
    requires RouteOk(f, r) && a < |f.times| && |f.times[a]| == 2 * r.nStops - 2
  {
    forall c: nat :: r.Has(c) && b <= c ==> !Duplicates(f, budget, a, c)
  }

  lemma RightOfWindow(f: Fleet, budget: int, r: Route, a: nat, b: nat)
    requires RouteOk(f, r) && DeparturesSorted(f, r) && r.Has(b)
    requires a < |f.times| && |f.times[a]| == 2 * r.nStops - 2 && f.times[b][0] > f.times[a][0] + budget
    ensures NoneFrom(f, budget, r, a, b)
  {
    forall c: nat | r.Has(c) && b <= c ensures !Duplicates(f, budget, a, c) {
      assert f.times[b][0] <= f.times[c][0];
      TooFarApart(f, budget, a, c);
    }
  }

  lemma RowStarts(f: Fleet, budget: int, days: seq<set<nat>>, r: Route, a: nat, first: nat, b: nat)
    requires RouteOk(f, r) && |days| == |f.times| && a < |f.times| && |f.times[a]| == 2 * r.nStops - 2
    requires r.first <= first <= b <= r.first + r.size
    requires first < b ==> LeftOfWindow(f, budget, r, a, b)
    ensures RowSteps(f, budget, days, r, a, first, b) == days
  {
    forall c | first <= c < b ensures !Duplicates(f, budget, a, c) {
      assert r.Has(c);
      TooFarApart(f, budget, a, c);
    }
    SkipRowStart(f, budget, days, r, a, first, b);
  }

  lemma RowStep(f: Fleet, budget: int, days: seq<set<nat>>, r: Route, a: nat, first: nat, b: nat)
    requires RouteOk(f, r) && |days| == |f.times| && a < |f.times| && |f.times[a]| == 2 * r.nStops - 2
    requires r.first <= first <= b && r.Has(b)
    ensures RowSteps(f, budget, days, r, a, first, b + 1) ==
      PairStep(f, budget, RowSteps(f, budget, days, r, a, first, b), a, b)
  {
  }

  lemma RowEnds(f: Fleet, budget: int, days: seq<set<nat>>, r: Route, a: nat, first: nat, b: nat)
    requires RouteOk(f, r) && |days| == |f.times| && a < |f.times| && |f.times[a]| == 2 * r.nStops - 2
    requires r.first <= first <= b <= r.first + r.size && (b < r.first + r.size ==> NoneFrom(f, budget, r, a, b))
    ensures RowSteps(f, budget, days, r, a, first, r.first + r.size) == RowSteps(f, budget, days, r, a, first, b)
  {
    forall c | b <= c < r.first + r.size ensures !Duplicates(f, budget, a, c) {
      assert r.Has(c);
    }
    SkipRow(f, budget, days, r, a, first, b, r.first + r.size);
  }

  // ---------- whole runs ----------

  /** One route pair with the budget it is compared with. */
  datatype Job = Job(ra: Route, rb: Route, same: bool, budget: int)

  ghost predicate JobOk(f: Fleet, j: Job) {
    PairOk(f, j.ra, j.rb, j.same)
  }

  ghost predicate JobsOk(f: Fleet, jobs: seq<Job>) {
    |f.times| == |f.before| && forall i :: 0 <= i < |jobs| ==> JobOk(f, jobs[i])
  }

  /** The days after merging the first `n` route pairs one after the other. */
  ghost function RunJobs(f: Fleet, jobs: seq<Job>, n: nat): (days: seq<set<nat>>)
    requires JobsOk(f, jobs) && n <= |jobs|
    ensures |days| == |f.times|
  {
    if n == 0 then f.before
    else
      var j := jobs[n - 1];
      AllSteps(f, j.budget, RunJobs(f, jobs, n - 1), j.ra, j.rb, j.same, j.ra.size)
  }

  /** `a` and `b` are a duplicate pair of this route pair. */
  ghost predicate PairOfJob(f: Fleet, j: Job, a: nat, b: nat)
    requires JobOk(f, j)
  {
    j.ra.Has(a) && j.rb.Has(b) && (j.same ==> a < b) && Duplicates(f, j.budget, a, b)
  }

  /** A duplicate pair of some visited route pair, in either order. */
  ghost predicate Twins(f: Fleet, jobs: seq<Job>, a: nat, b: nat)
    requires JobsOk(f, jobs)
  {
    exists i :: 0 <= i < |jobs| && (PairOfJob(f, jobs[i], a, b) || PairOfJob(f, jobs[i], b, a))
  }

  /** A chain of twins from `t`, all of them running on `day` before merging. */
  ghost predicate IsChain(f: Fleet, jobs: seq<Job>, day: nat, t: nat, chain: seq<nat>)
    requires JobsOk(f, jobs)
  {
    && chain != [] && chain[0] == t
    && (forall i :: 0 <= i < |chain| ==> chain[i] < |f.before| && day in f.before[chain[i]])
    && (forall i :: 0 <= i < |chain| - 1 ==> Twins(f, jobs, chain[i], chain[i + 1]))
  }

  ghost predicate Reaches(f: Fleet, jobs: seq<Job>, day: nat, t: nat, u: nat)
    requires JobsOk(f, jobs)
  {
    exists chain :: IsChain(f, jobs, day, t, chain) && chain[|chain| - 1] == u
  }

  /** Somebody linked to `t` still runs on `day`. */
  ghost predicate StillServed(f: Fleet, jobs: seq<Job>, days: seq<set<nat>>, t: nat, day: nat)
    requires JobsOk(f, jobs)
  {
    exists u: nat :: u < |days| && day in days[u] && Reaches(f, jobs, day, t, u)
  }

  /** Days are only ever cleared, and none is lost. */
  ghost predicate NoDayLost(f: Fleet, jobs: seq<Job>, days: seq<set<nat>>)
    requires JobsOk(f, jobs)
  {
    && |days| == |f.before|
    && (forall t :: 0 <= t < |days| ==> days[t] <= f.before[t])
    && (forall t: nat, day: nat :: t < |days| && day in f.before[t] ==> StillServed(f, jobs, days, t, day))
  }

  lemma ReachesExtends(f: Fleet, jobs: seq<Job>, day: nat, t: nat, u: nat, v: nat)
    requires JobsOk(f, jobs)
    requires Reaches(f, jobs, day, t, u) && Twins(f, jobs, u, v) && v < |f.before| && day in f.before[v]
    ensures Reaches(f, jobs, day, t, v)
  {
    hide Twins;
    var chain :| IsChain(f, jobs, day, t, chain) && chain[|chain| - 1] == u;
    assert IsChain(f, jobs, day, t, chain + [v]);
  }

  /** A merge takes a day from one transport only if the other one has it. */
  lemma MergedMovesDays(days: seq<set<nat>>, a: nat, b: nat, u: nat, day: nat)
    requires a < |days| && b < |days| && u < |days| && a != b && day in days[u] && day !in Merged(days, a, b)[u]
    ensures var v := if u == a then b else a; u in {a, b} && day in Merged(days, a, b)[v]
  {
  }

  lemma StepKeepsDays(f: Fleet, jobs: seq<Job>, i: nat, days: seq<set<nat>>, a: nat, b: nat)
    requires JobsOk(f, jobs)
    requires i < |jobs| && NoDayLost(f, jobs, days)
    requires jobs[i].ra.Has(a) && jobs[i].rb.Has(b) && (jobs[i].same ==> a < b)
    requires a < |days| && b < |days| && |f.times[a]| == |f.times[b]| && a != b
    ensures NoDayLost(f, jobs, PairStep(f, jobs[i].budget, days, a, b))
  {
    hide Reaches, Distance, StillServed, PairOk, Merged;
    var days' := PairStep(f, jobs[i].budget, days, a, b);
    assert JobOk(f, jobs[i]);
    if days' != days {
      MergedClears(days, a, b);
      assert PairOfJob(f, jobs[i], a, b) && Twins(f, jobs, a, b) && Twins(f, jobs, b, a);
      forall t: nat, day: nat | t < |days| && day in f.before[t] ensures StillServed(f, jobs, days', t, day) {
        MergeKeepsDay(f, jobs, days, a, b, t, day);
      }
    }
  }

  lemma MergeKeepsDay(f: Fleet, jobs: seq<Job>, days: seq<set<nat>>, a: nat, b: nat, t: nat, day: nat)
    requires JobsOk(f, jobs) && |days| == |f.before| && forall t :: 0 <= t < |days| ==> days[t] <= f.before[t]
    requires a < |days| && b < |days| && a != b && Twins(f, jobs, a, b) && Twins(f, jobs, b, a)
    requires StillServed(f, jobs, days, t, day)
    ensures StillServed(f, jobs, Merged(days, a, b), t, day)
  {
    hide Reaches, Twins, JobsOk, Merged;
    var u: nat :| u < |days| && day in days[u] && Reaches(f, jobs, day, t, u);
    if day !in Merged(days, a, b)[u] {
      MergedMovesDays(days, a, b, u, day);
      MergedClears(days, a, b);
      var v := if u == a then b else a;
      assert day in days[v];
      ReachesExtends(f, jobs, day, t, u, v);
    }
  }

  lemma MergedClears(days: seq<set<nat>>, a: nat, b: nat)
    requires a < |days| && b < |days|
    ensures forall t :: 0 <= t < |days| ==> Merged(days, a, b)[t] <= days[t]
  {
  }

  lemma {:induction false} RowKeepsDays(f: Fleet, jobs: seq<Job>, i: nat, days: seq<set<nat>>, a: nat, lo: nat, hi: nat)
    requires JobsOk(f, jobs)
    requires i < |jobs| && NoDayLost(f, jobs, days) && jobs[i].ra.Has(a) && |days| == |f.times|
    requires jobs[i].rb.first <= lo <= hi <= jobs[i].rb.first + jobs[i].rb.size && (jobs[i].same ==> a < lo)
    ensures |f.times[a]| == 2 * jobs[i].rb.nStops - 2
    ensures NoDayLost(f, jobs, RowSteps(f, jobs[i].budget, days, jobs[i].rb, a, lo, hi))
    decreases hi
  {
    hide NoDayLost, PairStep;
    assert JobOk(f, jobs[i]);
    if lo < hi {
      RowKeepsDays(f, jobs, i, days, a, lo, hi - 1);
      assert jobs[i].rb.Has(hi - 1);
      StepKeepsDays(f, jobs, i, RowSteps(f, jobs[i].budget, days, jobs[i].rb, a, lo, hi - 1), a, hi - 1);
    }
  }

  lemma {:induction false} JobKeepsDays(f: Fleet, jobs: seq<Job>, i: nat, days: seq<set<nat>>, n: nat)
    requires JobsOk(f, jobs)
    requires i < |jobs| && NoDayLost(f, jobs, days) && n <= jobs[i].ra.size && |days| == |f.times|
    ensures NoDayLost(f, jobs, AllSteps(f, jobs[i].budget, days, jobs[i].ra, jobs[i].rb, jobs[i].same, n))
    decreases n
  {
    hide NoDayLost, RowSteps, DeparturesSorted;
    assert JobOk(f, jobs[i]);
    if n > 0 {
      var j := jobs[i];
      var a := j.ra.first + n - 1;
      JobKeepsDays(f, jobs, i, days, n - 1);
      RowKeepsDays(f, jobs, i, AllSteps(f, j.budget, days, j.ra, j.rb, j.same, n - 1), a,
                   FirstPartner(j.ra, j.rb, j.same, a), j.rb.first + j.rb.size);
    }
  }

  /** Over the whole run days are only cleared, and every transport that ran on a
      day is linked by twins, all running that day, to one that still does. */
  lemma {:induction false} NoServiceDayIsLost(f: Fleet, jobs: seq<Job>, n: nat)
    requires JobsOk(f, jobs)
    requires n <= |jobs|
    ensures NoDayLost(f, jobs, RunJobs(f, jobs, n))
  {
    if n == 0 {
      forall t: nat, day: nat | t < |f.before| && day in f.before[t] ensures StillServed(f, jobs, f.before, t, day) {
        assert IsChain(f, jobs, day, t, [t]);
        assert Reaches(f, jobs, day, t, t);
      }
    } else {
      hide NoDayLost, AllSteps;
      NoServiceDayIsLost(f, jobs, n - 1);
      assert JobOk(f, jobs[n - 1]);
      JobKeepsDays(f, jobs, n - 1, RunJobs(f, jobs, n - 1), jobs[n - 1].ra.size);
    }
  }

  lemma {:induction false} RowLeaves(f: Fleet, budget: int, days: seq<set<nat>>, r: Route, a: nat, lo: nat, hi: nat, t: nat)
    requires RouteOk(f, r) && |days| == |f.times| && a < |days| && |f.times[a]| == 2 * r.nStops - 2 && t < |days|
    requires r.first <= lo <= hi <= r.first + r.size
    requires forall b :: lo <= b < hi && (t == a || t == b) ==> !Duplicates(f, budget, a, b)
    ensures RowSteps(f, budget, days, r, a, lo, hi)[t] == days[t]
    decreases hi
  {
    hide Duplicates;
    if lo < hi {
      RowLeaves(f, budget, days, r, a, lo, hi - 1, t);
    }
  }

  lemma {:induction false} JobLeaves(f: Fleet, j: Job, days: seq<set<nat>>, n: nat, t: nat)
    requires JobOk(f, j) && |days| == |f.times| && n <= j.ra.size && t < |days|
    requires forall u: nat :: !PairOfJob(f, j, t, u) && !PairOfJob(f, j, u, t)
    ensures AllSteps(f, j.budget, days, j.ra, j.rb, j.same, n)[t] == days[t]
    decreases n
  {
    hide RowSteps, DeparturesSorted, Distance;
    if n > 0 {
      var a, before := j.ra.first + n - 1, AllSteps(f, j.budget, days, j.ra, j.rb, j.same, n - 1);
      JobLeaves(f, j, days, n - 1, t);
      assert j.ra.Has(a);
      var lo, hi := FirstPartner(j.ra, j.rb, j.same, a), j.rb.first + j.rb.size;
      forall b | lo <= b < hi && (t == a || t == b) ensures !Duplicates(f, j.budget, a, b) {
        assert j.rb.Has(b) && !PairOfJob(f, j, a, b);
      }
      RowLeaves(f, j.budget, before, j.rb, a, lo, hi, t);
    }
  }

  /** A transport without a duplicate in any visited route pair keeps all its days. */
  lemma {:induction false} OthersKeepAllDays(f: Fleet, jobs: seq<Job>, n: nat, t: nat)
    requires JobsOk(f, jobs) && n <= |jobs| && t < |f.before|
    requires forall u: nat :: !Twins(f, jobs, t, u)
    ensures RunJobs(f, jobs, n)[t] == f.before[t]
  {
    hide AllSteps, PairOfJob;
    if n > 0 {
      OthersKeepAllDays(f, jobs, n - 1, t);
      var j := jobs[n - 1];
      assert JobOk(f, j);
      forall u: nat ensures !PairOfJob(f, j, t, u) && !PairOfJob(f, j, u, t) {
        assert !Twins(f, jobs, t, u);
      }
      JobLeaves(f, j, RunJobs(f, jobs, n - 1), j.ra.size, t);
    }
  }

  ghost predicate Shrinks(days: seq<set<nat>>, days': seq<set<nat>>) {
    |days| == |days'| && forall t :: 0 <= t < |days| ==> days'[t] <= days[t]
  }

  lemma PairStepSeparates(f: Fleet, budget: int, days: seq<set<nat>>, a: nat, b: nat)
    requires |days| == |f.times| == |f.before| && a < |days| && b < |days| && |f.times[a]| == |f.times[b]| && a != b
    ensures Shrinks(days, PairStep(f, budget, days, a, b))
    ensures Duplicates(f, budget, a, b) ==>
      PairStep(f, budget, days, a, b)[a] * PairStep(f, budget, days, a, b)[b] == {}
  {
    hide Duplicates;
  }

  lemma {:induction false} RowSeparates(f: Fleet, budget: int, days: seq<set<nat>>, r: Route, a: nat, lo: nat, hi: nat)
    requires RouteOk(f, r) && |days| == |f.times| && a < |days| && |f.times[a]| == 2 * r.nStops - 2
    requires r.first <= lo <= hi <= r.first + r.size && (a < lo || !r.Has(a))
    ensures Shrinks(days, RowSteps(f, budget, days, r, a, lo, hi))
    ensures forall b :: lo <= b < hi && Duplicates(f, budget, a, b) ==>
      RowSteps(f, budget, days, r, a, lo, hi)[a] * RowSteps(f, budget, days, r, a, lo, hi)[b] == {}
    decreases hi
  {
    hide PairStep, Duplicates;
    if lo < hi {
      RowSeparates(f, budget, days, r, a, lo, hi - 1);
      assert r.Has(hi - 1);
      PairStepSeparates(f, budget, RowSteps(f, budget, days, r, a, lo, hi - 1), a, hi - 1);
    }
  }

  /** `a`, one of the first `n` transports, shares no day with its duplicates any more. */
  ghost predicate Separated(f: Fleet, j: Job, n: nat, days: seq<set<nat>>)
    requires JobOk(f, j) && |days| == |f.times|
  {
    forall a: nat, b: nat :: PairOfJob(f, j, a, b) && a < j.ra.first + n ==> days[a] * days[b] == {}
  }

  lemma SeparatedShrinks(f: Fleet, j: Job, n: nat, days: seq<set<nat>>, days': seq<set<nat>>)
    requires JobOk(f, j) && |days| == |f.times| && Separated(f, j, n, days) && Shrinks(days, days')
    ensures Separated(f, j, n, days')
  {
    hide Duplicates;
    forall a: nat, b: nat | PairOfJob(f, j, a, b) && a < j.ra.first + n ensures days'[a] * days'[b] == {} {
      assert days'[a] * days'[b] <= days[a] * days[b];
    }
  }

  lemma {:induction false} JobSeparates(f: Fleet, j: Job, days: seq<set<nat>>, n: nat)
    requires JobOk(f, j) && |days| == |f.times| && n <= j.ra.size
    ensures var days' := AllSteps(f, j.budget, days, j.ra, j.rb, j.same, n);
      Shrinks(days, days') && Separated(f, j, n, days')
    decreases n
  {
    hide RowSteps, DeparturesSorted, Distance;
    if n > 0 {
      var a, before := j.ra.first + n - 1, AllSteps(f, j.budget, days, j.ra, j.rb, j.same, n - 1);
      JobSeparates(f, j, days, n - 1);
      assert j.ra.Has(a);
      var lo, hi := FirstPartner(j.ra, j.rb, j.same, a), j.rb.first + j.rb.size;
      RowSeparates(f, j.budget, before, j.rb, a, lo, hi);
      SeparatedShrinks(f, j, n - 1, before, RowSteps(f, j.budget, before, j.rb, a, lo, hi));
    }
  }

  /** In the end no duplicate pair of a visited route pair runs on a common day. */
  lemma {:induction false} NoTwinsShareADay(f: Fleet, jobs: seq<Job>, n: nat, i: nat)
    requires JobsOk(f, jobs) && i < n <= |jobs|
    ensures Separated(f, jobs[i], jobs[i].ra.size, RunJobs(f, jobs, n))
    decreases n
  {
    hide AllSteps, Separated;
    assert JobOk(f, jobs[n - 1]);
    JobSeparates(f, jobs[n - 1], RunJobs(f, jobs, n - 1), jobs[n - 1].ra.size);
    if i < n - 1 {
      NoTwinsShareADay(f, jobs, n - 1, i);
      assert JobOk(f, jobs[i]);
      SeparatedShrinks(f, jobs[i], jobs[i].ra.size, RunJobs(f, jobs, n - 1), RunJobs(f, jobs, n));
    }
  }
}
