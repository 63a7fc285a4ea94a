/** Travel time lower bounds for a query: seeding the search at the roots of the
    destinations, searching the contracted graph, handing bounds to children. */
module LowerBounds {
  import opened Basics
  import opened Dial
  import opened Dijkstra
  import opened Locations
  import opened LowerBoundGraph
  import opened RtLowerBounds

  const MAX_TRAVEL_TIME := 7200
  const TD_UNUSABLE := 511

  datatype Offset = Offset(target: nat, duration: nat)

  datatype TdOffset = TdOffset(from: nat, durations: seq<nat>)

  datatype Query = Query(mode: MatchMode, destination: seq<Offset>, tdDest: seq<TdOffset>, maxTravelTime: nat)

  predicate TdUsed(q: Query, d: nat) { d != TD_UNUSABLE && d < q.maxTravelTime }

  /** Offsets name locations and fit the buckets of the queue. */
  predicate QueryOk(q: Query, n: nat) {
    && q.maxTravelTime <= MAX_TRAVEL_TIME
    && (forall a :: 0 <= a < |q.destination| ==> q.destination[a].target < n && q.destination[a].duration <= MAX_TRAVEL_TIME)
    && (forall a :: 0 <= a < |q.tdDest| ==> q.tdDest[a].from < n)
  }

  // ---------- where a search may end ----------

  ghost predicate EndsByOffset(ls: Locations, q: Query, a: nat, y: nat, d: nat)
    requires WellFormed(ls) && QueryOk(q, |ls.parents|)
  {
    a < |q.destination| && IsMeta(ls, q.mode, q.destination[a].target, y) && d == q.destination[a].duration
  }

  ghost predicate EndsByTd(q: Query, a: nat, b: nat, y: nat, d: nat) {
    a < |q.tdDest| && b < |q.tdDest[a].durations| && y == q.tdDest[a].from
    && d == q.tdDest[a].durations[b] && TdUsed(q, d)
  }

  /** Location `y` is a destination with offset `d`. */
  ghost predicate EndsAt(ls: Locations, q: Query, y: nat, d: nat)
    requires WellFormed(ls) && QueryOk(q, |ls.parents|)
  {
    (exists a :: EndsByOffset(ls, q, a, y, d)) || (exists a, b :: EndsByTd(q, a, b, y, d))
  }

  // ---------- seeding ----------

  ghost predicate IsSeed(ls: Locations, q: Query, k: nat, d: nat)
    requires WellFormed(ls) && QueryOk(q, |ls.parents|)
  {
    exists y: nat :: y < |ls.parents| && Root(ls, y) == k && EndsAt(ls, q, y, d)
  }

  /** Per root the least offset of the destinations that belong to it. */
  ghost predicate IsSeedMap(ls: Locations, q: Query, m: map<nat, nat>)
    requires WellFormed(ls) && QueryOk(q, |ls.parents|)
  {
    && (forall k :: k in m ==> k < |ls.parents| && ls.parents[k] == None && m[k] <= MAX_TRAVEL_TIME)
    && (forall k :: k in m ==> IsSeed(ls, q, k, m[k]))
    && (forall y: nat, d: nat :: y < |ls.parents| && EndsAt(ls, q, y, d) ==> Root(ls, y) in m && m[Root(ls, y)] <= d)
  }

  /** The labels pushed for it: every location a root stands for. */
  ghost predicate IsSeedLabels(ls: Locations, q: Query, m: map<nat, nat>, start: multiset<Label>)
    requires WellFormed(ls)
  {
    forall l :: l in start <==>
      exists k :: k in m && k < |ls.parents| && IsMeta(ls, q.mode, k, l.node) && l.dist == m[k]
  }

  // ---------- bounds of children ----------

  /** The least distance on the way from `x` up to its root. */
  ghost function LeastUpwards(ls: Locations, dists: seq<nat>, x: nat): nat
    requires WellFormed(ls) && |dists| == |ls.parents| && x < |dists|
  {
    if ls.parents[x].None? then dists[x] else Min(LeastUpwards(ls, dists, ls.parents[x].value), dists[x])
  }

  lemma {:induction false} LeastIncludesRoot(ls: Locations, dists: seq<nat>, x: nat)
    requires WellFormed(ls) && |dists| == |ls.parents| && x < |dists|
    ensures LeastUpwards(ls, dists, x) <= dists[Root(ls, x)]
  {
    if ls.parents[x].Some? {
      LeastIncludesRoot(ls, dists, ls.parents[x].value);
    }
  }

  // ---------- itineraries ----------

  /** One step of an itinerary, told in search direction: towards the destination. */
  datatype Step = Wait(minutes: nat) | Move(next: nat, minutes: nat) | Change(next: nat)

  /** A real-time transport takes `d` minutes from its `i`-th stop `a` to the next one,
      `b`, no more than 16-bit durations can tell. */
  ghost predicate IsRtRide(net: Network, rts: seq<RtTransport>, a: nat, b: nat, d: nat, k: nat, i: nat)
    requires NetworkOk(net) && forall j :: 0 <= j < |rts| ==> RtOk(net, rts[j])
  {
    && k < |rts| && RtOk(net, rts[k]) && i + 1 < |rts[k].stops| && a == rts[k].stops[i] && b == rts[k].stops[i + 1]
    && d == rts[k].times[2 * i + 1] - rts[k].times[2 * i] && d <= MAX_DURATION
  }

  /** A traveller gets from `a` to `b` in `d` minutes: on a scheduled ride, a real-time
      ride or a footpath. */
  ghost predicate GetsTo(net: Network, prf: Profile, rts: seq<RtTransport>, a: nat, b: nat, d: nat)
    requires NetworkOk(net) && forall j :: 0 <= j < |rts| ==> RtOk(net, rts[j])
  {
    || (exists r, t, i :: IsRide(net, prf, a, b, d, r, t, i))
    || (exists k, i :: IsRtRide(net, rts, a, b, d, k, i))
    || IsWay(net, prf, a, b, d)
  }

  /** One move in search direction: forward searches travel from `here` to `next`,
      backward ones the other way. */
  ghost predicate IsMove(net: Network, prf: Profile, fwd: bool, rts: seq<RtTransport>, here: nat, next: nat, d: nat)
    requires NetworkOk(net) && forall j :: 0 <= j < |rts| ==> RtOk(net, rts[j])
  {
    if fwd then GetsTo(net, prf, rts, here, next, d) else GetsTo(net, prf, rts, next, here, d)
  }

  /** An itinerary from `x` to `y`. Changing between locations of one station is
      free, which only makes more itineraries possible than there are. */
  ghost predicate IsItinerary(net: Network, prf: Profile, fwd: bool, rts: seq<RtTransport>, x: nat, steps: seq<Step>, y: nat)
    requires NetworkOk(net) && forall j :: 0 <= j < |rts| ==> RtOk(net, rts[j])
    decreases |steps|
  {
    x < |net.ls.parents| &&
    if steps == [] then x == y
    else match steps[0]
      case Wait(_) => IsItinerary(net, prf, fwd, rts, x, steps[1..], y)
      case Move(next, d) => IsMove(net, prf, fwd, rts, x, next, d) && IsItinerary(net, prf, fwd, rts, next, steps[1..], y)
      case Change(next) => next < |net.ls.parents| && Root(net.ls, next) == Root(net.ls, x)
                           && IsItinerary(net, prf, fwd, rts, next, steps[1..], y)
  }

  function Minutes(s: Step): nat { if s.Change? then 0 else s.minutes }

  function Duration(steps: seq<Step>): nat {
    if steps == [] then 0 else Minutes(steps[0]) + Duration(steps[1..])
  }

  /** Every move is matched by a walk between the stations that is no longer. */
  ghost predicate CoversMoves(net: Network, prf: Profile, fwd: bool, rts: seq<RtTransport>, g: Graph)
    requires NetworkOk(net) && forall j :: 0 <= j < |rts| ==> RtOk(net, rts[j])
  {
    && |g| == |net.ls.parents| && GraphOk(g)
    && forall here: nat, next: nat, d: nat ::
         (here < |g| && next < |g| && IsMove(net, prf, fwd, rts, here, next, d)) ==>
           Within(g, Root(net.ls, next), Root(net.ls, here), d)
  }

  /** Contraction loses nothing: an itinerary becomes a walk between the roots, in
      the other direction, that takes at most as long. */
  lemma {:induction false} ItineraryAsWalk(net: Network, prf: Profile, fwd: bool, rts: seq<RtTransport>, g: Graph,
                                          x: nat, steps: seq<Step>, y: nat) returns (es: seq<Edge>)
    requires NetworkOk(net) && forall j :: 0 <= j < |rts| ==> RtOk(net, rts[j])
    requires CoversMoves(net, prf, fwd, rts, g) && IsItinerary(net, prf, fwd, rts, x, steps, y)
    ensures x < |g| && y < |g|
    ensures IsWalk(g, Root(net.ls, y), es) && EndOf(Root(net.ls, y), es) == Root(net.ls, x)
    ensures Length(es) <= Duration(steps)
    decreases |steps|
  {
    hide IsMove, Root;
    if steps == [] {
      es := [];
    } else {
      var next := if steps[0].Wait? then x else steps[0].next;
      es := ItineraryAsWalk(net, prf, fwd, rts, g, next, steps[1..], y);
      if steps[0].Move? {
        assert Within(g, Root(net.ls, next), Root(net.ls, x), steps[0].minutes);
        var last :| LeadsWithin(g, Root(net.ls, next), Root(net.ls, x), steps[0].minutes, last);
        WalksJoin(g, Root(net.ls, y), es, last);
        es := es + last;
      }
    }
  }

  // ---------- graphs that cover all moves ----------

  lemma EdgeIsWalk(g: Graph, u: nat, v: nat, d: nat)
    requires GraphOk(g) && u < |g| && (u == v || Leads(g[u], v, d))
    ensures Within(g, u, v, d)
  {
    if u == v {
      assert LeadsWithin(g, u, v, d, []);
    } else {
      var k :| 0 <= k < |g[u]| && g[u][k].target == v && g[u][k].duration <= d;
      WalkExtends(g, u, [], g[u][k]);
      assert LeadsWithin(g, u, v, d, [] + [g[u][k]]);
    }
  }

  lemma {:induction false} WalkInUnion(g: Graph, o: Overlay, u: nat, es: seq<Edge>)
    requires GraphOk(g) && OverlayOk(o, |g|) && IsWalk(g, u, es)
    ensures IsWalk(Union(g, o), u, es)
    decreases |es|
  {
    if es != [] {
      var k :| 0 <= k < |g[u]| && g[u][k] == es[0];
      assert EdgesOf(g, o, u)[k] == es[0];
      WalkInUnion(g, o, es[0].target, es[1..]);
    }
  }

  lemma RideInUnion(net: Network, prf: Profile, fwd: bool, g: Graph, o: Overlay, a: nat, b: nat, d: nat, r: nat, t: nat, i: nat)
    requires NetworkOk(net) && IsLbGraph(net, prf, fwd, g) && OverlayOk(o, |g|)
    requires a < |g| && b < |g| && IsRide(net, prf, a, b, d, r, t, i) && Root(net.ls, a) != Root(net.ls, b)
    ensures var near, far := Root(net.ls, if fwd then b else a), Root(net.ls, if fwd then a else b);
      Leads(EdgesOf(g, o, near), far, d)
  {
    hide IsLbGraph, IsRide, Root;
    LbGraphIsGraph(net, prf, fwd, g);
    RideIsCovered(net, prf, fwd, g, a, b, d, r, t, i);
    LeadsWithOverlay(g, o, Root(net.ls, if fwd then b else a), Root(net.ls, if fwd then a else b), d);
  }

  lemma FootpathInUnion(net: Network, prf: Profile, fwd: bool, g: Graph, o: Overlay, a: nat, b: nat, d: nat)
    requires NetworkOk(net) && IsLbGraph(net, prf, fwd, g) && OverlayOk(o, |g|)
    requires a < |g| && b < |g| && IsWay(net, prf, a, b, d) && Root(net.ls, a) != Root(net.ls, b)
    ensures var near, far := Root(net.ls, if fwd then b else a), Root(net.ls, if fwd then a else b);
      Leads(EdgesOf(g, o, near), far, d)
  {
    hide IsLbGraph, IsWay, Root;
    LbGraphIsGraph(net, prf, fwd, g);
    WalkIsCovered(net, prf, fwd, g, a, b, d);
    LeadsWithOverlay(g, o, Root(net.ls, if fwd then b else a), Root(net.ls, if fwd then a else b), d);
  }

  /** A real-time ride counts as a segment of the overlay. */
  lemma RtRideCounts(net: Network, fwd: bool, rts: seq<RtTransport>, a: nat, b: nat, d: nat, k: nat, i: nat)
    requires NetworkOk(net) && forall j :: 0 <= j < |rts| ==> RtOk(net, rts[j])
    requires IsRtRide(net, rts, a, b, d, k, i) && a < |net.ls.parents| && b < |net.ls.parents| && Root(net.ls, a) != Root(net.ls, b)
    ensures Counts(net, fwd, rts[k], i) && TravelTime(rts[k], i) == d
    ensures RtNear(fwd, rts[k], i) == (if fwd then b else a) && RtFar(fwd, rts[k], i) == (if fwd then a else b)
  {
    assert Wrap16(d) == d;
  }

  lemma LeadsWithOverlay(g: Graph, o: Overlay, l: nat, target: nat, d: nat)
    requires l < |g| && OverlayOk(o, |g|) && Leads(g[l], target, d)
    ensures Leads(EdgesOf(g, o, l), target, d)
  {
    var k :| 0 <= k < |g[l]| && g[l][k].target == target && g[l][k].duration <= d;
    assert EdgesOf(g, o, l)[k] == g[l][k];
  }

  /** Wherever an edge of `d` leads, walks in `g` lead just as fast. */
  ghost predicate NoSlower(d: Graph, g: Graph) {
    |d| == |g| && forall l, k :: 0 <= l < |d| && 0 <= k < |d[l]| ==> Within(g, l, d[l][k].target, d[l][k].duration)
  }

  lemma NoSlowerThanItself(g: Graph)
    requires GraphOk(g)
    ensures NoSlower(g, g)
  {
    forall l, k | 0 <= l < |g| && 0 <= k < |g[l]| ensures Within(g, l, g[l][k].target, g[l][k].duration) {
      EdgeIsWalk(g, l, g[l][k].target, g[l][k].duration);
    }
  }

  /** The graph of the query's profile together with the overlay, which was computed
      against the graph `d` of the default profile. */
  lemma OverlayForProfile(d: Graph, g: Graph, o: Overlay, l: nat, target: nat, x: nat)
    requires GraphOk(g) && NoSlower(d, g) && l < |g| && OverlayOk(o, |g|)
    requires Leads(EdgesOf(d, o, l), target, x)
    ensures Within(Union(g, o), l, target, x)
  {
    var row := EdgesOf(d, o, l);
    var k :| 0 <= k < |row| && row[k].target == target && row[k].duration <= x;
    if k < |d[l]| {
      assert d[l][k] == row[k];
      var es :| LeadsWithin(g, l, target, row[k].duration, es);
      WalkInUnion(g, o, l, es);
      assert LeadsWithin(Union(g, o), l, target, x, es);
    } else {
      assert EdgesOf(g, o, l)[|g[l]| + (k - |d[l]|)] == row[k];
      EdgeIsWalk(Union(g, o), l, target, x);
    }
  }

  /** Without real-time data every profile's graph covers all moves of the profile.
      With real-time data so does the default profile's, and that of another profile
      when its walks are nowhere slower than the default profile's edges. */
  lemma UnionCoversMoves(net: Network, prf: Profile, fwd: bool, g: Graph, rts: seq<RtTransport>, o: Overlay, d: Graph)
    requires NetworkOk(net) && forall j :: 0 <= j < |rts| ==> RtOk(net, rts[j])
    requires IsLbGraph(net, prf, fwd, g) && OverlayOk(o, |g|)
    requires rts == [] || (BoundsFor(net, fwd, d, rts, o) && NoSlower(d, g))
    ensures GraphOk(g) && CoversMoves(net, prf, fwd, rts, Union(g, o))
  {
    hide IsLbGraph, EdgesOf, Root, TravelTime, Within;
    LbGraphIsGraph(net, prf, fwd, g);
    forall here: nat, next: nat, x: nat | here < |g| && next < |g| && IsMove(net, prf, fwd, rts, here, next, x)
      ensures Within(Union(g, o), Root(net.ls, next), Root(net.ls, here), x)
    {
      hide Leads, NetworkOk, IsRide, IsWay;
      var near, far := Root(net.ls, next), Root(net.ls, here);
      var a, b := if fwd then here else next, if fwd then next else here;
      if near == far {
        EdgeIsWalk(Union(g, o), near, far, x);
      } else if r: nat, t: nat, i: nat :| IsRide(net, prf, a, b, x, r, t, i) {
        RideInUnion(net, prf, fwd, g, o, a, b, x, r, t, i);
        EdgeIsWalk(Union(g, o), near, far, x);
      } else if IsWay(net, prf, a, b, x) {
        FootpathInUnion(net, prf, fwd, g, o, a, b, x);
        EdgeIsWalk(Union(g, o), near, far, x);
      } else {
        var k: nat, i: nat :| IsRtRide(net, rts, a, b, x, k, i);
        RtRideCounts(net, fwd, rts, a, b, x, k, i);
        OverlayForProfile(d, g, o, near, far, x);
      }
    }
  }

  // ---------- the search for a query ----------

  method AddSeed(ls: Locations, m: map<nat, nat>, x: nat, d: nat, ghost offered: iset<Edge>) returns (m': map<nat, nat>)
    requires WellFormed(ls) && Shallow(ls) && x < |ls.parents| && KeepsLeast(m, offered)
    ensures KeepsLeast(m', offered + iset{Edge(Root(ls, x), d)})
  {
    var l := GetRootIdx(ls, x);
    UpdateKeepsLeast(m, offered, Edge(l, d));
    m' := UpdateWeight(m, l, d);
  }

  ghost predicate SeedBefore(ls: Locations, q: Query, a: nat, e: Edge)
    requires WellFormed(ls) && QueryOk(q, |ls.parents|)
  {
    exists c: nat, y: nat :: c < a && y < |ls.parents| && EndsByOffset(ls, q, c, y, e.duration) && Root(ls, y) == e.target
  }

  ghost function SeedsBefore(ls: Locations, q: Query, a: nat): iset<Edge>
    requires WellFormed(ls) && QueryOk(q, |ls.parents|)
  {
    iset e: Edge | SeedBefore(ls, q, a, e)
  }

  ghost predicate TdSeedBefore(ls: Locations, q: Query, a: nat, b: nat, e: Edge)
    requires WellFormed(ls) && QueryOk(q, |ls.parents|)
  {
    exists c: nat, f: nat, y: nat :: (c < a || (c == a && f < b)) && y < |ls.parents| &&
      EndsByTd(q, c, f, y, e.duration) && Root(ls, y) == e.target
  }

  ghost function TdSeedsBefore(ls: Locations, q: Query, a: nat, b: nat): iset<Edge>
    requires WellFormed(ls) && QueryOk(q, |ls.parents|)
  {
    iset e: Edge | TdSeedBefore(ls, q, a, b, e)
  }

  ghost function MetaSeeds(ls: Locations, metas: seq<nat>, d: nat, k: nat): iset<Edge>
    requires WellFormed(ls) && k <= |metas| && forall y :: y in metas ==> y < |ls.parents|
  {
    if k == 0 then iset{} else MetaSeeds(ls, metas, d, k - 1) + iset{Edge(RootAt(ls, metas, k - 1), d)}
  }

  ghost function RootAt(ls: Locations, metas: seq<nat>, k: nat): nat
    requires WellFormed(ls) && k < |metas| && forall y :: y in metas ==> y < |ls.parents|
  {
    assert metas[k] in metas;
    Root(ls, metas[k])
  }

  lemma {:induction false} MetaSeedsAre(ls: Locations, metas: seq<nat>, d: nat, k: nat, e: Edge)
    requires WellFormed(ls) && k <= |metas| && forall y :: y in metas ==> y < |ls.parents|
    ensures e in MetaSeeds(ls, metas, d, k)
       <==> e.duration == d && exists j :: 0 <= j < k && RootAt(ls, metas, j) == e.target
  {
    hide RootAt;
    if k > 0 {
      MetaSeedsAre(ls, metas, d, k - 1, e);
    }
  }

  lemma NextDestination(ls: Locations, q: Query, a: nat, metas: seq<nat>)
    requires WellFormed(ls) && QueryOk(q, |ls.parents|) && a < |q.destination|
    requires forall y :: y in metas <==> IsMeta(ls, q.mode, q.destination[a].target, y)
    requires forall y :: y in metas ==> y < |ls.parents|
    ensures SeedsBefore(ls, q, a + 1)
         == SeedsBefore(ls, q, a) + MetaSeeds(ls, metas, q.destination[a].duration, |metas|)
  {
    var d := q.destination[a].duration;
    forall e: Edge
      ensures SeedBefore(ls, q, a + 1, e) <==> SeedBefore(ls, q, a, e) || e in MetaSeeds(ls, metas, d, |metas|)
    {
      hide IsMeta, Root, MetaSeeds;
      MetaSeedsAre(ls, metas, d, |metas|, e);
      if e in MetaSeeds(ls, metas, d, |metas|) {
        var j :| 0 <= j < |metas| && RootAt(ls, metas, j) == e.target;
        assert metas[j] in metas;
        assert EndsByOffset(ls, q, a, metas[j], e.duration);
      }
      if SeedBefore(ls, q, a + 1, e) {
        var c: nat, y: nat :| c < a + 1 && y < |ls.parents| && EndsByOffset(ls, q, c, y, e.duration) && Root(ls, y) == e.target;
        if c == a {
          var j :| 0 <= j < |metas| && metas[j] == y;
          assert RootAt(ls, metas, j) == e.target;
        } else {
          assert SeedBefore(ls, q, a, e);
        }
      }
    }
  }

  /** The two loops that fill `min`. */
  method SeedMin(ls: Locations, q: Query) returns (m: map<nat, nat>)
    requires WellFormed(ls) && Shallow(ls) && QueryOk(q, |ls.parents|)
    ensures IsSeedMap(ls, q, m)
  {
    hide KeepsLeast, SeedsBefore, TdSeedsBefore, IsSeedMap, MetaSeeds;
    m := map[];
    NoSeedsYet(ls, q, m);
    for a := 0 to |q.destination|
      invariant KeepsLeast(m, SeedsBefore(ls, q, a))
    {
      m := AddDestination(ls, q, a, m);
    }
    ghost var walks := SeedsBefore(ls, q, |q.destination|);
    for a := 0 to |q.tdDest|
      invariant KeepsLeast(m, walks + TdSeedsBefore(ls, q, a, 0))
    {
      for b := 0 to |q.tdDest[a].durations|
        invariant KeepsLeast(m, walks + TdSeedsBefore(ls, q, a, b))
      {
        NextTd(ls, q, a, b, walks);
        var d := q.tdDest[a].durations[b];
        if d != TD_UNUSABLE && d < q.maxTravelTime {
          m := AddSeed(ls, m, q.tdDest[a].from, d, walks + TdSeedsBefore(ls, q, a, b));
        }
      }
      TdListDone(ls, q, a, walks);
    }
    AllSeeds(ls, q, m);
  }

  method AddDestination(ls: Locations, q: Query, a: nat, m0: map<nat, nat>) returns (m: map<nat, nat>)
    requires WellFormed(ls) && Shallow(ls) && QueryOk(q, |ls.parents|) && a < |q.destination|
    requires KeepsLeast(m0, SeedsBefore(ls, q, a))
    ensures KeepsLeast(m, SeedsBefore(ls, q, a + 1))
  {
    hide KeepsLeast, SeedsBefore, IsMeta;
    m := m0;
    var metas := ForEachMeta(ls, q.mode, q.destination[a].target);
    MetasInRange(ls, q.mode, q.destination[a].target);
    var d := q.destination[a].duration;
    assert SeedsBefore(ls, q, a) + MetaSeeds(ls, metas, d, 0) == SeedsBefore(ls, q, a);
    for k := 0 to |metas|
      invariant KeepsLeast(m, SeedsBefore(ls, q, a) + MetaSeeds(ls, metas, d, k))
    {
      assert metas[k] in metas;
      m := AddSeed(ls, m, metas[k], d, SeedsBefore(ls, q, a) + MetaSeeds(ls, metas, d, k));
      assert SeedsBefore(ls, q, a) + MetaSeeds(ls, metas, d, k) + iset{Edge(Root(ls, metas[k]), d)}
          == SeedsBefore(ls, q, a) + MetaSeeds(ls, metas, d, k + 1);
    }
    NextDestination(ls, q, a, metas);
  }

  lemma MetasInRange(ls: Locations, mode: MatchMode, l: nat)
    requires WellFormed(ls) && l < |ls.parents|
    ensures forall x: nat :: IsMeta(ls, mode, l, x) ==> x < |ls.parents|
  {
    forall x: nat | IsMeta(ls, mode, l, x) ensures x < |ls.parents| {
      MetaInRange(ls, mode, l, x);
    }
  }

  lemma NoSeedsYet(ls: Locations, q: Query, m: map<nat, nat>)
    requires WellFormed(ls) && QueryOk(q, |ls.parents|) && m == map[]
    ensures KeepsLeast(m, SeedsBefore(ls, q, 0))
    ensures forall s: iset<Edge> :: s + TdSeedsBefore(ls, q, 0, 0) == s
  {
  }

  lemma NextTd(ls: Locations, q: Query, a: nat, b: nat, s: iset<Edge>)
    requires WellFormed(ls) && QueryOk(q, |ls.parents|) && a < |q.tdDest| && b < |q.tdDest[a].durations|
    ensures var d := q.tdDest[a].durations[b];
      s + TdSeedsBefore(ls, q, a, b + 1)
      == if TdUsed(q, d) then s + TdSeedsBefore(ls, q, a, b) + iset{Edge(Root(ls, q.tdDest[a].from), d)}
         else s + TdSeedsBefore(ls, q, a, b)
  {
    var y, d := q.tdDest[a].from, q.tdDest[a].durations[b];
    forall e: Edge
      ensures TdSeedBefore(ls, q, a, b + 1, e)
         <==> TdSeedBefore(ls, q, a, b, e) || (TdUsed(q, d) && e == Edge(Root(ls, y), d))
    {
      hide Root;
      if TdUsed(q, d) && e == Edge(Root(ls, y), d) {
        assert EndsByTd(q, a, b, y, d);
      }
      if TdSeedBefore(ls, q, a, b + 1, e) {
        var c: nat, f: nat, z: nat :| (c < a || (c == a && f < b + 1)) && z < |ls.parents| &&
          EndsByTd(q, c, f, z, e.duration) && Root(ls, z) == e.target;
        assert (c == a && f == b) || TdSeedBefore(ls, q, a, b, e);
      }
    }
  }

  lemma TdListDone(ls: Locations, q: Query, a: nat, s: iset<Edge>)
    requires WellFormed(ls) && QueryOk(q, |ls.parents|) && a < |q.tdDest|
    ensures s + TdSeedsBefore(ls, q, a, |q.tdDest[a].durations|) == s + TdSeedsBefore(ls, q, a + 1, 0)
  {
    forall e: Edge
      ensures TdSeedBefore(ls, q, a, |q.tdDest[a].durations|, e) <==> TdSeedBefore(ls, q, a + 1, 0, e)
    {
    }
  }

  lemma AllSeeds(ls: Locations, q: Query, m: map<nat, nat>)
    requires WellFormed(ls) && QueryOk(q, |ls.parents|)
    requires KeepsLeast(m, SeedsBefore(ls, q, |q.destination|) + TdSeedsBefore(ls, q, |q.tdDest|, 0))
    ensures IsSeedMap(ls, q, m)
  {
    var all := SeedsBefore(ls, q, |q.destination|) + TdSeedsBefore(ls, q, |q.tdDest|, 0);
    forall y: nat, d: nat | y < |ls.parents| && EndsAt(ls, q, y, d)
      ensures Root(ls, y) in m && m[Root(ls, y)] <= d
    {
      hide IsMeta, Root;
      var e := Edge(Root(ls, y), d);
      assert SeedBefore(ls, q, |q.destination|, e) || TdSeedBefore(ls, q, |q.tdDest|, 0, e);
      assert e in all;
    }
    forall k | k in m
      ensures k < |ls.parents| && ls.parents[k] == None && m[k] <= MAX_TRAVEL_TIME && IsSeed(ls, q, k, m[k])
    {
      assert Edge(k, m[k]) in all;
    }
  }

  /** Distances and queue agree: the entry of a location is its least label. */
  ghost predicate InStep(dists: seq<nat>, labels: multiset<Label>) {
    && (forall l :: l in labels ==> l.node < |dists| && dists[l.node] <= l.dist)
    && (forall v :: 0 <= v < |dists| ==> dists[v] == UNREACHABLE || Label(v, dists[v]) in labels)
  }

  /** The labels of all roots that are done. */
  ghost predicate PushedFor(ls: Locations, q: Query, m: map<nat, nat>, done: set<nat>, labels: multiset<Label>)
    requires WellFormed(ls)
  {
    forall l :: l in labels <==>
      exists k :: k in done && k in m && k < |ls.parents| && IsMeta(ls, q.mode, k, l.node) && l.dist == m[k]
  }

  /** The loop that pushes the start labels of every root in `m`. */
  method PushSeeds(ls: Locations, q: Query, m: map<nat, nat>, pq: Dial, dists: array<nat>)
    requires WellFormed(ls) && Shallow(ls) && QueryOk(q, |ls.parents|) && IsSeedMap(ls, q, m)
    requires pq.Valid() && pq.Labels() == multiset{} && |pq.buckets| == MAX_TRAVEL_TIME + 1
    requires dists.Length == |ls.parents| && forall v :: 0 <= v < dists.Length ==> dists[v] == UNREACHABLE
    modifies pq, dists
    ensures pq.Valid() && |pq.buckets| == MAX_TRAVEL_TIME + 1
    ensures InStep(dists[..], pq.Labels()) && IsSeedLabels(ls, q, m, pq.Labels())
  {
    hide *;
    var todo := m.Keys;
    SeedKeys(ls, q, m);
    EmptyInStep(ls, q, m, dists[..], pq.Labels());
    assert m.Keys - todo == {};
    while todo != {}
      invariant todo <= m.Keys
      invariant pq.Valid() && |pq.buckets| == MAX_TRAVEL_TIME + 1
      invariant InStep(dists[..], pq.Labels()) && PushedFor(ls, q, m, m.Keys - todo, pq.Labels())
      decreases |todo|
    {
      var k :| k in todo;
      ghost var before := pq.Labels();
      var metas := ForEachMeta(ls, q.mode, k);
      PushMetas(ls, q, m, k, metas, pq, dists);
      PushedNext(ls, q, m, m.Keys - todo, k, before, pq.Labels(), metas);
      assert m.Keys - (todo - {k}) == (m.Keys - todo) + {k};
      todo := todo - {k};
    }
    assert m.Keys - {} == m.Keys;
    AllPushed(ls, q, m, pq.Labels());
  }

  lemma AllPushed(ls: Locations, q: Query, m: map<nat, nat>, labels: multiset<Label>)
    requires WellFormed(ls) && PushedFor(ls, q, m, m.Keys, labels)
    ensures IsSeedLabels(ls, q, m, labels)
  {
  }

  lemma SeedKeys(ls: Locations, q: Query, m: map<nat, nat>)
    requires WellFormed(ls) && QueryOk(q, |ls.parents|) && IsSeedMap(ls, q, m)
    ensures forall k :: k in m ==> k < |ls.parents| && m[k] <= MAX_TRAVEL_TIME
  {
  }

  lemma EmptyInStep(ls: Locations, q: Query, m: map<nat, nat>, dists: seq<nat>, labels: multiset<Label>)
    requires WellFormed(ls) && labels == multiset{} && forall v :: 0 <= v < |dists| ==> dists[v] == UNREACHABLE
    ensures InStep(dists, labels) && PushedFor(ls, q, m, {}, labels)
  {
  }

  method PushMetas(ls: Locations, q: Query, m: map<nat, nat>, k: nat, metas: seq<nat>, pq: Dial, dists: array<nat>)
    requires WellFormed(ls) && k in m && k < |ls.parents| && m[k] <= MAX_TRAVEL_TIME
    requires forall x :: x in metas <==> IsMeta(ls, q.mode, k, x)
    requires pq.Valid() && |pq.buckets| == MAX_TRAVEL_TIME + 1
    requires dists.Length == |ls.parents| && InStep(dists[..], pq.Labels())
    modifies pq, dists
    ensures pq.Valid() && |pq.buckets| == MAX_TRAVEL_TIME + 1 && InStep(dists[..], pq.Labels())
    ensures forall l :: l in pq.Labels() <==> l in old(pq.Labels()) || (l.node in metas && l.dist == m[k])
  {
    hide *;
    MetasInRange(ls, q.mode, k);
    for i := 0 to |metas|
      invariant pq.Valid() && |pq.buckets| == MAX_TRAVEL_TIME + 1 && InStep(dists[..], pq.Labels())
      invariant forall l :: l in pq.Labels() <==> l in old(pq.Labels()) || (l.node in metas[..i] && l.dist == m[k])
    {
      assert metas[i] in metas;
      assert metas[..i + 1] == metas[..i] + [metas[i]];
      ghost var ds, labels := dists[..], pq.Labels();
      StaysInStep(ds, labels, metas[i], m[k]);
      PushSeed(pq, dists, metas[i], m[k]);
    }
  }

  method PushSeed(pq: Dial, dists: array<nat>, v: nat, d: nat)
    requires pq.Valid() && d < |pq.buckets| && v < dists.Length
    modifies pq, dists
    ensures pq.Valid() && |pq.buckets| == old(|pq.buckets|) && pq.Labels() == old(pq.Labels()) + multiset{Label(v, d)}
    ensures dists[..] == old(dists[..])[v := Min(d, old(dists[v]))]
  {
    pq.Push(Label(v, d));
    dists[v] := Min(d, dists[v]);
  }

  lemma StaysInStep(dists: seq<nat>, labels: multiset<Label>, v: nat, d: nat)
    requires InStep(dists, labels) && v < |dists|
    ensures InStep(dists[v := Min(d, dists[v])], labels + multiset{Label(v, d)})
  {
  }

  lemma PushedNext(ls: Locations, q: Query, m: map<nat, nat>, done: set<nat>, k: nat,
                   labels: multiset<Label>, labels': multiset<Label>, metas: seq<nat>)
    requires WellFormed(ls) && k in m && k < |ls.parents| && PushedFor(ls, q, m, done, labels)
    requires forall x :: x in metas <==> IsMeta(ls, q.mode, k, x)
    requires forall l :: l in labels' <==> l in labels || (l.node in metas && l.dist == m[k])
    ensures PushedFor(ls, q, m, done + {k}, labels')
  {
    hide IsMeta;
    forall l
      ensures l in labels' <==> exists j :: j in done + {k} && j in m && j < |ls.parents|
                                  && IsMeta(ls, q.mode, j, l.node) && l.dist == m[j]
    {
      if l in labels {
        var j :| j in done && j in m && j < |ls.parents| && IsMeta(ls, q.mode, j, l.node) && l.dist == m[j];
        assert j in done + {k};
      }
    }
  }

  /** The final loop over all locations: parents come before their children. */
  method Propagate(ls: Locations, dists: array<nat>)
    requires WellFormed(ls) && dists.Length == |ls.parents|
    modifies dists
    ensures forall x :: 0 <= x < dists.Length ==> dists[x] == LeastUpwards(ls, old(dists[..]), x)
  {
    ghost var dists0 := dists[..];
    HandedBounds(ls, dists0, dists[..]);
    for i := 0 to dists.Length
      invariant Handed(ls, dists0, dists[..], i, 0)
    {
      hide *;
      var lb := dists[i];
      for c := 0 to |ls.children[i]|
        invariant Handed(ls, dists0, dists[..], i, c)
        invariant lb == dists[i]
      {
        ghost var before := dists[..];
        var child := ls.children[i][c];
        HandedOn(ls, dists0, before, i, c);
        dists[child] := Min(lb, dists[child]);
        assert dists[..] == before[child := Min(lb, before[child])];
      }
      NextParent(ls, dists0, dists[..], i);
    }
    HandedBounds(ls, dists0, dists[..]);
  }

  /** Children of locations before `i`, and the first `c` children of `i`, have
      their final value; all others still have their own. */
  ghost predicate Handed(ls: Locations, dists0: seq<nat>, dists: seq<nat>, i: nat, c: int)
    requires WellFormed(ls) && |dists0| == |ls.parents|
  {
    && |dists| == |dists0|
    && forall x :: 0 <= x < |dists| ==>
         dists[x] == if IsHanded(ls, i, c, x) then LeastUpwards(ls, dists0, x) else dists0[x]
  }

  ghost predicate IsHanded(ls: Locations, i: nat, c: int, x: nat)
    requires WellFormed(ls) && x < |ls.parents|
  {
    ls.parents[x].Some? && (ls.parents[x].value < i || (ls.parents[x].value == i && InFirst(ls, i, c, x)))
  }

  ghost predicate InFirst(ls: Locations, i: nat, c: int, x: nat)
    requires WellFormed(ls)
  {
    i < |ls.children| && exists k :: 0 <= k < c && k < |ls.children[i]| && ls.children[i][k] == x
  }

  lemma HandedOn(ls: Locations, dists0: seq<nat>, dists: seq<nat>, i: nat, c: nat)
    requires WellFormed(ls) && |dists0| == |ls.parents| && Handed(ls, dists0, dists, i, c)
    requires i < |ls.children| && c < |ls.children[i]|
    ensures ls.children[i][c] != i
    ensures Handed(ls, dists0, dists[ls.children[i][c] := Min(dists[i], dists[ls.children[i][c]])], i, c + 1)
  {
    var child := ls.children[i][c];
    assert dists[i] == LeastUpwards(ls, dists0, i);
    forall x: nat | x < |dists| ensures IsHanded(ls, i, c + 1, x) <==> IsHanded(ls, i, c, x) || x == child {
      assert InFirst(ls, i, c + 1, x) <==> InFirst(ls, i, c, x) || x == child;
    }
  }

  lemma HandedBounds(ls: Locations, dists0: seq<nat>, dists: seq<nat>)
    requires WellFormed(ls) && |dists0| == |ls.parents|
    ensures dists == dists0 ==> Handed(ls, dists0, dists, 0, 0)
    ensures Handed(ls, dists0, dists, |dists0|, 0) ==>
      forall x :: 0 <= x < |dists| ==> dists[x] == LeastUpwards(ls, dists0, x)
  {
  }

  lemma NextParent(ls: Locations, dists0: seq<nat>, dists: seq<nat>, i: nat)
    requires WellFormed(ls) && |dists0| == |ls.parents| && i < |ls.children|
    requires Handed(ls, dists0, dists, i, |ls.children[i]|)
    ensures Handed(ls, dists0, dists, i + 1, 0)
  {
    forall x: nat | x < |dists| ensures IsHanded(ls, i + 1, 0, x) <==> IsHanded(ls, i, |ls.children[i]|, x) {
    }
  }

  /** `dijkstra` for a query. Besides the bounds it returns the seeds of the
      roots; the ghost results are the start labels and the distances before they
      are handed to children. */
  method ComputeLowerBounds(ls: Locations, q: Query, graph: Graph, overlay: Overlay)
    returns (dists: array<nat>, m: map<nat, nat>, ghost start: multiset<Label>, ghost found: seq<nat>)
    requires WellFormed(ls) && Shallow(ls) && QueryOk(q, |ls.parents|)
    requires |graph| == |ls.parents| && GraphOk(graph) && OverlayOk(overlay, |graph|)
    ensures fresh(dists) && dists.Length == |ls.parents|
    ensures BoundsOf(ls, q, Union(graph, overlay), m, start, found, dists[..])
  {
    hide InStep, Seeded, ExactBelow, IsSeedMap, IsSeedLabels, BoundsOf, LeastUpwards, WellFormed, Shallow, Union;
    dists := new nat[|ls.parents|](_ => UNREACHABLE);
    m := SeedMin(ls, q);
    var pq := new Dial(MAX_TRAVEL_TIME);
    PushSeeds(ls, q, m, pq, dists);
    start := pq.Labels();
    ghost var initial := dists[..];
    InStepIsSeeded(initial, start, Min(|pq.buckets|, UNREACHABLE));
    Search(graph, overlay, pq, dists, UNREACHABLE);
    found := dists[..];
    Propagate(ls, dists);
    Together(ls, q, Union(graph, overlay), m, start, initial, found, dists[..]);
  }

  /** All that is known about the bounds of a query: the search is exact below
      the cut-off, starts from the seeds, and a location gets the least distance
      found on the way up to its root. */
  ghost predicate BoundsOf(ls: Locations, q: Query, g: Graph, m: map<nat, nat>, start: multiset<Label>,
                           found: seq<nat>, dists: seq<nat>)
    requires WellFormed(ls) && QueryOk(q, |ls.parents|)
  {
    && |g| == |found| == |dists| == |ls.parents|
    && IsSeedMap(ls, q, m) && IsSeedLabels(ls, q, m, start)
    && (exists initial: seq<nat> :: |initial| == |g| && InStep(initial, start)
          && ExactBelow(g, start, initial, found, MAX_TRAVEL_TIME + 1))
    && (forall x :: 0 <= x < |dists| ==> dists[x] == LeastUpwards(ls, found, x))
  }

  lemma InStepIsSeeded(dists: seq<nat>, labels: multiset<Label>, cut: nat)
    requires InStep(dists, labels) && cut <= UNREACHABLE
    ensures Seeded(dists, labels, cut)
  {
  }

  lemma Together(ls: Locations, q: Query, g: Graph, m: map<nat, nat>, start: multiset<Label>,
                 initial: seq<nat>, found: seq<nat>, dists: seq<nat>)
    requires WellFormed(ls) && QueryOk(q, |ls.parents|) && |g| == |initial| == |found| == |dists| == |ls.parents|
    requires IsSeedMap(ls, q, m) && IsSeedLabels(ls, q, m, start) && InStep(initial, start)
    requires ExactBelow(g, start, initial, found, Min(MAX_TRAVEL_TIME + 1, UNREACHABLE))
    requires forall x :: 0 <= x < |dists| ==> dists[x] == LeastUpwards(ls, found, x)
    ensures BoundsOf(ls, q, g, m, start, found, dists)
  {
  }

  /** Lower bounds are admissible: no itinerary from `x` to a destination, offset
      included, that stays within the longest travel time takes less than the
      bound of `x`. */
  lemma BoundsAreAdmissible(net: Network, prf: Profile, fwd: bool, rts: seq<RtTransport>, q: Query, g: Graph,
                            m: map<nat, nat>, start: multiset<Label>, found: seq<nat>, dists: seq<nat>,
                            x: nat, steps: seq<Step>, y: nat, offset: nat)
    requires NetworkOk(net) && QueryOk(q, |net.ls.parents|) && forall j :: 0 <= j < |rts| ==> RtOk(net, rts[j])
    requires CoversMoves(net, prf, fwd, rts, g)
    requires BoundsOf(net.ls, q, g, m, start, found, dists)
    requires IsItinerary(net, prf, fwd, rts, x, steps, y) && EndsAt(net.ls, q, y, offset)
    requires Duration(steps) + offset <= MAX_TRAVEL_TIME
    ensures x < |dists| && dists[x] <= Duration(steps) + offset
  {
    hide IsMove, IsMeta, EndsAt, Root, LeastUpwards;
    var es := ItineraryAsWalk(net, prf, fwd, rts, g, x, steps, y);
    var k := Root(net.ls, y);
    RootIsItsMeta(net.ls, q.mode, k);
    var l := Label(k, m[k]);
    assert l in start;
    assert l.dist + Length(es) < MAX_TRAVEL_TIME + 1;
    assert found[Root(net.ls, x)] <= l.dist + Length(es);
    LeastIncludesRoot(net.ls, found, x);
  }

  /** Nor are they arbitrary: a bound below the cut-off is the length of an actual
      walk in the contracted graph from a location that a destination stands for. */
  lemma BoundsAreAttained(ls: Locations, q: Query, g: Graph, m: map<nat, nat>, start: multiset<Label>,
                          found: seq<nat>, dists: seq<nat>, x: nat)
    requires WellFormed(ls) && QueryOk(q, |ls.parents|) && BoundsOf(ls, q, g, m, start, found, dists)
    requires x < |dists| && dists[x] != UNREACHABLE
    ensures exists a: nat :: a < |found| && Root(ls, a) == Root(ls, x) && Attained(g, start, a, dists[x])
  {
    hide IsSeedMap, IsSeedLabels;
    var initial: seq<nat> :| |initial| == |g| && InStep(initial, start)
      && ExactBelow(g, start, initial, found, MAX_TRAVEL_TIME + 1);
    var a := WhereLeast(ls, found, x);
    if found[a] == initial[a] {
      StartIsAttained(g, start, Label(a, found[a]));
    }
  }

  lemma {:induction false} WhereLeast(ls: Locations, found: seq<nat>, x: nat) returns (a: nat)
    requires WellFormed(ls) && |found| == |ls.parents| && x < |found|
    ensures a < |found| && Root(ls, a) == Root(ls, x) && LeastUpwards(ls, found, x) == found[a]
  {
    if ls.parents[x].None? || found[x] == LeastUpwards(ls, found, x) {
      a := x;
    } else {
      a := WhereLeast(ls, found, ls.parents[x].value);
    }
  }

  /** No itinerary within the longest travel time beats the bound of its start. */
  ghost predicate Admissible(net: Network, prf: Profile, fwd: bool, rts: seq<RtTransport>, q: Query, dists: seq<nat>)
    requires NetworkOk(net) && QueryOk(q, |net.ls.parents|) && forall j :: 0 <= j < |rts| ==> RtOk(net, rts[j])
  {
    && |dists| == |net.ls.parents|
    && forall x: nat, steps, y: nat, offset: nat ::
         (IsItinerary(net, prf, fwd, rts, x, steps, y) && EndsAt(net.ls, q, y, offset)
          && Duration(steps) + offset <= MAX_TRAVEL_TIME) ==> x < |dists| && dists[x] <= Duration(steps) + offset
  }

  /** What the search for a query sees. */
  ghost function SearchGraph(net: Network, prf: Profile, fwd: bool, g: Graph, o: Overlay): (u: Graph)
    requires NetworkOk(net) && IsLbGraph(net, prf, fwd, g) && OverlayOk(o, |g|)
    ensures GraphOk(g) && u == Union(g, o)
  {
    LbGraphIsGraph(net, prf, fwd, g);
    Union(g, o)
  }

  lemma AllAreAdmissible(net: Network, prf: Profile, fwd: bool, rts: seq<RtTransport>, q: Query, g: Graph,
                         m: map<nat, nat>, start: multiset<Label>, found: seq<nat>, dists: seq<nat>)
    requires NetworkOk(net) && QueryOk(q, |net.ls.parents|) && forall j :: 0 <= j < |rts| ==> RtOk(net, rts[j])
    requires CoversMoves(net, prf, fwd, rts, g) && BoundsOf(net.ls, q, g, m, start, found, dists)
    ensures Admissible(net, prf, fwd, rts, q, dists)
  {
    hide IsItinerary, EndsAt, CoversMoves, Duration, IsSeedMap, IsSeedLabels, ExactBelow, LeastUpwards;
    forall x: nat, steps, y: nat, offset: nat |
      IsItinerary(net, prf, fwd, rts, x, steps, y) && EndsAt(net.ls, q, y, offset) && Duration(steps) + offset <= MAX_TRAVEL_TIME
      ensures x < |dists| && dists[x] <= Duration(steps) + offset
    {
      BoundsAreAdmissible(net, prf, fwd, rts, q, g, m, start, found, dists, x, steps, y, offset);
    }
  }

  /** The whole chain: graph of the query's profile, real-time overlay, search. */
  lemma LowerBoundTheorem(net: Network, prf: Profile, fwd: bool, rts: seq<RtTransport>, q: Query,
                          graph: Graph, overlay: Overlay, defaultGraph: Graph,
                          m: map<nat, nat>, start: multiset<Label>, found: seq<nat>, dists: seq<nat>)
    requires NetworkOk(net) && QueryOk(q, |net.ls.parents|) && forall j :: 0 <= j < |rts| ==> RtOk(net, rts[j])
    requires IsLbGraph(net, prf, fwd, graph) && OverlayOk(overlay, |graph|)
    requires rts == [] || (BoundsFor(net, fwd, defaultGraph, rts, overlay) && NoSlower(defaultGraph, graph))
    requires BoundsOf(net.ls, q, SearchGraph(net, prf, fwd, graph, overlay), m, start, found, dists)
    ensures Admissible(net, prf, fwd, rts, q, dists)
  {
    hide *;
    UnionCoversMoves(net, prf, fwd, graph, rts, overlay, defaultGraph);
    AllAreAdmissible(net, prf, fwd, rts, q, SearchGraph(net, prf, fwd, graph, overlay), m, start, found, dists);
  }
}
