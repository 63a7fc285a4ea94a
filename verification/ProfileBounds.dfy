/** Lower bounds of any profile with real-time data: the overlay is computed for the
    default profile only, and this is exactly when it serves another one. */
module ProfileBounds {
  import opened Basics
  import opened Deltas
  import opened Dial
  import opened Dijkstra
  import opened Locations
  import opened LowerBoundGraph
  import opened LowerBounds
  import opened RtLowerBounds

  /** Graph, overlay and search for one query, from the network on. */
  method QueryBounds(net: Network, prf: Profile, fwd: bool, rts: seq<RtTransport>, q: Query)
    returns (dists: array<nat>, ghost own: Graph, ghost usual: Graph)
    requires NetworkOk(net) && QueryOk(q, |net.ls.parents|) && forall j :: 0 <= j < |rts| ==> RtOk(net, rts[j])
    ensures fresh(dists) && IsLbGraph(net, prf, fwd, own) && IsLbGraph(net, DefaultProfile, fwd, usual)
    ensures rts == [] || prf == DefaultProfile || NoSlower(usual, own) ==> Admissible(net, prf, fwd, rts, q, dists[..])
  {
    hide IsLbGraph, BoundsOf, Admissible, BoundsFor, NoSlower, QueryOk;
    var fwdLbs := BuildLbGraph(net, DefaultProfile, true);
    var bwdLbs := BuildLbGraph(net, DefaultProfile, false);
    var rtb := new RtBounds(|net.ls.parents|);
    rtb.UpdateLbs(net, fwdLbs, bwdLbs, rts);
    var defaultGraph := if fwd then fwdLbs else bwdLbs;
    var overlay := if fwd then Overlay(rtb.fwdHas, rtb.fwdGraph) else Overlay(rtb.bwdHas, rtb.bwdGraph);
    var graph := defaultGraph;
    if prf != DefaultProfile {
      graph := BuildLbGraph(net, prf, fwd);
    }
    own, usual := graph, defaultGraph;
    LbGraphIsGraph(net, DefaultProfile, fwd, defaultGraph);
    LbGraphIsGraph(net, prf, fwd, graph);
    NoSlowerThanItself(defaultGraph);
    OverlayFits(net, fwd, defaultGraph, rts, overlay);
    ghost var m, start, found;
    dists, m, start, found := ComputeLowerBounds(net.ls, q, graph, overlay);
    if rts == [] || prf == DefaultProfile || NoSlower(usual, own) {
      LowerBoundTheorem(net, prf, fwd, rts, q, graph, overlay, defaultGraph, m, start, found, dists[..]);
    }
  }

  lemma OverlayFits(net: Network, fwd: bool, d: Graph, rts: seq<RtTransport>, o: Overlay)
    requires NetworkOk(net) && forall j :: 0 <= j < |rts| ==> RtOk(net, rts[j])
    requires BoundsFor(net, fwd, d, rts, o)
    ensures |d| == |net.ls.parents| && OverlayOk(o, |d|)
  {
  }

  // ---------- a ride that the overlay leaves out ----------

  /** A query for one station, reached without offset. */
  predicate IsQueryFor(q: Query, l: nat) {
    q.mode == Exact && q.destination == [Offset(l, 0)] && q.tdDest == []
  }

  /** One ride of `x` minutes between stations `t` and `l`, towards `l` in search direction. */
  ghost predicate IsOnlyRide(net: Network, fwd: bool, rts: seq<RtTransport>, l: nat, t: nat, x: nat)
    requires NetworkOk(net) && forall j :: 0 <= j < |rts| ==> RtOk(net, rts[j])
  {
    && |rts| == 1 && |rts[0].stops| == 2 && RtOk(net, rts[0])
    && l < |net.ls.parents| && net.ls.parents[l] == None && t < |net.ls.parents| && net.ls.parents[t] == None && l != t
    && rts[0].stops == (if fwd then [t, l] else [l, t]) && x == rts[0].times[1] - rts[0].times[0] && x <= MAX_DURATION
  }

  lemma OnlyRideTakes(net: Network, fwd: bool, rts: seq<RtTransport>, l: nat, t: nat, x: nat)
    requires NetworkOk(net) && (forall j :: 0 <= j < |rts| ==> RtOk(net, rts[j])) && IsOnlyRide(net, fwd, rts, l, t, x)
    ensures |rts| == 1 && |rts[0].stops| == 2 && |rts[0].times| == 2
    ensures RtNear(fwd, rts[0], 0) == l && RtFar(fwd, rts[0], 0) == t && TravelTime(rts[0], 0) == x
    ensures l < |net.ls.parents| && t < |net.ls.parents| && Root(net.ls, l) == l && Root(net.ls, t) == t
  {
    assert Wrap16(x) == x;
  }

  /** If the default profile has an edge for the ride, nothing is added for it. */
  lemma NothingAdded(net: Network, fwd: bool, d: Graph, g: Graph, rts: seq<RtTransport>, o: Overlay, l: nat, t: nat, x: nat)
    requires NetworkOk(net) && forall j :: 0 <= j < |rts| ==> RtOk(net, rts[j])
    requires BoundsFor(net, fwd, d, rts, o) && BetweenStations(net.ls, d)
    requires IsOnlyRide(net, fwd, rts, l, t, x) && Leads(d[l], t, x)
    requires GraphOk(g) && |g| == |d|
    ensures OverlayOk(o, |g|) && Union(g, o) == g
  {
    forall v | 0 <= v < |d| ensures o.rt[v] == [] {
      if o.rt[v] != [] {
        OnlyEdge(net, fwd, d, rts, o, l, t, x, v, o.rt[v][0]);
      }
    }
    hide NetworkOk, RtOk, IsOnlyRide, BoundsFor, BetweenStations;
    forall v | 0 <= v < |g| ensures EdgesOf(g, o, v) == g[v] {
      assert g[v] + [] == g[v];
    }
  }

  lemma OnlyEdge(net: Network, fwd: bool, d: Graph, rts: seq<RtTransport>, o: Overlay, l: nat, t: nat, x: nat, v: nat, e: Edge)
    requires NetworkOk(net) && forall j :: 0 <= j < |rts| ==> RtOk(net, rts[j])
    requires BoundsFor(net, fwd, d, rts, o) && IsOnlyRide(net, fwd, rts, l, t, x) && BetweenStations(net.ls, d)
    requires v < |d| && e in o.rt[v]
    ensures !Leads(d[l], t, x)
  {
    OnlyRideTakes(net, fwd, rts, l, t, x);
    hide TravelTime, NetworkOk, RtOk, Leads, Counts;
    assert !Leads(d[v], e.target, e.duration);
    var k, i :| IsSegmentEdge(net, fwd, rts, v, e, k, i);
    assert k == 0 && i == 0;
    ShortEdge(net.ls, d, l, t, x);
  }

  lemma ShortEdge(ls: Locations, d: Graph, l: nat, t: nat, x: nat)
    requires BetweenStations(ls, d) && l < |d|
    ensures Leads(d[l], t, x) ==> Leads(d[l], t, Clamp(x))
  {
    if Leads(d[l], t, x) {
      var j :| 0 <= j < |d[l]| && d[l][j].target == t && d[l][j].duration <= x;
      assert d[l][j].duration <= Clamp(x);
    }
  }

  /** Only the station itself is a seed of such a query. */
  lemma OnlySeed(ls: Locations, q: Query, m: map<nat, nat>, start: multiset<Label>, l: nat)
    requires WellFormed(ls) && QueryOk(q, |ls.parents|) && IsQueryFor(q, l) && l < |ls.parents| && ls.parents[l] == None
    requires IsSeedMap(ls, q, m) && IsSeedLabels(ls, q, m, start)
    ensures forall s :: s in start ==> s.node == l
  {
    forall k | k in m ensures k == l {
      assert IsSeed(ls, q, k, m[k]);
    }
  }

  /** A real-time ride that was left out because the default profile has an edge that
      is as fast, although the walks of the query's profile are slower: whatever bounds
      the search ends with, the one at the start of the ride exceeds the ride. */
  lemma SkippedRideIsMissed(net: Network, prf: Profile, fwd: bool, d: Graph, g: Graph, rts: seq<RtTransport>, o: Overlay,
                            q: Query, l: nat, t: nat, x: nat,
                            m: map<nat, nat>, start: multiset<Label>, found: seq<nat>, dists: seq<nat>)
    requires NetworkOk(net) && QueryOk(q, |net.ls.parents|) && forall j :: 0 <= j < |rts| ==> RtOk(net, rts[j])
    requires BetweenStations(net.ls, d) && GraphOk(g) && |g| == |d|
    requires BoundsFor(net, fwd, d, rts, o) && IsOnlyRide(net, fwd, rts, l, t, x) && IsQueryFor(q, l)
    requires Leads(d[l], t, x) && !Within(g, l, t, x) && x <= MAX_TRAVEL_TIME
    requires BoundsOf(net.ls, q, Union(g, o), m, start, found, dists)
    ensures IsItinerary(net, prf, fwd, rts, t, [Move(l, x)], l) && EndsAt(net.ls, q, l, 0) && Duration([Move(l, x)]) == x
    ensures t < |dists| && x < dists[t]
    ensures !Admissible(net, prf, fwd, rts, q, dists)
  {
    NothingAdded(net, fwd, d, g, rts, o, l, t, x);
    OneRide(net, prf, fwd, rts, q, l, t, x);
    hide NetworkOk, IsItinerary, EndsAt, IsSeedMap, IsSeedLabels, Counts, RtOk, IsOnlyRide, BoundsFor, Duration, BetweenStations;
    BoundIsOwn(net.ls, q, g, m, start, found, dists, l, t);
    if dists[t] <= x {
      AttainedIsWithin(g, start, l, t, dists[t], x);
    }
  }

  lemma AttainedIsWithin(g: Graph, start: multiset<Label>, l: nat, t: nat, d: nat, x: nat)
    requires Attained(g, start, t, d) && d <= x && forall s :: s in start ==> s.node == l
    ensures Within(g, l, t, x)
  {
    var s, es :| ReachedBy(g, start, t, d, s, es);
    assert LeadsWithin(g, l, t, x, es);
  }

  lemma OneRide(net: Network, prf: Profile, fwd: bool, rts: seq<RtTransport>, q: Query, l: nat, t: nat, x: nat)
    requires NetworkOk(net) && QueryOk(q, |net.ls.parents|) && forall j :: 0 <= j < |rts| ==> RtOk(net, rts[j])
    requires IsOnlyRide(net, fwd, rts, l, t, x) && IsQueryFor(q, l)
    ensures IsItinerary(net, prf, fwd, rts, t, [Move(l, x)], l) && EndsAt(net.ls, q, l, 0) && Duration([Move(l, x)]) == x
    ensures l < |net.ls.parents| && t < |net.ls.parents|
    ensures net.ls.parents[l] == None && net.ls.parents[t] == None && l != t
  {
    hide TravelTime;
    assert IsRtRide(net, rts, if fwd then t else l, if fwd then l else t, x, 0, 0);
    assert IsMove(net, prf, fwd, rts, t, l, x);
    var steps := [Move(l, x)];
    assert steps[1..] == [];
    assert IsItinerary(net, prf, fwd, rts, l, steps[1..], l);
    assert EndsByOffset(net.ls, q, 0, l, 0);
  }

  /** A bound of a station other than the destination is the length of a walk. */
  lemma BoundIsOwn(ls: Locations, q: Query, g: Graph, m: map<nat, nat>, start: multiset<Label>,
                   found: seq<nat>, dists: seq<nat>, l: nat, t: nat)
    requires WellFormed(ls) && QueryOk(q, |ls.parents|) && BoundsOf(ls, q, g, m, start, found, dists)
    requires l < |ls.parents| && ls.parents[l] == None && t < |ls.parents| && ls.parents[t] == None && l != t
    requires IsQueryFor(q, l)
    ensures forall s :: s in start ==> s.node == l
    ensures dists[t] != UNREACHABLE ==> Attained(g, start, t, dists[t])
  {
    OnlySeed(ls, q, m, start, l);
    hide IsSeedMap, IsSeedLabels;
    var initial: seq<nat> :| |initial| == |g| && InStep(initial, start)
      && ExactBelow(g, start, initial, found, MAX_TRAVEL_TIME + 1);
    assert dists[t] == LeastUpwards(ls, found, t) == found[t];
    assert initial[t] == UNREACHABLE || Label(t, initial[t]) in start;
  }

  // ---------- every query has bounds ----------

  /** The least length of a walk from `u` to `v`, if there is one of length `n`. */
  ghost function Shortest(g: Graph, u: nat, v: nat, n: nat): nat {
    if n > 0 && Within(g, u, v, n - 1) then Shortest(g, u, v, n - 1) else n
  }

  lemma {:induction false} ShortestIsLeast(g: Graph, u: nat, v: nat, n: nat, x: nat)
    requires Within(g, u, v, n)
    ensures Shortest(g, u, v, n) <= n && Within(g, u, v, Shortest(g, u, v, n))
    ensures Within(g, u, v, x) ==> Shortest(g, u, v, n) <= x
  {
    if n > 0 && Within(g, u, v, n - 1) {
      ShortestIsLeast(g, u, v, n - 1, x);
    } else if n > 0 && Within(g, u, v, x) && x < n {
      var es :| LeadsWithin(g, u, v, x, es);
      assert LeadsWithin(g, u, v, n - 1, es);
    }
  }

  lemma ShortestIsAttained(g: Graph, start: multiset<Label>, u: nat, v: nat, n: nat)
    requires Within(g, u, v, n) && start == multiset{Label(u, 0)}
    ensures Attained(g, start, v, Shortest(g, u, v, n))
  {
    var d := Shortest(g, u, v, n);
    ShortestIsLeast(g, u, v, n, d);
    var es :| LeadsWithin(g, u, v, d, es);
    assert LeadsWithin(g, u, v, Length(es), es);
    ShortestIsLeast(g, u, v, n, Length(es));
    assert ReachedBy(g, start, v, d, Label(u, 0), es);
  }

  /** What a search from `u` alone finds within the longest travel time. */
  ghost function FoundFrom(g: Graph, u: nat): (found: seq<nat>)
    ensures |found| == |g|
  {
    seq(|g|, v requires 0 <= v < |g| =>
      if Within(g, u, v, MAX_TRAVEL_TIME) then Shortest(g, u, v, MAX_TRAVEL_TIME) else UNREACHABLE)
  }

  lemma FoundIsExact(g: Graph, u: nat, initial: seq<nat>, start: multiset<Label>)
    requires GraphOk(g) && u < |g| && start == multiset{Label(u, 0)}
    requires |initial| == |g| && forall v :: 0 <= v < |g| ==> initial[v] == if v == u then 0 else UNREACHABLE
    ensures ExactBelow(g, start, initial, FoundFrom(g, u), MAX_TRAVEL_TIME + 1)
  {
    var found := FoundFrom(g, u);
    forall v | 0 <= v < |found| && found[v] != initial[v]
      ensures found[v] < initial[v] && found[v] < MAX_TRAVEL_TIME + 1 && Attained(g, start, v, found[v])
    {
      EdgeIsWalk(g, u, u, 0);
      if v == u {
        assert LeadsWithin(g, u, u, MAX_TRAVEL_TIME, []);
        ShortestIsLeast(g, u, u, MAX_TRAVEL_TIME, 0);
      } else {
        ShortestIsLeast(g, u, v, MAX_TRAVEL_TIME, 0);
        ShortestIsAttained(g, start, u, v, MAX_TRAVEL_TIME);
      }
    }
    forall s, es | s in start && IsWalk(g, s.node, es) && s.dist + Length(es) < MAX_TRAVEL_TIME + 1
      ensures EndOf(s.node, es) < |g| && found[EndOf(s.node, es)] <= s.dist + Length(es)
    {
      var v := EndOf(u, es);
      WalkEnds(g, u, es);
      assert LeadsWithin(g, u, v, MAX_TRAVEL_TIME, es) && LeadsWithin(g, u, v, Length(es), es);
      ShortestIsLeast(g, u, v, MAX_TRAVEL_TIME, Length(es));
    }
  }

  lemma {:induction false} WalkEnds(g: Graph, u: nat, es: seq<Edge>)
    requires IsWalk(g, u, es)
    ensures EndOf(u, es) < |g|
    decreases |es|
  {
    if es != [] {
      WalkEnds(g, es[0].target, es[1..]);
    }
  }

  lemma BoundsExist(ls: Locations, q: Query, g: Graph, l: nat)
    returns (m: map<nat, nat>, start: multiset<Label>, found: seq<nat>, dists: seq<nat>)
    requires WellFormed(ls) && QueryOk(q, |ls.parents|) && IsQueryFor(q, l) && l < |ls.parents| && ls.parents[l] == None
    requires GraphOk(g) && |g| == |ls.parents|
    ensures BoundsOf(ls, q, g, m, start, found, dists)
  {
    hide IsSeedMap, IsSeedLabels, InStep, ExactBelow, LeastUpwards, FoundFrom, BoundsOf, IsQueryFor, GraphOk;
    m, start, found := map[l := 0], multiset{Label(l, 0)}, FoundFrom(g, l);
    dists := seq(|g|, x requires 0 <= x < |g| => LeastUpwards(ls, found, x));
    var initial := seq(|g|, v => if v == l then 0 else UNREACHABLE);
    FoundIsExact(g, l, initial, start);
    SeedOfQuery(ls, q, l);
    StartsInStep(initial, l);
    Together(ls, q, g, m, start, initial, found, dists);
  }

  lemma StartsInStep(initial: seq<nat>, l: nat)
    requires l < |initial| && forall v :: 0 <= v < |initial| ==> initial[v] == if v == l then 0 else UNREACHABLE
    ensures InStep(initial, multiset{Label(l, 0)})
  {
  }

  lemma SeedOfQuery(ls: Locations, q: Query, l: nat)
    requires WellFormed(ls) && QueryOk(q, |ls.parents|) && IsQueryFor(q, l) && l < |ls.parents| && ls.parents[l] == None
    ensures IsSeedMap(ls, q, map[l := 0]) && IsSeedLabels(ls, q, map[l := 0], multiset{Label(l, 0)})
  {
    assert EndsByOffset(ls, q, 0, l, 0) && EndsAt(ls, q, l, 0) && Root(ls, l) == l;
    assert IsSeed(ls, q, l, 0);
    assert IsMeta(ls, q.mode, l, l);
  }

  // ---------- which profiles are served ----------

  /** Whatever the real-time data are and whatever is asked, the bounds are admissible. */
  ghost predicate Served(net: Network, prf: Profile, fwd: bool, d: Graph, g: Graph)
    requires NetworkOk(net)
  {
    GraphOk(g) && |g| == |d| &&
    forall rts, o, q, m, start, found, dists ::
      ((forall j :: 0 <= j < |rts| ==> RtOk(net, rts[j])) && BoundsFor(net, fwd, d, rts, o) && QueryOk(q, |net.ls.parents|)
       && BoundsOf(net.ls, q, Union(g, o), m, start, found, dists)) ==> Admissible(net, prf, fwd, rts, q, dists)
  }

  /** With real-time data a profile is served exactly if its walks are nowhere slower
      than the edges of the default profile, for which the overlay was computed. */
  lemma ServedIff(net: Network, prf: Profile, fwd: bool, d: Graph, g: Graph)
    requires NetworkOk(net) && IsLbGraph(net, DefaultProfile, fwd, d) && IsLbGraph(net, prf, fwd, g)
    ensures Served(net, prf, fwd, d, g) <==> NoSlower(d, g)
  {
    LbGraphIsGraph(net, DefaultProfile, fwd, d);
    LbGraphIsGraph(net, prf, fwd, g);
    if NoSlower(d, g) {
      forall rts, o, q, m, start, found, dists |
        (forall j :: 0 <= j < |rts| ==> RtOk(net, rts[j])) && BoundsFor(net, fwd, d, rts, o) && QueryOk(q, |net.ls.parents|)
        && BoundsOf(net.ls, q, Union(g, o), m, start, found, dists)
        ensures Admissible(net, prf, fwd, rts, q, dists)
      {
        LowerBoundTheorem(net, prf, fwd, rts, q, g, o, d, m, start, found, dists);
      }
    } else {
      var l: nat, k: nat :| l < |d| && k < |d[l]| && !Within(g, l, d[l][k].target, d[l][k].duration);
      NotServed(net, prf, fwd, d, g, l, k);
    }
  }

  /** The ride that shows it is as long as the edge that the profile lacks. */
  lemma NotServed(net: Network, prf: Profile, fwd: bool, d: Graph, g: Graph, l: nat, k: nat)
    requires NetworkOk(net) && BetweenStations(net.ls, d) && |d| == |g| == |net.ls.parents| && GraphOk(g) && GraphOk(d)
    requires l < |d| && k < |d[l]| && !Within(g, l, d[l][k].target, d[l][k].duration)
    ensures !Served(net, prf, fwd, d, g)
  {
    hide TravelTime, BoundsOf, BoundsFor, Admissible, IsOnlyRide, RtOk, BetweenStations, IsItinerary, EndsAt, Within;
    EdgeOf(net.ls, d, l, k);
    var t, x := d[l][k].target, d[l][k].duration;
    var rts := [RtTransport(if fwd then [t, l] else [l, t], [0, x], None)];
    assert Leads(d[l], t, x);
    var q := Query(Exact, [Offset(l, 0)], [], MAX_TRAVEL_TIME);
    var o := EmptyOverlay(net, fwd, d, rts, l, t, x);
    NothingAdded(net, fwd, d, g, rts, o, l, t, x);
    var m, start, found, dists := BoundsExist(net.ls, q, g, l);
    SkippedRideIsMissed(net, prf, fwd, d, g, rts, o, q, l, t, x, m, start, found, dists);
  }

  lemma EdgeOf(ls: Locations, d: Graph, l: nat, k: nat)
    requires BetweenStations(ls, d) && l < |d| && k < |d[l]|
    ensures var e := d[l][k];
      && l < |ls.parents| && ls.parents[l] == None && e.target < |ls.parents| && ls.parents[e.target] == None
      && e.target != l && e.duration <= MAX_EDGE_DURATION && Leads(d[l], e.target, e.duration)
  {
    assert d[l][k].target != l;
  }

  lemma EmptyOverlay(net: Network, fwd: bool, d: Graph, rts: seq<RtTransport>, l: nat, t: nat, x: nat) returns (o: Overlay)
    requires NetworkOk(net) && |d| == |net.ls.parents| && GraphOk(d) && l < |d| && t < |d| && l != t
    requires net.ls.parents[l] == None && net.ls.parents[t] == None && x <= MAX_EDGE_DURATION
    requires rts == [RtTransport(if fwd then [t, l] else [l, t], [0, x], None)] && Leads(d[l], t, x)
    ensures RtOk(net, rts[0]) && IsOnlyRide(net, fwd, rts, l, t, x)
    ensures BoundsFor(net, fwd, d, rts, o)
  {
    o := Overlay(seq(|d|, _ => false), seq(|d|, _ => []));
    assert RtOk(net, rts[0]) && IsOnlyRide(net, fwd, rts, l, t, x);
    NoRealTimeEdges(net, fwd, d, rts, o, l, t, x);
  }

  lemma NoRealTimeEdges(net: Network, fwd: bool, d: Graph, rts: seq<RtTransport>, o: Overlay, l: nat, t: nat, x: nat)
    requires NetworkOk(net) && |d| == |net.ls.parents| && GraphOk(d) && forall j :: 0 <= j < |rts| ==> RtOk(net, rts[j])
    requires IsOnlyRide(net, fwd, rts, l, t, x) && Leads(d[l], t, x)
    requires OverlayOk(o, |d|) && o.Overlay? && forall v :: 0 <= v < |d| ==> !o.hasRt[v] && o.rt[v] == []
    ensures BoundsFor(net, fwd, d, rts, o)
  {
    hide TravelTime, NetworkOk, Leads, RtOk, IsOnlyRide, Root, RtNear, RtFar, GraphOk;
    OnlyRideTakes(net, fwd, rts, l, t, x);
    assert EdgesOf(d, o, l) == d[l];
  }

  // ---------- a profile that is not served ----------

  function TwoStations(): Locations {
    Locations([None, None], [[], []], [[], []], [false, false])
  }

  /** From the first to the second station without a stop in between. */
  function Shuttle(minutes: nat, bikes: bool): Route {
    Route([0, 1], [[Delta(0, 0), Delta(0, minutes)]], false, bikes)
  }

  /** Two stations, a route of 10 minutes that takes bikes and one of 5 that does not. */
  function TwoRoutes(): Network {
    var noFootpaths := seq(N_PROFILES, _ => [[], []]);
    Network(TwoStations(), [Shuttle(10, true), Shuttle(5, false)], [[0, 1], [0, 1]], noFootpaths, noFootpaths)
  }

  ghost predicate IsSection(r: Route, minutes: nat) {
    TimesOk(r) && |r.stops| == 2 && r.stops[0] == 0 && r.stops[1] == 1 && |r.rows| == 1 && RideTime(r, 0, 0) == minutes
  }

  lemma ShuttleIsSection(minutes: nat, bikes: bool)
    requires minutes < 1440
    ensures IsSection(Shuttle(minutes, bikes), minutes)
  {
    assert RowOk(Shuttle(minutes, bikes).rows[0], 2);
  }

  lemma TwoStationsOk()
    ensures var ls := TwoStations();
      WellFormed(ls) && Shallow(ls) && |ls.parents| == 2 && ls.parents[0] == None && ls.parents[1] == None
  {
  }

  lemma NoFootpaths()
    ensures LayerOk([[], []], 2) && Transposed([[], []], [[], []])
  {
    var none: Graph := [[], []];
    assert none[0] == [] && none[1] == [];
  }

  lemma TwoRoutesFacts()
    ensures var net := TwoRoutes();
      && NetworkOk(net) && net.ls == TwoStations() && |net.routes| == 2
      && IsSection(net.routes[0], 10) && IsSection(net.routes[1], 5)
      && Admitted(BikeProfile, net.routes[0]) && !Admitted(BikeProfile, net.routes[1])
      && (forall l :: 0 <= l < 2 ==> Footpaths(net, BikeProfile, true)[l] == [])
  {
    var net := TwoRoutes();
    ShuttleIsSection(10, true);
    ShuttleIsSection(5, false);
    TwoStationsOk();
    NoFootpaths();
    hide TwoStations, Shallow, WellFormed, TimesOk, LayerOk, Transposed;
    assert net.locationRoutes[0] == net.locationRoutes[1] == [0, 1];
    assert [0, 1][0] == 0 && [0, 1][1] == 1;
    assert forall i :: 0 <= i < 2 ==> net.routes[0].stops[i] == i == net.routes[1].stops[i];
  }

  /** If all rides and footpaths of a profile take at least `x`, so do all edges. */
  lemma SlowEdges(net: Network, prf: Profile, fwd: bool, g: Graph, x: nat)
    requires NetworkOk(net) && IsLbGraph(net, prf, fwd, g) && x <= MAX_EDGE_DURATION
    requires forall r, i :: 0 <= r < |net.routes| && Admitted(prf, net.routes[r]) && 0 <= i < |net.routes[r].stops| - 1 ==>
      LeastRide(net.routes[r], i, |net.routes[r].rows|) >= x
    requires forall l, j :: 0 <= l < |net.ls.parents| && 0 <= j < |Footpaths(net, prf, fwd)[l]| ==>
      Footpaths(net, prf, fwd)[l][j].duration >= x
    ensures forall v, k :: 0 <= v < |g| && 0 <= k < |g[v]| ==> g[v][k].duration >= x
  {
    hide IsLbGraph, LeastRide, RoutesOffers, FootpathOffers, Footpaths;
    forall v: nat, k: nat | v < |g| && k < |g[v]| ensures g[v][k].duration >= x {
      var l, d := OfferOf(net, prf, fwd, g, v, k);
      SlowOffer(net, prf, fwd, l, |net.locationRoutes[l]|, Edge(g[v][k].target, d), x);
    }
  }

  lemma OfferOf(net: Network, prf: Profile, fwd: bool, g: Graph, v: nat, k: nat) returns (l: nat, d: nat)
    requires NetworkOk(net) && IsLbGraph(net, prf, fwd, g) && v < |g| && k < |g[v]|
    ensures l < |net.ls.parents| && g[v][k].duration == Clamp(d)
    ensures var e := Edge(g[v][k].target, d);
      e in RoutesOffers(net, prf, fwd, l, |net.locationRoutes[l]|) || e in FootpathOffers(net, prf, fwd, l, |Footpaths(net, prf, fwd)[l]|)
  {
    hide Root, RoutesOffers, FootpathOffers;
    assert IsLbRow(net, prf, fwd, v, g[v]);
    d :| Edge(g[v][k].target, d) in StationOffers(net, prf, fwd, v) && g[v][k].duration == Clamp(d);
    var e := Edge(g[v][k].target, d);
    l :| l < |net.ls.parents| && Root(net.ls, l) == v && e in Offers(net, prf, fwd, l);
  }

  lemma {:induction false} SlowOffer(net: Network, prf: Profile, fwd: bool, l: nat, n: nat, e: Edge, x: nat)
    requires NetworkOk(net) && l < |net.ls.parents| && n <= |net.locationRoutes[l]|
    requires forall r, i :: 0 <= r < |net.routes| && Admitted(prf, net.routes[r]) && 0 <= i < |net.routes[r].stops| - 1 ==>
      LeastRide(net.routes[r], i, |net.routes[r].rows|) >= x
    requires forall l, j :: 0 <= l < |net.ls.parents| && 0 <= j < |Footpaths(net, prf, fwd)[l]| ==>
      Footpaths(net, prf, fwd)[l][j].duration >= x
    requires e in RoutesOffers(net, prf, fwd, l, n) || e in FootpathOffers(net, prf, fwd, l, |Footpaths(net, prf, fwd)[l]|)
    ensures e.duration >= x
  {
    hide LeastRide, Root;
    if e in FootpathOffers(net, prf, fwd, l, |Footpaths(net, prf, fwd)[l]|) {
      var j :| 0 <= j < |Footpaths(net, prf, fwd)[l]| && FromFootpath(net, prf, fwd, l, e, j);
    } else if e in RoutesOffers(net, prf, fwd, l, n - 1) {
      SlowOffer(net, prf, fwd, l, n - 1, e, x);
    } else {
      var r := net.locationRoutes[l][n - 1];
      var i :| 0 <= i < |net.routes[r].stops| && FromSection(net, prf, fwd, l, e, r, i);
    }
  }

  /** With bikes only the slow route is left. */
  lemma BikesAreSlow(net: Network, g: Graph)
    requires net == TwoRoutes() && NetworkOk(net) && IsLbGraph(net, BikeProfile, true, g)
    ensures |g| == 2 && !Within(g, 1, 0, 7)
  {
    hide NetworkOk, IsLbGraph, TwoRoutes, RideTime;
    TwoRoutesFacts();
    LbGraphIsGraph(net, BikeProfile, true, g);
    var slow := net.routes[0];
    assert LeastRide(slow, 0, 1) == Min(RideTime(slow, 0, 0), LeastRide(slow, 0, 0));
    SlowEdges(net, BikeProfile, true, g, 10);
    forall es ensures !LeadsWithin(g, 1, 0, 7, es) {
      if es != [] && es[0] in g[1] {
        var k :| 0 <= k < |g[1]| && g[1][k] == es[0];
      }
    }
  }

  /** The slow route runs 3 minutes early. The overlay leaves the ride out, as the fast
      route takes 5 minutes only; for bikes the bound of its start is above its 7 minutes. */
  method ProfileGap() returns (net: Network, rts: seq<RtTransport>, q: Query, dists: array<nat>)
    ensures NetworkOk(net) && QueryOk(q, |net.ls.parents|) && forall j :: 0 <= j < |rts| ==> RtOk(net, rts[j])
    ensures |rts| == 1 && rts[0].scheduled == Some(StaticRun(0, 0)) && |net.routes| == 2 && Admitted(BikeProfile, net.routes[0])
    ensures IsItinerary(net, BikeProfile, true, rts, 0, [Move(1, 7)], 1) && EndsAt(net.ls, q, 1, 0)
    ensures dists.Length == 2 && dists[0] > 7
  {
    hide TwoRoutes, IsLbGraph, BoundsFor, BoundsOf, Admissible, IsItinerary, EndsAt, BetweenStations, Within, Leads, RideTime;
    net := TwoRoutes();
    TwoRoutesFacts();
    rts := [RtTransport([0, 1], [0, 7], Some(StaticRun(0, 0)))];
    q := Query(Exact, [Offset(1, 0)], [], MAX_TRAVEL_TIME);
    assert RtOk(net, rts[0]) && IsOnlyRide(net, true, rts, 1, 0, 7);
    var fwdLbs := BuildLbGraph(net, DefaultProfile, true);
    var bwdLbs := BuildLbGraph(net, DefaultProfile, false);
    var bikes := BuildLbGraph(net, BikeProfile, true);
    hide NetworkOk, RtOk, IsOnlyRide;
    var rtb := new RtBounds(2);
    rtb.UpdateLbs(net, fwdLbs, bwdLbs, rts);
    var o := Overlay(rtb.fwdHas, rtb.fwdGraph);
    LbGraphIsGraph(net, DefaultProfile, true, fwdLbs);
    LbGraphIsGraph(net, BikeProfile, true, bikes);
    FastRideLeads(net, fwdLbs);
    BikesAreSlow(net, bikes);
    OverlayFits(net, true, fwdLbs, rts, o);
    ghost var m, start, found;
    ShallowNet(net);
    dists, m, start, found := ComputeLowerBounds(net.ls, q, bikes, o);
    SkippedRideIsMissed(net, BikeProfile, true, fwdLbs, bikes, rts, o, q, 1, 0, 7, m, start, found, dists[..]);
  }

  lemma ShallowNet(net: Network)
    requires NetworkOk(net)
    ensures WellFormed(net.ls) && Shallow(net.ls)
  {
  }

  lemma FastRideLeads(net: Network, g: Graph)
    requires net == TwoRoutes() && NetworkOk(net) && IsLbGraph(net, DefaultProfile, true, g)
    ensures |g| == 2 && Leads(g[1], 0, 7)
  {
    hide NetworkOk, IsLbGraph, TwoRoutes, RideTime;
    TwoRoutesFacts();
    LbGraphIsGraph(net, DefaultProfile, true, g);
    TwoStationsOk();
    assert Root(net.ls, 0) == 0 && Root(net.ls, 1) == 1;
    RideTimeIsRide(net, 1, 0, 0);
    RideIsCovered(net, DefaultProfile, true, g, 0, 1, 5, 1, 0, 0);
  }
}
