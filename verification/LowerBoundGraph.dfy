/** The lower-bound graph: all connections of the network, seen against the
    search direction, contracted to root stations and reduced to the fastest
    one per pair of stations. */
module LowerBoundGraph {
  import opened Basics
  import opened Deltas
  import opened Dijkstra
  import opened Locations

  /** What the nine duration bits of a footpath hold. */
  const MAX_EDGE_DURATION := 511

  /** Largest 16-bit duration; where the minimum over transports starts. */
  const MAX_DURATION := 0x7FFF

  /** A route: its stops and, per transport, the packed times of its events. */
  datatype Route = Route(stops: seq<nat>, rows: seq<seq<Delta>>, carsAllowed: bool, bikesAllowed: bool)

  datatype Profile = DefaultProfile | FootProfile | WheelchairProfile | CarProfile | BikeProfile

  const N_PROFILES := 5

  function ProfileIndex(prf: Profile): (i: nat)
    ensures i < N_PROFILES && [DefaultProfile, FootProfile, WheelchairProfile, CarProfile, BikeProfile][i] == prf
  {
    match prf
    case DefaultProfile => 0
    case FootProfile => 1
    case WheelchairProfile => 2
    case CarProfile => 3
    case BikeProfile => 4
  }

  /** Footpaths are kept per profile. */
  datatype Network = Network(
    ls: Locations, routes: seq<Route>, locationRoutes: seq<seq<nat>>, footpathsIn: seq<Graph>, footpathsOut: seq<Graph>)

  /** One layer of footpaths; durations have the bits that a footpath has for them. */
  predicate LayerOk(g: Graph, n: nat) {
    |g| == n && GraphOk(g) && forall l, j :: 0 <= l < n && 0 <= j < |g[l]| ==> g[l][j].duration <= MAX_EDGE_DURATION
  }

  /** Times along a transport are packed 16-bit minutes that never go back. */
  predicate TimesOk(r: Route) {
    && |r.stops| >= 2
    && forall t :: 0 <= t < |r.rows| ==> RowOk(r.rows[t], 2 * |r.stops| - 2)
  }

  predicate RowOk(row: seq<Delta>, n: nat) {
    && |row| == n
    && (forall e :: 0 <= e < n ==> Normal(row[e]) && Minutes(row[e]) <= MAX_DURATION)
    && (forall e, f :: 0 <= e < f < n ==> Minutes(row[e]) <= Minutes(row[f]))
  }

  ghost predicate NetworkOk(net: Network) {
    var n := |net.ls.parents|;
    && WellFormed(net.ls) && Shallow(net.ls)
    && (forall r :: 0 <= r < |net.routes| ==>
          TimesOk(net.routes[r]) && forall i :: 0 <= i < |net.routes[r].stops| ==> net.routes[r].stops[i] < n)
    && |net.locationRoutes| == n
    && (forall l, k :: 0 <= l < n && 0 <= k < |net.locationRoutes[l]| ==> net.locationRoutes[l][k] < |net.routes|)
    && (forall r, i :: 0 <= r < |net.routes| && 0 <= i < |net.routes[r].stops| ==>
          r in net.locationRoutes[net.routes[r].stops[i]])
    && |net.footpathsIn| == |net.footpathsOut| == N_PROFILES
    && (forall p :: 0 <= p < N_PROFILES ==>
          LayerOk(net.footpathsIn[p], n) && LayerOk(net.footpathsOut[p], n) && Transposed(net.footpathsOut[p], net.footpathsIn[p]))
  }

  /** The in layer has the footpaths of the out layer, listed where they end. */
  ghost predicate Transposed(out: Graph, inn: Graph) {
    |out| == |inn| && forall a: nat, b: nat, d: nat :: a < |out| && b < |out| ==> (Edge(b, d) in out[a] <==> Edge(a, d) in inn[b])
  }

  predicate Admitted(prf: Profile, r: Route) {
    !(prf == CarProfile && !r.carsAllowed) && !(prf == BikeProfile && !r.bikesAllowed)
  }

  /** Minutes the `t`-th transport takes from its `i`-th stop to the next one. */
  function RideTime(r: Route, t: nat, i: nat): nat
    requires TimesOk(r) && t < |r.rows| && i + 1 < |r.stops|
  {
    assert RowOk(r.rows[t], 2 * |r.stops| - 2);
    Minutes(r.rows[t][2 * i + 1]) - Minutes(r.rows[t][2 * i])
  }

  /** The least ride time of the first `k` transports. */
  function LeastRide(r: Route, i: nat, k: nat): nat
    requires TimesOk(r) && k <= |r.rows| && i + 1 < |r.stops|
  {
    if k == 0 then MAX_DURATION else Min(RideTime(r, k - 1, i), LeastRide(r, i, k - 1))
  }

  lemma {:induction false} LeastRideIsLeast(r: Route, i: nat, k: nat)
    requires TimesOk(r) && k <= |r.rows| && i + 1 < |r.stops|
    ensures forall t :: 0 <= t < k ==> LeastRide(r, i, k) <= RideTime(r, t, i)
    ensures LeastRide(r, i, k) == MAX_DURATION || exists t :: 0 <= t < k && LeastRide(r, i, k) == RideTime(r, t, i)
  {
    hide RideTime, TimesOk;
    if k > 0 {
      LeastRideIsLeast(r, i, k - 1);
    }
  }

  /** A footpath that a traveller of the profile takes from `a` to `b`. */
  ghost predicate IsWay(net: Network, prf: Profile, a: nat, b: nat, d: nat)
    requires NetworkOk(net)
  {
    a < |net.ls.parents| && b < |net.ls.parents| && Edge(b, d) in net.footpathsOut[ProfileIndex(prf)][a]
  }

  /** Transport `t` of a route open to the profile takes `d` minutes from its `i`-th
      stop `a` to the next one, `b`. */
  ghost predicate IsRide(net: Network, prf: Profile, a: nat, b: nat, d: nat, r: nat, t: nat, i: nat)
    requires NetworkOk(net)
  {
    && r < |net.routes| && t < |net.routes[r].rows| && i + 1 < |net.routes[r].stops|
    && (prf == CarProfile ==> net.routes[r].carsAllowed) && (prf == BikeProfile ==> net.routes[r].bikesAllowed)
    && a == net.routes[r].stops[i] && b == net.routes[r].stops[i + 1]
    && |net.routes[r].rows[t]| == 2 * |net.routes[r].stops| - 2
    && d == Minutes(net.routes[r].rows[t][2 * i + 1]) - Minutes(net.routes[r].rows[t][2 * i])
  }

  /** Edges that lead against the search direction: where one comes from. */
  function Footpaths(net: Network, prf: Profile, fwd: bool): (g: Graph)
    requires NetworkOk(net)
    ensures |g| == |net.ls.parents| && GraphOk(g)
  {
    assert LayerOk(net.footpathsIn[ProfileIndex(prf)], |net.ls.parents|);
    if fwd then net.footpathsIn[ProfileIndex(prf)] else net.footpathsOut[ProfileIndex(prf)]
  }

  function NearEnd(fwd: bool, r: Route, i: nat): nat
    requires i + 1 < |r.stops|
  {
    if fwd then r.stops[i + 1] else r.stops[i]
  }

  function FarEnd(fwd: bool, r: Route, i: nat): nat
    requires i + 1 < |r.stops|
  {
    if fwd then r.stops[i] else r.stops[i + 1]
  }

  // ---------- what a location contributes ----------

  ghost function FootpathEdge(net: Network, prf: Profile, fwd: bool, l: nat, j: nat): Edge
    requires NetworkOk(net) && l < |net.ls.parents| && j < |Footpaths(net, prf, fwd)[l]|
  {
    Edge(Root(net.ls, Footpaths(net, prf, fwd)[l][j].target), Footpaths(net, prf, fwd)[l][j].duration)
  }

  ghost predicate FromFootpath(net: Network, prf: Profile, fwd: bool, l: nat, e: Edge, j: nat)
    requires NetworkOk(net) && l < |net.ls.parents|
  {
    j < |Footpaths(net, prf, fwd)[l]| && e == FootpathEdge(net, prf, fwd, l, j)
  }

  /** The edge a section stands for: to the station at its far end, as fast as
      its fastest transport. */
  ghost function SectionEdge(net: Network, fwd: bool, r: nat, i: nat): Edge
    requires NetworkOk(net) && r < |net.routes| && i + 1 < |net.routes[r].stops|
  {
    Edge(Root(net.ls, FarEnd(fwd, net.routes[r], i)), LeastRide(net.routes[r], i, |net.routes[r].rows|))
  }

  ghost predicate FromSection(net: Network, prf: Profile, fwd: bool, l: nat, e: Edge, r: nat, i: nat)
    requires NetworkOk(net) && l < |net.ls.parents|
  {
    && r < |net.routes| && i + 1 < |net.routes[r].stops|
    && Admitted(prf, net.routes[r]) && NearEnd(fwd, net.routes[r], i) == l && e == SectionEdge(net, fwd, r, i)
  }

  /** Offers of the first `k` footpaths of `l` to other stations. */
  ghost function FootpathOffers(net: Network, prf: Profile, fwd: bool, l: nat, k: nat): iset<Edge>
    requires NetworkOk(net) && l < |net.ls.parents|
  {
    iset e: Edge | e.target != Root(net.ls, l) && exists j :: 0 <= j < k && FromFootpath(net, prf, fwd, l, e, j)
  }

  /** Offers of the first `k` sections of route `r` that touch `l`. */
  ghost function RouteOffers(net: Network, prf: Profile, fwd: bool, l: nat, r: nat, k: nat): iset<Edge>
    requires NetworkOk(net) && l < |net.ls.parents|
  {
    iset e: Edge | e.target != Root(net.ls, l) && exists i :: 0 <= i < k && FromSection(net, prf, fwd, l, e, r, i)
  }

  /** Offers of the first `k` routes that stop at `l`. */
  ghost function RoutesOffers(net: Network, prf: Profile, fwd: bool, l: nat, k: nat): iset<Edge>
    requires NetworkOk(net) && l < |net.ls.parents| && k <= |net.locationRoutes[l]|
  {
    if k == 0 then iset{} else
      var r := net.locationRoutes[l][k - 1];
      RoutesOffers(net, prf, fwd, l, k - 1) + RouteOffers(net, prf, fwd, l, r, |net.routes[r].stops|)
  }

  /** Everything location `l` offers to stations other than its own. */
  ghost function Offers(net: Network, prf: Profile, fwd: bool, l: nat): iset<Edge>
    requires NetworkOk(net) && l < |net.ls.parents|
  {
    FootpathOffers(net, prf, fwd, l, |Footpaths(net, prf, fwd)[l]|) + RoutesOffers(net, prf, fwd, l, |net.locationRoutes[l]|)
  }

  // ---------- collecting minimum weights ----------

  /** `weights` keeps, per target, the least duration of all offered edges. */
  ghost predicate KeepsLeast(weights: map<nat, nat>, offered: iset<Edge>) {
    && (forall t :: t in weights ==> Edge(t, weights[t]) in offered)
    && (forall e :: e in offered ==> e.target in weights && weights[e.target] <= e.duration)
  }

  function UpdateWeight(weights: map<nat, nat>, target: nat, d: nat): map<nat, nat> {
    if target in weights then weights[target := Min(weights[target], d)] else weights[target := d]
  }

  lemma UpdateKeepsLeast(weights: map<nat, nat>, offered: iset<Edge>, e: Edge)
    requires KeepsLeast(weights, offered)
    ensures KeepsLeast(UpdateWeight(weights, e.target, e.duration), offered + iset{e})
  {
  }

  method AddFootpaths(net: Network, prf: Profile, fwd: bool, l: nat, weights0: map<nat, nat>, ghost offered: iset<Edge>)
    returns (weights: map<nat, nat>)
    requires NetworkOk(net) && l < |net.ls.parents| && KeepsLeast(weights0, offered)
    ensures KeepsLeast(weights, offered + FootpathOffers(net, prf, fwd, l, |Footpaths(net, prf, fwd)[l]|))
  {
    hide KeepsLeast;
    weights := weights0;
    var parent := GetRootIdx(net.ls, l);
    var fps := Footpaths(net, prf, fwd)[l];
    assert offered + FootpathOffers(net, prf, fwd, l, 0) == offered;
    for k := 0 to |fps|
      invariant KeepsLeast(weights, offered + FootpathOffers(net, prf, fwd, l, k))
    {
      var target := GetRootIdx(net.ls, fps[k].target);
      NextFootpath(net, prf, fwd, l, k, offered);
      if target != parent {
        UpdateKeepsLeast(weights, offered + FootpathOffers(net, prf, fwd, l, k), Edge(target, fps[k].duration));
        weights := UpdateWeight(weights, target, fps[k].duration);
      }
    }
  }

  lemma NextFootpath(net: Network, prf: Profile, fwd: bool, l: nat, k: nat, offered: iset<Edge>)
    requires NetworkOk(net) && l < |net.ls.parents| && k < |Footpaths(net, prf, fwd)[l]|
    ensures var e := FootpathEdge(net, prf, fwd, l, k);
      offered + FootpathOffers(net, prf, fwd, l, k + 1)
      == if e.target != Root(net.ls, l) then offered + FootpathOffers(net, prf, fwd, l, k) + iset{e}
         else offered + FootpathOffers(net, prf, fwd, l, k)
  {
    hide FootpathEdge, Footpaths, Root;
    var e := FootpathEdge(net, prf, fwd, l, k);
    assert FromFootpath(net, prf, fwd, l, e, k);
    forall x: Edge
      ensures x in FootpathOffers(net, prf, fwd, l, k + 1)
         <==> x in FootpathOffers(net, prf, fwd, l, k) || (x == e && e.target != Root(net.ls, l))
    {
      if x in FootpathOffers(net, prf, fwd, l, k + 1) {
        var j :| 0 <= j < k + 1 && FromFootpath(net, prf, fwd, l, x, j);
        assert j == k ==> x == e;
      }
    }
  }

  lemma RideMinutes(r: Route, t: nat, i: nat)
    requires TimesOk(r) && t < |r.rows| && i + 1 < |r.stops|
    ensures |r.rows[t]| == 2 * |r.stops| - 2
    ensures Minutes(Minus(r.rows[t][(i + 1) * 2 - 1], r.rows[t][i * 2])) == RideTime(r, t, i)
  {
    assert RowOk(r.rows[t], 2 * |r.stops| - 2);
    hide Minus, Minutes;
    MinusExact(r.rows[t][2 * i + 1], r.rows[t][2 * i]);
  }

  method FastestRide(r: Route, i: nat) returns (w: nat)
    requires TimesOk(r) && i + 1 < |r.stops|
    ensures w == LeastRide(r, i, |r.rows|)
  {
    hide Minus, Minutes, RideTime, RowOk;
    w := MAX_DURATION;
    for t := 0 to |r.rows|
      invariant w == LeastRide(r, i, t)
    {
      RideMinutes(r, t, i);
      var fromTime, toTime := r.rows[t][i * 2], r.rows[t][(i + 1) * 2 - 1];
      w := Min(Minutes(Minus(toTime, fromTime)), w);
    }
  }

  method AddRoute(net: Network, prf: Profile, fwd: bool, l: nat, r: nat, weights0: map<nat, nat>, ghost offered: iset<Edge>)
    returns (weights: map<nat, nat>)
    requires NetworkOk(net) && l < |net.ls.parents| && r < |net.routes| && KeepsLeast(weights0, offered)
    ensures KeepsLeast(weights, offered + RouteOffers(net, prf, fwd, l, r, |net.routes[r].stops|))
  {
    hide *;
    weights := weights0;
    var route := net.routes[r];
    SectionsInTurn(net, prf, fwd, l, r, offered);
    if (prf == CarProfile && !route.carsAllowed) || (prf == BikeProfile && !route.bikesAllowed) {
      return;
    }
    var parent := GetRootIdx(net.ls, l);
    for from := 0 to |route.stops| - 1
      invariant KeepsLeast(weights, offered + RouteOffers(net, prf, fwd, l, r, from))
    {
      NextSection(net, prf, fwd, l, r, from, offered);
      EndsOfSection(net, fwd, r, from);
      if NearEnd(fwd, route, from) == l {
        var target := GetRootIdx(net.ls, FarEnd(fwd, route, from));
        StationIndex(net, l);
        StationIndex(net, FarEnd(fwd, route, from));
        if target != parent {
          var w := FastestRide(route, from);
          UpdateKeepsLeast(weights, offered + RouteOffers(net, prf, fwd, l, r, from), Edge(target, w));
          weights := UpdateWeight(weights, target, w);
        }
      }
    }
  }

  lemma SectionsInTurn(net: Network, prf: Profile, fwd: bool, l: nat, r: nat, offered: iset<Edge>)
    requires NetworkOk(net) && l < |net.ls.parents| && r < |net.routes|
    ensures WellFormed(net.ls) && TimesOk(net.routes[r]) && |net.routes[r].stops| >= 2
    ensures offered + RouteOffers(net, prf, fwd, l, r, 0) == offered
    ensures RouteOffers(net, prf, fwd, l, r, |net.routes[r].stops| - 1) == RouteOffers(net, prf, fwd, l, r, |net.routes[r].stops|)
    ensures if (prf == CarProfile && !net.routes[r].carsAllowed) || (prf == BikeProfile && !net.routes[r].bikesAllowed)
      then offered + RouteOffers(net, prf, fwd, l, r, |net.routes[r].stops|) == offered else Admitted(prf, net.routes[r])
  {
    hide LeastRide;
  }

  /** Both ends of a section are locations, and what it stands for is named by them. */
  lemma EndsOfSection(net: Network, fwd: bool, r: nat, i: nat)
    requires NetworkOk(net) && r < |net.routes| && i + 1 < |net.routes[r].stops|
    ensures NearEnd(fwd, net.routes[r], i) < |net.ls.parents| && FarEnd(fwd, net.routes[r], i) < |net.ls.parents|
    ensures WellFormed(net.ls) && TimesOk(net.routes[r]) && SectionEdge(net, fwd, r, i) ==
      Edge(Root(net.ls, FarEnd(fwd, net.routes[r], i)), LeastRide(net.routes[r], i, |net.routes[r].rows|))
  {
    hide LeastRide, Root;
  }

  lemma StationIndex(net: Network, l: nat)
    requires NetworkOk(net) && l < |net.ls.parents|
    ensures WellFormed(net.ls) && RootIdx(net.ls, l) == Root(net.ls, l)
  {
  }

  lemma NextSection(net: Network, prf: Profile, fwd: bool, l: nat, r: nat, i: nat, offered: iset<Edge>)
    requires NetworkOk(net) && l < |net.ls.parents| && r < |net.routes| && i + 1 < |net.routes[r].stops|
    requires Admitted(prf, net.routes[r])
    ensures var e := SectionEdge(net, fwd, r, i);
      offered + RouteOffers(net, prf, fwd, l, r, i + 1)
      == if NearEnd(fwd, net.routes[r], i) == l && e.target != Root(net.ls, l)
         then offered + RouteOffers(net, prf, fwd, l, r, i) + iset{e}
         else offered + RouteOffers(net, prf, fwd, l, r, i)
  {
    hide SectionEdge, NearEnd, Admitted, Root;
    var e := SectionEdge(net, fwd, r, i);
    assert NearEnd(fwd, net.routes[r], i) == l <==> FromSection(net, prf, fwd, l, e, r, i);
    forall x: Edge
      ensures x in RouteOffers(net, prf, fwd, l, r, i + 1)
         <==> x in RouteOffers(net, prf, fwd, l, r, i)
              || (x == e && NearEnd(fwd, net.routes[r], i) == l && e.target != Root(net.ls, l))
    {
      if x in RouteOffers(net, prf, fwd, l, r, i + 1) {
        var j :| 0 <= j < i + 1 && FromSection(net, prf, fwd, l, x, r, j);
        assert j == i ==> x == e;
      }
    }
  }

  lemma EdgesInTurn(net: Network, prf: Profile, fwd: bool, l: nat, offered: iset<Edge>)
    requires NetworkOk(net) && l < |net.ls.parents|
    ensures |Footpaths(net, prf, fwd)| == |net.ls.parents| == |net.locationRoutes|
    ensures var walks := offered + FootpathOffers(net, prf, fwd, l, |Footpaths(net, prf, fwd)[l]|);
      && walks + RoutesOffers(net, prf, fwd, l, 0) == walks
      && walks + RoutesOffers(net, prf, fwd, l, |net.locationRoutes[l]|) == offered + Offers(net, prf, fwd, l)
  {
    hide FootpathOffers, RouteOffers, Footpaths;
  }

  lemma RouteInTurn(net: Network, prf: Profile, fwd: bool, l: nat, k: nat, walks: iset<Edge>)
    requires NetworkOk(net) && l < |net.ls.parents| == |net.locationRoutes| && k < |net.locationRoutes[l]|
    ensures net.locationRoutes[l][k] < |net.routes|
    ensures walks + RoutesOffers(net, prf, fwd, l, k + 1) == walks + RoutesOffers(net, prf, fwd, l, k)
      + RouteOffers(net, prf, fwd, l, net.locationRoutes[l][k], |net.routes[net.locationRoutes[l][k]].stops|)
  {
    hide RouteOffers;
  }

  /** `add_edges`: everything one location has to offer. */
  method AddEdges(net: Network, prf: Profile, fwd: bool, l: nat, weights0: map<nat, nat>, ghost offered: iset<Edge>)
    returns (weights: map<nat, nat>)
    requires NetworkOk(net) && l < |net.ls.parents| && KeepsLeast(weights0, offered)
    ensures KeepsLeast(weights, offered + Offers(net, prf, fwd, l))
  {
    hide *;
    EdgesInTurn(net, prf, fwd, l, offered);
    weights := AddFootpaths(net, prf, fwd, l, weights0, offered);
    ghost var walks := offered + FootpathOffers(net, prf, fwd, l, |Footpaths(net, prf, fwd)[l]|);
    for k := 0 to |net.locationRoutes[l]|
      invariant KeepsLeast(weights, walks + RoutesOffers(net, prf, fwd, l, k))
    {
      RouteInTurn(net, prf, fwd, l, k, walks);
      weights := AddRoute(net, prf, fwd, l, net.locationRoutes[l][k], weights, walks + RoutesOffers(net, prf, fwd, l, k));
    }
  }

  // ---------- a station and everything below it ----------

  ghost predicate IsBelow(ls: Locations, x: nat, l: nat)
    requires WellFormed(ls) && x < |ls.parents|
  {
    ls.parents[x].Some? && (ls.parents[x].value == l || IsBelow(ls, ls.parents[x].value, l))
  }

  ghost predicate IsBelowChild(ls: Locations, x: nat, l: nat, k: nat)
    requires WellFormed(ls) && x < |ls.parents| && l < |ls.parents|
  {
    exists j :: 0 <= j < k && j < |ls.children[l]| && (x == ls.children[l][j] || IsBelow(ls, x, ls.children[l][j]))
  }

  lemma {:induction false} BelowIsBelowChild(ls: Locations, x: nat, l: nat)
    requires WellFormed(ls) && x < |ls.parents| && l < |ls.parents|
    ensures IsBelow(ls, x, l) <==> IsBelowChild(ls, x, l, |ls.children[l]|)
    decreases x
  {
    if ls.parents[x].Some? && ls.parents[x].value != l {
      BelowIsBelowChild(ls, ls.parents[x].value, l);
    }
  }

  lemma {:induction false} BelowRoot(ls: Locations, x: nat, r: nat)
    requires WellFormed(ls) && x < |ls.parents| && r < |ls.parents| && ls.parents[r] == None
    ensures Root(ls, x) == r <==> x == r || IsBelow(ls, x, r)
  {
    if ls.parents[x].Some? {
      BelowRoot(ls, ls.parents[x].value, r);
    }
  }

  ghost predicate OfferedBelow(net: Network, prf: Profile, fwd: bool, l: nat, e: Edge)
    requires NetworkOk(net) && l < |net.ls.parents|
  {
    exists x: nat :: x < |net.ls.parents| && IsBelow(net.ls, x, l) && e in Offers(net, prf, fwd, x)
  }

  ghost function BelowOffers(net: Network, prf: Profile, fwd: bool, l: nat): iset<Edge>
    requires NetworkOk(net) && l < |net.ls.parents|
  {
    iset e: Edge | OfferedBelow(net, prf, fwd, l, e)
  }

  ghost predicate OfferedBelowChild(net: Network, prf: Profile, fwd: bool, l: nat, k: nat, e: Edge)
    requires NetworkOk(net) && l < |net.ls.parents|
  {
    exists x: nat :: x < |net.ls.parents| && IsBelowChild(net.ls, x, l, k) && e in Offers(net, prf, fwd, x)
  }

  ghost function BelowChildOffers(net: Network, prf: Profile, fwd: bool, l: nat, k: nat): iset<Edge>
    requires NetworkOk(net) && l < |net.ls.parents|
  {
    iset e: Edge | OfferedBelowChild(net, prf, fwd, l, k, e)
  }

  ghost predicate OfferedAt(net: Network, prf: Profile, fwd: bool, i: nat, e: Edge)
    requires NetworkOk(net)
  {
    exists x: nat :: x < |net.ls.parents| && Root(net.ls, x) == i && e in Offers(net, prf, fwd, x)
  }

  /** Everything the locations of station `i` offer. */
  ghost function StationOffers(net: Network, prf: Profile, fwd: bool, i: nat): iset<Edge>
    requires NetworkOk(net)
  {
    iset e: Edge | OfferedAt(net, prf, fwd, i, e)
  }

  lemma NextChildBelow(ls: Locations, x: nat, l: nat, k: nat)
    requires WellFormed(ls) && x < |ls.parents| && l < |ls.parents| && k < |ls.children[l]|
    ensures IsBelowChild(ls, x, l, k + 1)
       <==> IsBelowChild(ls, x, l, k) || x == ls.children[l][k] || IsBelow(ls, x, ls.children[l][k])
  {
    hide IsBelow;
    if IsBelowChild(ls, x, l, k + 1) {
      var j :| 0 <= j < k + 1 && (x == ls.children[l][j] || IsBelow(ls, x, ls.children[l][j]));
      assert j == k || IsBelowChild(ls, x, l, k);
    }
  }

  lemma NextChild(net: Network, prf: Profile, fwd: bool, l: nat, k: nat, offered: iset<Edge>)
    requires NetworkOk(net) && l < |net.ls.parents| && k < |net.ls.children[l]|
    ensures offered + BelowChildOffers(net, prf, fwd, l, k + 1)
         == offered + BelowChildOffers(net, prf, fwd, l, k)
            + Offers(net, prf, fwd, net.ls.children[l][k]) + BelowOffers(net, prf, fwd, net.ls.children[l][k])
  {
    hide Offers, IsBelow, IsBelowChild;
    var c := net.ls.children[l][k];
    forall x: nat | x < |net.ls.parents|
      ensures IsBelowChild(net.ls, x, l, k + 1) <==> IsBelowChild(net.ls, x, l, k) || x == c || IsBelow(net.ls, x, c)
    {
      NextChildBelow(net.ls, x, l, k);
    }
    assert IsBelowChild(net.ls, c, l, k + 1) by { NextChildBelow(net.ls, c, l, k); }
    forall e
      ensures OfferedBelowChild(net, prf, fwd, l, k + 1, e)
         <==> OfferedBelowChild(net, prf, fwd, l, k, e) || e in Offers(net, prf, fwd, c) || OfferedBelow(net, prf, fwd, c, e)
    {
      if OfferedBelowChild(net, prf, fwd, l, k + 1, e) {
        var x: nat :| x < |net.ls.parents| && IsBelowChild(net.ls, x, l, k + 1) && e in Offers(net, prf, fwd, x);
        assert IsBelowChild(net.ls, x, l, k) || x == c || IsBelow(net.ls, x, c);
      }
    }
  }

  lemma AllChildren(net: Network, prf: Profile, fwd: bool, l: nat)
    requires NetworkOk(net) && l < |net.ls.parents|
    ensures BelowChildOffers(net, prf, fwd, l, |net.ls.children[l]|) == BelowOffers(net, prf, fwd, l)
    ensures BelowChildOffers(net, prf, fwd, l, 0) == iset{}
  {
    hide Offers;
    forall x: nat | x < |net.ls.parents|
      ensures IsBelow(net.ls, x, l) <==> IsBelowChild(net.ls, x, l, |net.ls.children[l]|)
    {
      BelowIsBelowChild(net.ls, x, l);
    }
  }

  lemma WholeStation(net: Network, prf: Profile, fwd: bool, i: nat)
    requires NetworkOk(net) && i < |net.ls.parents| && net.ls.parents[i] == None
    ensures BelowOffers(net, prf, fwd, i) + Offers(net, prf, fwd, i) == StationOffers(net, prf, fwd, i)
  {
    hide Offers, IsBelow, Root;
    forall x: nat | x < |net.ls.parents|
      ensures Root(net.ls, x) == i <==> x == i || IsBelow(net.ls, x, i)
    {
      BelowRoot(net.ls, x, i);
    }
  }

  /** `add_descendants`: the edges of all children, each with its own subtree. */
  method AddDescendants(net: Network, prf: Profile, fwd: bool, l: nat, weights0: map<nat, nat>, ghost offered: iset<Edge>)
    returns (weights: map<nat, nat>)
    requires NetworkOk(net) && l < |net.ls.parents| && KeepsLeast(weights0, offered)
    ensures KeepsLeast(weights, offered + BelowOffers(net, prf, fwd, l))
    decreases |net.ls.parents| - l
  {
    hide KeepsLeast, Offers, BelowOffers, BelowChildOffers;
    weights := weights0;
    AllChildren(net, prf, fwd, l);
    assert offered + iset{} == offered;
    for k := 0 to |net.ls.children[l]|
      invariant KeepsLeast(weights, offered + BelowChildOffers(net, prf, fwd, l, k))
    {
      var c := net.ls.children[l][k];
      NextChild(net, prf, fwd, l, k, offered);
      ghost var before := offered + BelowChildOffers(net, prf, fwd, l, k);
      weights := AddEdges(net, prf, fwd, c, weights, before);
      weights := AddDescendants(net, prf, fwd, c, weights, before + Offers(net, prf, fwd, c));
    }
  }

  // ---------- the graph ----------

  function Clamp(d: nat): nat { Min(d, MAX_EDGE_DURATION) }

  /** An edge of the row leads to `target` in at most `d` minutes. */
  ghost predicate Leads(row: seq<Edge>, target: nat, d: nat) {
    exists k :: 0 <= k < |row| && row[k].target == target && row[k].duration <= d
  }

  /** A row of the graph: one edge per station offered, as short as the shortest
      offer, cut to the bits an edge has. Only roots have edges. */
  ghost predicate IsLbRow(net: Network, prf: Profile, fwd: bool, i: nat, row: seq<Edge>)
    requires NetworkOk(net) && i < |net.ls.parents|
  {
    if net.ls.parents[i].Some? then row == []
    else
      && (forall e :: e in StationOffers(net, prf, fwd, i) ==> Leads(row, e.target, e.duration))
      && (forall k :: 0 <= k < |row| ==> IsClampedOffer(row[k], StationOffers(net, prf, fwd, i)))
      && (forall k, m :: 0 <= k < m < |row| ==> row[k].target != row[m].target)
  }

  ghost predicate IsClampedOffer(edge: Edge, offers: iset<Edge>) {
    exists d :: Edge(edge.target, d) in offers && edge.duration == Clamp(d)
  }

  ghost predicate IsLbGraph(net: Network, prf: Profile, fwd: bool, g: Graph)
    requires NetworkOk(net)
  {
    |g| == |net.ls.parents| && forall i :: 0 <= i < |g| ==> IsLbRow(net, prf, fwd, i, g[i])
  }

  /** The map iteration at the end of a row; its order is not fixed. */
  method EmitRow(weights: map<nat, nat>) returns (row: seq<Edge>)
    ensures forall e :: e in row <==> e.target in weights && e.duration == Clamp(weights[e.target])
    ensures forall k, m :: 0 <= k < m < |row| ==> row[k].target != row[m].target
  {
    row := [];
    var todo := weights.Keys;
    while todo != {}
      invariant todo <= weights.Keys
      invariant forall e :: e in row <==>
        e.target in weights && e.target !in todo && e.duration == Clamp(weights[e.target])
      invariant forall k, m :: 0 <= k < m < |row| ==> row[k].target != row[m].target
      decreases |todo|
    {
      var t :| t in todo;
      assert forall k :: 0 <= k < |row| ==> row[k] in row;
      todo := todo - {t};
      row := row + [Edge(t, Clamp(weights[t]))];
    }
  }

  lemma EmittedRow(weights: map<nat, nat>, offers: iset<Edge>, row: seq<Edge>)
    requires KeepsLeast(weights, offers)
    requires forall e :: e in row <==> e.target in weights && e.duration == Clamp(weights[e.target])
    ensures forall e :: e in offers ==> Leads(row, e.target, e.duration)
    ensures forall k :: 0 <= k < |row| ==> IsClampedOffer(row[k], offers)
  {
    forall e | e in offers ensures Leads(row, e.target, e.duration) {
      var edge := Edge(e.target, Clamp(weights[e.target]));
      assert edge in row;
      var k :| 0 <= k < |row| && row[k] == edge;
    }
    forall k | 0 <= k < |row| ensures IsClampedOffer(row[k], offers) {
      assert row[k] in row;
      assert Edge(row[k].target, weights[row[k].target]) in offers;
    }
  }

  /** `build_lb_graph` */
  method BuildLbGraph(net: Network, prf: Profile, fwd: bool) returns (g: Graph)
    requires NetworkOk(net)
    ensures IsLbGraph(net, prf, fwd, g)
  {
    hide IsLbRow, KeepsLeast, Offers, BelowOffers, StationOffers;
    g := [];
    for i := 0 to |net.ls.parents|
      invariant |g| == i && forall k :: 0 <= k < i ==> IsLbRow(net, prf, fwd, k, g[k])
    {
      var row := BuildRow(net, prf, fwd, i);
      g := g + [row];
    }
  }

  method BuildRow(net: Network, prf: Profile, fwd: bool, i: nat) returns (row: seq<Edge>)
    requires NetworkOk(net) && i < |net.ls.parents|
    ensures IsLbRow(net, prf, fwd, i, row)
  {
    hide Offers, BelowOffers, StationOffers, Leads, IsClampedOffer;
    row := [];
    if net.ls.parents[i].None? {
      var weights: map<nat, nat> := map[];
      weights := AddDescendants(net, prf, fwd, i, weights, iset{});
      assert iset{} + BelowOffers(net, prf, fwd, i) == BelowOffers(net, prf, fwd, i);
      weights := AddEdges(net, prf, fwd, i, weights, BelowOffers(net, prf, fwd, i));
      WholeStation(net, prf, fwd, i);
      row := EmitRow(weights);
      EmittedRow(weights, StationOffers(net, prf, fwd, i), row);
    }
  }

  // ---------- what the graph is good for ----------

  lemma OfferIsCovered(net: Network, prf: Profile, fwd: bool, g: Graph, l: nat, e: Edge)
    requires NetworkOk(net) && IsLbGraph(net, prf, fwd, g) && l < |net.ls.parents|
    requires e in Offers(net, prf, fwd, l)
    ensures Leads(g[Root(net.ls, l)], e.target, e.duration)
  {
    hide Offers;
    assert OfferedAt(net, prf, fwd, Root(net.ls, l), e);
    assert IsLbRow(net, prf, fwd, Root(net.ls, l), g[Root(net.ls, l)]);
    assert Leads(g[Root(net.ls, l)], e.target, e.duration);
  }

  /** A ride between two stations is matched by an edge that is no longer and leads
      against the search direction: back from where a forward search rides to. */
  lemma RideIsCovered(net: Network, prf: Profile, fwd: bool, g: Graph, a: nat, b: nat, d: nat, r: nat, t: nat, i: nat)
    requires NetworkOk(net) && IsLbGraph(net, prf, fwd, g) && IsRide(net, prf, a, b, d, r, t, i)
    requires a < |net.ls.parents| && b < |net.ls.parents| && Root(net.ls, a) != Root(net.ls, b)
    ensures if fwd then Leads(g[Root(net.ls, b)], Root(net.ls, a), d) else Leads(g[Root(net.ls, a)], Root(net.ls, b), d)
  {
    hide IsLbGraph, TimesOk;
    assert TimesOk(net.routes[r]) && RideTime(net.routes[r], t, i) == d;
    hide RideTime;
    var l, e := NearEnd(fwd, net.routes[r], i), SectionEdge(net, fwd, r, i);
    LeastRideIsLeast(net.routes[r], i, |net.routes[r].rows|);
    assert FromSection(net, prf, fwd, l, e, r, i);
    assert e in RouteOffers(net, prf, fwd, l, r, |net.routes[r].stops|);
    var k :| 0 <= k < |net.locationRoutes[l]| && net.locationRoutes[l][k] == r;
    RouteIsOffered(net, prf, fwd, l, k, |net.locationRoutes[l]|, e);
    OfferIsCovered(net, prf, fwd, g, l, e);
  }

  lemma {:induction false} RouteIsOffered(net: Network, prf: Profile, fwd: bool, l: nat, k: nat, n: nat, e: Edge)
    requires NetworkOk(net) && l < |net.ls.parents| && k < n <= |net.locationRoutes[l]|
    requires var r := net.locationRoutes[l][k]; e in RouteOffers(net, prf, fwd, l, r, |net.routes[r].stops|)
    ensures e in RoutesOffers(net, prf, fwd, l, n)
  {
    hide RouteOffers;
    if k < n - 1 {
      RouteIsOffered(net, prf, fwd, l, k, n - 1, e);
    }
  }

  /** So is a footpath between two stations. */
  lemma WalkIsCovered(net: Network, prf: Profile, fwd: bool, g: Graph, a: nat, b: nat, d: nat)
    requires NetworkOk(net) && IsLbGraph(net, prf, fwd, g) && IsWay(net, prf, a, b, d) && Root(net.ls, a) != Root(net.ls, b)
    ensures if fwd then Leads(g[Root(net.ls, b)], Root(net.ls, a), d) else Leads(g[Root(net.ls, a)], Root(net.ls, b), d)
  {
    hide IsLbGraph;
    var l, t := if fwd then b else a, if fwd then a else b;
    assert Transposed(net.footpathsOut[ProfileIndex(prf)], net.footpathsIn[ProfileIndex(prf)]);
    assert Edge(t, d) in Footpaths(net, prf, fwd)[l];
    var j :| 0 <= j < |Footpaths(net, prf, fwd)[l]| && Footpaths(net, prf, fwd)[l][j] == Edge(t, d);
    var e := FootpathEdge(net, prf, fwd, l, j);
    assert FromFootpath(net, prf, fwd, l, e, j);
    OfferIsCovered(net, prf, fwd, g, l, e);
  }

  /** Section `i` of a route open to the profile leads from stop `a` to stop `b` and is
      given `d` minutes: the fastest ride's, or the largest number if there is none. */
  ghost predicate IsFastest(net: Network, prf: Profile, a: nat, b: nat, d: nat, r: nat, i: nat)
    requires NetworkOk(net)
  {
    && r < |net.routes| && i + 1 < |net.routes[r].stops| && a == net.routes[r].stops[i] && b == net.routes[r].stops[i + 1]
    && (prf == CarProfile ==> net.routes[r].carsAllowed) && (prf == BikeProfile ==> net.routes[r].bikesAllowed)
    && (d == MAX_DURATION || exists t :: IsRide(net, prf, a, b, d, r, t, i))
    && forall t, x: nat :: IsRide(net, prf, a, b, x, r, t, i) ==> d <= x
  }

  /** Where an edge comes from: from `a` to `b` there is a footpath of `d` minutes, or a
      section whose fastest ride takes that long. */
  ghost predicate IsConnection(net: Network, prf: Profile, a: nat, b: nat, d: nat)
    requires NetworkOk(net)
  {
    && a < |net.ls.parents| && b < |net.ls.parents|
    && (IsWay(net, prf, a, b, d) || exists r, i :: IsFastest(net, prf, a, b, d, r, i))
  }

  /** Nor are there other edges: each stands for a footpath or a section between its
      stations, against the search direction, with its duration cut to the bits of an
      edge. */
  lemma EdgeIsConnection(net: Network, prf: Profile, fwd: bool, g: Graph, v: nat, k: nat) returns (a: nat, b: nat, d: nat)
    requires NetworkOk(net) && IsLbGraph(net, prf, fwd, g) && v < |g| && k < |g[v]|
    ensures IsConnection(net, prf, a, b, d) && g[v][k].duration == (if d <= MAX_EDGE_DURATION then d else MAX_EDGE_DURATION)
    ensures if fwd then Root(net.ls, b) == v && Root(net.ls, a) == g[v][k].target
            else Root(net.ls, a) == v && Root(net.ls, b) == g[v][k].target
  {
    hide Root, Footpaths, RoutesOffers, FootpathOffers;
    assert IsLbRow(net, prf, fwd, v, g[v]);
    d :| Edge(g[v][k].target, d) in StationOffers(net, prf, fwd, v) && g[v][k].duration == Clamp(d);
    var e := Edge(g[v][k].target, d);
    var l: nat :| l < |net.ls.parents| && Root(net.ls, l) == v && e in Offers(net, prf, fwd, l);
    a, b := OfferIsConnection(net, prf, fwd, l, |net.locationRoutes[l]|, e);
  }

  lemma {:induction false} OfferIsConnection(net: Network, prf: Profile, fwd: bool, l: nat, n: nat, e: Edge) returns (a: nat, b: nat)
    requires NetworkOk(net) && l < |net.ls.parents| && n <= |net.locationRoutes[l]|
    requires e in RoutesOffers(net, prf, fwd, l, n) || e in FootpathOffers(net, prf, fwd, l, |Footpaths(net, prf, fwd)[l]|)
    ensures IsConnection(net, prf, a, b, e.duration)
    ensures if fwd then b == l && Root(net.ls, a) == e.target else a == l && Root(net.ls, b) == e.target
  {
    hide LeastRide, Root, IsFastest;
    if e in FootpathOffers(net, prf, fwd, l, |Footpaths(net, prf, fwd)[l]|) {
      var j :| 0 <= j < |Footpaths(net, prf, fwd)[l]| && FromFootpath(net, prf, fwd, l, e, j);
      var x := Footpaths(net, prf, fwd)[l][j];
      assert Transposed(net.footpathsOut[ProfileIndex(prf)], net.footpathsIn[ProfileIndex(prf)]);
      assert x in Footpaths(net, prf, fwd)[l] && Edge(x.target, x.duration) == x;
      a, b := if fwd then x.target else l, if fwd then l else x.target;
      assert IsWay(net, prf, a, b, e.duration);
    } else if e in RoutesOffers(net, prf, fwd, l, n - 1) {
      a, b := OfferIsConnection(net, prf, fwd, l, n - 1, e);
    } else {
      var r := net.locationRoutes[l][n - 1];
      var i :| 0 <= i < |net.routes[r].stops| && FromSection(net, prf, fwd, l, e, r, i);
      a, b := net.routes[r].stops[i], net.routes[r].stops[i + 1];
      SectionIsFastest(net, prf, r, i);
    }
  }

  lemma SectionIsFastest(net: Network, prf: Profile, r: nat, i: nat)
    requires NetworkOk(net) && r < |net.routes| && i + 1 < |net.routes[r].stops| && Admitted(prf, net.routes[r])
    ensures var route := net.routes[r]; IsFastest(net, prf, route.stops[i], route.stops[i + 1], LeastRide(route, i, |route.rows|), r, i)
  {
    var route := net.routes[r];
    var a, b, d := route.stops[i], route.stops[i + 1], LeastRide(route, i, |route.rows|);
    LeastRideIsLeast(route, i, |route.rows|);
    forall t | 0 <= t < |route.rows| ensures IsRide(net, prf, a, b, RideTime(route, t, i), r, t, i) {
      assert RowOk(route.rows[t], 2 * |route.stops| - 2);
    }
    hide LeastRide, TimesOk;
    if d != MAX_DURATION {
      var t :| 0 <= t < |route.rows| && d == RideTime(route, t, i);
      assert IsRide(net, prf, a, b, d, r, t, i);
    }
    forall t, x: nat | IsRide(net, prf, a, b, x, r, t, i) ensures d <= x {
      assert x == RideTime(route, t, i);
    }
  }

  /** Edges lead from stations to other stations and have the duration bits of an edge. */
  ghost predicate BetweenStations(ls: Locations, g: Graph) {
    forall v, k :: 0 <= v < |g| && 0 <= k < |g[v]| ==>
      && v < |ls.parents| && ls.parents[v] == None
      && g[v][k].target < |ls.parents| && ls.parents[g[v][k].target] == None
      && g[v][k].target != v && g[v][k].duration <= MAX_EDGE_DURATION
  }

  predicate DistinctTargets(row: seq<Edge>) {
    forall k, j :: 0 <= k < j < |row| ==> row[k].target != row[j].target
  }

  lemma LbGraphIsGraph(net: Network, prf: Profile, fwd: bool, g: Graph)
    requires NetworkOk(net) && IsLbGraph(net, prf, fwd, g)
    ensures |g| == |net.ls.parents| && GraphOk(g) && BetweenStations(net.ls, g)
    ensures forall v :: 0 <= v < |g| ==> DistinctTargets(g[v])
  {
    hide Root;
    forall v | 0 <= v < |g| ensures DistinctTargets(g[v]) {
      assert IsLbRow(net, prf, fwd, v, g[v]);
    }
    forall v, k | 0 <= v < |g| && 0 <= k < |g[v]|
      ensures net.ls.parents[v] == None && g[v][k].duration <= MAX_EDGE_DURATION
      ensures g[v][k].target < |g| && net.ls.parents[g[v][k].target] == None && g[v][k].target != v
    {
      assert IsLbRow(net, prf, fwd, v, g[v]);
      var d :| Edge(g[v][k].target, d) in StationOffers(net, prf, fwd, v) && g[v][k].duration == Clamp(d);
      var e := Edge(g[v][k].target, d);
      var x: nat :| x < |net.ls.parents| && Root(net.ls, x) == v && e in Offers(net, prf, fwd, x);
      OfferIsBetweenStations(net, prf, fwd, x, |net.locationRoutes[x]|, e);
    }
  }

  lemma {:induction false} OfferIsBetweenStations(net: Network, prf: Profile, fwd: bool, l: nat, n: nat, e: Edge)
    requires NetworkOk(net) && l < |net.ls.parents| && n <= |net.locationRoutes[l]|
    requires e in RoutesOffers(net, prf, fwd, l, n) || e in FootpathOffers(net, prf, fwd, l, |Footpaths(net, prf, fwd)[l]|)
    ensures e.target < |net.ls.parents| && net.ls.parents[e.target] == None && e.target != Root(net.ls, l)
  {
    hide LeastRide;
    if e in FootpathOffers(net, prf, fwd, l, |Footpaths(net, prf, fwd)[l]|) {
      var j :| 0 <= j < |Footpaths(net, prf, fwd)[l]| && FromFootpath(net, prf, fwd, l, e, j);
    } else if e in RoutesOffers(net, prf, fwd, l, n - 1) {
      OfferIsBetweenStations(net, prf, fwd, l, n - 1, e);
    } else {
      var r := net.locationRoutes[l][n - 1];
      var i :| 0 <= i < |net.routes[r].stops| && FromSection(net, prf, fwd, l, e, r, i);
    }
  }
}
