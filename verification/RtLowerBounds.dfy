/** Real-time additions to the lower-bound graphs of both search directions. */
module RtLowerBounds {
  import opened Basics
  import opened Deltas
  import opened Dijkstra
  import opened Locations
  import opened LowerBoundGraph

  datatype StaticRun = StaticRun(route: nat, transport: nat)

  /** Stops and 16-bit event times (dep, arr, dep, ..) of a real-time transport
      and the scheduled transport it stands for, if any. */
  datatype RtTransport = RtTransport(stops: seq<nat>, times: seq<int>, scheduled: Option<StaticRun>)

  ghost predicate RtOk(net: Network, rt: RtTransport)
    requires NetworkOk(net)
  {
    && |rt.stops| >= 2 && |rt.times| == 2 * |rt.stops| - 2
    && (forall i :: 0 <= i < |rt.stops| ==> rt.stops[i] < |net.ls.parents|)
    && (rt.scheduled.Some? ==>
          && rt.scheduled.value.route < |net.routes|
          && rt.scheduled.value.transport < |net.routes[rt.scheduled.value.route].rows|)
  }

  /** Travel time of segment `i` as a 16-bit duration. */
  function TravelTime(rt: RtTransport, i: nat): int
    requires 2 * i + 1 < |rt.times|
  {
    Wrap16(rt.times[2 * i + 1] - rt.times[2 * i])
  }

  function RtNear(fwd: bool, rt: RtTransport, i: nat): nat
    requires i + 1 < |rt.stops|
  {
    if fwd then rt.stops[i + 1] else rt.stops[i]
  }

  function RtFar(fwd: bool, rt: RtTransport, i: nat): nat
    requires i + 1 < |rt.stops|
  {
    if fwd then rt.stops[i] else rt.stops[i + 1]
  }

  /** Rows collected so far in one direction, with a flag per location. */
  datatype Table = Table(has: seq<bool>, rows: map<nat, seq<Edge>>)

  function RowOf(t: Table, l: nat): seq<Edge> { if l in t.rows then t.rows[l] else [] }

  /** Stored rows belong to flagged locations. */
  ghost predicate Flagged(t: Table, n: nat) {
    |t.has| == n && forall l :: l in t.rows ==> l < n && t.has[l]
  }

  /** Position of the first edge to `target`, or the end. */
  method FindTarget(row: seq<Edge>, target: nat) returns (k: nat)
    ensures k <= |row| && (k < |row| ==> row[k].target == target)
    ensures forall j :: 0 <= j < k ==> row[j].target != target
  {
    k := 0;
    while k < |row| && row[k].target != target
      invariant k <= |row| && forall j :: 0 <= j < k ==> row[j].target != target
    {
      k := k + 1;
    }
  }

  /** Whatever `row` leads to, `row'` leads to just as fast. */
  ghost predicate NoWorse(row: seq<Edge>, row': seq<Edge>) {
    forall target, d :: Leads(row, target, d) ==> Leads(row', target, d)
  }

  ghost predicate Improved(t: Table, t': Table, n: nat) {
    && Flagged(t', n)
    && forall l :: 0 <= l < n ==> NoWorse(RowOf(t, l), RowOf(t', l))
  }

  /** New edges of `t'` are copies of `e` in the row of `src`. */
  ghost predicate OnlyAdds(t: Table, t': Table, src: nat, e: Edge) {
    forall l, x :: x in RowOf(t', l) ==> x in RowOf(t, l) || (l == src && x == e)
  }

  /** The first edge to `target` is edge `k`. */
  ghost predicate IsFirstTo(row: seq<Edge>, target: nat, k: nat) {
    k < |row| && row[k].target == target && forall j :: 0 <= j < k ==> row[j].target != target
  }

  ghost predicate FirstIsAsFast(row: seq<Edge>, target: nat, d: nat) {
    exists k: nat :: IsFirstTo(row, target, k) && row[k].duration <= d
  }

  /** Only the first edge to a target counts: nothing happens if one of the two rows has
      one that is as fast; else the row is longer by one and its first one is as fast. */
  ghost predicate UpdatesFirst(scheduled: seq<Edge>, row: seq<Edge>, row': seq<Edge>, target: nat, d: nat) {
    if FirstIsAsFast(scheduled, target, d) || FirstIsAsFast(row, target, d) then row' == row
    else |row'| == |row| + 1 && forall k: nat :: IsFirstTo(row', target, k) ==> row'[k].duration == d
  }

  /** One direction of `add_lb_edge`. */
  method Update(scheduled: seq<Edge>, t: Table, src: nat, target: nat, travelTime: nat) returns (t': Table)
    requires Flagged(t, |t.has|) && src < |t.has| && travelTime <= MAX_DURATION
    ensures Improved(t, t', |t.has|)
    ensures Leads(scheduled, target, Clamp(travelTime)) || Leads(RowOf(t', src), target, Clamp(travelTime))
    ensures OnlyAdds(t, t', src, Edge(target, Clamp(travelTime)))
    ensures DistinctTargets(scheduled) && Leads(scheduled, target, Clamp(travelTime)) ==> t' == t
    ensures UpdatesFirst(scheduled, RowOf(t, src), RowOf(t', src), target, Clamp(travelTime))
  {
    var fp := Edge(target, Clamp(travelTime));
    t' := t;
    var k := FindTarget(scheduled, target);
    assert k < |scheduled| ==> IsFirstTo(scheduled, target, k);
    if k < |scheduled| && scheduled[k].duration <= fp.duration {
      return;
    }
    var row := RowOf(t, src);
    if !t.has[src] {
      t' := Table(t.has[src := true], t.rows[src := row + [fp]]);
      Appended(row, row, fp);
      return;
    }
    var j := FindTarget(row, target);
    assert j < |row| ==> IsFirstTo(row, target, j);
    if j < |row| && row[j].duration <= fp.duration {
      return;
    }
    var row' := row;
    if j < |row| {
      row' := row[j := Edge(row[j].target, Min(MAX_EDGE_DURATION, travelTime))];
      Shortened(row, j, fp.duration);
    }
    assert IsFirstTo(row' + [fp], target, j);
    t' := t.(rows := t.rows[src := row' + [fp]]);
    Appended(row, row', fp);
  }

  lemma Shortened(row: seq<Edge>, j: nat, d: nat)
    requires j < |row| && d <= row[j].duration
    ensures NoWorse(row, row[j := Edge(row[j].target, d)])
  {
    var row' := row[j := Edge(row[j].target, d)];
    forall target, x | Leads(row, target, x) ensures Leads(row', target, x) {
      var k :| 0 <= k < |row| && row[k].target == target && row[k].duration <= x;
      assert row'[k].target == target && row'[k].duration <= x;
    }
  }

  lemma Appended(row: seq<Edge>, row': seq<Edge>, e: Edge)
    requires NoWorse(row, row')
    ensures NoWorse(row, row' + [e]) && Leads(row' + [e], e.target, e.duration)
  {
    forall target, x | Leads(row, target, x) ensures Leads(row' + [e], target, x) {
      var k :| 0 <= k < |row'| && row'[k].target == target && row'[k].duration <= x;
      assert (row' + [e])[k] == row'[k];
    }
    assert (row' + [e])[|row'|] == e;
  }

  // ---------- all segments ----------

  /** Segment `i` of `rt` counts for the bounds. */
  ghost predicate Counts(net: Network, fwd: bool, rt: RtTransport, i: nat)
    requires NetworkOk(net) && RtOk(net, rt) && i + 1 < |rt.stops|
  {
    TravelTime(rt, i) >= 0 && Root(net.ls, RtNear(fwd, rt, i)) != Root(net.ls, RtFar(fwd, rt, i))
  }

  /** A scheduled or a real-time edge matches the segment and is no longer. */
  ghost predicate SegmentCovered(net: Network, fwd: bool, g: Graph, t: Table, rt: RtTransport, i: nat)
    requires NetworkOk(net) && RtOk(net, rt) && i + 1 < |rt.stops| && |g| == |net.ls.parents|
  {
    Counts(net, fwd, rt, i) ==>
      var near, far := Root(net.ls, RtNear(fwd, rt, i)), Root(net.ls, RtFar(fwd, rt, i));
      Leads(g[near], far, TravelTime(rt, i)) || Leads(RowOf(t, near), far, TravelTime(rt, i))
  }

  /** Covered: all segments of the first `a` transports and `b` of the next one. */
  ghost predicate CoveredUpTo(net: Network, fwd: bool, g: Graph, t: Table, rts: seq<RtTransport>, a: nat, b: nat)
    requires NetworkOk(net) && |g| == |net.ls.parents| && forall k :: 0 <= k < |rts| ==> RtOk(net, rts[k])
  {
    forall k, i :: 0 <= k < |rts| && 0 <= i && i + 1 < |rts[k].stops| && (k < a || (k == a && i < b)) ==>
      SegmentCovered(net, fwd, g, t, rts[k], i)
  }

  ghost predicate IsSegmentEdge(net: Network, fwd: bool, rts: seq<RtTransport>, l: nat, e: Edge, k: nat, i: nat)
    requires NetworkOk(net) && forall j :: 0 <= j < |rts| ==> RtOk(net, rts[j])
  {
    && k < |rts| && i + 1 < |rts[k].stops| && Counts(net, fwd, rts[k], i)
    && l == Root(net.ls, RtNear(fwd, rts[k], i))
    && e == Edge(Root(net.ls, RtFar(fwd, rts[k], i)), Clamp(TravelTime(rts[k], i)))
  }

  /** Every stored edge is the travel time of some segment between its stations. */
  ghost predicate FromSegments(net: Network, fwd: bool, t: Table, rts: seq<RtTransport>)
    requires NetworkOk(net) && forall k :: 0 <= k < |rts| ==> RtOk(net, rts[k])
  {
    forall l, e :: e in RowOf(t, l) ==> exists k, i :: IsSegmentEdge(net, fwd, rts, l, e, k, i)
  }

  /** No stored edge leads where the scheduled row leads just as fast. */
  ghost predicate Needed(g: Graph, t: Table) {
    forall l, e :: 0 <= l < |g| && e in RowOf(t, l) ==> !Leads(g[l], e.target, e.duration)
  }

  /** What holds in one direction while segments are processed. */
  ghost predicate Progress(net: Network, fwd: bool, g: Graph, t: Table, rts: seq<RtTransport>, a: nat, b: nat)
    requires NetworkOk(net) && |g| == |net.ls.parents| && forall k :: 0 <= k < |rts| ==> RtOk(net, rts[k])
  {
    && Flagged(t, |net.ls.parents|)
    && CoveredUpTo(net, fwd, g, t, rts, a, b)
    && FromSegments(net, fwd, t, rts)
    && Needed(g, t)
  }

  lemma ProgressSkips(net: Network, fwd: bool, g: Graph, t: Table, rts: seq<RtTransport>, a: nat, b: nat)
    requires NetworkOk(net) && |g| == |net.ls.parents| && forall k :: 0 <= k < |rts| ==> RtOk(net, rts[k])
    requires Progress(net, fwd, g, t, rts, a, b) && a < |rts| && b + 1 < |rts[a].stops|
    requires SegmentCovered(net, fwd, g, t, rts[a], b)
    ensures Progress(net, fwd, g, t, rts, a, b + 1)
  {
  }

  lemma ProgressStep(net: Network, fwd: bool, g: Graph, t: Table, t': Table, rts: seq<RtTransport>, a: nat, b: nat)
    requires NetworkOk(net) && |g| == |net.ls.parents| && forall k :: 0 <= k < |rts| ==> RtOk(net, rts[k])
    requires Progress(net, fwd, g, t, rts, a, b) && a < |rts| && b + 1 < |rts[a].stops| && Counts(net, fwd, rts[a], b)
    requires var near, far := Root(net.ls, RtNear(fwd, rts[a], b)), Root(net.ls, RtFar(fwd, rts[a], b));
      var d := TravelTime(rts[a], b);
      && Improved(t, t', |net.ls.parents|)
      && (Leads(g[near], far, Clamp(d)) || Leads(RowOf(t', near), far, Clamp(d)))
      && OnlyAdds(t, t', near, Edge(far, Clamp(d)))
      && (Leads(g[near], far, Clamp(d)) ==> t' == t)
    ensures Progress(net, fwd, g, t', rts, a, b + 1)
  {
    forall k, i | 0 <= k < |rts| && 0 <= i && i + 1 < |rts[k].stops| && (k < a || (k == a && i < b + 1))
      ensures SegmentCovered(net, fwd, g, t', rts[k], i)
    {
      hide Root, TravelTime;
      if k < a || i < b {
        assert SegmentCovered(net, fwd, g, t, rts[k], i);
        assert Counts(net, fwd, rts[k], i) ==>
          NoWorse(RowOf(t, Root(net.ls, RtNear(fwd, rts[k], i))), RowOf(t', Root(net.ls, RtNear(fwd, rts[k], i))));
      }
    }
    SegmentsGrow(net, fwd, t, t', rts, a, b);
    StaysNeeded(g, t, t', Root(net.ls, RtNear(fwd, rts[a], b)),
                Edge(Root(net.ls, RtFar(fwd, rts[a], b)), Clamp(TravelTime(rts[a], b))));
  }

  lemma StaysNeeded(g: Graph, t: Table, t': Table, src: nat, e: Edge)
    requires Needed(g, t) && OnlyAdds(t, t', src, e) && src < |g|
    requires Leads(g[src], e.target, e.duration) ==> t' == t
    ensures Needed(g, t')
  {
    hide Leads;
  }

  lemma SegmentsGrow(net: Network, fwd: bool, t: Table, t': Table, rts: seq<RtTransport>, a: nat, b: nat)
    requires NetworkOk(net) && forall k :: 0 <= k < |rts| ==> RtOk(net, rts[k])
    requires FromSegments(net, fwd, t, rts) && a < |rts| && b + 1 < |rts[a].stops| && Counts(net, fwd, rts[a], b)
    requires OnlyAdds(t, t', Root(net.ls, RtNear(fwd, rts[a], b)),
                      Edge(Root(net.ls, RtFar(fwd, rts[a], b)), Clamp(TravelTime(rts[a], b))))
    ensures FromSegments(net, fwd, t', rts)
  {
    hide Root, TravelTime, Clamp;
    forall l, e | e in RowOf(t', l) ensures exists k, i :: IsSegmentEdge(net, fwd, rts, l, e, k, i) {
      if e !in RowOf(t, l) {
        assert IsSegmentEdge(net, fwd, rts, l, e, a, b);
      }
    }
  }

  /** The scheduled transport runs between the same stops at least as fast. */
  ghost predicate NotFaster(net: Network, rt: RtTransport, i: nat)
    requires NetworkOk(net) && RtOk(net, rt) && i + 1 < |rt.stops|
  {
    && rt.scheduled.Some?
    && var r := net.routes[rt.scheduled.value.route];
       && |r.stops| == |rt.stops| && r.stops[i] == rt.stops[i] && r.stops[i + 1] == rt.stops[i + 1]
       && TravelTime(rt, i) >= RideTime(r, rt.scheduled.value.transport, i)
  }

  /** A segment no faster than the scheduled one between the same stops is matched
      by the scheduled graph already. */
  lemma SlowSegmentIsCovered(net: Network, fwd: bool, g: Graph, t: Table, rt: RtTransport, i: nat)
    requires NetworkOk(net) && RtOk(net, rt) && IsLbGraph(net, DefaultProfile, fwd, g)
    requires i + 1 < |rt.stops| && NotFaster(net, rt, i)
    ensures SegmentCovered(net, fwd, g, t, rt, i)
  {
    hide IsLbGraph, Root, RideTime, TravelTime;
    if Counts(net, fwd, rt, i) {
      var r := net.routes[rt.scheduled.value.route];
      RideTimeIsRide(net, rt.scheduled.value.route, rt.scheduled.value.transport, i);
      RideIsCovered(net, DefaultProfile, fwd, g, r.stops[i], r.stops[i + 1], RideTime(r, rt.scheduled.value.transport, i),
                    rt.scheduled.value.route, rt.scheduled.value.transport, i);
    }
  }

  lemma RideTimeIsRide(net: Network, r: nat, t: nat, i: nat)
    requires NetworkOk(net) && r < |net.routes| && t < |net.routes[r].rows| && i + 1 < |net.routes[r].stops|
    ensures var route := net.routes[r]; IsRide(net, DefaultProfile, route.stops[i], route.stops[i + 1], RideTime(route, t, i), r, t, i)
  {
    assert RowOk(net.routes[r].rows[t], 2 * |net.routes[r].stops| - 2);
  }

  method IsNotFaster(net: Network, rt: RtTransport, i: nat) returns (skip: bool)
    requires NetworkOk(net) && RtOk(net, rt) && i + 1 < |rt.stops|
    ensures skip <==> NotFaster(net, rt, i)
  {
    skip := false;
    if rt.scheduled.Some? {
      var r := net.routes[rt.scheduled.value.route];
      var row := r.rows[rt.scheduled.value.transport];
      if |r.stops| == |rt.stops| && r.stops[i] == rt.stops[i] && r.stops[i + 1] == rt.stops[i + 1] {
        RideMinutes(r, rt.scheduled.value.transport, i);
        skip := TravelTime(rt, i) >= Minutes(Minus(row[(i + 1) * 2 - 1], row[i * 2]));
      }
    }
  }

  class RtBounds {
    var fwdHas: seq<bool>
    var bwdHas: seq<bool>
    var fwdGraph: Graph
    var bwdGraph: Graph

    constructor (n: nat)
      ensures fwdHas == bwdHas == seq(n, _ => false) && fwdGraph == bwdGraph == seq(n, _ => [])
    {
      fwdHas, bwdHas := seq(n, _ => false), seq(n, _ => false);
      fwdGraph, bwdGraph := seq(n, _ => []), seq(n, _ => []);
    }

    /** `update_lbs`: afterwards every segment that counts is covered in both search
        directions, and every real-time edge is the time of some segment. */
    method UpdateLbs(net: Network, fwdLbs: Graph, bwdLbs: Graph, rts: seq<RtTransport>)
      requires NetworkOk(net) && forall k :: 0 <= k < |rts| ==> RtOk(net, rts[k])
      requires IsLbGraph(net, DefaultProfile, true, fwdLbs) && IsLbGraph(net, DefaultProfile, false, bwdLbs)
      requires |fwdHas| == |bwdHas| == |net.ls.parents|
      modifies this
      ensures BoundsFor(net, true, fwdLbs, rts, Overlay(fwdHas, fwdGraph))
      ensures BoundsFor(net, false, bwdLbs, rts, Overlay(bwdHas, bwdGraph))
    {
      hide Progress, IsLbGraph, RtOk, Counts;
      var fwdT, bwdT := Table(fwdHas, map[]), Table(bwdHas, map[]);
      GraphSizes(net, fwdLbs, bwdLbs);
      ProgressAtStart(net, true, fwdLbs, fwdT, rts);
      ProgressAtStart(net, false, bwdLbs, bwdT, rts);
      for k := 0 to |rts|
        invariant Progress(net, true, fwdLbs, fwdT, rts, k, 0)
        invariant Progress(net, false, bwdLbs, bwdT, rts, k, 0)
      {
        fwdT, bwdT := AddTransport(net, fwdLbs, bwdLbs, rts, k, fwdT, bwdT);
      }
      fwdHas, bwdHas := fwdT.has, bwdT.has;
      fwdGraph := CopyRows(fwdT.rows, |net.ls.parents|);
      bwdGraph := CopyRows(bwdT.rows, |net.ls.parents|);
      ProgressIsBounds(net, true, fwdLbs, fwdT, rts, fwdGraph);
      ProgressIsBounds(net, false, bwdLbs, bwdT, rts, bwdGraph);
    }
  }

  method CopyRows(rows: map<nat, seq<Edge>>, n: nat) returns (g: Graph)
    ensures |g| == n && forall l :: 0 <= l < n ==> g[l] == if l in rows then rows[l] else []
  {
    g := [];
    for l := 0 to n
      invariant |g| == l && forall k :: 0 <= k < l ==> g[k] == if k in rows then rows[k] else []
    {
      g := g + [if l in rows then rows[l] else []];
    }
  }

  /** The overlay for one search direction does its job: every segment that counts
      has an edge in the union of both graphs that is no longer, and every edge of
      the overlay comes from such a segment and is shorter than any scheduled one. */
  ghost predicate BoundsFor(net: Network, fwd: bool, g: Graph, rts: seq<RtTransport>, o: Overlay)
    requires NetworkOk(net) && forall k :: 0 <= k < |rts| ==> RtOk(net, rts[k])
  {
    && |g| == |net.ls.parents| && OverlayOk(o, |g|) && o.Overlay?
    && (forall k, i :: 0 <= k < |rts| && 0 <= i && i + 1 < |rts[k].stops| && Counts(net, fwd, rts[k], i) ==>
          Leads(EdgesOf(g, o, Root(net.ls, RtNear(fwd, rts[k], i))), Root(net.ls, RtFar(fwd, rts[k], i)), TravelTime(rts[k], i)))
    && (forall l, e :: 0 <= l < |g| && e in o.rt[l] ==>
          !Leads(g[l], e.target, e.duration) && exists k, i :: IsSegmentEdge(net, fwd, rts, l, e, k, i))
  }

  lemma GraphSizes(net: Network, f: Graph, b: Graph)
    requires NetworkOk(net) && IsLbGraph(net, DefaultProfile, true, f) && IsLbGraph(net, DefaultProfile, false, b)
    ensures |f| == |b| == |net.ls.parents|
  {
  }

  lemma ProgressAtStart(net: Network, fwd: bool, g: Graph, t: Table, rts: seq<RtTransport>)
    requires NetworkOk(net) && |g| == |net.ls.parents| && forall k :: 0 <= k < |rts| ==> RtOk(net, rts[k])
    requires t.rows == map[] && |t.has| == |g|
    ensures Progress(net, fwd, g, t, rts, 0, 0)
  {
  }

  lemma TransportDone(net: Network, fwd: bool, g: Graph, t: Table, rts: seq<RtTransport>, k: nat, b: nat)
    requires NetworkOk(net) && |g| == |net.ls.parents| && forall j :: 0 <= j < |rts| ==> RtOk(net, rts[j])
    requires k < |rts| && b + 1 == |rts[k].stops| && Progress(net, fwd, g, t, rts, k, b)
    ensures Progress(net, fwd, g, t, rts, k + 1, 0)
  {
  }

  lemma LeadsInUnion(g: Graph, o: Overlay, l: nat, target: nat, d: nat)
    requires l < |g| && OverlayOk(o, |g|) && o.Overlay?
    requires Leads(g[l], target, d) || (o.hasRt[l] && Leads(o.rt[l], target, d))
    ensures Leads(EdgesOf(g, o, l), target, d)
  {
    if Leads(g[l], target, d) {
      var k :| 0 <= k < |g[l]| && g[l][k].target == target && g[l][k].duration <= d;
      assert EdgesOf(g, o, l)[k] == g[l][k];
    } else {
      var k :| 0 <= k < |o.rt[l]| && o.rt[l][k].target == target && o.rt[l][k].duration <= d;
      assert EdgesOf(g, o, l)[|g[l]| + k] == o.rt[l][k];
    }
  }

  lemma ProgressIsBounds(net: Network, fwd: bool, g: Graph, t: Table, rts: seq<RtTransport>, rows: Graph)
    requires NetworkOk(net) && |g| == |net.ls.parents| && forall k :: 0 <= k < |rts| ==> RtOk(net, rts[k])
    requires Progress(net, fwd, g, t, rts, |rts|, 0)
    requires |rows| == |g| && forall l :: 0 <= l < |g| ==> rows[l] == RowOf(t, l)
    ensures BoundsFor(net, fwd, g, rts, Overlay(t.has, rows))
  {
    hide Root, TravelTime, EdgesOf;
    var o := Overlay(t.has, rows);
    forall l, j | 0 <= l < |rows| && 0 <= j < |rows[l]| ensures rows[l][j].target < |rows| {
      assert rows[l][j] in RowOf(t, l);
      var k, i :| IsSegmentEdge(net, fwd, rts, l, rows[l][j], k, i);
    }
    forall k, i | 0 <= k < |rts| && 0 <= i && i + 1 < |rts[k].stops| && Counts(net, fwd, rts[k], i)
      ensures Leads(EdgesOf(g, o, Root(net.ls, RtNear(fwd, rts[k], i))), Root(net.ls, RtFar(fwd, rts[k], i)), TravelTime(rts[k], i))
    {
      assert SegmentCovered(net, fwd, g, t, rts[k], i);
      LeadsInUnion(g, o, Root(net.ls, RtNear(fwd, rts[k], i)), Root(net.ls, RtFar(fwd, rts[k], i)), TravelTime(rts[k], i));
    }
  }

  /** The segments of one transport, with `add_lb_edge` for those that may be faster. */
  method AddTransport(net: Network, fwdLbs: Graph, bwdLbs: Graph, rts: seq<RtTransport>, k: nat,
                      fwdT0: Table, bwdT0: Table) returns (fwdT: Table, bwdT: Table)
    requires NetworkOk(net) && forall j :: 0 <= j < |rts| ==> RtOk(net, rts[j])
    requires IsLbGraph(net, DefaultProfile, true, fwdLbs) && IsLbGraph(net, DefaultProfile, false, bwdLbs)
    requires |fwdLbs| == |bwdLbs| == |net.ls.parents| && k < |rts|
    requires Progress(net, true, fwdLbs, fwdT0, rts, k, 0) && Progress(net, false, bwdLbs, bwdT0, rts, k, 0)
    ensures Progress(net, true, fwdLbs, fwdT, rts, k + 1, 0) && Progress(net, false, bwdLbs, bwdT, rts, k + 1, 0)
  {
    hide IsLbGraph, CoveredUpTo, FromSegments, Improved, OnlyAdds, Leads;
    LbGraphIsGraph(net, DefaultProfile, true, fwdLbs);
    LbGraphIsGraph(net, DefaultProfile, false, bwdLbs);
    fwdT, bwdT := fwdT0, bwdT0;
    var rt := rts[k];
    var nSegments := |rt.times| / 2;
    for i := 0 to nSegments
      invariant Progress(net, true, fwdLbs, fwdT, rts, k, i) && Progress(net, false, bwdLbs, bwdT, rts, k, i)
    {
      hide Progress;
      var skip := IsNotFaster(net, rt, i);
      if TravelTime(rt, i) < 0 || skip {
        if skip {
          SlowSegmentIsCovered(net, true, fwdLbs, fwdT, rt, i);
          SlowSegmentIsCovered(net, false, bwdLbs, bwdT, rt, i);
        }
        ProgressSkips(net, true, fwdLbs, fwdT, rts, k, i);
        ProgressSkips(net, false, bwdLbs, bwdT, rts, k, i);
      } else {
        fwdT, bwdT := AddLbEdge(net, fwdLbs, bwdLbs, rts, k, i, fwdT, bwdT);
      }
    }
    TransportDone(net, true, fwdLbs, fwdT, rts, k, nSegments);
    TransportDone(net, false, bwdLbs, bwdT, rts, k, nSegments);
  }

  method AddLbEdge(net: Network, fwdLbs: Graph, bwdLbs: Graph, rts: seq<RtTransport>, k: nat, i: nat,
                   fwdT0: Table, bwdT0: Table) returns (fwdT: Table, bwdT: Table)
    requires NetworkOk(net) && forall j :: 0 <= j < |rts| ==> RtOk(net, rts[j])
    requires |fwdLbs| == |bwdLbs| == |net.ls.parents| && k < |rts| && i + 1 < |rts[k].stops|
    requires assert RtOk(net, rts[k]); TravelTime(rts[k], i) >= 0
    requires forall l :: 0 <= l < |net.ls.parents| ==> DistinctTargets(fwdLbs[l]) && DistinctTargets(bwdLbs[l])
    requires Progress(net, true, fwdLbs, fwdT0, rts, k, i) && Progress(net, false, bwdLbs, bwdT0, rts, k, i)
    ensures Progress(net, true, fwdLbs, fwdT, rts, k, i + 1) && Progress(net, false, bwdLbs, bwdT, rts, k, i + 1)
  {
    hide CoveredUpTo, FromSegments, Improved, OnlyAdds, Leads, Clamp;
    fwdT, bwdT := fwdT0, bwdT0;
    var from := GetRootIdx(net.ls, rts[k].stops[i]);
    var to := GetRootIdx(net.ls, rts[k].stops[i + 1]);
    if from == to {
      ProgressSkips(net, true, fwdLbs, fwdT, rts, k, i);
      ProgressSkips(net, false, bwdLbs, bwdT, rts, k, i);
      return;
    }
    fwdT := Update(fwdLbs[to], fwdT0, to, from, TravelTime(rts[k], i));
    bwdT := Update(bwdLbs[from], bwdT0, from, to, TravelTime(rts[k], i));
    ProgressStep(net, true, fwdLbs, fwdT0, fwdT, rts, k, i);
    ProgressStep(net, false, bwdLbs, bwdT0, bwdT, rts, k, i);
  }
}
