/** Which pairs of routes are compared, and the whole of `merge_duplicates`. */
module MergeDuplicates {
  import opened Basics
  import opened TransportMerging

  /** A route as the search for duplicates sees it: the root stations of its stops,
      its source, its flags, its class and its transports. */
  datatype RouteInfo = RouteInfo(roots: seq<nat>, source: nat, flags: seq<bool>, clasz: nat, transports: Route)

  /** Neighbours of a root station, ascending; thresholds in minutes per class. */
  datatype Setup = Setup(routes: seq<RouteInfo>, neighbours: seq<seq<nat>>, thresholds: seq<int>,
                         intraSource: bool, interSource: bool)

  ghost predicate AscendingRow(s: seq<nat>) {
    forall i, j :: 0 <= i < j < |s| ==> s[i] < s[j]
  }

  ghost predicate SetupOk(s: Setup) {
    && (forall r :: 0 <= r < |s.routes| ==> s.routes[r].roots != [] && s.routes[r].clasz < |s.thresholds|)
    && (forall r :: 0 <= r < |s.routes| ==> forall x :: x in s.routes[r].roots ==> x < |s.neighbours|)
    && (forall l :: 0 <= l < |s.neighbours| ==> AscendingRow(s.neighbours[l]))
    && (forall l: nat, m: nat :: Neighbours(s, l, m) ==> l != m && Neighbours(s, m, l))
  }

  ghost predicate Neighbours(s: Setup, l: nat, m: nat) {
    l < |s.neighbours| && m in s.neighbours[l]
  }

  function Root(s: Setup, r: nat): nat
    requires r < |s.routes| && s.routes[r].roots != []
  {
    s.routes[r].roots[0]
  }

  /** Stop for stop the same root station or a neighbouring one. */
  ghost predicate SequencesMatch(s: Setup, a: nat, b: nat)
    requires a < |s.routes| && b < |s.routes|
  {
    var x, y := s.routes[a].roots, s.routes[b].roots;
    |x| == |y| && forall i :: 0 <= i < |x| ==> x[i] == y[i] || Neighbours(s, x[i], y[i])
  }

  /** Two routes may be merged: the options allow it for their sources, routes of one
      source agree in their flags, and the stops match. */
  ghost predicate Mergeable(s: Setup, a: nat, b: nat)
    requires a < |s.routes| && b < |s.routes|
  {
    var x, y := s.routes[a], s.routes[b];
    && (if x.source == y.source then s.intraSource && x.flags == y.flags else s.interSource)
    && SequencesMatch(s, a, b)
  }

  lemma MergeableIsSymmetric(s: Setup, a: nat, b: nat)
    requires SetupOk(s) && a < |s.routes| && b < |s.routes|
    ensures Mergeable(s, a, b) <==> Mergeable(s, b, a)
  {
  }

  /** The first stops are at the same root, in index order, or at neighbouring ones,
      in root order. */
  ghost predicate InOrder(s: Setup, a: nat, b: nat)
    requires SetupOk(s) && a < |s.routes| && b < |s.routes|
  {
    if Root(s, a) == Root(s, b) then a <= b else Root(s, a) < Root(s, b) && Neighbours(s, Root(s, a), Root(s, b))
  }

  /** Exactly these pairs are compared. */
  ghost predicate Visited(s: Setup, a: nat, b: nat)
    requires SetupOk(s)
  {
    a < |s.routes| && b < |s.routes| && InOrder(s, a, b) && Mergeable(s, a, b)
  }

  /** Every mergeable pair is visited in exactly one of its two orders. */
  lemma VisitedOnce(s: Setup, a: nat, b: nat)
    requires SetupOk(s) && a < |s.routes| && b < |s.routes|
    ensures Visited(s, a, b) || Visited(s, b, a) <==> Mergeable(s, a, b)
    ensures Visited(s, a, b) && Visited(s, b, a) ==> a == b
  {
    MergeableIsSymmetric(s, a, b);
    if Mergeable(s, a, b) {
      assert s.routes[a].roots[0] == s.routes[b].roots[0] || Neighbours(s, Root(s, a), Root(s, b));
    }
  }

  // ---------- the routes by root ----------

  /** Order of the route list: root, number of stops, index. */
  predicate Less(s: Setup, a: nat, b: nat)
    requires a < |s.routes| && b < |s.routes| && s.routes[a].roots != [] && s.routes[b].roots != []
  {
    var x, y := Root(s, a), Root(s, b);
    var m, n := |s.routes[a].roots|, |s.routes[b].roots|;
    x < y || (x == y && (m < n || (m == n && a < b)))
  }

  /** The first `n` routes in that order. */
  ghost predicate IsRouteList(s: Setup, starts: seq<nat>, n: nat)
    requires SetupOk(s) && n <= |s.routes|
  {
    && (forall a: nat :: a in starts <==> a < n)
    && (forall i, j :: 0 <= i < j < |starts| ==> starts[i] in starts && starts[j] in starts && Less(s, starts[i], starts[j]))
  }

  method RouteStarts(s: Setup) returns (starts: seq<nat>)
    requires SetupOk(s)
    ensures IsRouteList(s, starts, |s.routes|)
  {
    starts := [];
    for r := 0 to |s.routes|
      invariant IsRouteList(s, starts, r)
    {
      var p := 0;
      while p < |starts| && ListedLess(s, starts, p, r)
        invariant p <= |starts| && forall k :: 0 <= k < p ==> starts[k] < r && Less(s, starts[k], r)
      {
        assert starts[p] in starts;
        p := p + 1;
      }
      Inserted(s, starts, r, p);
      starts := starts[..p] + [r] + starts[p..];
    }
  }

  predicate ListedLess(s: Setup, starts: seq<nat>, p: nat, r: nat)
    requires p < |starts| && r < |s.routes| && s.routes[r].roots != []
  {
    starts[p] < |s.routes| && s.routes[starts[p]].roots != [] && Less(s, starts[p], r)
  }

  lemma Inserted(s: Setup, starts: seq<nat>, r: nat, p: nat)
    requires SetupOk(s) && r < |s.routes| && IsRouteList(s, starts, r) && p <= |starts|
    requires forall k :: 0 <= k < p ==> starts[k] < r && Less(s, starts[k], r)
    requires p < |starts| ==> !ListedLess(s, starts, p, r)
    ensures IsRouteList(s, starts[..p] + [r] + starts[p..], r + 1)
  {
    var t := starts[..p] + [r] + starts[p..];
    InsertedMembers(starts, r, p);
    forall i, j | 0 <= i < j < |t| ensures t[i] in t && t[j] in t && Less(s, t[i], t[j]) {
      assert t[i] in t && t[j] in t;
      InsertedInOrder(s, starts, r, p, i, j);
    }
  }

  lemma InsertedMembers(starts: seq<nat>, r: nat, p: nat)
    requires p <= |starts|
    ensures forall a: nat :: a in starts[..p] + [r] + starts[p..] <==> a in starts || a == r
  {
    var t := starts[..p] + [r] + starts[p..];
    forall a: nat ensures a in t <==> a in starts || a == r {
      assert starts == starts[..p] + starts[p..];
      assert a in starts <==> a in starts[..p] || a in starts[p..];
    }
  }

  lemma InsertedInOrder(s: Setup, starts: seq<nat>, r: nat, p: nat, i: nat, j: nat)
    requires SetupOk(s) && r < |s.routes| && IsRouteList(s, starts, r) && p <= |starts| && i < j < |starts| + 1
    requires forall k :: 0 <= k < p ==> starts[k] < r && Less(s, starts[k], r)
    requires p < |starts| ==> !ListedLess(s, starts, p, r)
    ensures var t := starts[..p] + [r] + starts[p..];
      t[i] < |s.routes| && t[j] < |s.routes| && Less(s, t[i], t[j])
  {
    if i == p {
      assert starts[p] in starts && starts[j - 1] in starts;
      assert j - 1 > p ==> Less(s, starts[p], starts[j - 1]);
    } else if j == p {
      assert Less(s, starts[i], r);
    } else {
      var i', j' := if i < p then i else i - 1, if j < p then j else j - 1;
      assert starts[i'] in starts && starts[j'] in starts && Less(s, starts[i'], starts[j']);
    }
  }

  /** The distinct roots of a route list. */
  method CollectRoots(s: Setup, starts: seq<nat>) returns (roots: seq<nat>)
    requires SetupOk(s) && IsRouteList(s, starts, |s.routes|)
    ensures AscendingRow(roots) && forall x :: x in roots ==> x < |s.neighbours|
    ensures forall a: nat :: a < |s.routes| ==> Root(s, a) in roots
  {
    roots := [];
    for i := 0 to |starts|
      invariant AscendingRow(roots) && forall x :: x in roots ==> x < |s.neighbours|
      invariant forall k :: 0 <= k < i ==> starts[k] in starts && Root(s, starts[k]) in roots
      invariant if i == 0 then roots == [] else starts[i - 1] in starts && roots != [] && roots[|roots| - 1] == Root(s, starts[i - 1])
    {
      assert starts[i] in starts;
      var root := Root(s, starts[i]);
      assert root in s.routes[starts[i]].roots;
      if i == 0 || root != roots[|roots| - 1] {
        assert i > 0 ==> Less(s, starts[i - 1], starts[i]);
        AppendRoot(roots, root);
        roots := roots + [root];
      }
    }
    forall a: nat | a < |s.routes| ensures Root(s, a) in roots {
      assert a in starts;
    }
  }

  lemma AppendRoot(roots: seq<nat>, root: nat)
    requires AscendingRow(roots) && (roots != [] ==> roots[|roots| - 1] < root)
    ensures AscendingRow(roots + [root])
  {
    forall i | 0 <= i < |roots| ensures roots[i] < root {
      assert i < |roots| - 1 ==> roots[i] < roots[|roots| - 1];
    }
  }

  /** The part of the route list with a given root, in order. */
  ghost predicate IsRoutesOf(s: Setup, root: nat, list: seq<nat>)
    requires SetupOk(s)
  {
    && (forall a: nat :: a in list <==> a < |s.routes| && Root(s, a) == root)
    && (forall i, j :: 0 <= i < j < |list| ==> list[i] != list[j])
  }

  method RoutesOf(s: Setup, starts: seq<nat>, root: nat) returns (list: seq<nat>)
    requires SetupOk(s) && IsRouteList(s, starts, |s.routes|)
    ensures IsRoutesOf(s, root, list)
  {
    list := [];
    for i := 0 to |starts|
      invariant forall a: nat :: a in list <==> a in starts[..i] && a < |s.routes| && Root(s, a) == root
      invariant forall k, j :: 0 <= k < j < |list| ==> list[k] != list[j]
    {
      assert starts[i] in starts;
      assert starts[..i + 1] == starts[..i] + [starts[i]];
      if Root(s, starts[i]) == root {
        forall k | 0 <= k < |list| ensures list[k] != starts[i] {
          assert list[k] in list;
          var m :| 0 <= m < i && starts[m] == list[k];
          assert Less(s, starts[m], starts[i]);
        }
        list := list + [starts[i]];
      }
    }
    assert starts[..|starts|] == starts;
  }

  // ---------- comparing and merging ----------

  method SeqMatches(s: Setup, a: nat, b: nat) returns (r: bool)
    requires SetupOk(s) && a < |s.routes| && b < |s.routes| && |s.routes[a].roots| == |s.routes[b].roots|
    ensures r <==> SequencesMatch(s, a, b)
  {
    var x, y := s.routes[a].roots, s.routes[b].roots;
    for i := 0 to |x|
      invariant forall k :: 0 <= k < i ==> x[k] == y[k] || Neighbours(s, x[k], y[k])
    {
      assert x[i] in s.routes[a].roots;
      if x[i] != y[i] && y[i] !in s.neighbours[x[i]] {
        return false;
      }
    }
    r := true;
  }

  method IsMergeable(s: Setup, a: nat, b: nat) returns (r: bool)
    requires SetupOk(s) && a < |s.routes| && b < |s.routes| && |s.routes[a].roots| == |s.routes[b].roots|
    ensures r <==> Mergeable(s, a, b)
  {
    var sameSource := s.routes[a].source == s.routes[b].source;
    if (sameSource && !s.intraSource) || (!sameSource && !s.interSource) {
      return false;
    }
    if sameSource && s.routes[a].flags != s.routes[b].flags {
      return false;
    }
    r := SeqMatches(s, a, b);
  }

  ghost predicate RunsOn(s: Setup, r: nat, t: nat) {
    r < |s.routes| && s.routes[r].transports.Has(t)
  }

  /** The fleet belongs to the routes: routes share no transport, and the first
      departures of each route are sorted. */
  ghost predicate FleetOk(s: Setup, f: Fleet) {
    && |f.times| == |f.before|
    && (forall r :: 0 <= r < |s.routes| ==>
          RouteOk(f, s.routes[r].transports) && DeparturesSorted(f, s.routes[r].transports) &&
          s.routes[r].transports.nStops == |s.routes[r].roots|)
    && (forall q: nat, r: nat, t: nat :: q != r ==> !(RunsOn(s, q, t) && RunsOn(s, r, t)))
  }

  function JobFor(s: Setup, a: nat, b: nat): Job
    requires SetupOk(s) && a < |s.routes| && b < |s.routes|
  {
    var x, y := s.routes[a], s.routes[b];
    Job(x.transports, y.transports, a == b,
        2 * (|x.roots| - 1) * Min(s.thresholds[x.clasz], s.thresholds[y.clasz]))
  }

  ghost predicate PairsOk(s: Setup, pairs: seq<(nat, nat)>)
    requires SetupOk(s)
  {
    && (forall i, j :: 0 <= i < j < |pairs| ==> pairs[i] != pairs[j])
    && (forall p :: p in pairs ==> Visited(s, p.0, p.1))
  }

  ghost function JobsFor(s: Setup, pairs: seq<(nat, nat)>): (jobs: seq<Job>)
    requires SetupOk(s) && PairsOk(s, pairs)
    ensures |jobs| == |pairs|
  {
    seq(|pairs|, i requires 0 <= i < |pairs| => assert pairs[i] in pairs; JobFor(s, pairs[i].0, pairs[i].1))
  }

  lemma JobIsOk(s: Setup, f: Fleet, a: nat, b: nat)
    requires SetupOk(s) && FleetOk(s, f) && Visited(s, a, b)
    ensures JobOk(f, JobFor(s, a, b))
  {
    hide DeparturesSorted, RouteOk;
    var j := JobFor(s, a, b);
    forall t: nat | a != b && j.ra.Has(t) ensures !j.rb.Has(t) {
      assert !(RunsOn(s, a, t) && RunsOn(s, b, t));
    }
  }

  lemma JobsAreOk(s: Setup, f: Fleet, pairs: seq<(nat, nat)>)
    requires SetupOk(s) && FleetOk(s, f) && PairsOk(s, pairs)
    ensures JobsOk(f, JobsFor(s, pairs))
  {
    hide FleetOk, JobFor, JobOk, Visited;
    FleetSizes(s, f);
    forall i | 0 <= i < |pairs| ensures JobOk(f, JobsFor(s, pairs)[i]) {
      assert pairs[i] in pairs;
      JobIsOk(s, f, pairs[i].0, pairs[i].1);
    }
  }

  lemma FleetSizes(s: Setup, f: Fleet)
    requires FleetOk(s, f)
    ensures |f.times| == |f.before|
  {
  }

  /** The days are those after merging the pairs so far. */
  ghost predicate MergedSoFar(s: Setup, f: Fleet, pairs: seq<(nat, nat)>, days: seq<set<nat>>)
    requires SetupOk(s) && FleetOk(s, f)
  {
    PairsOk(s, pairs) && JobsOk(f, JobsFor(s, pairs)) && days == RunJobs(f, JobsFor(s, pairs), |pairs|)
  }

  lemma {:induction false} RunPrefix(f: Fleet, jobs: seq<Job>, more: seq<Job>, n: nat)
    requires JobsOk(f, jobs) && JobsOk(f, more) && n <= |jobs| && jobs <= more
    ensures RunJobs(f, jobs, n) == RunJobs(f, more, n)
  {
    hide AllSteps, JobOk;
    if n > 0 {
      RunPrefix(f, jobs, more, n - 1);
    }
  }

  lemma PairMerged(s: Setup, f: Fleet, pairs: seq<(nat, nat)>, a: nat, b: nat, days: seq<set<nat>>, days': seq<set<nat>>)
    requires SetupOk(s) && FleetOk(s, f) && MergedSoFar(s, f, pairs, days) && Visited(s, a, b) && (a, b) !in pairs
    requires a < |s.routes| && b < |s.routes| && JobOk(f, JobFor(s, a, b)) && |days| == |f.times|
    requires var j := JobFor(s, a, b); days' == AllSteps(f, j.budget, days, j.ra, j.rb, j.same, j.ra.size)
    ensures MergedSoFar(s, f, pairs + [(a, b)], days')
  {
    hide FleetOk, JobFor, JobOk, Visited, AllSteps;
    var more := pairs + [(a, b)];
    assert PairsOk(s, more);
    JobsAreOk(s, f, more);
    assert JobsFor(s, more)[..|pairs|] == JobsFor(s, pairs);
    RunPrefix(f, JobsFor(s, pairs), JobsFor(s, more), |pairs|);
    assert JobsFor(s, more)[|pairs|] == JobFor(s, a, b);
  }

  /** Pair `(a, b)` starts at the given roots. */
  ghost predicate StartsAt(s: Setup, a: nat, b: nat, aRoot: nat, bRoot: nat)
    requires SetupOk(s)
  {
    a < |s.routes| && b < |s.routes| && Root(s, a) == aRoot && Root(s, b) == bRoot
  }

  /** Route `a` against a list of routes. */
  method MergeWithAll(s: Setup, f: Fleet, days: array<set<nat>>, a: nat, list: seq<nat>, aRoot: nat, bRoot: nat,
                      ghost pairs0: seq<(nat, nat)>)
    returns (ghost pairs: seq<(nat, nat)>)
    requires SetupOk(s) && FleetOk(s, f) && days.Length == |f.times|
    requires aRoot == bRoot || (aRoot < bRoot && Neighbours(s, aRoot, bRoot))
    requires IsRoutesOf(s, bRoot, list) && a < |s.routes| && Root(s, a) == aRoot
    requires MergedSoFar(s, f, pairs0, days[..]) && forall b :: b in list ==> (a, b) !in pairs0
    modifies days
    ensures MergedSoFar(s, f, pairs, days[..])
    ensures forall p :: p in pairs <==> p in pairs0 || (p.0 == a && p.1 in list && Visited(s, a, p.1))
  {
    hide FleetOk, MergedSoFar, Mergeable, JobFor, JobOk;
    pairs := pairs0;
    for i := 0 to |list|
      invariant MergedSoFar(s, f, pairs, days[..])
      invariant forall p :: p in pairs <==> p in pairs0 || (p.0 == a && p.1 in list[..i] && Visited(s, a, p.1))
    {
      var b := list[i];
      assert b in list && b !in list[..i] && list[..i + 1] == list[..i] + [b];
      VisitedOnce(s, a, b);
      SameLength(s, a, b);
      if |s.routes[a].roots| != |s.routes[b].roots| || (aRoot == bRoot && b < a) {
        continue;
      }
      var mergeable := IsMergeable(s, a, b);
      if mergeable {
        MergeVisited(s, f, days, a, b, pairs);
        pairs := pairs + [(a, b)];
      }
    }
    assert list[..|list|] == list;
  }

  lemma SameLength(s: Setup, a: nat, b: nat)
    requires a < |s.routes| && b < |s.routes|
    ensures Mergeable(s, a, b) ==> |s.routes[a].roots| == |s.routes[b].roots|
  {
  }

  method MergeVisited(s: Setup, f: Fleet, days: array<set<nat>>, a: nat, b: nat, ghost pairs: seq<(nat, nat)>)
    requires SetupOk(s) && FleetOk(s, f) && days.Length == |f.times| && a < |s.routes| && b < |s.routes|
    requires MergedSoFar(s, f, pairs, days[..]) && Visited(s, a, b) && (a, b) !in pairs
    modifies days
    ensures MergedSoFar(s, f, pairs + [(a, b)], days[..])
  {
    hide FleetOk, MergedSoFar, Visited, PairOk, AllSteps;
    var j := JobFor(s, a, b);
    JobIsOk(s, f, a, b);
    ghost var before := days[..];
    MergeRoutePair(f, days, j.ra, j.rb, j.same, j.budget);
    PairMerged(s, f, pairs, a, b, before, days[..]);
  }

  /** `merge_root_pair`: all pairs with these two roots, if the roots are equal or
      ascending neighbours. */
  method MergeRootPair(s: Setup, f: Fleet, days: array<set<nat>>, starts: seq<nat>, aRoot: nat, bRoot: nat, ghost pairs0: seq<(nat, nat)>)
    returns (ghost pairs: seq<(nat, nat)>)
    requires SetupOk(s) && FleetOk(s, f) && days.Length == |f.times| && IsRouteList(s, starts, |s.routes|)
    requires aRoot == bRoot || (aRoot < bRoot && Neighbours(s, aRoot, bRoot))
    requires MergedSoFar(s, f, pairs0, days[..])
    requires forall p :: p in pairs0 ==> !StartsAt(s, p.0, p.1, aRoot, bRoot)
    modifies days
    ensures MergedSoFar(s, f, pairs, days[..])
    ensures forall p :: p in pairs <==> p in pairs0 || (StartsAt(s, p.0, p.1, aRoot, bRoot) && Visited(s, p.0, p.1))
  {
    hide FleetOk, MergedSoFar, Mergeable, IsRouteList, Neighbours, Visited;
    pairs := pairs0;
    var aRoutes := RoutesOf(s, starts, aRoot);
    var bRoutes := RoutesOf(s, starts, bRoot);
    for i := 0 to |aRoutes|
      invariant MergedSoFar(s, f, pairs, days[..])
      invariant forall p :: p in pairs <==> p in pairs0 || (p.0 in aRoutes[..i] && p.1 in bRoutes && Visited(s, p.0, p.1))
    {
      var a := aRoutes[i];
      assert a in aRoutes;
      assert a !in aRoutes[..i] && aRoutes[..i + 1] == aRoutes[..i] + [a];
      pairs := MergeWithAll(s, f, days, a, bRoutes, aRoot, bRoot, pairs);
    }
    assert aRoutes[..|aRoutes|] == aRoutes;
  }

  // ---------- all roots ----------

  /** Pairs whose first root is one of `roots`. */
  ghost predicate FromRoots(s: Setup, roots: seq<nat>, p: (nat, nat))
    requires SetupOk(s)
  {
    Visited(s, p.0, p.1) && Root(s, p.0) in roots
  }

  /** Pairs of `root` with itself and with the first `n` neighbours. */
  ghost predicate FromRoot(s: Setup, root: nat, n: nat, p: (nat, nat))
    requires SetupOk(s) && root < |s.neighbours| && n <= |s.neighbours[root]|
  {
    && Visited(s, p.0, p.1) && Root(s, p.0) == root
    && (Root(s, p.1) == root || Root(s, p.1) in s.neighbours[root][..n])
  }

  lemma OneMoreNeighbour(s: Setup, root: nat, n: nat, p: (nat, nat))
    requires SetupOk(s) && root < |s.neighbours| && n < |s.neighbours[root]|
    ensures FromRoot(s, root, n + 1, p) <==>
      FromRoot(s, root, n, p) || (Visited(s, p.0, p.1) && StartsAt(s, p.0, p.1, root, s.neighbours[root][n]))
    ensures s.neighbours[root][n] != root && !(FromRoot(s, root, n, p) && StartsAt(s, p.0, p.1, root, s.neighbours[root][n]))
    ensures s.neighbours[root][n] < root ==> !(Visited(s, p.0, p.1) && StartsAt(s, p.0, p.1, root, s.neighbours[root][n]))
  {
    var m := s.neighbours[root][n];
    assert s.neighbours[root][..n + 1] == s.neighbours[root][..n] + [m];
    assert m in s.neighbours[root] && Neighbours(s, root, m);
    forall k | 0 <= k < n ensures s.neighbours[root][k] != m {
      assert AscendingRow(s.neighbours[root]);
    }
  }

  lemma RootDone(s: Setup, roots: seq<nat>, i: nat, p: (nat, nat))
    requires SetupOk(s) && i < |roots| && roots[i] < |s.neighbours|
    ensures FromRoots(s, roots[..i + 1], p) <==>
      FromRoots(s, roots[..i], p) || FromRoot(s, roots[i], |s.neighbours[roots[i]]|, p)
  {
    var root := roots[i];
    assert roots[..i + 1] == roots[..i] + [root];
    assert s.neighbours[root][..|s.neighbours[root]|] == s.neighbours[root];
  }

  /** The pairs of one root with itself and with its later neighbours. */
  method MergeRoot(s: Setup, f: Fleet, days: array<set<nat>>, starts: seq<nat>, root: nat, ghost pairs0: seq<(nat, nat)>)
    returns (ghost pairs: seq<(nat, nat)>)
    requires SetupOk(s) && FleetOk(s, f) && days.Length == |f.times| && IsRouteList(s, starts, |s.routes|)
    requires root < |s.neighbours| && MergedSoFar(s, f, pairs0, days[..])
    requires forall p :: p in pairs0 ==> p.0 < |s.routes| && Root(s, p.0) != root
    modifies days
    ensures MergedSoFar(s, f, pairs, days[..])
    ensures forall p :: p in pairs <==> p in pairs0 || FromRoot(s, root, |s.neighbours[root]|, p)
  {
    hide FleetOk, MergedSoFar, IsRouteList, Visited, FromRoot;
    pairs := MergeRootPair(s, f, days, starts, root, root, pairs0);
    forall p ensures FromRoot(s, root, 0, p) <==> StartsAt(s, p.0, p.1, root, root) && Visited(s, p.0, p.1) {
      NoNeighbourYet(s, root, p);
    }
    for n := 0 to |s.neighbours[root]|
      invariant MergedSoFar(s, f, pairs, days[..])
      invariant forall p :: p in pairs <==> p in pairs0 || FromRoot(s, root, n, p)
    {
      var other := s.neighbours[root][n];
      assert other in s.neighbours[root];
      forall p
        ensures FromRoot(s, root, n + 1, p) <==>
          FromRoot(s, root, n, p) || (Visited(s, p.0, p.1) && StartsAt(s, p.0, p.1, root, other))
        ensures !(FromRoot(s, root, n, p) && StartsAt(s, p.0, p.1, root, other))
        ensures other < root ==> !(Visited(s, p.0, p.1) && StartsAt(s, p.0, p.1, root, other))
      {
        OneMoreNeighbour(s, root, n, p);
      }
      OneMoreNeighbour(s, root, n, (0, 0));
      if other > root {
        pairs := MergeRootPair(s, f, days, starts, root, other, pairs);
      }
    }
  }

  lemma NoNeighbourYet(s: Setup, root: nat, p: (nat, nat))
    requires SetupOk(s) && root < |s.neighbours|
    ensures FromRoot(s, root, 0, p) <==> StartsAt(s, p.0, p.1, root, root) && Visited(s, p.0, p.1)
  {
  }

  /** `merge_duplicates`: the visited pairs are compared exactly once each, in some
      order, and the days are those after merging them one after the other. */
  method Run(s: Setup, f: Fleet) returns (days: array<set<nat>>, ghost pairs: seq<(nat, nat)>)
    requires SetupOk(s) && FleetOk(s, f)
    ensures fresh(days) && MergedSoFar(s, f, pairs, days[..])
    ensures forall a: nat, b: nat :: (a, b) in pairs <==> Visited(s, a, b)
  {
    hide FleetOk, IsRouteList, Visited, FromRoot;
    FleetSizes(s, f);
    days := new set<nat>[|f.before|](i requires 0 <= i < |f.before| => f.before[i]);
    pairs := [];
    assert days[..] == f.before;
    var starts := RouteStarts(s);
    var roots := CollectRoots(s, starts);
    for i := 0 to |roots|
      invariant MergedSoFar(s, f, pairs, days[..])
      invariant forall p :: p in pairs <==> FromRoots(s, roots[..i], p)
    {
      hide MergedSoFar;
      assert roots[i] in roots;
      forall p | p in pairs ensures p.0 < |s.routes| && Root(s, p.0) != roots[i] {
        NotThisRoot(s, roots, i, p);
      }
      pairs := MergeRoot(s, f, days, starts, roots[i], pairs);
      forall p ensures p in pairs <==> FromRoots(s, roots[..i + 1], p) {
        RootDone(s, roots, i, p);
      }
    }
    forall a: nat, b: nat ensures (a, b) in pairs <==> Visited(s, a, b) {
      AllRoots(s, roots, (a, b));
    }
  }

  lemma NotThisRoot(s: Setup, roots: seq<nat>, i: nat, p: (nat, nat))
    requires SetupOk(s) && AscendingRow(roots) && i < |roots| && FromRoots(s, roots[..i], p)
    ensures p.0 < |s.routes| && Root(s, p.0) != roots[i]
  {
  }

  lemma AllRoots(s: Setup, roots: seq<nat>, p: (nat, nat))
    requires SetupOk(s) && forall a: nat :: a < |s.routes| ==> Root(s, a) in roots
    ensures FromRoots(s, roots[..|roots|], p) <==> Visited(s, p.0, p.1)
  {
    assert roots[..|roots|] == roots;
  }

  // ---------- what the run guarantees ----------

  /** Two transports that the run compares and finds to be duplicates. */
  ghost predicate FoundDuplicates(s: Setup, f: Fleet, a: nat, b: nat, t: nat, u: nat)
    requires SetupOk(s) && FleetOk(s, f)
  {
    Visited(s, a, b) && JobOk(f, JobFor(s, a, b)) && PairOfJob(f, JobFor(s, a, b), t, u)
  }

  /** After the run days were only cleared, every day a transport ran on is still
      served by one linked to it through duplicates of that day, and no duplicates
      share a day any more. */
  lemma MergingIsSound(s: Setup, f: Fleet, pairs: seq<(nat, nat)>, days: seq<set<nat>>)
    requires SetupOk(s) && FleetOk(s, f) && MergedSoFar(s, f, pairs, days)
    requires forall a: nat, b: nat :: (a, b) in pairs <==> Visited(s, a, b)
    ensures NoDayLost(f, JobsFor(s, pairs), days)
    ensures forall a: nat, b: nat, t: nat, u: nat :: FoundDuplicates(s, f, a, b, t, u) ==>
      t < |days| && u < |days| && days[t] * days[u] == {}
  {
    var jobs := JobsFor(s, pairs);
    NoServiceDayIsLost(f, jobs, |jobs|);
    forall a: nat, b: nat, t: nat, u: nat | FoundDuplicates(s, f, a, b, t, u)
      ensures t < |days| && u < |days| && days[t] * days[u] == {}
    {
      assert (a, b) in pairs;
      var i :| 0 <= i < |pairs| && pairs[i] == (a, b);
      SeparatedInTheEnd(s, f, jobs, i, JobFor(s, a, b), t, u);
    }
  }

  /** Two transports that the run compares: one of each route, or two of the same route,
      that shared a day. */
  ghost predicate Compared(s: Setup, f: Fleet, a: nat, b: nat, t: nat, u: nat)
    requires SetupOk(s) && FleetOk(s, f)
  {
    && Visited(s, a, b) && RunsOn(s, a, t) && RunsOn(s, b, u) && (a == b ==> t < u)
    && t < |f.before| && u < |f.before| && f.before[t] * f.before[u] != {}
  }

  /** Their times differ by at most the threshold of the route's class per event. */
  ghost predicate WithinThreshold(s: Setup, f: Fleet, r: nat, t: nat, u: nat)
    requires SetupOk(s)
  {
    && r < |s.routes| && t < |f.times| && u < |f.times| && |f.times[t]| == |f.times[u]|
    && Distance(f.times[t], f.times[u], |f.times[t]|) <= 2 * (|s.routes[r].roots| - 1) * s.thresholds[s.routes[r].clasz]
  }

  lemma LessPerEvent(n: nat, x: int, y: int)
    requires x <= y
    ensures 2 * n * x <= 2 * n * y
  {
  }

  /** A pair of a job is one that is compared and lies within both thresholds. */
  lemma PairIffWithinBoth(s: Setup, f: Fleet, a: nat, b: nat, t: nat, u: nat)
    requires SetupOk(s) && FleetOk(s, f) && Visited(s, a, b) && JobOk(f, JobFor(s, a, b))
    ensures PairOfJob(f, JobFor(s, a, b), t, u) <==>
      Compared(s, f, a, b, t, u) && WithinThreshold(s, f, a, t, u) && WithinThreshold(s, f, b, t, u)
  {
    hide DeparturesSorted, Distance, InOrder, Visited;
    VisitedIsMergeable(s, a, b);
    SameLength(s, a, b);
    var n, x, y := |s.routes[a].roots| - 1, s.thresholds[s.routes[a].clasz], s.thresholds[s.routes[b].clasz];
    if x <= y {
      LessPerEvent(n, x, y);
    } else {
      LessPerEvent(n, y, x);
    }
  }

  lemma VisitedIsMergeable(s: Setup, a: nat, b: nat)
    requires SetupOk(s) && Visited(s, a, b)
    ensures a < |s.routes| && b < |s.routes| && Mergeable(s, a, b)
  {
  }

  /** Which transports lose days: compared ones within the thresholds of both classes
      share no day in the end, and one that exceeds a threshold with every transport it
      is compared with keeps all its days. */
  lemma ThresholdsOfBothClassesCount(s: Setup, f: Fleet, pairs: seq<(nat, nat)>, days: seq<set<nat>>)
    requires SetupOk(s) && FleetOk(s, f) && MergedSoFar(s, f, pairs, days)
    requires forall a: nat, b: nat :: (a, b) in pairs <==> Visited(s, a, b)
    ensures |days| == |f.before|
    ensures forall a: nat, b: nat, t: nat, u: nat ::
      Compared(s, f, a, b, t, u) && WithinThreshold(s, f, a, t, u) && WithinThreshold(s, f, b, t, u) ==> days[t] * days[u] == {}
    ensures forall t: nat :: t < |days| && OutOfReach(s, f, t) ==> days[t] == f.before[t]
  {
    hide FleetOk, JobFor, JobOk, PairOfJob, Visited, Compared, WithinThreshold;
    var jobs := JobsFor(s, pairs);
    FleetSizes(s, f);
    forall a: nat, b: nat, t: nat, u: nat
      | Compared(s, f, a, b, t, u) && WithinThreshold(s, f, a, t, u) && WithinThreshold(s, f, b, t, u)
      ensures t < |days| && u < |days| && days[t] * days[u] == {}
    {
      ComparedIsVisited(s, f, a, b, t, u);
      var i :| 0 <= i < |pairs| && pairs[i] == (a, b);
      assert jobs[i] == JobFor(s, a, b) && JobOk(f, jobs[i]);
      PairIffWithinBoth(s, f, a, b, t, u);
      SeparatedInTheEnd(s, f, jobs, i, JobFor(s, a, b), t, u);
    }
    forall t: nat | t < |days| && OutOfReach(s, f, t) ensures days[t] == f.before[t] {
      NoTwin(s, f, pairs, t);
      OthersKeepAllDays(f, jobs, |jobs|, t);
    }
  }

  /** Whatever the transport is compared with, one of the two thresholds is exceeded. */
  ghost predicate OutOfReach(s: Setup, f: Fleet, t: nat)
    requires SetupOk(s) && FleetOk(s, f)
  {
    forall a: nat, b: nat, u: nat ::
      && (Compared(s, f, a, b, t, u) ==> !WithinThreshold(s, f, a, t, u) || !WithinThreshold(s, f, b, t, u))
      && (Compared(s, f, a, b, u, t) ==> !WithinThreshold(s, f, a, u, t) || !WithinThreshold(s, f, b, u, t))
  }

  lemma ComparedIsVisited(s: Setup, f: Fleet, a: nat, b: nat, t: nat, u: nat)
    requires SetupOk(s) && FleetOk(s, f) && Compared(s, f, a, b, t, u)
    ensures Visited(s, a, b) && a < |s.routes| && b < |s.routes| && t < |f.before| && u < |f.before|
  {
  }

  lemma NoTwin(s: Setup, f: Fleet, pairs: seq<(nat, nat)>, t: nat)
    requires SetupOk(s) && FleetOk(s, f) && PairsOk(s, pairs) && JobsOk(f, JobsFor(s, pairs)) && OutOfReach(s, f, t)
    ensures forall u: nat :: !Twins(f, JobsFor(s, pairs), t, u)
  {
    hide FleetOk, JobFor, PairOfJob, Visited, Compared, WithinThreshold;
    var jobs := JobsFor(s, pairs);
    forall u: nat, i | 0 <= i < |jobs| ensures !PairOfJob(f, jobs[i], t, u) && !PairOfJob(f, jobs[i], u, t) {
      assert pairs[i] in pairs;
      VisitedIsMergeable(s, pairs[i].0, pairs[i].1);
      assert jobs[i] == JobFor(s, pairs[i].0, pairs[i].1);
      PairIffWithinBoth(s, f, pairs[i].0, pairs[i].1, t, u);
      PairIffWithinBoth(s, f, pairs[i].0, pairs[i].1, u, t);
    }
  }

  lemma SeparatedInTheEnd(s: Setup, f: Fleet, jobs: seq<Job>, i: nat, j: Job, t: nat, u: nat)
    requires JobsOk(f, jobs) && i < |jobs| && jobs[i] == j && JobOk(f, j) && PairOfJob(f, j, t, u)
    ensures t < |f.times| && u < |f.times|
    ensures RunJobs(f, jobs, |jobs|)[t] * RunJobs(f, jobs, |jobs|)[u] == {}
  {
    NoTwinsShareADay(f, jobs, |jobs|, i);
  }
}
