/** `connect_components` and `write_footpaths`: every component of the raw foot
    graph is closed by shortest paths, then both layers are written. */
module Footpaths {
  import opened Basics
  import opened Dial
  import opened Dijkstra
  import opened EdgeLists
  import opened FootClosure
  import opened FootpathComponents

  // ---------- members of a component ----------

  function Members(c: seq<int>, r: int): seq<nat> {
    if c == [] then []
    else Members(c[..|c| - 1], r) + (if c[|c| - 1] == r then [|c| - 1] else [])
  }

  lemma {:induction false} MembersExact(c: seq<int>, r: int)
    ensures forall u: nat :: u in Members(c, r) <==> u < |c| && c[u] == r
    ensures forall i, j :: 0 <= i < j < |Members(c, r)| ==> Members(c, r)[i] < Members(c, r)[j]
  {
    if c != [] {
      MembersExact(c[..|c| - 1], r);
      var m := Members(c[..|c| - 1], r);
      forall i | 0 <= i < |m| ensures m[i] < |c| - 1 {
        assert m[i] in m;
      }
    }
  }

  /** The locations with label `r`, ascending. */
  method CollectMembers(c: array<int>, r: int) returns (nodes: seq<nat>)
    ensures nodes == Members(c[..], r)
  {
    nodes := [];
    for u := 0 to c.Length
      invariant nodes == Members(c[..u], r)
    {
      assert c[..u + 1][..u] == c[..u];
      if c[u] == r {
        nodes := nodes + [u];
      }
    }
    assert c[..c.Length] == c[..];
  }

  /** An ascending list of locations that no footpath leaves. */
  ghost predicate IsComponent(fg: Graph, nodes: seq<nat>)
  {
    && (forall i :: 0 <= i < |nodes| ==> nodes[i] < |fg|)
    && (forall i, j :: 0 <= i < j < |nodes| ==> nodes[i] < nodes[j])
    && (forall i, k :: 0 <= i < |nodes| && 0 <= k < |fg[nodes[i]]| ==> fg[nodes[i]][k].target in nodes)
  }

  lemma MembersAreAComponent(fg: Graph, c: seq<int>, r: int)
    requires GraphOk(fg) && IsLabelling(fg, c) && r != INVALID
    ensures IsComponent(fg, Members(c, r))
  {
    MembersExact(c, r);
    var nodes := Members(c, r);
    forall i | 0 <= i < |nodes| ensures nodes[i] < |fg| && c[nodes[i]] == r {
      assert nodes[i] in nodes;
    }
  }

  // ---------- the graph of a component ----------

  /** Local edge `x`-`y` comes from edge `q` of the `p`-th node, one of the two. */
  ghost predicate Wrote(fg: Graph, tr: seq<nat>, nodes: seq<nat>, p: nat, q: nat, x: nat, y: nat, d: nat)
    requires IsComponent(fg, nodes) && |tr| == |fg| && x < |nodes| && y < |nodes|
    requires p < |nodes| && q < |fg[nodes[p]]|
  {
    && ((p == x && fg[nodes[p]][q].target == nodes[y]) || (p == y && fg[nodes[p]][q].target == nodes[x]))
    && d == Raise(tr, nodes[x], nodes[y], fg[nodes[p]][q].duration)
  }

  ghost predicate WrittenBefore(fg: Graph, tr: seq<nat>, nodes: seq<nat>, i: nat, f: nat, x: nat, y: nat, d: nat)
    requires IsComponent(fg, nodes) && |tr| == |fg| && x < |nodes| && y < |nodes|
  {
    exists p: nat, q: nat :: p < |nodes| && q < |fg[nodes[p]]| && (p < i || (p == i && q < f)) &&
      Wrote(fg, tr, nodes, p, q, x, y, d)
  }

  /** The edges of the first `i` nodes and the first `f` of node `i` are in. */
  ghost predicate Built(fg: Graph, tr: seq<nat>, nodes: seq<nat>, i: nat, f: nat, g: Graph)
    requires IsComponent(fg, nodes) && |tr| == |fg|
  {
    && |g| == |nodes| && GraphOk(g)
    && forall x: nat, y: nat, d: nat :: x < |nodes| && y < |nodes| ==>
         (Edge(y, d) in g[x] <==> WrittenBefore(fg, tr, nodes, i, f, x, y, d))
  }

  lemma BuiltStep(fg: Graph, tr: seq<nat>, nodes: seq<nat>, i: nat, f: nat, j: nat, d: nat, g: Graph, g': Graph)
    requires Cleaned(fg) && IsComponent(fg, nodes) && |tr| == |fg|
    requires Built(fg, tr, nodes, i, f, g) && i < |nodes| && f < |fg[nodes[i]]| && j < |nodes|
    requires fg[nodes[i]][f].target == nodes[j] && d == Raise(tr, nodes[i], nodes[j], fg[nodes[i]][f].duration)
    requires i != j && g' == g[i := g[i] + [Edge(j, d)]][j := g[j] + [Edge(i, d)]]
    ensures Built(fg, tr, nodes, i, f + 1, g')
  {
    forall x: nat, y: nat, d': nat | x < |nodes| && y < |nodes|
      ensures Edge(y, d') in g'[x] <==> WrittenBefore(fg, tr, nodes, i, f + 1, x, y, d')
    {
      assert Edge(y, d') in g[x] <==> WrittenBefore(fg, tr, nodes, i, f, x, y, d');
      OneMoreWritten(fg, tr, nodes, i, f, x, y, d');
      NodesAreDistinct(fg, nodes);
    }
  }

  lemma NodesAreDistinct(fg: Graph, nodes: seq<nat>)
    requires IsComponent(fg, nodes)
    ensures forall i, j :: 0 <= i < |nodes| && 0 <= j < |nodes| && nodes[i] == nodes[j] ==> i == j
  {
  }

  lemma OneMoreWritten(fg: Graph, tr: seq<nat>, nodes: seq<nat>, i: nat, f: nat, x: nat, y: nat, d: nat)
    requires IsComponent(fg, nodes) && |tr| == |fg| && x < |nodes| && y < |nodes|
    requires i < |nodes| && f < |fg[nodes[i]]|
    ensures WrittenBefore(fg, tr, nodes, i, f + 1, x, y, d) <==>
            WrittenBefore(fg, tr, nodes, i, f, x, y, d) || Wrote(fg, tr, nodes, i, f, x, y, d)
  {
    hide Wrote;
  }

  lemma NextNode(fg: Graph, tr: seq<nat>, nodes: seq<nat>, i: nat, g: Graph)
    requires IsComponent(fg, nodes) && |tr| == |fg| && i < |nodes|
    requires Built(fg, tr, nodes, i, |fg[nodes[i]]|, g)
    ensures Built(fg, tr, nodes, i + 1, 0, g)
  {
    hide Wrote;
    forall x: nat, y: nat, d: nat | x < |nodes| && y < |nodes|
      ensures WrittenBefore(fg, tr, nodes, i + 1, 0, x, y, d) <==>
              WrittenBefore(fg, tr, nodes, i, |fg[nodes[i]]|, x, y, d)
    {
    }
  }

  /** The local graph has exactly the raised edges between its nodes. */
  ghost predicate IsComponentGraph(fg: Graph, tr: seq<nat>, nodes: seq<nat>, g: Graph)
    requires IsComponent(fg, nodes) && |tr| == |fg|
  {
    && |g| == |nodes| && GraphOk(g)
    && forall x: nat, y: nat, d: nat :: x < |nodes| && y < |nodes| ==>
         (Edge(y, d) in g[x] <==> RaisedEdge(fg, tr, nodes[x], nodes[y], d))
  }

  lemma AllBuilt(fg: Graph, tr: seq<nat>, nodes: seq<nat>, g: Graph)
    requires IsComponent(fg, nodes) && |tr| == |fg| && Built(fg, tr, nodes, |nodes|, 0, g)
    ensures IsComponentGraph(fg, tr, nodes, g)
  {
    forall x: nat, y: nat, d: nat | x < |nodes| && y < |nodes|
      ensures WrittenBefore(fg, tr, nodes, |nodes|, 0, x, y, d) <==> RaisedEdge(fg, tr, nodes[x], nodes[y], d)
    {
      WrittenIffRaised(fg, tr, nodes, x, y, d);
    }
  }

  lemma WrittenIffRaised(fg: Graph, tr: seq<nat>, nodes: seq<nat>, x: nat, y: nat, d: nat)
    requires IsComponent(fg, nodes) && |tr| == |fg| && x < |nodes| && y < |nodes|
    ensures WrittenBefore(fg, tr, nodes, |nodes|, 0, x, y, d) <==> RaisedEdge(fg, tr, nodes[x], nodes[y], d)
  {
    var a, b := nodes[x], nodes[y];
    if WrittenBefore(fg, tr, nodes, |nodes|, 0, x, y, d) {
      var p: nat, q: nat :| p < |nodes| && q < |fg[nodes[p]]| && Wrote(fg, tr, nodes, p, q, x, y, d);
      var e := fg[nodes[p]][q];
      assert e in fg[nodes[p]];
      assert RaisedFrom(fg, tr, a, b, d, e.duration);
    }
    if RaisedEdge(fg, tr, a, b, d) {
      var raw: nat :| RaisedFrom(fg, tr, a, b, d, raw);
      if Edge(b, raw) in fg[a] {
        var q :| 0 <= q < |fg[a]| && fg[a][q] == Edge(b, raw);
        assert Wrote(fg, tr, nodes, x, q, x, y, d);
      } else {
        var q :| 0 <= q < |fg[b]| && fg[b][q] == Edge(a, raw);
        assert Wrote(fg, tr, nodes, y, q, x, y, d);
      }
    }
  }

  lemma NothingBuilt(fg: Graph, tr: seq<nat>, nodes: seq<nat>, g: Graph)
    requires IsComponent(fg, nodes) && |tr| == |fg| && |g| == |nodes|
    requires forall x :: 0 <= x < |g| ==> g[x] == []
    ensures Built(fg, tr, nodes, 0, 0, g)
  {
  }

  /** `build_component_graph`: rows and nodes are both sorted, so one forward scan
      per row finds the positions of all targets. */
  method BuildComponentGraph(fg: Graph, tr: seq<nat>, nodes: seq<nat>) returns (graph: Graph)
    requires Cleaned(fg) && IsComponent(fg, nodes) && |tr| == |fg|
    ensures IsComponentGraph(fg, tr, nodes, graph)
  {
    hide Built, Symmetric, IsComponentGraph;
    var tmp := new seq<Edge>[|nodes|](_ => []);
    NothingBuilt(fg, tr, nodes, tmp[..]);
    for i := 0 to |nodes|
      invariant Built(fg, tr, nodes, i, 0, tmp[..])
    {
      AddEdgesOf(fg, tr, nodes, i, tmp);
      NextNode(fg, tr, nodes, i, tmp[..]);
    }
    AllBuilt(fg, tr, nodes, tmp[..]);
    graph := CopyRows(tmp);
    SameEdgesSameGraph(fg, tr, nodes, tmp[..], graph);
  }

  /** The edges of node `i`, in both directions. */
  method AddEdgesOf(fg: Graph, tr: seq<nat>, nodes: seq<nat>, i: nat, tmp: array<seq<Edge>>)
    requires Cleaned(fg) && IsComponent(fg, nodes) && |tr| == |fg| && i < |nodes|
    requires Built(fg, tr, nodes, i, 0, tmp[..]) && tmp.Length == |nodes|
    modifies tmp
    ensures Built(fg, tr, nodes, i, |fg[nodes[i]]|, tmp[..])
  {
    hide Built, Raise, Symmetric;
    var it := 0;
    var row := fg[nodes[i]];
    for f := 0 to |row|
      invariant it <= |nodes| && (f < |row| ==> forall p :: 0 <= p < it ==> nodes[p] < row[f].target)
      invariant Built(fg, tr, nodes, i, f, tmp[..])
    {
      var t := row[f].target;
      assert t in nodes;
      ghost var pos :| 0 <= pos < |nodes| && nodes[pos] == t;
      while it < |nodes| && t != nodes[it]
        invariant it <= pos && forall p :: 0 <= p < it ==> nodes[p] < t
        decreases |nodes| - it
      {
        it := it + 1;
      }
      var d := Raise(tr, nodes[i], t, row[f].duration);
      ghost var before := tmp[..];
      assert i != it;
      tmp[i] := tmp[i] + [Edge(it, d)];
      tmp[it] := tmp[it] + [Edge(i, d)];
      assert tmp[..] == before[i := before[i] + [Edge(it, d)]][it := before[it] + [Edge(i, d)]];
      BuiltStep(fg, tr, nodes, i, f, it, d, before, tmp[..]);
      assert f + 1 < |row| ==> t < row[f + 1].target;
    }
  }

  method CopyRows(tmp: array<seq<Edge>>) returns (graph: Graph)
    ensures |graph| == tmp.Length
    ensures forall y, e :: 0 <= y < |graph| ==> (e in graph[y] <==> e in tmp[y])
  {
    graph := [];
    for x := 0 to tmp.Length
      invariant |graph| == x
      invariant forall y, e :: 0 <= y < x ==> (e in graph[y] <==> e in tmp[y])
    {
      var row := EraseDuplicates(tmp[x]);
      graph := graph + [row];
    }
  }

  lemma SameEdgesSameGraph(fg: Graph, tr: seq<nat>, nodes: seq<nat>, g: Graph, h: Graph)
    requires IsComponent(fg, nodes) && |tr| == |fg| && IsComponentGraph(fg, tr, nodes, g) && |h| == |g|
    requires forall y, e :: 0 <= y < |h| ==> (e in h[y] <==> e in g[y])
    ensures IsComponentGraph(fg, tr, nodes, h)
  {
    forall v, i | 0 <= v < |h| && 0 <= i < |h[v]| ensures h[v][i].target < |h| {
      assert h[v][i] in h[v];
      var k :| 0 <= k < |g[v]| && g[v][k] == h[v][i];
    }
  }

  // ---------- local and global walks ----------

  lemma {:induction false} LocalWalkIsGlobal(fg: Graph, tr: seq<nat>, nodes: seq<nat>, g: Graph, i: nat, es: seq<Edge>)
    requires IsComponent(fg, nodes) && |tr| == |fg| && IsComponentGraph(fg, tr, nodes, g)
    requires IsWalk(g, i, es)
    ensures i < |nodes| && EndOf(i, es) < |nodes|
    ensures Walkable(fg, tr, nodes[i], nodes[EndOf(i, es)], Length(es))
    decreases |es|
  {
    if es == [] {
      assert FootWalk(fg, tr, nodes[i], []) && EndOf(nodes[i], []) == nodes[i];
    } else {
      var e := es[0];
      LocalWalkIsGlobal(fg, tr, nodes, g, e.target, es[1..]);
      assert Edge(e.target, e.duration) in g[i];
      EdgeIsWalkable(fg, tr, nodes[i], nodes[e.target], e.duration);
      WalkableCompose(fg, tr, nodes[i], nodes[e.target], nodes[EndOf(i, es)], e.duration, Length(es[1..]));
    }
  }

  lemma WalkPrepends(g: Graph, i: nat, e: Edge, rest: seq<Edge>)
    requires i < |g| && e in g[i] && IsWalk(g, e.target, rest)
    ensures IsWalk(g, i, [e] + rest) && EndOf(i, [e] + rest) == EndOf(e.target, rest)
    ensures Length([e] + rest) == e.duration + Length(rest)
  {
    assert ([e] + rest)[1..] == rest;
  }

  lemma {:induction false} GlobalWalkIsLocal(fg: Graph, tr: seq<nat>, nodes: seq<nat>, g: Graph, i: nat, es: seq<Edge>)
    returns (ls: seq<Edge>)
    requires Cleaned(fg) && IsComponent(fg, nodes) && |tr| == |fg| && IsComponentGraph(fg, tr, nodes, g)
    requires i < |nodes| && FootWalk(fg, tr, nodes[i], es)
    ensures IsWalk(g, i, ls) && Length(ls) == Length(es)
    ensures EndOf(i, ls) < |nodes| && nodes[EndOf(i, ls)] == EndOf(nodes[i], es)
    decreases |es|
  {
    if es == [] {
      ls := [];
    } else {
      hide Symmetric, RaisedFrom, GraphOk, Raise, Walkable;
      var e := es[0];
      NeighbourEitherWay(fg, tr, nodes[i], e.target, e.duration);
      var k :| 0 <= k < |fg[nodes[i]]| && fg[nodes[i]][k].target == e.target;
      assert e.target in nodes;
      var j :| 0 <= j < |nodes| && nodes[j] == e.target;
      var rest := GlobalWalkIsLocal(fg, tr, nodes, g, j, es[1..]);
      ls := [Edge(j, e.duration)] + rest;
      WalkPrepends(g, i, Edge(j, e.duration), rest);
      assert EndOf(nodes[i], es) == EndOf(e.target, es[1..]);
    }
  }

  lemma WalkableInside(fg: Graph, tr: seq<nat>, nodes: seq<nat>, g: Graph, i: nat, b: nat, d: nat)
    returns (j: nat, ls: seq<Edge>)
    requires Cleaned(fg) && IsComponent(fg, nodes) && |tr| == |fg| && IsComponentGraph(fg, tr, nodes, g)
    requires i < |nodes| && Walkable(fg, tr, nodes[i], b, d)
    ensures j < |nodes| && nodes[j] == b && IsWalk(g, i, ls) && EndOf(i, ls) == j && Length(ls) == d
  {
    var es: seq<Edge> :| FootWalk(fg, tr, nodes[i], es) && EndOf(nodes[i], es) == b && Length(es) == d;
    ls := GlobalWalkIsLocal(fg, tr, nodes, g, i, es);
    j := EndOf(i, ls);
  }

  // ---------- one search ----------

  /** Distances of the nodes from node `k`: unreachable, or shortest and below the limit. */
  ghost predicate DistsShortest(fg: Graph, tr: seq<nat>, nodes: seq<nat>, k: nat, maxLen: nat, dists: seq<nat>)
    requires |tr| == |fg| && k < |nodes| == |dists|
  {
    forall v: nat, d: nat :: v < |nodes| && v != k ==>
      (dists[v] == d && d != UNREACHABLE <==> d < maxLen && Shortest(fg, tr, nodes[k], nodes[v], d))
  }

  lemma ExactIsShortest(fg: Graph, tr: seq<nat>, nodes: seq<nat>, g: Graph, k: nat, maxLen: nat,
                        dists0: seq<nat>, dists: seq<nat>)
    requires Cleaned(fg) && IsComponent(fg, nodes) && |tr| == |fg| && IsComponentGraph(fg, tr, nodes, g)
    requires k < |nodes| == |dists0| == |dists| == |g| && maxLen <= UNREACHABLE
    requires forall v :: 0 <= v < |nodes| && v != k ==> dists0[v] == UNREACHABLE
    requires ExactBelow(g, multiset{Label(k, 0)}, dists0, dists, maxLen)
    ensures DistsShortest(fg, tr, nodes, k, maxLen, dists)
  {
    hide Cleaned, IsComponent, IsComponentGraph, ExactBelow, Shortest;
    forall v: nat, d: nat | v < |nodes| && v != k
      ensures dists[v] == d && d != UNREACHABLE <==> d < maxLen && Shortest(fg, tr, nodes[k], nodes[v], d)
    {
      EntryIsShortest(fg, tr, nodes, g, k, maxLen, dists0, dists, v, d);
    }
  }

  lemma EntryIsShortest(fg: Graph, tr: seq<nat>, nodes: seq<nat>, g: Graph, k: nat, maxLen: nat,
                        dists0: seq<nat>, dists: seq<nat>, v: nat, d: nat)
    requires Cleaned(fg) && IsComponent(fg, nodes) && |tr| == |fg| && IsComponentGraph(fg, tr, nodes, g)
    requires k < |nodes| == |dists0| == |dists| == |g| && maxLen <= UNREACHABLE && v < |nodes| && v != k
    requires dists0[v] == UNREACHABLE && ExactBelow(g, multiset{Label(k, 0)}, dists0, dists, maxLen)
    ensures dists[v] == d && d != UNREACHABLE <==> d < maxLen && Shortest(fg, tr, nodes[k], nodes[v], d)
  {
    hide Cleaned, IsComponent, IsComponentGraph, Walkable;
    if dists[v] != UNREACHABLE {
      EntryIsWalkable(fg, tr, nodes, g, k, maxLen, dists0, dists, v);
    }
    forall x: nat | x < maxLen && Walkable(fg, tr, nodes[k], nodes[v], x) ensures dists[v] <= x {
      EntryIsLeast(fg, tr, nodes, g, k, maxLen, dists0, dists, v, x);
    }
  }

  lemma EntryIsWalkable(fg: Graph, tr: seq<nat>, nodes: seq<nat>, g: Graph, k: nat, maxLen: nat,
                        dists0: seq<nat>, dists: seq<nat>, v: nat)
    requires IsComponent(fg, nodes) && |tr| == |fg| && IsComponentGraph(fg, tr, nodes, g)
    requires k < |nodes| == |dists0| == |dists| && v < |nodes| && dists[v] != dists0[v]
    requires |g| == |dists| && ExactBelow(g, multiset{Label(k, 0)}, dists0, dists, maxLen)
    ensures dists[v] < maxLen && Walkable(fg, tr, nodes[k], nodes[v], dists[v])
  {
    hide IsComponent, IsComponentGraph, Walkable;
    var l, es :| ReachedBy(g, multiset{Label(k, 0)}, v, dists[v], l, es);
    LocalWalkIsGlobal(fg, tr, nodes, g, k, es);
  }

  lemma EntryIsLeast(fg: Graph, tr: seq<nat>, nodes: seq<nat>, g: Graph, k: nat, maxLen: nat,
                     dists0: seq<nat>, dists: seq<nat>, v: nat, d: nat)
    requires Cleaned(fg) && IsComponent(fg, nodes) && |tr| == |fg| && IsComponentGraph(fg, tr, nodes, g)
    requires k < |nodes| == |dists0| == |dists| && v < |nodes| && d < maxLen && Walkable(fg, tr, nodes[k], nodes[v], d)
    requires |g| == |dists| && ExactBelow(g, multiset{Label(k, 0)}, dists0, dists, maxLen)
    ensures dists[v] <= d
  {
    NodesAreDistinct(fg, nodes);
    hide Cleaned, IsComponent, IsComponentGraph, Walkable, Attained;
    var j, ls := WalkableInside(fg, tr, nodes, g, k, nodes[v], d);
    assert Label(k, 0) in multiset{Label(k, 0)};
  }

  /** The row that the distances turn into. */
  function RowOf(nodes: seq<nat>, dists: seq<nat>, k: nat): seq<Edge>
    requires |nodes| == |dists|
  {
    if nodes == [] then []
    else
      var v := |nodes| - 1;
      RowOf(nodes[..v], dists[..v], k) + (if dists[v] == UNREACHABLE || v == k then [] else [Edge(nodes[v], dists[v])])
  }

  lemma {:induction false} RowOfExact(nodes: seq<nat>, dists: seq<nat>, k: nat)
    requires |nodes| == |dists| && forall i, j :: 0 <= i < j < |nodes| ==> nodes[i] < nodes[j]
    ensures forall e :: e in RowOf(nodes, dists, k) <==> InRow(nodes, dists, k, e)
    ensures AscendingTargets(RowOf(nodes, dists, k))
  {
    if nodes != [] {
      var v := |nodes| - 1;
      RowOfExact(nodes[..v], dists[..v], k);
      var row := RowOf(nodes[..v], dists[..v], k);
      forall e ensures InRow(nodes, dists, k, e) <==>
        InRow(nodes[..v], dists[..v], k, e) || (v != k && dists[v] != UNREACHABLE && e == Edge(nodes[v], dists[v]))
      {
        InRowSplits(nodes, dists, k, e);
      }
      forall i | 0 <= i < |row| ensures row[i].target < nodes[v] {
        assert row[i] in row;
        var u: nat :| u < v && row[i] == Edge(nodes[..v][u], dists[..v][u]);
      }
    }
  }

  lemma InRowSplits(nodes: seq<nat>, dists: seq<nat>, k: nat, e: Edge)
    requires |nodes| == |dists| && nodes != []
    ensures var v := |nodes| - 1; InRow(nodes, dists, k, e) <==>
      InRow(nodes[..v], dists[..v], k, e) || (v != k && dists[v] != UNREACHABLE && e == Edge(nodes[v], dists[v]))
  {
    var v := |nodes| - 1;
    if InRow(nodes, dists, k, e) {
      var u: nat :| u < |nodes| && u != k && dists[u] != UNREACHABLE && e == Edge(nodes[u], dists[u]);
      assert u < v ==> nodes[..v][u] == nodes[u] && dists[..v][u] == dists[u];
    }
    if InRow(nodes[..v], dists[..v], k, e) {
      var u: nat :| u < v && u != k && dists[..v][u] != UNREACHABLE && e == Edge(nodes[..v][u], dists[..v][u]);
      assert e == Edge(nodes[u], dists[u]);
    }
  }

  ghost predicate InRow(nodes: seq<nat>, dists: seq<nat>, k: nat, e: Edge)
    requires |nodes| == |dists|
  {
    exists v: nat :: v < |nodes| && v != k && dists[v] != UNREACHABLE && e == Edge(nodes[v], dists[v])
  }

  lemma RowIsClosure(fg: Graph, tr: seq<nat>, nodes: seq<nat>, g: Graph, k: nat, maxLen: nat, dists: seq<nat>)
    requires Cleaned(fg) && IsComponent(fg, nodes) && |tr| == |fg| && IsComponentGraph(fg, tr, nodes, g)
    requires k < |nodes| == |dists| && DistsShortest(fg, tr, nodes, k, maxLen, dists)
    ensures IsClosureRow(fg, tr, maxLen, nodes[k], RowOf(nodes, dists, k))
  {
    hide InRow, ClosureEdge, IsComponentGraph, DistsShortest, Cleaned;
    RowOfExact(nodes, dists, k);
    forall e ensures InRow(nodes, dists, k, e) <==> ClosureEdge(fg, tr, maxLen, nodes[k], e) {
      InRowIffClosure(fg, tr, nodes, g, k, maxLen, dists, e);
    }
  }

  lemma InRowIffClosure(fg: Graph, tr: seq<nat>, nodes: seq<nat>, g: Graph, k: nat, maxLen: nat, dists: seq<nat>, e: Edge)
    requires Cleaned(fg) && IsComponent(fg, nodes) && |tr| == |fg| && IsComponentGraph(fg, tr, nodes, g)
    requires k < |nodes| == |dists| && DistsShortest(fg, tr, nodes, k, maxLen, dists)
    ensures InRow(nodes, dists, k, e) <==> ClosureEdge(fg, tr, maxLen, nodes[k], e)
  {
    NodesAreDistinct(fg, nodes);
    hide IsComponent, IsComponentGraph, Cleaned, Shortest;
    if InRow(nodes, dists, k, e) {
      var v: nat :| v < |nodes| && v != k && dists[v] != UNREACHABLE && e == Edge(nodes[v], dists[v]);
      assert Shortest(fg, tr, nodes[k], nodes[v], dists[v]);
    }
    if ClosureEdge(fg, tr, maxLen, nodes[k], e) {
      ShortestIsWalkable(fg, tr, nodes[k], e.target, e.duration);
      var v, _ := WalkableInside(fg, tr, nodes, g, k, e.target, e.duration);
      assert v != k && dists[v] == e.duration != UNREACHABLE;
      assert e == Edge(nodes[v], dists[v]);
    }
  }

  lemma ShortestIsWalkable(fg: Graph, tr: seq<nat>, a: nat, b: nat, d: nat)
    requires |tr| == |fg| && Shortest(fg, tr, a, b, d)
    ensures Walkable(fg, tr, a, b, d)
  {
  }

  lemma ComponentGraphOk(fg: Graph, tr: seq<nat>, nodes: seq<nat>, g: Graph)
    requires IsComponent(fg, nodes) && |tr| == |fg| && IsComponentGraph(fg, tr, nodes, g)
    ensures |g| == |nodes| && GraphOk(g)
  {
  }

  lemma UnionWithNothing(g: Graph)
    requires GraphOk(g)
    ensures Union(g, NoOverlay) == g
  {
  }

  /** The search from node `k` of a component and the row it yields. */
  method SearchFrom(graph: Graph, nodes: seq<nat>, k: nat, maxLen: nat, pq: Dial, ghost fg: Graph, ghost tr: seq<nat>)
    returns (row: seq<Edge>)
    requires Cleaned(fg) && IsComponent(fg, nodes) && |tr| == |fg| && IsComponentGraph(fg, tr, nodes, graph)
    requires k < |nodes| && 0 < maxLen <= UNREACHABLE
    modifies pq
    ensures IsClosureRow(fg, tr, maxLen, nodes[k], row)
  {
    hide IsComponentGraph, IsClosureRow, ExactBelow, Cleaned, GraphOk, DistsShortest;
    pq.Clear();
    pq.SetBuckets(maxLen);
    pq.Push(Label(k, 0));
    var dists := new nat[|nodes|](_ => UNREACHABLE);
    dists[k] := 0;
    ghost var dists0 := dists[..];
    ComponentGraphOk(fg, tr, nodes, graph);
    UnionWithNothing(graph);
    assert pq.Labels() == multiset{Label(k, 0)};
    Search(graph, NoOverlay, pq, dists, maxLen);
    ExactIsShortest(fg, tr, nodes, graph, k, maxLen, dists0, dists[..]);
    row := CollectRow(nodes, dists, k);
    RowIsClosure(fg, tr, nodes, graph, k, maxLen, dists[..]);
  }

  method CollectRow(nodes: seq<nat>, dists: array<nat>, k: nat) returns (row: seq<Edge>)
    requires dists.Length == |nodes|
    ensures row == RowOf(nodes, dists[..], k)
  {
    row := [];
    for v := 0 to |nodes|
      invariant row == RowOf(nodes[..v], dists[..v], k)
    {
      assert nodes[..v + 1][..v] == nodes[..v] && dists[..v + 1][..v] == dists[..v];
      if dists[v] != UNREACHABLE && v != k {
        row := row + [Edge(nodes[v], dists[v])];
      }
    }
    assert nodes[..|nodes|] == nodes && dists[..|nodes|] == dists[..];
  }

  // ---------- writing a component ----------

  /** Every edge of the out layer has its mirror image in the in layer, as often. */
  ghost predicate Mirrored(out: seq<seq<Edge>>, inn: seq<seq<Edge>>) {
    && |out| == |inn| && GraphOk(out) && GraphOk(inn)
    && forall a: nat, b: nat, d: nat :: a < |out| && b < |out| ==>
         multiset(out[a])[Edge(b, d)] == multiset(inn[b])[Edge(a, d)]
  }

  lemma MirrorKept(out: seq<seq<Edge>>, inn: seq<seq<Edge>>, from: nat, to: nat, d: nat)
    requires Mirrored(out, inn) && from < |out| && to < |out|
    ensures Mirrored(out[from := out[from] + [Edge(to, d)]], inn[to := inn[to] + [Edge(from, d)]])
  {
    hide GraphOk;
    var out', inn' := out[from := out[from] + [Edge(to, d)]], inn[to := inn[to] + [Edge(from, d)]];
    forall a: nat, b: nat, x: nat | a < |out| && b < |out|
      ensures multiset(out'[a])[Edge(b, x)] == multiset(inn'[b])[Edge(a, x)]
    {
      assert multiset(out[a])[Edge(b, x)] == multiset(inn[b])[Edge(a, x)];
      CountAfterAppend(out[from], Edge(to, d), Edge(b, x));
      CountAfterAppend(inn[to], Edge(from, d), Edge(a, x));
    }
    RowsInRange(out, from, Edge(to, d));
    RowsInRange(inn, to, Edge(from, d));
  }

  lemma RowsInRange(g: Graph, v: nat, e: Edge)
    requires GraphOk(g) && v < |g| && e.target < |g|
    ensures GraphOk(g[v := g[v] + [e]])
  {
  }

  lemma CountAfterAppend(s: seq<Edge>, e: Edge, f: Edge)
    ensures multiset(s + [e])[f] == multiset(s)[f] + (if e == f then 1 else 0)
  {
  }

  /** One footpath, written to both layers. */
  method WriteFootpath(out: array<seq<Edge>>, inn: array<seq<Edge>>, from: nat, to: nat, d: nat)
    requires out != inn && out.Length == inn.Length && from < out.Length && to < out.Length
    requires Mirrored(out[..], inn[..])
    modifies out, inn
    ensures out[..] == old(out[..])[from := old(out[from]) + [Edge(to, d)]]
    ensures inn[..] == old(inn[..])[to := old(inn[to]) + [Edge(from, d)]]
    ensures Mirrored(out[..], inn[..])
  {
    hide Mirrored;
    MirrorKept(out[..], inn[..], from, to, d);
    out[from] := out[from] + [Edge(to, d)];
    inn[to] := inn[to] + [Edge(from, d)];
  }

  /** The results of one search; the transfer times are applied once more. */
  method WriteRow(fg: Graph, tr: seq<nat>, maxLen: nat, from: nat, row: seq<Edge>, out: array<seq<Edge>>, inn: array<seq<Edge>>)
    requires |tr| == |fg| && from < |fg| && IsClosureRow(fg, tr, maxLen, from, row)
    requires out != inn && out.Length == inn.Length == |fg| && Mirrored(out[..], inn[..]) && out[from] == []
    modifies out, inn
    ensures out[..] == old(out[..])[from := row] && Mirrored(out[..], inn[..])
  {
    hide Mirrored, ClosureEdge, Raise;
    for i := 0 to |row|
      invariant out[..] == old(out[..])[from := row[..i]] && Mirrored(out[..], inn[..])
    {
      var e := row[i];
      assert e in row;
      TransfersChangeNothing(fg, tr, maxLen, from, e);
      WriteFootpath(out, inn, from, e.target, Raise(tr, from, e.target, e.duration));
      assert row[..i] + [e] == row[..i + 1];
      assert old(out[..])[from := row[..i]][from := row[..i + 1]] == old(out[..])[from := row[..i + 1]];
    }
    assert row[..|row|] == row;
  }

  /** The rows of the locations in `done` are final, all others still empty. */
  ghost predicate Progress(fg: Graph, tr: seq<nat>, maxLen: nat, out: seq<seq<Edge>>, done: set<nat>)
    requires GraphOk(fg) && |tr| == |fg|
  {
    |out| == |fg| && forall a: nat :: a < |out| ==>
      if a in done then IsConnectedRow(fg, tr, maxLen, a, out[a]) else out[a] == []
  }

  lemma ProgressStep(fg: Graph, tr: seq<nat>, maxLen: nat, out: seq<seq<Edge>>, done: set<nat>, a: nat, row: seq<Edge>)
    requires GraphOk(fg) && |tr| == |fg| && Progress(fg, tr, maxLen, out, done)
    requires a < |fg| && IsConnectedRow(fg, tr, maxLen, a, row)
    ensures Progress(fg, tr, maxLen, out[a := row], done + {a})
  {
    hide IsConnectedRow;
  }

  ghost function ToSet(nodes: seq<nat>): set<nat> {
    set u | u in nodes
  }

  /** A component of more than two: one search and one row for each of its nodes. */
  method CloseComponent(fg: Graph, tr: seq<nat>, maxLen: nat, nodes: seq<nat>, pq: Dial,
                        out: array<seq<Edge>>, inn: array<seq<Edge>>, ghost done: set<nat>)
    requires Cleaned(fg) && |tr| == |fg| && IsComponent(fg, nodes) && 0 < maxLen <= UNREACHABLE
    requires forall k :: 0 <= k < |nodes| ==> nodes[k] !in done && fg[nodes[k]] != [] && !InPair(fg, nodes[k])
    requires out != inn && out.Length == inn.Length == |fg|
    requires Progress(fg, tr, maxLen, out[..], done) && Mirrored(out[..], inn[..])
    modifies pq, out, inn
    ensures Progress(fg, tr, maxLen, out[..], done + ToSet(nodes)) && Mirrored(out[..], inn[..])
  {
    hide Mirrored, IsClosureRow, Symmetric, IsComponentGraph;
    var graph := BuildComponentGraph(fg, tr, nodes);
    assert nodes[..0] == [];
    assert done + ToSet(nodes[..0]) == done;
    for k := 0 to |nodes|
      invariant Progress(fg, tr, maxLen, out[..], done + ToSet(nodes[..k])) && Mirrored(out[..], inn[..])
    {
      var row := SearchFrom(graph, nodes, k, maxLen, pq, fg, tr);
      NodesAreDistinct(fg, nodes);
      assert nodes[k] !in nodes[..k];
      ProgressStep(fg, tr, maxLen, out[..], done + ToSet(nodes[..k]), nodes[k], row);
      WriteRow(fg, tr, maxLen, nodes[k], row, out, inn);
      assert nodes[..k + 1] == nodes[..k] + [nodes[k]];
      assert done + ToSet(nodes[..k + 1]) == done + ToSet(nodes[..k]) + {nodes[k]};
    }
    assert nodes[..|nodes|] == nodes;
  }

  /** `process_2_node_component`: the raw footpaths of a pair, without a search. */
  method ProcessPair(fg: Graph, tr: seq<nat>, maxLen: nat, a: nat, b: nat,
                     out: array<seq<Edge>>, inn: array<seq<Edge>>, ghost done: set<nat>)
    requires Cleaned(fg) && |tr| == |fg| && a < |fg| && InPair(fg, a) && b == Partner(fg, a)
    requires a !in done && b !in done
    requires out != inn && out.Length == inn.Length == |fg|
    requires Progress(fg, tr, maxLen, out[..], done) && Mirrored(out[..], inn[..])
    modifies out, inn
    ensures Progress(fg, tr, maxLen, out[..], done + {a, b}) && Mirrored(out[..], inn[..])
  {
    hide Mirrored, Raise;
    PairIsMutual(fg, a);
    if fg[a] != [] {
      var d := Raise(tr, a, b, fg[a][0].duration);
      ProgressStep(fg, tr, maxLen, out[..], done, a, [Edge(b, d)]);
      WriteFootpath(out, inn, a, b, d);
      assert [] + [Edge(b, d)] == [Edge(b, d)];
    }
    if fg[b] != [] {
      var d := Raise(tr, b, a, fg[b][0].duration);
      ProgressStep(fg, tr, maxLen, out[..], done + {a}, b, [Edge(a, d)]);
      WriteFootpath(out, inn, b, a, d);
      assert [] + [Edge(a, d)] == [Edge(a, d)];
    }
    assert done + {a} + {b} == done + {a, b};
  }

  // ---------- components and pairs ----------

  lemma {:induction false} WalkInPair(fg: Graph, a: nat, es: seq<Edge>)
    requires Cleaned(fg) && a < |fg| && InPair(fg, a) && IsWalk(fg, a, es)
    ensures EndOf(a, es) == a || EndOf(a, es) == Partner(fg, a)
    decreases |es|
  {
    if es != [] {
      PairIsMutual(fg, a);
      WalkInPair(fg, es[0].target, es[1..]);
    }
  }

  /** A component with two members is a pair, and a pair's component has two members. */
  lemma PairIffTwo(fg: Graph, c: seq<int>, r: nat, a: nat)
    requires Cleaned(fg) && IsLabelling(fg, c) && a < |fg| && c[a] == r
    ensures |Members(c, r)| == 2 <==> InPair(fg, a)
    ensures InPair(fg, a) ==> forall u :: u in Members(c, r) <==> u == a || u == Partner(fg, a)
  {
    var nodes := Members(c, r);
    MembersExact(c, r);
    if InPair(fg, a) {
      PairIsMutual(fg, a);
      TwoInPair(fg, c, r, a);
      ExactlyTwo(nodes, a, Partner(fg, a));
    }
    if |nodes| == 2 {
      TwoNodesArePair(fg, c, r, nodes, a);
    }
  }

  lemma ExactlyTwo(nodes: seq<nat>, a: nat, b: nat)
    requires a != b && forall u: nat :: u in nodes <==> u == a || u == b
    requires forall i, j :: 0 <= i < j < |nodes| ==> nodes[i] < nodes[j]
    ensures |nodes| == 2
  {
    assert a in nodes && b in nodes;
    var i, j :| 0 <= i < |nodes| && nodes[i] == a && 0 <= j < |nodes| && nodes[j] == b;
    assert i != j && |nodes| >= 2;
    var last := |nodes| - 1;
    assert nodes[0] in nodes && nodes[1] in nodes && nodes[last] in nodes;
    assert nodes[0] < nodes[1] <= nodes[last];
  }

  lemma TwoNodesArePair(fg: Graph, c: seq<int>, r: nat, nodes: seq<nat>, a: nat)
    requires Cleaned(fg) && IsLabelling(fg, c) && |nodes| == 2 && nodes[0] != nodes[1] && a in nodes
    requires |c| == |fg|
    requires forall u: nat :: u in nodes <==> u < |c| && c[u] == r
    ensures a < |fg| && InPair(fg, a)
  {
    hide IsLabelling, Cleaned, GraphOk;
    var x, y := nodes[0], nodes[1];
    assert x in nodes && y in nodes;
    assert forall u: nat :: u in nodes <==> u == x || u == y;
    PairOfTwo(fg, c, r, x, y);
    PairOfTwo(fg, c, r, y, x);
  }

  lemma TwoInPair(fg: Graph, c: seq<int>, r: nat, a: nat)
    requires Cleaned(fg) && IsLabelling(fg, c) && a < |fg| && c[a] == r && InPair(fg, a)
    ensures forall u: nat :: u < |fg| && c[u] == r <==> u == a || u == Partner(fg, a)
  {
    forall u: nat | u < |fg| && c[u] == r ensures u == a || u == Partner(fg, a) {
      SameLabelIffConnected(fg, c, a, u);
      var es :| IsWalk(fg, a, es) && EndOf(a, es) == u;
      WalkInPair(fg, a, es);
    }
    assert c[fg[a][0].target] == c[a];
  }

  lemma PairOfTwo(fg: Graph, c: seq<int>, r: nat, x: nat, y: nat)
    requires Cleaned(fg) && IsLabelling(fg, c) && x < |fg| && y < |fg|
    requires forall u: nat :: u < |fg| && c[u] == r <==> u == x || u == y
    ensures |fg[x]| == 1 && fg[x][0].target == y
  {
    forall k | 0 <= k < |fg[x]| ensures fg[x][k].target == y {
      assert c[fg[x][k].target] == c[x];
    }
    assert fg[x][|fg[x]| - 1].target == fg[x][0].target;
  }

  // ---------- all components ----------

  /** The locations whose component was handled before label `r`. */
  ghost function DoneBelow(c: seq<int>, r: int): set<nat> {
    set u: nat | u < |c| && c[u] != INVALID && c[u] < r
  }

  lemma DoneGrows(fg: Graph, c: seq<int>, r: nat)
    requires GraphOk(fg) && IsLabelling(fg, c) && r < |fg|
    ensures DoneBelow(c, r + 1) == DoneBelow(c, r) + ToSet(Members(c, r))
    ensures c[r] != r ==> Members(c, r) == []
    ensures forall u :: u in Members(c, r) ==> u !in DoneBelow(c, r) && u < |fg| && fg[u] != []
  {
    MembersExact(c, r);
    hide Members, ClosedUnderEdges, Connected;
    assert Members(c, r) != [] ==> Members(c, r)[0] in Members(c, r);
  }

  lemma ReadyToHandle(fg: Graph, c: seq<int>, r: nat, nodes: seq<nat>)
    requires Cleaned(fg) && IsLabelling(fg, c) && r < |fg| && c[r] == r && nodes == Members(c, r)
    ensures forall k :: 0 <= k < |nodes| ==> nodes[k] !in DoneBelow(c, r) && nodes[k] < |fg|
    ensures forall k :: 0 <= k < |nodes| ==> fg[nodes[k]] != [] && (InPair(fg, nodes[k]) <==> |nodes| == 2)
  {
    MembersExact(c, r);
    forall k | 0 <= k < |nodes|
      ensures nodes[k] !in DoneBelow(c, r) && nodes[k] < |fg|
      ensures fg[nodes[k]] != [] && (InPair(fg, nodes[k]) <==> |nodes| == 2)
    {
      hide Members, Cleaned, InPair;
      assert nodes[k] in nodes;
      PairIffTwo(fg, c, r, nodes[k]);
    }
  }

  lemma TwoAreThePair(fg: Graph, c: seq<int>, r: nat, nodes: seq<nat>)
    requires Cleaned(fg) && IsLabelling(fg, c) && nodes == Members(c, r) && |nodes| == 2
    ensures nodes[0] < |fg| && InPair(fg, nodes[0]) && Partner(fg, nodes[0]) == nodes[1]
    ensures ToSet(nodes) == {nodes[0], nodes[1]}
  {
    MembersExact(c, r);
    hide Members, Cleaned, InPair;
    assert nodes[0] in nodes && nodes[1] in nodes && nodes[0] < nodes[1];
    PairIffTwo(fg, c, r, nodes[0]);
  }

  /** One component: the shortcut for pairs, the closure for all others. */
  method HandleComponent(fg: Graph, tr: seq<nat>, maxLen: nat, r: nat, nodes: seq<nat>, pq: Dial,
                         out: array<seq<Edge>>, inn: array<seq<Edge>>, ghost c: seq<int>)
    requires Cleaned(fg) && |tr| == |fg| && IsLabelling(fg, c) && r < |fg| && c[r] == r
    requires nodes == Members(c, r) && 0 < maxLen <= UNREACHABLE
    requires out != inn && out.Length == inn.Length == |fg|
    requires Progress(fg, tr, maxLen, out[..], DoneBelow(c, r)) && Mirrored(out[..], inn[..])
    modifies pq, out, inn
    ensures Progress(fg, tr, maxLen, out[..], DoneBelow(c, r + 1)) && Mirrored(out[..], inn[..])
  {
    hide IsLabelling, Members, Progress, Mirrored, DoneBelow, InPair, Symmetric, IsComponent, ToSet, IsConnectedRow;
    DoneGrows(fg, c, r);
    MembersAreAComponent(fg, c, r);
    ReadyToHandle(fg, c, r, nodes);
    ghost var done := DoneBelow(c, r);
    if |nodes| == 2 {
      TwoAreThePair(fg, c, r, nodes);
      ProcessPair(fg, tr, maxLen, nodes[0], nodes[1], out, inn, done);
    } else {
      CloseComponent(fg, tr, maxLen, nodes, pq, out, inn, done);
    }
  }

  /** `connect_components`: the out layer is the connected foot graph, the in layer
      its mirror image. */
  method ConnectComponents(fg: Graph, tr: seq<nat>, maxLen: nat) returns (out: array<seq<Edge>>, inn: array<seq<Edge>>)
    requires Cleaned(fg) && |tr| == |fg| && 0 < maxLen <= 0xFF
    ensures fresh(out) && fresh(inn) && out.Length == inn.Length == |fg|
    ensures IsConnected(fg, tr, maxLen, out[..]) && Mirrored(out[..], inn[..])
  {
    hide IsLabelling, Symmetric, Members, Progress, Mirrored, DoneBelow, IsConnected;
    var components := FindComponents(fg);
    ghost var c := components[..];
    out := new seq<Edge>[|fg|](_ => []);
    inn := new seq<Edge>[|fg|](_ => []);
    var pq := new Dial(maxLen);
    Untouched(fg, tr, maxLen, c, out[..], inn[..]);
    for r := 0 to |fg|
      invariant components[..] == c
      invariant Progress(fg, tr, maxLen, out[..], DoneBelow(c, r)) && Mirrored(out[..], inn[..])
    {
      DoneGrows(fg, c, r);
      if components[r] == r {
        var nodes := CollectMembers(components, r);
        HandleComponent(fg, tr, maxLen, r, nodes, pq, out, inn, c);
      } else {
        assert ToSet([]) == {};
        assert DoneBelow(c, r + 1) == DoneBelow(c, r);
      }
    }
    AllDone(fg, tr, maxLen, c, out[..]);
  }

  lemma Untouched(fg: Graph, tr: seq<nat>, maxLen: nat, c: seq<int>, out: seq<seq<Edge>>, inn: seq<seq<Edge>>)
    requires GraphOk(fg) && |tr| == |fg| == |out| == |inn| && IsLabelling(fg, c)
    requires forall a :: 0 <= a < |fg| ==> out[a] == [] && inn[a] == []
    ensures |c| == |fg| && Progress(fg, tr, maxLen, out, DoneBelow(c, 0)) && Mirrored(out, inn)
  {
    assert DoneBelow(c, 0) == {};
  }

  lemma AllDone(fg: Graph, tr: seq<nat>, maxLen: nat, c: seq<int>, out: seq<seq<Edge>>)
    requires GraphOk(fg) && |tr| == |fg| && IsLabelling(fg, c) && Progress(fg, tr, maxLen, out, DoneBelow(c, |fg|))
    ensures IsConnected(fg, tr, maxLen, out)
  {
    hide IsClosureRow, InPair;
    forall a: nat | a < |out| ensures IsConnectedRow(fg, tr, maxLen, a, out[a]) {
      if fg[a] != [] {
        assert a in DoneBelow(c, |fg|);
      }
    }
  }

  // ---------- writing the final layers ----------

  /** A row of the final out layer: the cheapest edge per target, shortest first. */
  ghost predicate IsFinalRow(es: seq<Edge>, row: seq<Edge>) {
    StrictlySorted(row, ByDuration) && OnePerTarget(row) && forall e :: e in row <==> Cheapest(es, e)
  }

  /** A row of the final in layer: exactly the final footpaths that lead to `b`,
      shortest first. */
  ghost predicate IsTransposedRow(out: seq<seq<Edge>>, b: nat, row: seq<Edge>) {
    && StrictlySorted(row, ByDuration)
    && forall a: nat, d: nat :: Edge(a, d) in row <==> a < |out| && Edge(b, d) in out[a]
  }

  /** `write_footpaths` */
  method WriteFootpaths(out: seq<seq<Edge>>) returns (footpathsOut: seq<seq<Edge>>, footpathsIn: seq<seq<Edge>>)
    requires GraphOk(out)
    ensures |footpathsOut| == |footpathsIn| == |out|
    ensures forall a :: 0 <= a < |out| ==> IsFinalRow(out[a], footpathsOut[a])
    ensures forall b :: 0 <= b < |out| ==> IsTransposedRow(footpathsOut, b, footpathsIn[b])
  {
    hide IsFinalRow, GraphOk, IsTransposedRow, Incoming;
    var incoming := new seq<Edge>[|out|](_ => []);
    NothingIncoming(incoming[..]);
    footpathsOut := [];
    for a := 0 to |out|
      invariant |footpathsOut| == a && GraphOk(out)
      invariant forall i :: 0 <= i < a ==> IsFinalRow(out[i], footpathsOut[i])
      invariant Incoming(footpathsOut, incoming[..])
    {
      var row := FinalRow(out[a]);
      FinalRowInRange(out, a, row);
      FinalRowIsSorted(out[a], row);
      TransposeRow(footpathsOut, row, incoming);
      footpathsOut := footpathsOut + [row];
    }
    footpathsIn := [];
    for b := 0 to |out|
      invariant |footpathsIn| == b && Incoming(footpathsOut, incoming[..])
      invariant forall i :: 0 <= i < b ==> IsTransposedRow(footpathsOut, i, footpathsIn[i])
    {
      var row := SortIncoming(footpathsOut, incoming, b);
      footpathsIn := footpathsIn + [row];
    }
  }

  method SortIncoming(ghost out: seq<seq<Edge>>, incoming: array<seq<Edge>>, b: nat) returns (row: seq<Edge>)
    requires Incoming(out, incoming[..]) && b < incoming.Length
    ensures IsTransposedRow(out, b, row)
  {
    BothAreTotalOrders();
    row := Sort(incoming[b], ByDuration);
    SameMembers(row, incoming[b]);
    assert AscendingTargets(incoming[..][b]);
    StrictIfAscending(incoming[b], row, ByDuration);
  }

  method FinalRow(es: seq<Edge>) returns (row: seq<Edge>)
    ensures IsFinalRow(es, row)
  {
    BothAreTotalOrders();
    var shortest := ShortestPerTarget(es);
    row := Sort(shortest, ByDuration);
    SameMembers(row, shortest);
    StrictIfAscending(shortest, row, ByDuration);
  }

  lemma NothingIncoming(incoming: seq<seq<Edge>>)
    requires forall b :: 0 <= b < |incoming| ==> incoming[b] == []
    ensures Incoming([], incoming)
  {
  }

  lemma FinalRowIsSorted(es: seq<Edge>, row: seq<Edge>)
    requires IsFinalRow(es, row)
    ensures OnePerTarget(row) && StrictlySorted(row, ByDuration)
  {
  }

  lemma FinalRowInRange(out: seq<seq<Edge>>, a: nat, row: seq<Edge>)
    requires GraphOk(out) && a < |out| && IsFinalRow(out[a], row)
    ensures forall e :: e in row ==> e.target < |out|
  {
    forall e | e in row ensures e.target < |out| {
      var k :| 0 <= k < |out[a]| && out[a][k] == e;
    }
  }

  /** While the in layer is collected: exactly the edges of the rows so far, their
      sources ascending. */
  ghost predicate Incoming(out: seq<seq<Edge>>, incoming: seq<seq<Edge>>) {
    && (forall b :: 0 <= b < |incoming| ==> AscendingTargets(incoming[b]))
    && (forall a: nat, b: nat, d: nat :: b < |incoming| ==>
          (Edge(a, d) in incoming[b] <==> a < |out| && Edge(b, d) in out[a]))
  }

  /** Appends one row's edges to the lists of their targets. */
  method TransposeRow(out: seq<seq<Edge>>, row: seq<Edge>, incoming: array<seq<Edge>>)
    requires Incoming(out, incoming[..]) && OnePerTarget(row) && StrictlySorted(row, ByDuration)
    requires forall e :: e in row ==> e.target < incoming.Length
    modifies incoming
    ensures Incoming(out + [row], incoming[..])
  {
    hide Incoming;
    var a := |out|;
    assert row[..0] == [];
    IncomingStart(out, incoming[..]);
    for k := 0 to |row|
      invariant Incoming(out + [row[..k]], incoming[..])
    {
      assert row[k] in row;
      ghost var before := incoming[..];
      incoming[row[k].target] := incoming[row[k].target] + [Edge(a, row[k].duration)];
      IncomingStep(out, row, k, before);
    }
    assert row[..|row|] == row;
  }

  lemma IncomingStart(out: seq<seq<Edge>>, incoming: seq<seq<Edge>>)
    requires Incoming(out, incoming)
    ensures Incoming(out + [[]], incoming)
  {
  }

  lemma IncomingStep(out: seq<seq<Edge>>, row: seq<Edge>, k: nat, incoming: seq<seq<Edge>>)
    requires k < |row| && Incoming(out + [row[..k]], incoming) && row[k].target < |incoming|
    requires OnePerTarget(row) && StrictlySorted(row, ByDuration)
    ensures Incoming(out + [row[..k + 1]],
                     incoming[row[k].target := incoming[row[k].target] + [Edge(|out|, row[k].duration)]])
  {
    var t, e := row[k].target, Edge(|out|, row[k].duration);
    var out', incoming' := out + [row[..k + 1]], incoming[t := incoming[t] + [e]];
    assert row[..k + 1] == row[..k] + [row[k]];
    NotAgain(row, k);
    forall i | 0 <= i < |incoming[t]| ensures incoming[t][i].target < |out| {
      var f := incoming[t][i];
      assert Edge(f.target, f.duration) in incoming[t];
      assert Edge(t, f.duration) !in row[..k];
    }
    AppendAscending(incoming[t], e);
    forall a: nat, b: nat, d: nat | b < |incoming|
      ensures Edge(a, d) in incoming'[b] <==> a < |out'| && Edge(b, d) in out'[a]
    {
      assert Edge(a, d) in incoming[b] <==> a < |out'| && Edge(b, d) in (out + [row[..k]])[a];
    }
  }

  lemma NotAgain(row: seq<Edge>, k: nat)
    requires k < |row| && OnePerTarget(row) && StrictlySorted(row, ByDuration)
    ensures forall f :: f in row[..k] ==> f.target != row[k].target
  {
    forall j | 0 <= j < k ensures row[j].target != row[k].target {
      assert row[j] in row && row[k] in row && ByDuration(row[j], row[k]);
    }
  }

  // ---------- the final layers ----------

  /** The final out row of `a`, shortest first: nothing, the pair's footpath or the
      closure of the raw graph. */
  ghost predicate IsClosedRow(fg: Graph, tr: seq<nat>, maxLen: nat, a: nat, row: seq<Edge>)
    requires GraphOk(fg) && |tr| == |fg| && a < |fg|
  {
    && StrictlySorted(row, ByDuration) && OnePerTarget(row)
    && if fg[a] == [] then row == []
       else if InPair(fg, a) then row == [Edge(Partner(fg, a), Raise(tr, a, Partner(fg, a), fg[a][0].duration))]
       else forall e :: e in row <==> ClosureEdge(fg, tr, maxLen, a, e)
  }

  lemma ConnectedRowsStay(fg: Graph, tr: seq<nat>, maxLen: nat, a: nat, row: seq<Edge>, final: seq<Edge>)
    requires GraphOk(fg) && |tr| == |fg| && a < |fg|
    requires IsConnectedRow(fg, tr, maxLen, a, row) && IsFinalRow(row, final)
    ensures IsClosedRow(fg, tr, maxLen, a, final)
  {
    hide InPair, Partner, Raise, ClosureEdge;
    assert AscendingTargets(row);
    forall e, f | e in row && f in row && e.target == f.target ensures e == f {
      var i, j :| 0 <= i < |row| && row[i] == e && 0 <= j < |row| && row[j] == f;
    }
    assert forall e :: e in final <==> e in row;
    if |row| == 1 {
      assert row[0] in final;
      assert forall k :: 0 <= k < |final| ==> final[k] in final;
      assert |final| > 1 ==> ByDuration(final[0], final[1]);
    }
  }

  /** Raw footpaths to final layers: the out layer is the connected foot graph and
      the in layer its transpose. */
  method BuildFootpaths(fg: Graph, tr: seq<nat>, maxLen: nat) returns (footpathsOut: seq<seq<Edge>>, footpathsIn: seq<seq<Edge>>)
    requires Cleaned(fg) && |tr| == |fg| && 0 < maxLen <= 0xFF
    ensures |footpathsOut| == |footpathsIn| == |fg|
    ensures forall a :: 0 <= a < |fg| ==> IsClosedRow(fg, tr, maxLen, a, footpathsOut[a])
    ensures forall b :: 0 <= b < |fg| ==> IsTransposedRow(footpathsOut, b, footpathsIn[b])
  {
    hide IsConnectedRow, IsFinalRow, IsClosedRow, IsTransposedRow, Symmetric;
    var out, inn := ConnectComponents(fg, tr, maxLen);
    footpathsOut, footpathsIn := WriteFootpaths(out[..]);
    forall a | 0 <= a < |fg| ensures IsClosedRow(fg, tr, maxLen, a, footpathsOut[a]) {
      ConnectedRowsStay(fg, tr, maxLen, a, out[..][a], footpathsOut[a]);
    }
  }

  // ---------- what the final layers mean for the raw footpaths ----------

  /** A raw footpath, whichever way it was given, that takes at most `m` like the
      transfers at both its ends has a final footpath of at most `m`: always within a
      pair, below the limit elsewhere. */
  lemma RawFootpathIsKept(fg: Graph, tr: seq<nat>, maxLen: nat, a: nat, b: nat, raw: nat, m: nat, row: seq<Edge>) returns (z: nat)
    requires Cleaned(fg) && |tr| == |fg| && a < |fg| && b < |fg| && IsClosedRow(fg, tr, maxLen, a, row)
    requires tr[a] <= m && tr[b] <= m && raw <= m
    requires if InPair(fg, a) then Edge(b, raw) in fg[a] else m < maxLen && (Edge(b, raw) in fg[a] || Edge(a, raw) in fg[b])
    ensures z <= m && Edge(b, z) in row
  {
    var d := Raise(tr, a, b, raw);
    assert RaisedFrom(fg, tr, a, b, d, raw);
    NeighbourEitherWay(fg, tr, a, b, d);
    if InPair(fg, a) {
      z := d;
    } else {
      EdgeIsWalkable(fg, tr, a, b, d);
      z := ShortestExists(fg, tr, a, b, d);
    }
  }

  /** The final footpath of a pair takes as long as the longest of three: its own raw
      direction and the transfers at both ends. */
  lemma PairTakesTheLongest(fg: Graph, tr: seq<nat>, maxLen: nat, a: nat, row: seq<Edge>)
    requires Cleaned(fg) && |tr| == |fg| && a < |fg| && InPair(fg, a) && IsClosedRow(fg, tr, maxLen, a, row)
    ensures |row| == 1 && row[0].target == fg[a][0].target
    ensures var b, d := row[0].target, row[0].duration;
      tr[a] <= d && tr[b] <= d && fg[a][0].duration <= d && d in {tr[a], tr[b], fg[a][0].duration}
  {
  }

  /** One step along a raw footpath, whichever way it was given. */
  ghost predicate RawStep(fg: Graph, a: nat, e: Edge) {
    a < |fg| && e.target < |fg| && (e in fg[a] || Edge(a, e.duration) in fg[e.target])
  }

  /** Steps along raw footpaths from `a` to `b`, each with the time it is given: what
      the longest of the footpath and the transfers at its ends takes. */
  ghost predicate IsRawWay(fg: Graph, tr: seq<nat>, a: nat, b: nat, steps: seq<Edge>, times: seq<nat>)
    requires |tr| == |fg|
    decreases |steps|
  {
    |steps| == |times| &&
    if steps == [] then a == b
    else
      var e, d := steps[0], times[0];
      && RawStep(fg, a, e) && tr[a] <= d && tr[e.target] <= d && e.duration <= d && d in {tr[a], tr[e.target], e.duration}
      && IsRawWay(fg, tr, e.target, b, steps[1..], times[1..])
  }

  function Sum(times: seq<nat>): nat { if times == [] then 0 else times[0] + Sum(times[1..]) }

  lemma {:induction false} WalkIsRawWay(fg: Graph, tr: seq<nat>, a: nat, es: seq<Edge>) returns (steps: seq<Edge>, times: seq<nat>)
    requires |tr| == |fg| && FootWalk(fg, tr, a, es)
    ensures IsRawWay(fg, tr, a, EndOf(a, es), steps, times) && Sum(times) == Length(es)
    decreases |es|
  {
    if es == [] {
      steps, times := [], [];
    } else {
      var raw: nat :| RaisedFrom(fg, tr, a, es[0].target, es[0].duration, raw);
      var rest, restTimes := WalkIsRawWay(fg, tr, es[0].target, es[1..]);
      steps, times := [Edge(es[0].target, raw)] + rest, [es[0].duration] + restTimes;
      assert steps[1..] == rest && times[1..] == restTimes;
    }
  }

  lemma {:induction false} RawWayIsWalk(fg: Graph, tr: seq<nat>, a: nat, b: nat, steps: seq<Edge>, times: seq<nat>)
    requires |tr| == |fg| && a < |fg| && IsRawWay(fg, tr, a, b, steps, times)
    ensures Walkable(fg, tr, a, b, Sum(times))
    decreases |steps|
  {
    if steps == [] {
      assert FootWalk(fg, tr, a, []) && EndOf(a, []) == a;
    } else {
      var e := steps[0];
      RawWayIsWalk(fg, tr, e.target, b, steps[1..], times[1..]);
      assert RaisedFrom(fg, tr, a, e.target, times[0], e.duration);
      EdgeIsWalkable(fg, tr, a, e.target, times[0]);
      WalkableCompose(fg, tr, a, e.target, b, times[0], Sum(times[1..]));
    }
  }

  /** Some way along raw footpaths takes `d` minutes. */
  ghost predicate RawWayTakes(fg: Graph, tr: seq<nat>, a: nat, b: nat, d: nat)
    requires |tr| == |fg|
  {
    exists steps, times :: IsRawWay(fg, tr, a, b, steps, times) && Sum(times) == d
  }

  /** Outside pairs a final footpath takes exactly as long as the quickest way along
      raw footpaths, and there is one exactly if that way stays below the limit. */
  lemma FinalFootpathsAreQuickestWays(fg: Graph, tr: seq<nat>, maxLen: nat, a: nat, row: seq<Edge>)
    requires Cleaned(fg) && |tr| == |fg| && a < |fg| && fg[a] != [] && !InPair(fg, a) && IsClosedRow(fg, tr, maxLen, a, row)
    ensures forall e :: e in row ==> RawWayTakes(fg, tr, a, e.target, e.duration)
    ensures forall b: nat, d: nat :: b != a && RawWayTakes(fg, tr, a, b, d) && d < maxLen ==>
      exists z: nat :: z <= d && Edge(b, z) in row
  {
    ClosedRowIs(fg, tr, maxLen, a, row);
    hide Cleaned, InPair, IsRawWay, Sum, FootWalk, IsClosedRow;
    forall e | e in row ensures RawWayTakes(fg, tr, a, e.target, e.duration) {
      assert ClosureEdge(fg, tr, maxLen, a, e);
      var es: seq<Edge> :| FootWalk(fg, tr, a, es) && EndOf(a, es) == e.target && Length(es) == e.duration;
      var steps, times := WalkIsRawWay(fg, tr, a, es);
    }
    forall b: nat, d: nat | b != a && RawWayTakes(fg, tr, a, b, d) && d < maxLen
      ensures exists z: nat :: z <= d && Edge(b, z) in row
    {
      var steps, times :| IsRawWay(fg, tr, a, b, steps, times) && Sum(times) == d;
      RawWayIsWalk(fg, tr, a, b, steps, times);
      var z := ShortestExists(fg, tr, a, b, d);
      assert ClosureEdge(fg, tr, maxLen, a, Edge(b, z));
    }
  }

  lemma ClosedRowIs(fg: Graph, tr: seq<nat>, maxLen: nat, a: nat, row: seq<Edge>)
    requires GraphOk(fg) && |tr| == |fg| && a < |fg| && fg[a] != [] && !InPair(fg, a) && IsClosedRow(fg, tr, maxLen, a, row)
    ensures forall e :: e in row <==> ClosureEdge(fg, tr, maxLen, a, e)
  {
  }
}
