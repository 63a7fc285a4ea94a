/** Dijkstra's search with lazy deletion, a distance cut-off and an optional
    second edge list per node (real-time edges). */
module Dijkstra {
  import opened Basics
  import opened Dial

  const UNREACHABLE := 0xFFFF

  datatype Edge = Edge(target: nat, duration: nat)

  type Graph = seq<seq<Edge>>

  /** Real-time lists only count where the node's flag is set. */
  datatype Overlay = NoOverlay | Overlay(hasRt: seq<bool>, rt: Graph)

  predicate GraphOk(g: Graph) {
    forall v, i :: 0 <= v < |g| && 0 <= i < |g[v]| ==> g[v][i].target < |g|
  }

  predicate OverlayOk(o: Overlay, n: nat) {
    o.NoOverlay? || (|o.hasRt| == n && |o.rt| == n && GraphOk(o.rt))
  }

  /** All edges leaving a node, static ones first. */
  function EdgesOf(g: Graph, o: Overlay, v: nat): (es: seq<Edge>)
    requires v < |g| && OverlayOk(o, |g|)
    ensures forall e :: e in es <==> e in g[v] || (o.Overlay? && o.hasRt[v] && e in o.rt[v])
  {
    if o.NoOverlay? || !o.hasRt[v] then g[v] else g[v] + o.rt[v]
  }

  /** The union of static and real-time edges. */
  function Union(g: Graph, o: Overlay): (u: Graph)
    requires GraphOk(g) && OverlayOk(o, |g|)
    ensures |u| == |g| && GraphOk(u)
    ensures forall v :: 0 <= v < |g| ==> u[v] == EdgesOf(g, o, v)
  {
    seq(|g|, v requires 0 <= v < |g| => EdgesOf(g, o, v))
  }

  // ---------- walks ----------

  /** `es` is a walk that starts in `u`. */
  ghost predicate IsWalk(g: Graph, u: nat, es: seq<Edge>)
    decreases |es|
  {
    u < |g| && (es != [] ==> es[0] in g[u] && IsWalk(g, es[0].target, es[1..]))
  }

  function EndOf(u: nat, es: seq<Edge>): nat {
    if es == [] then u else es[|es| - 1].target
  }

  function Length(es: seq<Edge>): nat {
    if es == [] then 0 else es[0].duration + Length(es[1..])
  }

  lemma {:induction false} WalkExtends(g: Graph, u: nat, es: seq<Edge>, e: Edge)
    requires GraphOk(g) && IsWalk(g, u, es) && EndOf(u, es) < |g| && e in g[EndOf(u, es)]
    ensures IsWalk(g, u, es + [e]) && EndOf(u, es + [e]) == e.target
    ensures Length(es + [e]) == Length(es) + e.duration
    decreases |es|
  {
    if es == [] {
      assert [e][1..] == [];
      assert e.target < |g|;
    } else {
      WalkExtends(g, es[0].target, es[1..], e);
      assert (es + [e])[1..] == es[1..] + [e];
    }
  }

  lemma {:induction false} WalksJoin(g: Graph, u: nat, a: seq<Edge>, b: seq<Edge>)
    requires IsWalk(g, u, a) && IsWalk(g, EndOf(u, a), b)
    ensures IsWalk(g, u, a + b) && EndOf(u, a + b) == EndOf(EndOf(u, a), b)
    ensures Length(a + b) == Length(a) + Length(b)
    decreases |a|
  {
    if a == [] {
      assert a + b == b;
    } else {
      WalksJoin(g, a[0].target, a[1..], b);
      assert (a + b)[1..] == a[1..] + b;
    }
  }

  ghost predicate LeadsWithin(g: Graph, u: nat, v: nat, d: nat, es: seq<Edge>) {
    IsWalk(g, u, es) && EndOf(u, es) == v && Length(es) <= d
  }

  /** Some walk from `u` to `v` takes at most `d`. */
  ghost predicate Within(g: Graph, u: nat, v: nat, d: nat) {
    exists es :: LeadsWithin(g, u, v, d, es)
  }

  // ---------- what the search promises ----------

  /** Start label `l` followed by the walk `es` is in `v` at distance `d`. */
  ghost predicate ReachedBy(g: Graph, start: multiset<Label>, v: nat, d: nat, l: Label, es: seq<Edge>) {
    l in start && IsWalk(g, l.node, es) && EndOf(l.node, es) == v && l.dist + Length(es) == d
  }

  ghost predicate Attained(g: Graph, start: multiset<Label>, v: nat, d: nat) {
    exists l, es :: ReachedBy(g, start, v, d, l, es)
  }

  /** The distances are exact below `cut`: a changed entry is attained by a start
      label and a walk, and no start label with a walk shorter than `cut` is
      faster than the entry of the node it leads to. */
  ghost predicate ExactBelow(g: Graph, start: multiset<Label>, dists0: seq<nat>, dists: seq<nat>, cut: nat)
    requires |dists0| == |dists| == |g|
  {
    && (forall v :: 0 <= v < |dists| && dists[v] != dists0[v] ==>
          dists[v] < dists0[v] && dists[v] < cut && Attained(g, start, v, dists[v]))
    && (forall l, es :: l in start && IsWalk(g, l.node, es) && l.dist + Length(es) < cut ==>
          EndOf(l.node, es) < |g| && dists[EndOf(l.node, es)] <= l.dist + Length(es))
  }

  /** The queue mirrors the entries below the cut-off: no label is better than its
      node's entry and every such entry has its label. */
  ghost predicate Seeded(dists: seq<nat>, queue: multiset<Label>, cut: nat) {
    && (forall l :: l in queue ==> l.node < |dists| && dists[l.node] <= l.dist)
    && (forall v :: 0 <= v < |dists| && dists[v] < cut ==> Label(v, dists[v]) in queue)
  }

  // ---------- the invariant ----------

  ghost predicate RelaxedEdge(e: Edge, d: nat, dists: seq<nat>, cut: nat) {
    e.target < |dists| && (d + e.duration < cut ==> dists[e.target] <= d + e.duration)
  }

  ghost predicate Relaxed(es: seq<Edge>, d: nat, dists: seq<nat>, cut: nat) {
    forall i :: 0 <= i < |es| ==> RelaxedEdge(es[i], d, dists, cut)
  }

  /** Every node below the cut-off waits in the queue or has its edges relaxed;
      node `except` may be in the middle of it. */
  ghost predicate Settled(g: Graph, dists: seq<nat>, queue: multiset<Label>, cut: nat, except: int)
    requires |dists| == |g|
  {
    forall v :: 0 <= v < |dists| && v != except && dists[v] < cut ==>
      Label(v, dists[v]) in queue || Relaxed(g[v], dists[v], dists, cut)
  }

  ghost predicate QueueSound(g: Graph, start: multiset<Label>, dists: seq<nat>, queue: multiset<Label>) {
    forall l :: l in queue ==> l.node < |dists| && dists[l.node] <= l.dist && Attained(g, start, l.node, l.dist)
  }

  ghost predicate DistsSound(g: Graph, start: multiset<Label>, dists0: seq<nat>, dists: seq<nat>, cut: nat) {
    && |dists| == |dists0|
    && forall v :: 0 <= v < |dists| && dists[v] != dists0[v] ==>
         dists[v] < dists0[v] && dists[v] < cut && Attained(g, start, v, dists[v])
  }

  ghost predicate Invariant(g: Graph, start: multiset<Label>, dists0: seq<nat>, dists: seq<nat>,
                            queue: multiset<Label>, cut: nat, except: int)
  {
    && |dists| == |g|
    && DistsSound(g, start, dists0, dists, cut)
    && QueueSound(g, start, dists, queue)
    && Settled(g, dists, queue, cut, except)
  }

  function Sum(s: seq<nat>): nat { if s == [] then 0 else Sum(s[..|s| - 1]) + s[|s| - 1] }

  lemma {:induction false} SumDecreases(s: seq<nat>, i: nat, x: nat)
    requires i < |s| && x < s[i]
    ensures Sum(s[i := x]) < Sum(s)
  {
    if i < |s| - 1 {
      SumDecreases(s[..|s| - 1], i, x);
      assert s[i := x][..|s| - 1] == s[..|s| - 1][i := x];
    } else {
      assert s[i := x][..|s| - 1] == s[..|s| - 1];
    }
  }

  lemma StartIsAttained(g: Graph, start: multiset<Label>, l: Label)
    requires l in start && l.node < |g|
    ensures Attained(g, start, l.node, l.dist)
  {
    assert ReachedBy(g, start, l.node, l.dist, l, []);
  }

  lemma AttainedExtends(g: Graph, start: multiset<Label>, v: nat, d: nat, e: Edge)
    requires GraphOk(g) && v < |g| && Attained(g, start, v, d) && e in g[v]
    ensures Attained(g, start, e.target, d + e.duration)
  {
    var l, es :| ReachedBy(g, start, v, d, l, es);
    WalkExtends(g, l.node, es, e);
    assert ReachedBy(g, start, e.target, d + e.duration, l, es + [e]);
  }

  /** Lowering one entry and queueing it keeps the invariant. */
  lemma LoweringKeeps(g: Graph, start: multiset<Label>, dists0: seq<nat>, dists: seq<nat>,
                      queue: multiset<Label>, cut: nat, except: int, t: nat, nd: nat)
    requires Invariant(g, start, dists0, dists, queue, cut, except)
    requires t < |dists| && nd < dists[t] && nd < cut && Attained(g, start, t, nd)
    ensures Invariant(g, start, dists0, dists[t := nd], queue + multiset{Label(t, nd)}, cut, except)
  {
    var dists', queue' := dists[t := nd], queue + multiset{Label(t, nd)};
    forall v | 0 <= v < |dists| && v != except && dists'[v] < cut
      ensures Label(v, dists'[v]) in queue' || Relaxed(g[v], dists'[v], dists', cut)
    {
      if v != t && Label(v, dists[v]) !in queue {
        forall i | 0 <= i < |g[v]| ensures RelaxedEdge(g[v][i], dists[v], dists', cut) {
          assert RelaxedEdge(g[v][i], dists[v], dists, cut);
        }
      }
    }
  }

  /** Once the queue is empty, every node's edges are relaxed, and so is every walk. */
  lemma {:induction false} WalksAreBounded(g: Graph, dists: seq<nat>, cut: nat, u: nat, d: nat, es: seq<Edge>)
    requires GraphOk(g) && |dists| == |g| && Settled(g, dists, multiset{}, cut, -1)
    requires IsWalk(g, u, es) && dists[u] <= d && d + Length(es) < cut
    ensures EndOf(u, es) < |g| && dists[EndOf(u, es)] <= d + Length(es)
    decreases |es|
  {
    if es != [] {
      var i :| 0 <= i < |g[u]| && g[u][i] == es[0];
      assert RelaxedEdge(g[u][i], dists[u], dists, cut);
      WalksAreBounded(g, dists, cut, es[0].target, d + es[0].duration, es[1..]);
    }
  }

  // ---------- the loops ----------

  /** `expand` for a single edge. */
  method Expand(pq: Dial, dists: array<nat>, d: nat, e: Edge, maxDist: nat)
    requires pq.Valid() && e.target < dists.Length
    modifies pq, dists
    ensures pq.Valid() && |pq.buckets| == old(|pq.buckets|)
    ensures var t, nd := e.target, d + e.duration;
      if nd < old(dists[t]) && nd < |pq.buckets| && nd < maxDist
      then dists[..] == old(dists[..])[t := nd] && pq.Labels() == old(pq.Labels()) + multiset{Label(t, nd)}
      else dists[..] == old(dists[..]) && pq.Labels() == old(pq.Labels())
  {
    var newDist := d + e.duration;
    if newDist < dists[e.target] && newDist < |pq.buckets| && newDist < maxDist {
      dists[e.target] := newDist;
      pq.Push(Label(e.target, newDist));
    }
  }

  /** While the edges of `u` are relaxed: the first `k` of `es` are done, and
      either some distance got smaller or nothing changed at all. */
  ghost predicate Expanding(g: Graph, start: multiset<Label>, dists0: seq<nat>, cut: nat,
                            es: seq<Edge>, k: nat, u: nat, d: nat,
                            before: seq<nat>, queued: multiset<Label>, dists: seq<nat>, queue: multiset<Label>)
    requires k <= |es|
  {
    && Invariant(g, start, dists0, dists, queue, cut, u)
    && u < |dists| == |g| && dists[u] == d && Relaxed(es[..k], d, dists, cut)
    && (Sum(dists) < Sum(before) || (dists == before && queue == queued))
  }

  lemma ExpandingAtStart(g: Graph, start: multiset<Label>, dists0: seq<nat>, cut: nat,
                         es: seq<Edge>, u: nat, d: nat, dists: seq<nat>, queue: multiset<Label>)
    requires Invariant(g, start, dists0, dists, queue, cut, u) && u < |dists| && dists[u] == d
    ensures Expanding(g, start, dists0, cut, es, 0, u, d, dists, queue, dists, queue)
  {
  }

  /** With all edges relaxed the node is settled like any other. */
  lemma NodeDone(g: Graph, start: multiset<Label>, dists0: seq<nat>, cut: nat, es: seq<Edge>, u: nat, d: nat,
                 before: seq<nat>, queued: multiset<Label>, dists: seq<nat>, queue: multiset<Label>)
    requires u < |g| && es == g[u]
    requires Expanding(g, start, dists0, cut, es, |es|, u, d, before, queued, dists, queue)
    ensures Invariant(g, start, dists0, dists, queue, cut, -1)
    ensures Sum(dists) < Sum(before) || (dists == before && queue == queued)
  {
    assert es[..|es|] == es;
  }

  lemma ExpandingStep(g: Graph, start: multiset<Label>, dists0: seq<nat>, cut: nat,
                      es: seq<Edge>, k: nat, u: nat, d: nat, before: seq<nat>, queued: multiset<Label>,
                      dists: seq<nat>, queue: multiset<Label>, dists': seq<nat>, queue': multiset<Label>)
    requires GraphOk(g) && k < |es| && es[k].target < |dists|
    requires Expanding(g, start, dists0, cut, es, k, u, d, before, queued, dists, queue)
    requires es[k] in g[u] && Attained(g, start, u, d)
    requires var t, nd := es[k].target, d + es[k].duration;
      if nd < dists[t] && nd < cut
      then dists' == dists[t := nd] && queue' == queue + multiset{Label(t, nd)}
      else dists' == dists && queue' == queue
    ensures Expanding(g, start, dists0, cut, es, k + 1, u, d, before, queued, dists', queue')
  {
    hide Invariant, Attained;
    var t, nd := es[k].target, d + es[k].duration;
    if nd < dists[t] && nd < cut {
      AttainedExtends(g, start, u, d, es[k]);
      LoweringKeeps(g, start, dists0, dists, queue, cut, u, t, nd);
      SumDecreases(dists, t, nd);
    }
    RelaxedGrows(es, k, d, dists, dists', cut);
  }

  lemma RelaxedGrows(es: seq<Edge>, k: nat, d: nat, dists: seq<nat>, dists': seq<nat>, cut: nat)
    requires k < |es| && |dists| == |dists'| && Relaxed(es[..k], d, dists, cut)
    requires forall v :: 0 <= v < |dists| ==> dists'[v] <= dists[v]
    requires es[k].target < |dists| && (d + es[k].duration < cut ==> dists'[es[k].target] <= d + es[k].duration)
    ensures Relaxed(es[..k + 1], d, dists', cut)
  {
    var done := es[..k + 1];
    forall i | 0 <= i < |done| ensures RelaxedEdge(done[i], d, dists', cut) {
      if i < k {
        assert RelaxedEdge(es[..k][i], d, dists, cut);
      }
    }
  }

  /** `expand` for all edges in a list that leaves `u`. */
  method ExpandAll(pq: Dial, dists: array<nat>, es: seq<Edge>, u: nat, d: nat, maxDist: nat,
                   ghost g: Graph, ghost start: multiset<Label>, ghost dists0: seq<nat>)
    requires pq.Valid() && GraphOk(g) && u < |g| == dists.Length && forall e :: e in es ==> e in g[u]
    requires Attained(g, start, u, d) && dists[u] == d
    requires Invariant(g, start, dists0, dists[..], pq.Labels(), Min(|pq.buckets|, maxDist), u)
    modifies pq, dists
    ensures pq.Valid() && |pq.buckets| == old(|pq.buckets|)
    ensures Expanding(g, start, dists0, Min(|pq.buckets|, maxDist), es, |es|, u, d,
                      old(dists[..]), old(pq.Labels()), dists[..], pq.Labels())
  {
    hide Invariant, Expanding, Attained;
    ghost var cut := Min(|pq.buckets|, maxDist);
    ExpandingAtStart(g, start, dists0, cut, es, u, d, dists[..], pq.Labels());
    for k := 0 to |es|
      invariant pq.Valid() && |pq.buckets| == old(|pq.buckets|)
      invariant Expanding(g, start, dists0, cut, es, k, u, d,
                          old(dists[..]), old(pq.Labels()), dists[..], pq.Labels())
    {
      assert es[k] in es;
      ghost var i :| 0 <= i < |g[u]| && g[u][i] == es[k];
      ghost var ds, labels := dists[..], pq.Labels();
      Expand(pq, dists, d, es[k], maxDist);
      ExpandingStep(g, start, dists0, cut, es, k, u, d, old(dists[..]), old(pq.Labels()),
                    ds, labels, dists[..], pq.Labels());
    }
  }

  lemma InvariantAtStart(g: Graph, dists: seq<nat>, queue: multiset<Label>, cut: nat)
    requires |dists| == |g| && Seeded(dists, queue, cut)
    ensures Invariant(g, queue, dists, dists, queue, cut, -1)
  {
    forall l | l in queue ensures Attained(g, queue, l.node, l.dist) {
      StartIsAttained(g, queue, l);
    }
  }

  lemma TakenOut(g: Graph, start: multiset<Label>, dists0: seq<nat>, dists: seq<nat>,
                 queue: multiset<Label>, cut: nat, l: Label)
    requires Invariant(g, start, dists0, dists, queue, cut, -1) && l in queue
    ensures Invariant(g, start, dists0, dists, queue - multiset{l}, cut,
                      if dists[l.node] == l.dist then l.node else -1)
  {
    var except := if dists[l.node] == l.dist then l.node else -1;
    forall v | 0 <= v < |dists| && v != except && dists[v] < cut
      ensures Label(v, dists[v]) in queue - multiset{l} || Relaxed(g[v], dists[v], dists, cut)
    {
      assert Label(v, dists[v]) != l;
    }
  }

  lemma EmptyQueueIsExact(g: Graph, start: multiset<Label>, dists0: seq<nat>, dists: seq<nat>, cut: nat)
    requires GraphOk(g) && |dists0| == |g| && Invariant(g, start, dists0, dists, multiset{}, cut, -1)
    requires Seeded(dists0, start, cut)
    ensures ExactBelow(g, start, dists0, dists, cut)
  {
    forall l, es | l in start && IsWalk(g, l.node, es) && l.dist + Length(es) < cut
      ensures EndOf(l.node, es) < |g| && dists[EndOf(l.node, es)] <= l.dist + Length(es)
    {
      assert dists[l.node] <= dists0[l.node] <= l.dist;
      WalksAreBounded(g, dists, cut, l.node, l.dist, es);
    }
  }

  /** The search: takes labels in order, drops outdated ones, relaxes the static
      and then the real-time edges of the others. */
  method Search(graph: Graph, overlay: Overlay, pq: Dial, dists: array<nat>, maxDist: nat)
    requires GraphOk(graph) && OverlayOk(overlay, |graph|) && dists.Length == |graph|
    requires pq.Valid() && Seeded(dists[..], pq.Labels(), Min(|pq.buckets|, maxDist))
    modifies pq, dists
    ensures pq.Valid() && pq.Labels() == multiset{} && |pq.buckets| == old(|pq.buckets|)
    ensures ExactBelow(Union(graph, overlay), old(pq.Labels()), old(dists[..]), dists[..], Min(|pq.buckets|, maxDist))
  {
    hide Invariant, Expanding, ExactBelow, Attained, Sum;
    ghost var g, start, dists0 := Union(graph, overlay), pq.Labels(), dists[..];
    ghost var cut := Min(|pq.buckets|, maxDist);
    InvariantAtStart(g, dists0, start, cut);
    var empty := pq.Empty();
    while !empty
      invariant pq.Valid() && |pq.buckets| == old(|pq.buckets|)
      invariant Invariant(g, start, dists0, dists[..], pq.Labels(), cut, -1)
      invariant empty <==> pq.Labels() == multiset{}
      decreases Sum(dists[..]), |pq.Labels()|
    {
      ghost var ds, queue := dists[..], pq.Labels();
      var l := pq.Top();
      pq.Pop();
      QueuedLabel(g, start, dists0, ds, queue, cut, l);
      TakenOut(g, start, dists0, ds, queue, cut, l);
      if !(dists[l.node] < l.dist) {
        ExpandNode(graph, overlay, pq, dists, l, maxDist, g, start, dists0);
      }
      empty := pq.Empty();
    }
    EmptyQueueIsExact(g, start, dists0, dists[..], cut);
  }

  /** A label that is up to date: relax all edges of its node. */
  method ExpandNode(graph: Graph, overlay: Overlay, pq: Dial, dists: array<nat>, l: Label, maxDist: nat,
                    ghost g: Graph, ghost start: multiset<Label>, ghost dists0: seq<nat>)
    requires GraphOk(graph) && OverlayOk(overlay, |graph|) && g == Union(graph, overlay)
    requires dists.Length == |g| && l.node < dists.Length && dists[l.node] == l.dist
    requires pq.Valid() && Attained(g, start, l.node, l.dist)
    requires Invariant(g, start, dists0, dists[..], pq.Labels(), Min(|pq.buckets|, maxDist), l.node)
    modifies pq, dists
    ensures pq.Valid() && |pq.buckets| == old(|pq.buckets|)
    ensures Invariant(g, start, dists0, dists[..], pq.Labels(), Min(|pq.buckets|, maxDist), -1)
    ensures Sum(dists[..]) < old(Sum(dists[..])) || (dists[..] == old(dists[..]) && pq.Labels() == old(pq.Labels()))
  {
    hide Invariant, Expanding, Attained, Sum;
    var edges := EdgesOf(graph, overlay, l.node);
    assert g[l.node] == edges;
    ExpandAll(pq, dists, edges, l.node, l.dist, maxDist, g, start, dists0);
    NodeDone(g, start, dists0, Min(|pq.buckets|, maxDist), edges, l.node, l.dist,
             old(dists[..]), old(pq.Labels()), dists[..], pq.Labels());
  }

  lemma QueuedLabel(g: Graph, start: multiset<Label>, dists0: seq<nat>, dists: seq<nat>,
                    queue: multiset<Label>, cut: nat, l: Label)
    requires Invariant(g, start, dists0, dists, queue, cut, -1) && l in queue
    ensures l.node < |dists| == |g| && dists[l.node] <= l.dist && Attained(g, start, l.node, l.dist)
  {
  }
}
