/** The walking theory behind the foot graph: what its closure below the length
    limit is and which laws a closed graph obeys. */
module FootClosure {
  import opened Basics
  import opened Dijkstra
  import opened EdgeLists
  import opened FootpathComponents

  /** The raw graph after cleaning: sorted rows with one edge per target, no edge
      to the location itself, and a way back for every way. */
  ghost predicate Cleaned(fg: Graph) {
    && GraphOk(fg) && Symmetric(fg)
    && (forall a, i, j :: 0 <= a < |fg| && 0 <= i < j < |fg[a]| ==> fg[a][i].target < fg[a][j].target)
    && (forall a, i :: 0 <= a < |fg| && 0 <= i < |fg[a]| ==> fg[a][i].target != a)
  }

  /** A raw duration, raised to the transfer times at both ends. */
  function Raise(tr: seq<nat>, a: nat, b: nat, raw: nat): (d: nat)
    requires a < |tr| && b < |tr|
    ensures tr[a] <= d && tr[b] <= d && raw <= d && (d == tr[a] || d == tr[b] || d == raw)
  {
    Max(Max(tr[a], tr[b]), raw)
  }

  /** The raw graph offers `a` to `b` or `b` to `a` at a duration that is raised to `d`. */
  ghost predicate RaisedEdge(fg: Graph, tr: seq<nat>, a: nat, b: nat, d: nat)
    requires |tr| == |fg|
  {
    && a < |fg| && b < |fg|
    && exists raw: nat :: RaisedFrom(fg, tr, a, b, d, raw)
  }

  ghost predicate RaisedFrom(fg: Graph, tr: seq<nat>, a: nat, b: nat, d: nat, raw: nat)
    requires |tr| == |fg| && a < |fg| && b < |fg|
  {
    d == Raise(tr, a, b, raw) && (Edge(b, raw) in fg[a] || Edge(a, raw) in fg[b])
  }

  ghost predicate FootWalk(fg: Graph, tr: seq<nat>, a: nat, es: seq<Edge>)
    requires |tr| == |fg|
    decreases |es|
  {
    a < |fg| && (es != [] ==> RaisedEdge(fg, tr, a, es[0].target, es[0].duration) &&
                              FootWalk(fg, tr, es[0].target, es[1..]))
  }

  ghost predicate Walkable(fg: Graph, tr: seq<nat>, a: nat, b: nat, d: nat)
    requires |tr| == |fg|
  {
    exists es :: FootWalk(fg, tr, a, es) && EndOf(a, es) == b && Length(es) == d
  }

  ghost predicate Shortest(fg: Graph, tr: seq<nat>, a: nat, b: nat, d: nat)
    requires |tr| == |fg|
  {
    Walkable(fg, tr, a, b, d) && forall x: nat :: Walkable(fg, tr, a, b, x) ==> d <= x
  }

  /** What the closure offers from `a`: every other location that can be walked to
      below the limit, at the shortest duration. */
  ghost predicate ClosureEdge(fg: Graph, tr: seq<nat>, maxLen: nat, a: nat, e: Edge)
    requires |tr| == |fg|
  {
    e.target != a && e.duration < maxLen && Shortest(fg, tr, a, e.target, e.duration)
  }

  ghost predicate IsClosureRow(fg: Graph, tr: seq<nat>, maxLen: nat, a: nat, row: seq<Edge>)
    requires |tr| == |fg|
  {
    && AscendingTargets(row)
    && (forall e :: e in row <==> ClosureEdge(fg, tr, maxLen, a, e))
  }

  // ---------- walks ----------

  lemma RaisedIsSymmetric(fg: Graph, tr: seq<nat>, a: nat, b: nat, d: nat)
    requires |tr| == |fg| && RaisedEdge(fg, tr, a, b, d)
    ensures RaisedEdge(fg, tr, b, a, d)
  {
    var raw: nat :| RaisedFrom(fg, tr, a, b, d, raw);
    assert RaisedFrom(fg, tr, b, a, d, raw);
  }

  lemma {:induction false} FootWalksCompose(fg: Graph, tr: seq<nat>, a: nat, es: seq<Edge>, fs: seq<Edge>)
    requires |tr| == |fg| && FootWalk(fg, tr, a, es) && FootWalk(fg, tr, EndOf(a, es), fs)
    ensures FootWalk(fg, tr, a, es + fs) && EndOf(a, es + fs) == EndOf(EndOf(a, es), fs)
    ensures Length(es + fs) == Length(es) + Length(fs)
    decreases |es|
  {
    if es == [] {
      assert [] + fs == fs;
    } else {
      FootWalksCompose(fg, tr, es[0].target, es[1..], fs);
      assert (es + fs)[1..] == es[1..] + fs;
    }
  }

  lemma WalkableCompose(fg: Graph, tr: seq<nat>, a: nat, b: nat, c: nat, x: nat, y: nat)
    requires |tr| == |fg| && Walkable(fg, tr, a, b, x) && Walkable(fg, tr, b, c, y)
    ensures Walkable(fg, tr, a, c, x + y)
  {
    var es: seq<Edge> :| FootWalk(fg, tr, a, es) && EndOf(a, es) == b && Length(es) == x;
    var fs: seq<Edge> :| FootWalk(fg, tr, b, fs) && EndOf(b, fs) == c && Length(fs) == y;
    FootWalksCompose(fg, tr, a, es, fs);
    assert FootWalk(fg, tr, a, es + fs);
  }

  lemma EdgeIsWalkable(fg: Graph, tr: seq<nat>, a: nat, b: nat, d: nat)
    requires |tr| == |fg| && RaisedEdge(fg, tr, a, b, d)
    ensures Walkable(fg, tr, a, b, d)
  {
    var es := [Edge(b, d)];
    assert es[1..] == [];
    assert FootWalk(fg, tr, b, []);
    assert FootWalk(fg, tr, a, es) && EndOf(a, es) == b;
    assert Length(es) == es[0].duration + Length(es[1..]);
  }

  lemma {:induction false} WalkableBack(fg: Graph, tr: seq<nat>, a: nat, es: seq<Edge>)
    requires |tr| == |fg| && FootWalk(fg, tr, a, es)
    ensures Walkable(fg, tr, EndOf(a, es), a, Length(es))
    decreases |es|
  {
    if es == [] {
      assert FootWalk(fg, tr, a, []);
    } else {
      var e := es[0];
      WalkableBack(fg, tr, e.target, es[1..]);
      RaisedIsSymmetric(fg, tr, a, e.target, e.duration);
      EdgeIsWalkable(fg, tr, e.target, a, e.duration);
      WalkableCompose(fg, tr, EndOf(a, es), e.target, a, Length(es[1..]), e.duration);
    }
  }

  lemma WalkableIsSymmetric(fg: Graph, tr: seq<nat>, a: nat, b: nat, d: nat)
    requires |tr| == |fg| && Walkable(fg, tr, a, b, d)
    ensures Walkable(fg, tr, b, a, d)
  {
    var es: seq<Edge> :| FootWalk(fg, tr, a, es) && EndOf(a, es) == b && Length(es) == d;
    WalkableBack(fg, tr, a, es);
  }

  lemma ShortestIsSymmetric(fg: Graph, tr: seq<nat>, a: nat, b: nat, d: nat)
    requires |tr| == |fg| && Shortest(fg, tr, a, b, d)
    ensures Shortest(fg, tr, b, a, d)
  {
    WalkableIsSymmetric(fg, tr, a, b, d);
    forall x: nat | Walkable(fg, tr, b, a, x) ensures d <= x {
      WalkableIsSymmetric(fg, tr, b, a, x);
    }
  }

  lemma {:induction false} ShortestExists(fg: Graph, tr: seq<nat>, a: nat, b: nat, x: nat) returns (d: nat)
    requires |tr| == |fg| && Walkable(fg, tr, a, b, x)
    ensures d <= x && Shortest(fg, tr, a, b, d)
    decreases x
  {
    if y: nat :| y < x && Walkable(fg, tr, a, b, y) {
      d := ShortestExists(fg, tr, a, b, y);
    } else {
      d := x;
    }
  }

  /** A walk to another place lasts at least the transfer times at both ends. */
  lemma {:induction false} WalkIncludesTransfers(fg: Graph, tr: seq<nat>, a: nat, es: seq<Edge>)
    requires |tr| == |fg| && FootWalk(fg, tr, a, es) && es != []
    ensures EndOf(a, es) < |fg| && tr[a] <= Length(es) && tr[EndOf(a, es)] <= Length(es)
    decreases |es|
  {
    if |es| > 1 {
      WalkIncludesTransfers(fg, tr, es[0].target, es[1..]);
    } else {
      assert es[1..] == [];
    }
  }

  // ---------- laws of the closure ----------

  /** The final maximum with the transfer times leaves closure edges as they are. */
  lemma TransfersChangeNothing(fg: Graph, tr: seq<nat>, maxLen: nat, a: nat, e: Edge)
    requires |tr| == |fg| && ClosureEdge(fg, tr, maxLen, a, e)
    ensures a < |fg| && e.target < |fg| && Raise(tr, a, e.target, e.duration) == e.duration
  {
    var es: seq<Edge> :| FootWalk(fg, tr, a, es) && EndOf(a, es) == e.target && Length(es) == e.duration;
    WalkIncludesTransfers(fg, tr, a, es);
  }

  lemma ClosureIsSymmetric(fg: Graph, tr: seq<nat>, maxLen: nat, a: nat, b: nat, d: nat)
    requires |tr| == |fg|
    ensures ClosureEdge(fg, tr, maxLen, a, Edge(b, d)) <==> ClosureEdge(fg, tr, maxLen, b, Edge(a, d))
  {
    if Shortest(fg, tr, a, b, d) {
      ShortestIsSymmetric(fg, tr, a, b, d);
    }
    if Shortest(fg, tr, b, a, d) {
      ShortestIsSymmetric(fg, tr, b, a, d);
    }
  }

  /** Two closure edges in a row are matched by a direct one, if they stay below
      the limit together. */
  lemma ClosureIsTransitive(fg: Graph, tr: seq<nat>, maxLen: nat, a: nat, b: nat, c: nat, x: nat, y: nat) returns (z: nat)
    requires |tr| == |fg| && a != c && x + y < maxLen
    requires ClosureEdge(fg, tr, maxLen, a, Edge(b, x)) && ClosureEdge(fg, tr, maxLen, b, Edge(c, y))
    ensures z <= x + y && ClosureEdge(fg, tr, maxLen, a, Edge(c, z))
  {
    WalkableCompose(fg, tr, a, b, c, x, y);
    z := ShortestExists(fg, tr, a, c, x + y);
  }

  /** A raw footpath whose raised duration is below the limit keeps a closure edge
      that is no longer. */
  lemma RawEdgesAreCovered(fg: Graph, tr: seq<nat>, maxLen: nat, a: nat, i: nat) returns (z: nat)
    requires Cleaned(fg) && |tr| == |fg| && a < |fg| && i < |fg[a]|
    requires Raise(tr, a, fg[a][i].target, fg[a][i].duration) < maxLen
    ensures z <= Raise(tr, a, fg[a][i].target, fg[a][i].duration)
    ensures ClosureEdge(fg, tr, maxLen, a, Edge(fg[a][i].target, z))
  {
    var e := fg[a][i];
    var d := Raise(tr, a, e.target, e.duration);
    assert RaisedFrom(fg, tr, a, e.target, d, e.duration);
    EdgeIsWalkable(fg, tr, a, e.target, d);
    z := ShortestExists(fg, tr, a, e.target, d);
  }

  // ---------- pairs ----------

  /** `a` and its only neighbour have no one but each other. */
  ghost predicate InPair(fg: Graph, a: nat)
    requires GraphOk(fg) && a < |fg|
  {
    |fg[a]| == 1 && |fg[fg[a][0].target]| == 1
  }

  ghost function Partner(fg: Graph, a: nat): nat
    requires GraphOk(fg) && a < |fg| && InPair(fg, a)
  {
    fg[a][0].target
  }

  lemma PairIsMutual(fg: Graph, a: nat)
    requires Cleaned(fg) && a < |fg| && InPair(fg, a)
    ensures var b := Partner(fg, a); b != a && InPair(fg, b) && Partner(fg, b) == a
  {
    var b := Partner(fg, a);
    assert HasEdge(fg, a, b) && HasEdge(fg, b, a);
  }

  lemma {:induction false} PairsKeepToThemselves(fg: Graph, tr: seq<nat>, a: nat, es: seq<Edge>)
    requires Cleaned(fg) && |tr| == |fg| && a < |fg| && InPair(fg, a) && FootWalk(fg, tr, a, es)
    ensures EndOf(a, es) == a || EndOf(a, es) == Partner(fg, a)
    decreases |es|
  {
    if es != [] {
      var b, d := es[0].target, es[0].duration;
      PairIsMutual(fg, a);
      NeighbourEitherWay(fg, tr, a, b, d);
      PairsKeepToThemselves(fg, tr, b, es[1..]);
    }
  }

  lemma NeighbourEitherWay(fg: Graph, tr: seq<nat>, a: nat, b: nat, d: nat)
    requires Cleaned(fg) && |tr| == |fg| && RaisedEdge(fg, tr, a, b, d)
    ensures HasEdge(fg, a, b) && HasEdge(fg, b, a)
  {
    var raw: nat :| RaisedFrom(fg, tr, a, b, d, raw);
    if Edge(b, raw) in fg[a] {
      assert HasEdge(fg, a, b);
    } else {
      var k :| 0 <= k < |fg[b]| && fg[b][k] == Edge(a, raw);
      assert HasEdge(fg, b, a);
    }
  }

  /** Locations that are walkable from each other lie in a pair together or not at all. */
  lemma PairOrNot(fg: Graph, tr: seq<nat>, a: nat, b: nat, d: nat)
    requires Cleaned(fg) && |tr| == |fg| && a != b && Walkable(fg, tr, a, b, d)
    ensures a < |fg| && b < |fg| && fg[a] != [] && fg[b] != [] && (InPair(fg, a) <==> InPair(fg, b))
  {
    WalkableIsSymmetric(fg, tr, a, b, d);
    InOneDirection(fg, tr, a, b, d);
    InOneDirection(fg, tr, b, a, d);
  }

  lemma InOneDirection(fg: Graph, tr: seq<nat>, a: nat, b: nat, d: nat)
    requires Cleaned(fg) && |tr| == |fg| && a != b && Walkable(fg, tr, a, b, d)
    ensures a < |fg| && fg[a] != []
    ensures b < |fg| && (InPair(fg, a) ==> InPair(fg, b))
  {
    var es: seq<Edge> :| FootWalk(fg, tr, a, es) && EndOf(a, es) == b && Length(es) == d;
    WalkIncludesTransfers(fg, tr, a, es);
    NeighbourEitherWay(fg, tr, a, es[0].target, es[0].duration);
    if InPair(fg, a) {
      PairsKeepToThemselves(fg, tr, a, es);
      PairIsMutual(fg, a);
    }
  }

  // ---------- the connected foot graph ----------

  /** What the row of `a` holds afterwards: nothing for locations without
      footpaths, the raised raw edge for a pair, else the closure row. */
  ghost predicate IsConnectedRow(fg: Graph, tr: seq<nat>, maxLen: nat, a: nat, row: seq<Edge>)
    requires GraphOk(fg) && |tr| == |fg| && a < |fg|
  {
    if fg[a] == [] then row == []
    else if InPair(fg, a) then row == [Edge(Partner(fg, a), Raise(tr, a, Partner(fg, a), fg[a][0].duration))]
    else IsClosureRow(fg, tr, maxLen, a, row)
  }

  ghost predicate IsConnected(fg: Graph, tr: seq<nat>, maxLen: nat, out: seq<seq<Edge>>)
    requires GraphOk(fg) && |tr| == |fg|
  {
    |out| == |fg| && forall a :: 0 <= a < |out| ==> IsConnectedRow(fg, tr, maxLen, a, out[a])
  }

  /** Outside pairs, the connected graph has every edge in both directions. */
  lemma ConnectedIsSymmetric(fg: Graph, tr: seq<nat>, maxLen: nat, out: seq<seq<Edge>>, a: nat, e: Edge)
    requires Cleaned(fg) && |tr| == |fg| && IsConnected(fg, tr, maxLen, out)
    requires a < |out| && !InPair(fg, a) && e in out[a]
    ensures e.target < |out| && Edge(a, e.duration) in out[e.target]
  {
    PairOrNot(fg, tr, a, e.target, e.duration);
    ClosureIsSymmetric(fg, tr, maxLen, a, e.target, e.duration);
    assert IsConnectedRow(fg, tr, maxLen, e.target, out[e.target]);
  }

  /** Outside pairs, the connected graph is closed under concatenation. */
  lemma ConnectedIsTransitive(fg: Graph, tr: seq<nat>, maxLen: nat, out: seq<seq<Edge>>, a: nat, e: Edge, f: Edge)
    returns (z: nat)
    requires Cleaned(fg) && |tr| == |fg| && IsConnected(fg, tr, maxLen, out)
    requires a < |out| && !InPair(fg, a) && e in out[a] && e.target < |out| && f in out[e.target]
    requires f.target != a && e.duration + f.duration < maxLen
    ensures z <= e.duration + f.duration && Edge(f.target, z) in out[a]
  {
    PairOrNot(fg, tr, a, e.target, e.duration);
    assert IsConnectedRow(fg, tr, maxLen, e.target, out[e.target]);
    z := ClosureIsTransitive(fg, tr, maxLen, a, e.target, f.target, e.duration, f.duration);
  }

  /** A pair is symmetric exactly when the two raw directions are raised to the
      same duration; the rest of the graph always is. */
  lemma PairSymmetricIff(fg: Graph, tr: seq<nat>, maxLen: nat, out: seq<seq<Edge>>, a: nat)
    requires Cleaned(fg) && |tr| == |fg| && IsConnected(fg, tr, maxLen, out)
    requires a < |out| && InPair(fg, a)
    ensures var b := Partner(fg, a);
      (forall d: nat :: Edge(b, d) in out[a] <==> Edge(a, d) in out[b]) <==>
      Raise(tr, a, b, fg[a][0].duration) == Raise(tr, a, b, fg[b][0].duration)
  {
    PairIsMutual(fg, a);
    var b := Partner(fg, a);
    assert IsConnectedRow(fg, tr, maxLen, a, out[a]) && IsConnectedRow(fg, tr, maxLen, b, out[b]);
    assert Edge(b, Raise(tr, a, b, fg[a][0].duration)) in out[a];
  }
}
