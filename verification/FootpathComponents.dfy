/** Connected components of the raw foot graph, found by a depth-first search
    with an explicit stack. */
module FootpathComponents {
  import opened Dijkstra

  const INVALID := -1

  ghost predicate HasEdge(g: Graph, u: nat, v: nat)
    requires u < |g|
  {
    exists k :: 0 <= k < |g[u]| && g[u][k].target == v
  }

  /** If there is a way from `u` to `v`, there is one back. */
  ghost predicate Symmetric(g: Graph)
    requires GraphOk(g)
  {
    forall u: nat, v: nat :: u < |g| && v < |g| && HasEdge(g, u, v) ==> HasEdge(g, v, u)
  }

  ghost predicate Connected(g: Graph, u: nat, v: nat)
    requires GraphOk(g)
  {
    exists es :: IsWalk(g, u, es) && EndOf(u, es) == v
  }

  lemma ConnectedStep(g: Graph, u: nat, v: nat, k: nat)
    requires GraphOk(g) && v < |g| && Connected(g, u, v) && k < |g[v]|
    ensures Connected(g, u, g[v][k].target)
  {
    var es :| IsWalk(g, u, es) && EndOf(u, es) == v;
    WalkExtends(g, u, es, g[v][k]);
    assert IsWalk(g, u, es + [g[v][k]]);
  }

  /** Neighbours of a labelled location carry the same label. */
  ghost predicate ClosedUnderEdges(g: Graph, c: seq<int>)
    requires GraphOk(g) && |c| == |g|
  {
    forall u, k :: 0 <= u < |g| && 0 <= k < |g[u]| && c[u] != INVALID ==> c[g[u][k].target] == c[u]
  }

  /** A label is the least location of its component and leads to all others. */
  ghost predicate LabelledFrom(g: Graph, c: seq<int>)
    requires GraphOk(g) && |c| == |g|
  {
    forall u :: 0 <= u < |g| && c[u] != INVALID ==>
      0 <= c[u] <= u && c[c[u]] == c[u] && Connected(g, c[u], u)
  }

  /** The labels are components: locations without footpaths have none, all others
      the least location they are connected to. */
  ghost predicate IsLabelling(g: Graph, c: seq<int>)
    requires GraphOk(g)
  {
    && |c| == |g|
    && (forall u :: 0 <= u < |g| ==> (c[u] == INVALID <==> g[u] == []))
    && LabelledFrom(g, c)
    && ClosedUnderEdges(g, c)
  }

  lemma {:induction false} WalkStaysInside(g: Graph, c: seq<int>, u: nat, es: seq<Edge>)
    requires GraphOk(g) && |c| == |g| && ClosedUnderEdges(g, c)
    requires IsWalk(g, u, es) && c[u] != INVALID
    ensures EndOf(u, es) < |g| && c[EndOf(u, es)] == c[u]
    decreases |es|
  {
    if es != [] {
      var k :| 0 <= k < |g[u]| && g[u][k] == es[0];
      WalkStaysInside(g, c, es[0].target, es[1..]);
    }
  }

  lemma {:induction false} WalkBack(g: Graph, u: nat, es: seq<Edge>)
    requires GraphOk(g) && Symmetric(g) && IsWalk(g, u, es)
    ensures EndOf(u, es) < |g| && Connected(g, EndOf(u, es), u)
    decreases |es|
  {
    if es == [] {
      assert IsWalk(g, u, []);
    } else {
      var v := es[0].target;
      WalkBack(g, v, es[1..]);
      var k :| 0 <= k < |g[u]| && g[u][k] == es[0];
      assert HasEdge(g, u, v) && HasEdge(g, v, u);
      var j :| 0 <= j < |g[v]| && g[v][j].target == u;
      ConnectedStep(g, EndOf(v, es[1..]), v, j);
    }
  }

  lemma {:induction false} WalksCompose(g: Graph, u: nat, es: seq<Edge>, fs: seq<Edge>)
    requires GraphOk(g) && IsWalk(g, u, es) && IsWalk(g, EndOf(u, es), fs)
    ensures IsWalk(g, u, es + fs) && EndOf(u, es + fs) == EndOf(EndOf(u, es), fs)
    ensures Length(es + fs) == Length(es) + Length(fs)
    decreases |es|
  {
    if es == [] {
      assert [] + fs == fs;
    } else {
      WalksCompose(g, es[0].target, es[1..], fs);
      assert (es + fs)[1..] == es[1..] + fs;
    }
  }

  /** Two locations with footpaths have the same label exactly when they are
      connected. */
  lemma SameLabelIffConnected(g: Graph, c: seq<int>, u: nat, v: nat)
    requires GraphOk(g) && Symmetric(g) && IsLabelling(g, c)
    requires u < |g| && v < |g| && g[u] != [] && g[v] != []
    ensures c[u] == c[v] <==> Connected(g, u, v)
  {
    if c[u] == c[v] {
      var r := c[u];
      var es :| IsWalk(g, r, es) && EndOf(r, es) == u;
      WalkBack(g, r, es);
      var back :| IsWalk(g, u, back) && EndOf(u, back) == r;
      var fs :| IsWalk(g, r, fs) && EndOf(r, fs) == v;
      WalksCompose(g, u, back, fs);
      assert IsWalk(g, u, back + fs);
    }
    if Connected(g, u, v) {
      var es :| IsWalk(g, u, es) && EndOf(u, es) == v;
      WalkStaysInside(g, c, u, es);
    }
  }

  /** While the component of `i` is searched: finished components are closed, the
      neighbours of its locations are labelled or on the stack. */
  ghost predicate Searching(g: Graph, c: seq<int>, i: nat, stack: seq<nat>)
    requires GraphOk(g)
  {
    && |c| == |g| && i < |g|
    && (forall u, k :: 0 <= u < |g| && 0 <= k < |g[u]| && c[u] != INVALID ==>
          c[g[u][k].target] == c[u] || (c[u] == i && c[g[u][k].target] == INVALID && g[u][k].target in stack))
    && (forall u :: 0 <= u < |g| && c[u] != INVALID ==> 0 <= c[u] <= u && c[u] <= i && Connected(g, c[u], u))
    && (forall u :: 0 <= u < |g| && c[u] != INVALID && c[u] != i ==> c[c[u]] == c[u])
    && (forall s :: s in stack ==> s < |g| && i <= s && g[s] != [] && Connected(g, i, s) && (c[s] == INVALID || c[s] == i))
    && (forall u :: 0 <= u < i ==> (c[u] == INVALID <==> g[u] == []))
    && (c[i] == i || (c[i] == INVALID && i in stack))
    && (forall u :: 0 <= u < |g| && g[u] == [] ==> c[u] == INVALID)
  }

  lemma PushedAreNew(g: Graph, c: seq<int>, i: nat, all: seq<nat>, j: nat, more: seq<nat>)
    requires GraphOk(g) && Symmetric(g) && Searching(g, c, i, all) && j in all && c[j] != i
    requires forall s :: s in more ==> exists k :: 0 <= k < |g[j]| && g[j][k].target == s && c[j := i][s] != i
    ensures forall s :: s in more ==> s < |g| && i <= s && g[s] != [] && Connected(g, i, s) && c[j := i][s] == INVALID
  {
    forall s | s in more
      ensures s < |g| && i <= s && g[s] != [] && Connected(g, i, s) && c[j := i][s] == INVALID
    {
      var k :| 0 <= k < |g[j]| && g[j][k].target == s && c[j := i][s] != i;
      ConnectedStep(g, i, j, k);
      assert HasEdge(g, j, s) && HasEdge(g, s, j);
      var m :| 0 <= m < |g[s]| && g[s][m].target == j;
      assert c[s] == INVALID;
    }
  }

  lemma SearchStep(g: Graph, c: seq<int>, i: nat, stack: seq<nat>, j: nat, more: seq<nat>)
    requires GraphOk(g) && Symmetric(g) && Searching(g, c, i, stack + [j])
    requires j in stack + [j] && c[j] != i
    requires forall k :: 0 <= k < |g[j]| ==> c[j := i][g[j][k].target] == i || g[j][k].target in more
    requires forall s :: s in more ==> exists k :: 0 <= k < |g[j]| && g[j][k].target == s && c[j := i][s] != i
    ensures Searching(g, c[j := i], i, stack + more)
  {
    hide Connected, Symmetric;
    PushedAreNew(g, c, i, stack + [j], j, more);
    var all, c', stack' := stack + [j], c[j := i], stack + more;
    assert j in all && c[j] == INVALID;
    assert forall s :: s in all ==> s in stack || s == j;
    assert forall s :: s in stack' ==> s in stack || s in more;
    forall s | s in stack'
      ensures s < |g| && i <= s && g[s] != [] && Connected(g, i, s) && (c'[s] == INVALID || c'[s] == i)
    {
      assert s in stack ==> s in all;
    }
    forall u, k | 0 <= u < |g| && 0 <= k < |g[u]| && c'[u] != INVALID
      ensures c'[g[u][k].target] == c'[u] ||
        (c'[u] == i && c'[g[u][k].target] == INVALID && g[u][k].target in stack')
    {
      var v := g[u][k].target;
      if u != j && c'[v] != c'[u] {
        assert v in all && v != j;
        assert v in stack;
      }
    }
    assert c'[i] == i || (c'[i] == INVALID && i in stack') by {
      assert i in all ==> i in stack || i == j;
    }
  }

  lemma SearchSkip(g: Graph, c: seq<int>, i: nat, stack: seq<nat>, j: nat)
    requires GraphOk(g) && Searching(g, c, i, stack + [j]) && j < |c| && c[j] == i
    ensures Searching(g, c, i, stack)
  {
    assert forall s :: s in stack ==> s in stack + [j];
    assert forall s :: s in stack + [j] ==> s in stack || s == j;
  }

  /** Everything before `i` is finished. */
  ghost predicate DoneBefore(g: Graph, c: seq<int>, i: nat)
    requires GraphOk(g)
  {
    && |c| == |g| && i <= |g|
    && (forall u :: 0 <= u < |g| && (u < i || g[u] == []) ==> (c[u] == INVALID <==> g[u] == []))
    && LabelledFrom(g, c) && ClosedUnderEdges(g, c)
    && (forall u :: 0 <= u < |g| ==> c[u] < i)
  }

  lemma SearchStart(g: Graph, c: seq<int>, i: nat)
    requires GraphOk(g) && i < |g| && DoneBefore(g, c, i) && c[i] == INVALID && g[i] != []
    ensures Searching(g, c, i, [i])
  {
    assert IsWalk(g, i, []);
  }

  lemma SearchDone(g: Graph, c: seq<int>, i: nat)
    requires GraphOk(g) && i < |g| && Searching(g, c, i, []) && g[i] != []
    ensures DoneBefore(g, c, i + 1)
  {
  }

  lemma NothingToDo(g: Graph, c: seq<int>, i: nat)
    requires GraphOk(g) && i < |g| && DoneBefore(g, c, i) && (c[i] != INVALID || g[i] == [])
    ensures DoneBefore(g, c, i + 1)
  {
  }

  ghost function Unlabelled(c: seq<int>, i: int): set<int> {
    set u | 0 <= u < |c| && c[u] != i
  }

  /** `find_components` */
  method FindComponents(g: Graph) returns (components: array<int>)
    requires GraphOk(g) && Symmetric(g)
    ensures fresh(components) && IsLabelling(g, components[..])
  {
    hide Searching, LabelledFrom, ClosedUnderEdges, Symmetric, GraphOk;
    components := new int[|g|](_ => INVALID);
    assert DoneBefore(g, components[..], 0) by { InitiallyDone(g, components[..]); }
    for i := 0 to |g|
      invariant DoneBefore(g, components[..], i)
    {
      if components[i] != INVALID || g[i] == [] {
        NothingToDo(g, components[..], i);
      } else {
        SearchStart(g, components[..], i);
        LabelComponent(g, components, i);
      }
    }
  }

  lemma InitiallyDone(g: Graph, c: seq<int>)
    requires GraphOk(g) && |c| == |g| && forall u :: 0 <= u < |c| ==> c[u] == INVALID
    ensures DoneBefore(g, c, 0)
  {
  }

  /** The search from location `i`: pop, label, push the neighbours. */
  method LabelComponent(g: Graph, components: array<int>, i: nat)
    requires GraphOk(g) && Symmetric(g) && i < |g| && g[i] != [] && Searching(g, components[..], i, [i])
    requires components.Length == |g|
    modifies components
    ensures DoneBefore(g, components[..], i + 1)
  {
    hide Searching, DoneBefore, Symmetric;
    var stack := [i];
    while stack != []
      invariant Searching(g, components[..], i, stack)
      decreases Unlabelled(components[..], i), |stack|
    {
      var j := stack[|stack| - 1];
      ghost var all := stack;
      stack := stack[..|stack| - 1];
      assert all == stack + [j];
      OnStack(g, components[..], i, all, j);
      if components[j] == i {
        SearchSkip(g, components[..], i, stack, j);
        continue;
      }
      ghost var before := components[..];
      components[j] := i;
      assert components[..] == before[j := i];
      var more := [];
      for k := 0 to |g[j]|
        invariant forall f :: 0 <= f < k ==> components[g[j][f].target] == i || g[j][f].target in more
        invariant forall s :: s in more ==> exists f :: 0 <= f < k && g[j][f].target == s && components[s] != i
      {
        if components[g[j][k].target] != i {
          more := more + [g[j][k].target];
        }
      }
      SearchStep(g, before, i, stack, j, more);
      assert j in Unlabelled(before, i) && j !in Unlabelled(components[..], i);
      assert Unlabelled(components[..], i) <= Unlabelled(before, i);
      stack := stack + more;
    }
    SearchDone(g, components[..], i);
  }

  lemma OnStack(g: Graph, c: seq<int>, i: nat, stack: seq<nat>, j: nat)
    requires GraphOk(g) && Searching(g, c, i, stack) && j in stack
    ensures j < |g| == |c|
  {
  }
}
