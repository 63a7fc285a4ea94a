/** Sorting and de-duplicating lists of footpaths (`utl::sort`,
    `utl::erase_duplicates`). */
module EdgeLists {
  import opened Dijkstra

  predicate ByTarget(a: Edge, b: Edge) {
    a.target < b.target || (a.target == b.target && a.duration < b.duration)
  }

  predicate ByDuration(a: Edge, b: Edge) {
    a.duration < b.duration || (a.duration == b.duration && a.target < b.target)
  }

  ghost predicate TotalOrder(less: (Edge, Edge) -> bool) {
    && (forall a, b, c :: less(a, b) && less(b, c) ==> less(a, c))
    && (forall a, b :: a == b || less(a, b) || less(b, a))
    && (forall a, b :: less(a, b) ==> !less(b, a))
  }

  lemma BothAreTotalOrders()
    ensures TotalOrder(ByTarget) && TotalOrder(ByDuration)
  {
  }

  ghost predicate Sorted(es: seq<Edge>, less: (Edge, Edge) -> bool) {
    forall i, j :: 0 <= i < j < |es| ==> es[i] == es[j] || less(es[i], es[j])
  }

  ghost predicate StrictlySorted(es: seq<Edge>, less: (Edge, Edge) -> bool) {
    forall i, j :: 0 <= i < j < |es| ==> less(es[i], es[j])
  }

  ghost predicate AscendingTargets(es: seq<Edge>) {
    forall i, j :: 0 <= i < j < |es| ==> es[i].target < es[j].target
  }

  /** One edge for every target. */
  ghost predicate OnePerTarget(es: seq<Edge>) {
    forall e, f :: e in es && f in es && e.target == f.target ==> e == f
  }

  method Sort(es: seq<Edge>, less: (Edge, Edge) -> bool) returns (r: seq<Edge>)
    requires TotalOrder(less)
    ensures Sorted(r, less) && multiset(r) == multiset(es)
  {
    hide TotalOrder, Sorted;
    r := [];
    assert Sorted(r, less) by { EmptyIsSorted(less); }
    for i := 0 to |es|
      invariant Sorted(r, less) && multiset(r) == multiset(es[..i])
    {
      var p := 0;
      while p < |r| && less(r[p], es[i])
        invariant p <= |r| && forall k :: 0 <= k < p ==> less(r[k], es[i])
      {
        p := p + 1;
      }
      InsertedSorted(r, p, es[i], less);
      InsertedMembers(r, p, es[i]);
      r := r[..p] + [es[i]] + r[p..];
      assert es[..i + 1] == es[..i] + [es[i]];
    }
    assert es[..|es|] == es;
  }

  lemma EmptyIsSorted(less: (Edge, Edge) -> bool)
    ensures Sorted([], less)
  {
  }

  lemma InsertedMembers(r: seq<Edge>, p: nat, e: Edge)
    requires p <= |r|
    ensures multiset(r[..p] + [e] + r[p..]) == multiset(r) + multiset{e}
  {
    assert r == r[..p] + r[p..];
  }

  lemma InsertedSorted(r: seq<Edge>, p: nat, e: Edge, less: (Edge, Edge) -> bool)
    requires TotalOrder(less) && Sorted(r, less) && p <= |r|
    requires forall k :: 0 <= k < p ==> less(r[k], e)
    requires p < |r| ==> !less(r[p], e)
    ensures Sorted(r[..p] + [e] + r[p..], less)
  {
    var s := r[..p] + [e] + r[p..];
    forall i, j | 0 <= i < j < |s| ensures s[i] == s[j] || less(s[i], s[j]) {
      if j > p {
        assert s[j] == r[j - 1];
        assert i == p ==> s[j] == r[p] || less(r[p], s[j]);
        assert r[p] == e || less(e, r[p]);
      }
    }
  }

  /** Sorts by target, then duration, and drops repeated edges. */
  method EraseDuplicates(es: seq<Edge>) returns (r: seq<Edge>)
    ensures StrictlySorted(r, ByTarget) && forall e :: e in r <==> e in es
  {
    BothAreTotalOrders();
    var s := Sort(es, ByTarget);
    SameMembers(s, es);
    r := [];
    for i := 0 to |s|
      invariant StrictlySorted(r, ByTarget)
      invariant forall e :: e in r <==> e in s[..i]
      invariant if i == 0 then r == [] else r != [] && r[|r| - 1] == s[i - 1]
    {
      assert i > 0 ==> s[i - 1] == s[i] || ByTarget(s[i - 1], s[i]);
      if i == 0 || s[i - 1] != s[i] {
        AppendStrict(r, s[i]);
        r := r + [s[i]];
      }
      assert s[..i + 1] == s[..i] + [s[i]];
    }
    assert s[..|s|] == s;
  }

  lemma AppendStrict(r: seq<Edge>, e: Edge)
    requires StrictlySorted(r, ByTarget) && (r != [] ==> ByTarget(r[|r| - 1], e))
    ensures StrictlySorted(r + [e], ByTarget)
  {
    forall k | 0 <= k < |r| ensures ByTarget(r[k], e) {
      assert k < |r| - 1 ==> ByTarget(r[k], r[|r| - 1]);
    }
  }

  lemma AppendAscending(r: seq<Edge>, e: Edge)
    requires AscendingTargets(r)
    requires r != [] ==> r[|r| - 1].target < e.target
    ensures AscendingTargets(r + [e])
  {
    forall k | 0 <= k < |r| ensures r[k].target < e.target {
      assert k < |r| - 1 ==> r[k].target < r[|r| - 1].target;
    }
  }

  lemma SameMembers(s: seq<Edge>, t: seq<Edge>)
    requires multiset(s) == multiset(t)
    ensures forall e :: e in s <==> e in t
  {
    forall e ensures e in s <==> e in t {
      assert e in s <==> e in multiset(s);
      assert e in t <==> e in multiset(t);
    }
  }

  /** The edges that no other edge to the same target undercuts. */
  ghost predicate Cheapest(es: seq<Edge>, e: Edge) {
    e in es && forall f :: f in es && f.target == e.target ==> e.duration <= f.duration
  }

  /** Sorts by target, then duration, and keeps the first edge of each target. */
  method ShortestPerTarget(es: seq<Edge>) returns (r: seq<Edge>)
    ensures AscendingTargets(r)
    ensures forall e :: e in r <==> Cheapest(es, e)
  {
    BothAreTotalOrders();
    var s := Sort(es, ByTarget);
    SameMembers(s, es);
    r := [];
    for i := 0 to |s|
      invariant AscendingTargets(r)
      invariant forall e :: e in r <==> Cheapest(s[..i], e)
      invariant if i == 0 then r == [] else r != [] && r[|r| - 1].target == s[i - 1].target
    {
      FirstOfTarget(s, i);
      if i == 0 || s[i - 1].target != s[i].target {
        AppendAscending(r, s[i]);
        r := r + [s[i]];
      }
    }
    assert s[..|s|] == s;
  }

  lemma FirstOfTarget(s: seq<Edge>, i: nat)
    requires Sorted(s, ByTarget) && i < |s|
    ensures forall e :: Cheapest(s[..i + 1], e) <==>
      Cheapest(s[..i], e) || ((i == 0 || s[i - 1].target != s[i].target) && e == s[i])
    ensures i > 0 ==> s[i - 1].target <= s[i].target
  {
    var t, u := s[..i], s[..i + 1];
    assert u == t + [s[i]];
    forall e
      ensures Cheapest(u, e) <==> Cheapest(t, e) || ((i == 0 || s[i - 1].target != s[i].target) && e == s[i])
    {
      if Cheapest(t, e) {
        var k :| 0 <= k < |t| && t[k] == e;
        assert s[k] == s[i] || ByTarget(s[k], s[i]);
      }
      if i == 0 || s[i - 1].target != s[i].target {
        forall k | 0 <= k < i ensures s[k].target < s[i].target {
          assert ByTarget(s[i - 1], s[i]) && (k < i - 1 ==> s[k] == s[i - 1] || ByTarget(s[k], s[i - 1]));
        }
        assert forall f :: f in u && f.target == s[i].target ==> f == s[i];
      }
      if Cheapest(u, e) && !Cheapest(t, e) && i > 0 {
        assert u[i - 1] in u && (s[i - 1] == s[i] || ByTarget(s[i - 1], s[i]));
        assert s[i - 1] == t[i - 1];
      }
    }
  }

  lemma StrictIfAscending(es: seq<Edge>, r: seq<Edge>, less: (Edge, Edge) -> bool)
    requires AscendingTargets(es)
    requires multiset(r) == multiset(es) && Sorted(r, less)
    ensures StrictlySorted(r, less)
  {
    forall i, j | 0 <= i < j < |r| ensures less(r[i], r[j]) {
      if r[i] == r[j] {
        CountTwice(r, i, j);
        CountOnce(es, r[i]);
      }
    }
  }

  lemma CountTwice(r: seq<Edge>, i: nat, j: nat)
    requires i < j < |r| && r[i] == r[j]
    ensures multiset(r)[r[i]] >= 2
  {
    assert r == r[..j] + [r[j]] + r[j + 1..];
    assert r[..j][i] == r[i];
    assert r[i] in multiset(r[..j]);
  }

  lemma {:induction false} CountOnce(es: seq<Edge>, e: Edge)
    requires AscendingTargets(es)
    ensures multiset(es)[e] <= 1
  {
    if es != [] {
      var rest := es[..|es| - 1];
      assert es == rest + [es[|es| - 1]];
      CountOnce(rest, e);
    }
  }
}
