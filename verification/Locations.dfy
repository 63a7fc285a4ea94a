/** The station hierarchy: parents, children, equivalent stations, and the
    locations a query location stands for. */
module Locations {
  import opened Basics

  datatype Locations = Locations(
    parents: seq<Option<nat>>, children: seq<seq<nat>>, equivalences: seq<seq<nat>>, generatedTrack: seq<bool>)

  const MAX_PARENT_STEPS := 21

  /** Parents and children agree and a parent comes before its children. */
  ghost predicate WellFormed(ls: Locations) {
    var n := |ls.parents|;
    && |ls.children| == n && |ls.equivalences| == n && |ls.generatedTrack| == n
    && (forall l :: 0 <= l < n && ls.parents[l].Some? ==> ls.parents[l].value < l && l in ls.children[ls.parents[l].value])
    && (forall l, i :: 0 <= l < n && 0 <= i < |ls.children[l]| ==>
          ls.children[l][i] < n && ls.parents[ls.children[l][i]] == Some(l))
    && (forall l, i :: 0 <= l < n && 0 <= i < |ls.equivalences[l]| ==> ls.equivalences[l][i] < n)
  }

  ghost function Root(ls: Locations, l: nat): (r: nat)
    requires WellFormed(ls) && l < |ls.parents|
    ensures r <= l && ls.parents[r] == None
  {
    if ls.parents[l].None? then l else Root(ls, ls.parents[l].value)
  }

  ghost function Depth(ls: Locations, l: nat): nat
    requires WellFormed(ls) && l < |ls.parents|
  {
    if ls.parents[l].None? then 0 else 1 + Depth(ls, ls.parents[l].value)
  }

  /** What the source takes for the root: of locations that are nested too deeply it is
      the direct parent. */
  ghost function RootIdx(ls: Locations, l: nat): (r: nat)
    requires WellFormed(ls) && l < |ls.parents|
    ensures r < |ls.parents|
  {
    if Depth(ls, l) <= MAX_PARENT_STEPS then Root(ls, l) else ls.parents[l].value
  }

  /** `get_root_idx` gives up after a number of steps and then falls back to the
      direct parent: it finds the root exactly of locations that are not nested
      deeper than that. */
  method GetRootIdx(ls: Locations, idx: nat) returns (l: nat)
    requires WellFormed(ls) && idx < |ls.parents|
    ensures l == RootIdx(ls, idx)
    ensures l == Root(ls, idx) <==> Depth(ls, idx) <= MAX_PARENT_STEPS
  {
    l := idx;
    var i := 0;
    while ls.parents[l].Some?
      invariant l < |ls.parents| && Root(ls, l) == Root(ls, idx) && Depth(ls, l) + i == Depth(ls, idx)
      invariant l <= idx && i <= MAX_PARENT_STEPS
      decreases l
    {
      var p := ls.parents[l].value;
      if p == idx || i > 20 {
        l := ls.parents[idx].value;
        ParentOfDeep(ls, idx);
        return;
      }
      l := p;
      i := i + 1;
    }
  }

  lemma ParentOfDeep(ls: Locations, idx: nat)
    requires WellFormed(ls) && idx < |ls.parents| && Depth(ls, idx) > 1
    ensures ls.parents[idx].Some? && ls.parents[idx].value != Root(ls, idx)
  {
  }

  ghost predicate Shallow(ls: Locations)
    requires WellFormed(ls)
  {
    forall l :: 0 <= l < |ls.parents| ==> Depth(ls, l) <= MAX_PARENT_STEPS
  }

  datatype MatchMode = Exact | Intermodal | OnlyChildren | Equivalent

  /** `x` is a child or a grandchild of `l`. */
  ghost predicate IsNearDescendant(ls: Locations, l: nat, x: nat)
    requires WellFormed(ls) && l < |ls.parents|
  {
    x in ls.children[l] || exists i :: 0 <= i < |ls.children[l]| && x in ls.children[ls.children[l][i]]
  }

  ghost predicate StandsFor(ls: Locations, l: nat, x: nat)
    requires WellFormed(ls) && l < |ls.parents|
  {
    x == l || IsNearDescendant(ls, l, x)
  }

  /** Location `x` is visited for `l`. */
  ghost predicate IsMeta(ls: Locations, mode: MatchMode, l: nat, x: nat)
    requires WellFormed(ls) && l < |ls.parents|
  {
    match mode
    case Exact => x == l
    case Intermodal => x == l || (x in ls.children[l] && x < |ls.generatedTrack| && ls.generatedTrack[x])
    case OnlyChildren => StandsFor(ls, l, x)
    case Equivalent =>
      StandsFor(ls, RootIdx(ls, l), x) ||
      exists i :: 0 <= i < |ls.equivalences[l]| && StandsFor(ls, ls.equivalences[l][i], x)
  }

  /** Going up from `x` one arrives at `l` after two steps at most. */
  ghost predicate Climbs(ls: Locations, x: nat, l: nat)
    requires WellFormed(ls) && x < |ls.parents|
  {
    x == l || ls.parents[x] == Some(l) || (ls.parents[x].Some? && ls.parents[ls.parents[x].value] == Some(l))
  }

  lemma StandsForIfClimbs(ls: Locations, l: nat, x: nat)
    requires WellFormed(ls) && l < |ls.parents| && x < |ls.parents|
    ensures StandsFor(ls, l, x) <==> Climbs(ls, x, l)
  {
    if ls.parents[x].Some? && ls.parents[ls.parents[x].value] == Some(l) {
      var c := ls.parents[x].value;
      var i :| 0 <= i < |ls.children[l]| && ls.children[l][i] == c;
    }
  }

  /** What the modes mean, seen from the location visited: itself; a generated track of
      the location; up to two steps below it; up to two steps below what counts as its
      root or below one of its own equivalents. */
  lemma MetaThroughParents(ls: Locations, mode: MatchMode, l: nat, x: nat)
    requires WellFormed(ls) && l < |ls.parents| && x < |ls.parents|
    ensures IsMeta(ls, mode, l, x) <==> match mode
      case Exact => x == l
      case Intermodal => x == l || (ls.parents[x] == Some(l) && ls.generatedTrack[x])
      case OnlyChildren => Climbs(ls, x, l)
      case Equivalent => Climbs(ls, x, RootIdx(ls, l)) || exists e :: e in ls.equivalences[l] && Climbs(ls, x, e)
  {
    hide StandsFor, Climbs;
    StandsForIfClimbs(ls, l, x);
    StandsForIfClimbs(ls, RootIdx(ls, l), x);
    forall i | 0 <= i < |ls.equivalences[l]| ensures StandsFor(ls, ls.equivalences[l][i], x) <==> Climbs(ls, x, ls.equivalences[l][i]) {
      StandsForIfClimbs(ls, ls.equivalences[l][i], x);
    }
  }

  method HandleChildren(ls: Locations, l: nat) returns (visited: seq<nat>)
    requires WellFormed(ls) && l < |ls.parents|
    ensures forall x :: x in visited <==> IsNearDescendant(ls, l, x)
  {
    visited := [];
    for i := 0 to |ls.children[l]|
      invariant forall x :: x in visited <==>
        x in ls.children[l][..i] || exists k :: 0 <= k < i && x in ls.children[ls.children[l][k]]
    {
      visited := visited + [ls.children[l][i]] + ls.children[ls.children[l][i]];
    }
  }

  /** `for_each_meta`, collecting the locations the callback is called with. */
  method ForEachMeta(ls: Locations, mode: MatchMode, l: nat) returns (visited: seq<nat>)
    requires WellFormed(ls) && l < |ls.parents|
    ensures forall x :: x in visited <==> IsMeta(ls, mode, l, x)
  {
    match mode {
      case Exact =>
        visited := [l];
      case Intermodal =>
        visited := [l];
        for i := 0 to |ls.children[l]|
          invariant forall x :: x in visited <==>
            x == l || (x in ls.children[l][..i] && x < |ls.generatedTrack| && ls.generatedTrack[x])
        {
          if ls.generatedTrack[ls.children[l][i]] {
            visited := visited + [ls.children[l][i]];
          }
        }
      case OnlyChildren =>
        var cs := HandleChildren(ls, l);
        visited := [l] + cs;
      case Equivalent =>
        var root := GetRootIdx(ls, l);
        var cs := HandleChildren(ls, root);
        visited := [root] + cs;
        var eqs := HandleEquivalences(ls, l);
        visited := visited + eqs;
    }
  }

  method HandleEquivalences(ls: Locations, l: nat) returns (visited: seq<nat>)
    requires WellFormed(ls) && l < |ls.parents|
    ensures forall x :: x in visited <==>
      exists i :: 0 <= i < |ls.equivalences[l]| && StandsFor(ls, ls.equivalences[l][i], x)
  {
    hide IsNearDescendant;
    visited := [];
    for i := 0 to |ls.equivalences[l]|
      invariant forall x :: x in visited <==>
        exists k :: 0 <= k < i && StandsFor(ls, ls.equivalences[l][k], x)
    {
      var eq := ls.equivalences[l][i];
      var cs := HandleChildren(ls, eq);
      visited := visited + ([eq] + cs);
    }
  }

  lemma {:induction false} MetaInRange(ls: Locations, mode: MatchMode, l: nat, x: nat)
    requires WellFormed(ls) && l < |ls.parents| && IsMeta(ls, mode, l, x)
    ensures x < |ls.parents|
  {
  }

  /** The station a root stands for always includes the root itself. */
  lemma RootIsItsMeta(ls: Locations, mode: MatchMode, l: nat)
    requires WellFormed(ls) && l < |ls.parents| && ls.parents[l] == None
    ensures IsMeta(ls, mode, l, l)
  {
  }
}
