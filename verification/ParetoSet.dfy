/** The set of best journeys (`pareto_set`): adding compacts the elements in place. */
module ParetoSet {
  import opened Basics

  datatype Journey = Journey(transfers: nat, start: int, dest: int) {

    /** `dominates`: journeys of a backward search run from their start back in time. */
    predicate Dominates(o: Journey) {
      if start <= dest then transfers <= o.transfers && start >= o.start && dest <= o.dest
      else transfers <= o.transfers && start <= o.start && dest >= o.dest
    }
  }

  /** Only journeys of the same direction are compared at all. */
  lemma DominanceKeepsDirection(a: Journey, b: Journey)
    requires a.Dominates(b)
    ensures a.start <= a.dest <==> b.start <= b.dest
  {
  }

  /** Forward journeys: no more transfers, a departure no earlier, an arrival no later; each
      of the three counts, as a journey that is worse in one alone is not dominated. */
  lemma ForwardDominanceIff(a: Journey, b: Journey)
    requires a.start <= a.dest && b.start <= b.dest
    ensures a.Dominates(b) <==> !(a.transfers > b.transfers || a.start < b.start || a.dest > b.dest)
  {
  }

  /** Hence dominance is transitive on any mixture of journeys. */
  lemma DominanceIsTransitive(a: Journey, b: Journey, c: Journey)
    requires a.Dominates(b) && b.Dominates(c)
    ensures a.Dominates(c)
  {
    DominanceKeepsDirection(a, b);
  }

  /** A journey without duration counts as forward, also in a backward search: it is
      as good as another one exactly in the sense of that search unless it has no
      duration and the other one has some. */
  lemma BackwardDominanceIff(a: Journey, b: Journey)
    requires a.start >= a.dest && b.start >= b.dest
    ensures var better := a.transfers <= b.transfers && a.start <= b.start && a.dest >= b.dest;
      (a.Dominates(b) <==> better) <==> !(better && a.start == a.dest && b.start != b.dest)
  {
  }

  ghost predicate Antichain(els: seq<Journey>) {
    forall i, j :: 0 <= i < |els| && 0 <= j < |els| && i != j ==> !els[i].Dominates(els[j])
  }

  /** The elements that `el` does not dominate, in order. */
  function Kept(els: seq<Journey>, el: Journey): seq<Journey> {
    if els == [] then []
    else Kept(els[..|els| - 1], el) + (if el.Dominates(els[|els| - 1]) then [] else [els[|els| - 1]])
  }

  lemma {:induction false} KeptExact(els: seq<Journey>, el: Journey)
    ensures |Kept(els, el)| <= |els| && forall x :: x in Kept(els, el) <==> x in els && !el.Dominates(x)
  {
    if els != [] {
      KeptExact(els[..|els| - 1], el);
      assert els == els[..|els| - 1] + [els[|els| - 1]];
    }
  }

  ghost predicate NoDominator(els: seq<Journey>, el: Journey, n: nat) {
    n <= |els| && forall i :: 0 <= i < n ==> !els[i].Dominates(el)
  }

  /** `el` is dominated by element `p` and by none before it. */
  ghost predicate FirstDominator(els: seq<Journey>, el: Journey, p: nat) {
    NoDominator(els, el, p) && (p < |els| ==> els[p].Dominates(el))
  }

  class ParetoSet {
    var els: seq<Journey>

    constructor ()
      ensures els == []
    {
      els := [];
    }

    /** The loop of `add`: stops at the first element that dominates `el`; the
        elements before it that `el` dominates are overwritten by the others. */
    method Compact(el: Journey) returns (i: nat, removed: nat)
      modifies this
      ensures removed <= i <= |old(els)| == |els|
      ensures FirstDominator(old(els), el, i) && CompactedUpTo(old(els), el, i, removed, els)
    {
      hide *;
      ghost var els0 := els;
      removed, i := 0, 0;
      CompactingStarts(els, el);
      while i < |els|
        invariant removed <= i <= |els| == |els0|
        invariant CompactedUpTo(els0, el, i, removed, els) && NoDominator(els0, el, i)
        decreases |els| - i
      {
        RestUntouched(els0, el, i, removed, els);
        if els[i].Dominates(el) {
          break;
        }
        NoDominatorStep(els0, el, i);
        if el.Dominates(els[i]) {
          DropStep(els0, el, i, removed, els);
          removed := removed + 1;
        } else {
          KeepStep(els0, el, i, removed, els);
          els := els[i - removed := els[i]];
        }
        i := i + 1;
      }
      DominatorFound(els0, el, i);
    }

    /** `add`, on any contents: without a dominating element the dominated ones are
        dropped and the new one is appended; else the part before the first
        dominating element is left compacted. */
    method Add(el: Journey) returns (added: bool, ghost p: nat, ghost removed: nat)
      modifies this
      ensures FirstDominator(old(els), el, p) && added == (p == |old(els)|)
      ensures added ==> els == Kept(old(els), el) + [el]
      ensures !added ==> removed <= p && CompactedUpTo(old(els), el, p, removed, els)
    {
      hide *;
      var i, nRemoved := Compact(el);
      p, removed := i, nRemoved;
      if i < |els| {
        return false, p, removed;
      }
      CompactingEnds(old(els), el, nRemoved, els);
      els := els[..|els| - nRemoved] + [el];
      added := true;
    }
  }

  /** The first `i` elements are compacted at the front, `removed` of them are
      dropped, and the rest is as before. */
  ghost predicate CompactedUpTo(els0: seq<Journey>, el: Journey, i: nat, removed: nat, els: seq<Journey>) {
    && removed <= i <= |els0| && |Kept(els0[..i], el)| == i - removed
    && els == Kept(els0[..i], el) + els0[i - removed..]
  }

  lemma CompactingStarts(els: seq<Journey>, el: Journey)
    ensures CompactedUpTo(els, el, 0, 0, els) && NoDominator(els, el, 0)
  {
  }

  lemma DominatorFound(els: seq<Journey>, el: Journey, i: nat)
    requires NoDominator(els, el, i) && (i < |els| ==> els[i].Dominates(el))
    ensures FirstDominator(els, el, i)
  {
  }

  lemma NoDominatorStep(els: seq<Journey>, el: Journey, i: nat)
    requires NoDominator(els, el, i) && i < |els| && !els[i].Dominates(el)
    ensures NoDominator(els, el, i + 1)
  {
  }

  lemma RestUntouched(els0: seq<Journey>, el: Journey, i: nat, removed: nat, els: seq<Journey>)
    requires CompactedUpTo(els0, el, i, removed, els) && i < |els0|
    ensures |els| == |els0| && els[i] == els0[i]
  {
    assert els[i] == els0[i - removed..][removed];
  }

  lemma DropStep(els0: seq<Journey>, el: Journey, i: nat, removed: nat, els: seq<Journey>)
    requires CompactedUpTo(els0, el, i, removed, els) && i < |els0| && el.Dominates(els0[i])
    ensures CompactedUpTo(els0, el, i + 1, removed + 1, els)
  {
    assert els0[..i + 1][..i] == els0[..i];
  }

  lemma KeepStep(els0: seq<Journey>, el: Journey, i: nat, removed: nat, els: seq<Journey>)
    requires CompactedUpTo(els0, el, i, removed, els) && i < |els0| == |els| && !el.Dominates(els0[i])
    ensures CompactedUpTo(els0, el, i + 1, removed, els[i - removed := els0[i]])
  {
    assert els0[..i + 1][..i] == els0[..i];
    assert els[i - removed := els0[i]] == Kept(els0[..i], el) + [els0[i]] + els0[i - removed + 1..];
  }

  lemma CompactingEnds(els0: seq<Journey>, el: Journey, removed: nat, els: seq<Journey>)
    requires CompactedUpTo(els0, el, |els0|, removed, els)
    ensures |els| == |els0| && removed <= |els| && els[..|els| - removed] + [el] == Kept(els0, el) + [el]
  {
    assert els0[..|els0|] == els0;
  }

  /** In an antichain no element can be dropped before a dominating one is met. */
  lemma {:induction false} NothingDroppedBefore(els: seq<Journey>, el: Journey, p: nat, n: nat)
    requires Antichain(els) && p < |els| && els[p].Dominates(el) && n <= p
    ensures Kept(els[..n], el) == els[..n]
    decreases n
  {
    if n > 0 {
      NothingDroppedBefore(els, el, p, n - 1);
      assert els[..n][..n - 1] == els[..n - 1];
      if el.Dominates(els[n - 1]) {
        DominanceIsTransitive(els[p], el, els[n - 1]);
      }
      assert els[..n] == els[..n - 1] + [els[n - 1]];
    }
  }

  /** What an element was added for is kept: it is still there or dominated. */
  ghost predicate Covered(els: seq<Journey>, x: Journey) {
    exists k :: 0 <= k < |els| && els[k].Dominates(x)
  }

  lemma {:induction false} KeptAntichain(els: seq<Journey>, el: Journey)
    requires Antichain(els)
    ensures Antichain(Kept(els, el))
  {
    if els != [] {
      var front, last := els[..|els| - 1], els[|els| - 1];
      KeptAntichain(front, el);
      KeptExact(front, el);
      var kept := Kept(front, el);
      forall i | 0 <= i < |kept| ensures !kept[i].Dominates(last) && !last.Dominates(kept[i]) {
        assert kept[i] in front;
        var k :| 0 <= k < |front| && front[k] == kept[i];
        assert els[k] == kept[i];
      }
    }
  }

  /** One `add` keeps the antichain and whatever was covered; the new journey is
      covered, too. */
  lemma AddKeeps(els: seq<Journey>, el: Journey, p: nat, removed: nat, added: bool, els': seq<Journey>)
    requires Antichain(els) && FirstDominator(els, el, p) && added == (p == |els|)
    requires added ==> els' == Kept(els, el) + [el]
    requires !added ==> CompactedUpTo(els, el, p, removed, els')
    ensures Antichain(els') && Covered(els', el) && (!added ==> els' == els)
    ensures forall x :: Covered(els, x) ==> Covered(els', x)
  {
    hide Journey.Dominates, Antichain, CompactedUpTo;
    if added {
      KeptAntichain(els, el);
      AppendAntichain(els, el);
      assert els'[|els'| - 1] == el;
      DominanceIsReflexive(el);
      forall x | Covered(els, x) ensures Covered(els', x) {
        AppendCovers(els, el, x);
      }
    } else {
      RejectedChangesNothing(els, el, p, removed, els');
    }
  }

  /** The early return never leaves a half-compacted set behind. */
  lemma RejectedChangesNothing(els: seq<Journey>, el: Journey, p: nat, removed: nat, els': seq<Journey>)
    requires Antichain(els) && p < |els| && els[p].Dominates(el) && CompactedUpTo(els, el, p, removed, els')
    ensures els' == els && Covered(els, el)
  {
    hide Antichain, Journey.Dominates, Kept;
    NothingDroppedBefore(els, el, p, p);
    assert removed == 0;
    assert els == els[..p] + els[p..];
  }

  lemma DominanceIsReflexive(a: Journey)
    ensures a.Dominates(a)
  {
  }

  lemma AppendCovers(els: seq<Journey>, el: Journey, x: Journey)
    requires Covered(els, x)
    ensures Covered(Kept(els, el) + [el], x)
  {
    var els' := Kept(els, el) + [el];
    var k :| 0 <= k < |els| && els[k].Dominates(x);
    if el.Dominates(els[k]) {
      DominanceIsTransitive(el, els[k], x);
      assert els'[|els'| - 1].Dominates(x);
    } else {
      KeptExact(els, el);
      assert els[k] in Kept(els, el);
      var m :| 0 <= m < |Kept(els, el)| && Kept(els, el)[m] == els[k];
      assert els'[m].Dominates(x);
    }
  }

  lemma AppendAntichain(els: seq<Journey>, el: Journey)
    requires Antichain(Kept(els, el)) && NoDominator(els, el, |els|)
    ensures Antichain(Kept(els, el) + [el])
  {
    KeptExact(els, el);
    var kept := Kept(els, el);
    forall i | 0 <= i < |kept| ensures !kept[i].Dominates(el) && !el.Dominates(kept[i]) {
      assert kept[i] in kept;
    }
  }

  /** After any sequence of `add` calls the set is an antichain, every journey ever
      added is dominated by a kept one, and only added journeys are kept. */
  method AddAll(js: seq<Journey>) returns (s: ParetoSet)
    ensures fresh(s) && Antichain(s.els)
    ensures forall k :: 0 <= k < |js| ==> Covered(s.els, js[k])
    ensures forall x :: x in s.els ==> x in js
  {
    hide Antichain, Covered, FirstDominator, CompactedUpTo;
    s := new ParetoSet();
    NothingYet();
    for i := 0 to |js|
      invariant fresh(s) && Antichain(s.els)
      invariant forall k :: 0 <= k < i ==> Covered(s.els, js[k])
      invariant forall x :: x in s.els ==> x in js
    {
      ghost var before := s.els;
      var added, p, removed := s.Add(js[i]);
      AddKeeps(before, js[i], p, removed, added, s.els);
      KeptExact(before, js[i]);
    }
  }

  lemma NothingYet()
    ensures Antichain([])
  {
  }
}
