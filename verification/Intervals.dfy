/** Half-open intervals. */
module Intervals {
  import opened Basics

  datatype Interval = Interval(from: int, to: int) {

    predicate Contains(t: int) {
      from <= t < to
    }

    predicate Empty() {
      from == to
    }

    predicate Ordered() {
      from <= to
    }

    predicate Overlaps(o: Interval) {
      from < o.to && to > o.from
    }

    predicate Includes(o: Interval) {
      from <= o.from && o.to <= to
    }

    /** The smallest interval with the points of both; see `HullIsLeast`. Points are kept
        even if the ends of one are out of order and it has none. */
    function Hull(o: Interval): (h: Interval)
      ensures Ordered() && o.Ordered() ==> h.Ordered()
      ensures forall t :: Contains(t) || o.Contains(t) ==> h.Contains(t)
    {
      if Empty() then o
      else if o.Empty() then this
      else Interval(Min(from, o.from), Max(to, o.to))
    }

    /** Grows the interval to contain `t`. */
    function Extend(t: int): (e: Interval)
      ensures e.Contains(t) && forall x :: Contains(x) ==> e.Contains(x)
    {
      Hull(Interval(t, t + 1))
    }

    /** `std::clamp` into the closed interval. */
    function Clamp(x: int): (r: int)
      requires Ordered()
      ensures from <= r <= to && (from <= x <= to ==> r == x)
    {
      if x < from then from else if to < x then to else x
    }
  }

  /** No interval with the points of both misses a point of the hull. */
  lemma HullIsLeast(a: Interval, b: Interval, i: Interval)
    requires a.Ordered() && b.Ordered()
    requires forall t :: a.Contains(t) || b.Contains(t) ==> i.Contains(t)
    ensures forall t :: a.Hull(b).Contains(t) ==> i.Contains(t)
  {
    if !a.Empty() && !b.Empty() {
      assert a.Contains(a.from) && b.Contains(b.from);
      assert a.Contains(a.to - 1) && b.Contains(b.to - 1);
    }
  }

  /** Two intervals with points overlap exactly when they share one. */
  lemma OverlapIffCommonPoint(a: Interval, b: Interval)
    requires a.Ordered() && b.Ordered() && !a.Empty() && !b.Empty()
    ensures a.Overlaps(b) <==> exists t :: a.Contains(t) && b.Contains(t)
  {
    if a.Overlaps(b) {
      assert a.Contains(Max(a.from, b.from)) && b.Contains(Max(a.from, b.from));
    }
  }

  /** Without a common point there is no overlap, except that an empty interval
      strictly inside another one counts as overlapping it. */
  lemma OverlapWithoutCommonPointIff(a: Interval, b: Interval)
    requires a.Ordered() && b.Ordered()
    ensures a.Overlaps(b) && !(exists t :: a.Contains(t) && b.Contains(t)) <==>
            (a.Empty() && b.from < a.from < b.to) || (b.Empty() && a.from < b.from < a.to)
  {
    if !a.Empty() && !b.Empty() {
      OverlapIffCommonPoint(a, b);
    }
  }
}
