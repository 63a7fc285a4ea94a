/** The interval-extension loop of a search (`execute`); the routing algorithm is a
    callback that finds journeys for one start time. */
module SearchLoop {
  import opened Basics
  import opened IntervalEstimate
  import opened Intervals
  import opened ParetoSet

  /** All start times of an interval, in the order of the search; with the flag also
      the one just outside. */
  type StartsOf = (Interval, bool) -> seq<int>

  /** The results after searching from one start time. */
  type Algorithm = (int, seq<Journey>) -> seq<Journey>

  /** Forward searches go from late to early, backward ones from early to late. */
  predicate Before(forward: bool, a: int, b: int) {
    if forward then a > b else a < b
  }

  /** The extra start time: the end of the interval, or the minute before it begins. */
  function OntripTime(forward: bool, iv: Interval): int {
    if forward then iv.to else iv.from - 1
  }

  ghost predicate InSearchOrder(forward: bool, starts: seq<int>) {
    forall i, j :: 0 <= i < j < |starts| ==> Before(forward, starts[i], starts[j])
  }

  ghost predicate StartsOk(forward: bool, startsOf: StartsOf) {
    forall iv: Interval, ontrip: bool :: iv.Ordered() ==>
      InSearchOrder(forward, startsOf(iv, ontrip)) &&
      forall t :: t in startsOf(iv, ontrip) ==> iv.Contains(t) || (ontrip && t == OntripTime(forward, iv))
  }

  /** New results start at the time searched for; old ones may be dropped. */
  ghost predicate AlgorithmOk(algo: Algorithm) {
    forall t: int, results: seq<Journey>, j: Journey :: j in algo(t, results) ==> j in results || j.start == t
  }

  /** The results after searching from these start times one after the other. */
  function RunAll(algo: Algorithm, starts: seq<int>, results: seq<Journey>): seq<Journey> {
    if starts == [] then results else algo(starts[|starts| - 1], RunAll(algo, starts[..|starts| - 1], results))
  }

  /** The algorithm finds this journey from start time `t`, whatever was found before. */
  ghost predicate Yields(algo: Algorithm, t: int, j: Journey) {
    forall results: seq<Journey> :: j in algo(t, results)
  }

  /** Later runs drop no result. */
  ghost predicate KeepsFound(algo: Algorithm) {
    forall t: int, results: seq<Journey>, j: Journey :: j in results ==> j in algo(t, results)
  }

  /** The journey comes out of a run from its own start time. */
  ghost predicate IsFound(algo: Algorithm, j: Journey) {
    exists results: seq<Journey> :: j in algo(j.start, results)
  }

  ghost predicate IsStart(startsOf: StartsOf, t: int) {
    t in startsOf(Interval(t, t + 1), false)
  }

  /** Whether a minute is a start time does not depend on the interval asked for. */
  ghost predicate StartsFixed(startsOf: StartsOf) {
    forall iv: Interval, ontrip: bool, t: int :: iv.Contains(t) ==> (t in startsOf(iv, ontrip) <==> IsStart(startsOf, t))
  }

  lemma {:induction false} RunAllKeeps(algo: Algorithm, starts: seq<int>, results: seq<Journey>, j: Journey)
    requires KeepsFound(algo)
    requires j in results || exists t :: t in starts && Yields(algo, t, j)
    ensures j in RunAll(algo, starts, results)
  {
    if starts != [] {
      var front, last := starts[..|starts| - 1], starts[|starts| - 1];
      if !Yields(algo, last, j) {
        if t :| t in starts && Yields(algo, t, j) {
          var i :| 0 <= i < |starts| && starts[i] == t;
          assert front[i] == t;
        }
        RunAllKeeps(algo, front, results, j);
      }
    }
  }

  /** Nothing else comes in. */
  lemma {:induction false} RunAllIsFound(algo: Algorithm, starts: seq<int>, results: seq<Journey>, j: Journey)
    requires AlgorithmOk(algo) && j in RunAll(algo, starts, results)
    ensures j in results || IsFound(algo, j)
  {
    if starts != [] {
      var before := RunAll(algo, starts[..|starts| - 1], results);
      if j in before {
        RunAllIsFound(algo, starts[..|starts| - 1], results, j);
      } else {
        assert j.start == starts[|starts| - 1];
      }
    }
  }

  function CountIn(results: seq<Journey>, iv: Interval): nat {
    if results == [] then 0
    else CountIn(results[..|results| - 1], iv) + (if iv.Contains(results[|results| - 1].start) then 1 else 0)
  }

  lemma {:induction false} CountSame(results: seq<Journey>, a: Interval, b: Interval)
    requires forall j :: j in results ==> (a.Contains(j.start) <==> b.Contains(j.start))
    ensures CountIn(results, a) == CountIn(results, b)
  {
    if results != [] {
      CountSame(results[..|results| - 1], a, b);
    }
  }

  lemma NothingCounted(iv: Interval)
    ensures CountIn([], iv) == 0
  {
  }

  lemma {:induction false} CountedIsThere(results: seq<Journey>, iv: Interval) returns (j: Journey)
    requires CountIn(results, iv) > 0
    ensures j in results && iv.Contains(j.start)
  {
    if iv.Contains(results[|results| - 1].start) {
      j := results[|results| - 1];
    } else {
      j := CountedIsThere(results[..|results| - 1], iv);
    }
  }

  /** The interval cut at a start time, at the end that the search opens. */
  function CutAt(forward: bool, iv: Interval, t: int): Interval {
    if forward then Interval(t, iv.to) else Interval(iv.from, t + 1)
  }

  /** Only searches that extend against their direction may stop early. */
  ghost predicate MayStopEarly(e: Estimator) {
    e.minCount > 0 && if e.forward then e.earlier && !e.later else !e.earlier && e.later
  }

  /** No result lies behind one of the start times in the order of the search. */
  ghost predicate AllAhead(forward: bool, results: seq<Journey>, starts: seq<int>) {
    forall j, t :: j in results && t in starts ==> !Before(forward, t, j.start)
  }

  /** No result starts behind the open end of the interval. */
  ghost predicate NoneBehind(forward: bool, results: seq<Journey>, iv: Interval) {
    forall j :: j in results ==> if forward then j.start >= iv.from else j.start < iv.to
  }

  class Search {
    const e: Estimator
    const startsOf: StartsOf
    const algo: Algorithm
    var searchInterval: Interval
    var starts: seq<int>
    var results: seq<Journey>

    constructor (e: Estimator, startsOf: StartsOf, algo: Algorithm, itv: Interval)
      ensures this.e == e && this.startsOf == startsOf && this.algo == algo
      ensures searchInterval == itv && starts == [] && results == []
    {
      this.e, this.startsOf, this.algo := e, startsOf, algo;
      searchInterval, starts, results := itv, [], [];
    }

    /** `n_results_in_interval` */
    method CountResults() returns (n: nat)
      ensures n == CountIn(results, searchInterval)
    {
      n := 0;
      for i := 0 to |results|
        invariant n == CountIn(results[..i], searchInterval)
      {
        assert results[..i + 1][..i] == results[..i];
        if searchInterval.Contains(results[i].start) {
          n := n + 1;
        }
      }
      assert results[..|results|] == results;
    }

    /** What holds between the rounds of the loop. */
    ghost predicate Consistent()
      reads this
    {
      && e.Ok() && searchInterval.Ordered()
      && InSearchOrder(e.forward, starts)
      && (MayStopEarly(e) ==> AllAhead(e.forward, results, starts) && NoneBehind(e.forward, results, searchInterval))
      && (MayStopEarly(e) ==> forall t :: t in starts ==> if e.forward then t >= searchInterval.from else t < searchInterval.to)
    }

    lemma FirstRound()
      requires e.Ok() && searchInterval.Ordered() && StartsOk(e.forward, startsOf)
      requires starts == startsOf(searchInterval, true) && results == []
      ensures Consistent() && NothingMissed() && AllFound()
    {
    }

    /** `search_interval`: one run per start time, up to the first after which enough
        results are there if the search may stop early. Then the interval ends at the
        start time reached, and the results that count stay enough; else all start times
        are searched and the interval stays as it is. */
    method SearchInterval() returns (stopped: bool, ghost n: nat)
      requires Consistent() && AlgorithmOk(algo)
      modifies this`results, this`searchInterval
      ensures searchInterval.Ordered() && old(searchInterval).Includes(searchInterval)
      ensures n <= |starts| && results == RunAll(algo, starts[..n], old(results)) && (!stopped ==> n == |starts|)
      ensures stopped ==> n > 0 && searchInterval == CutAt(e.forward, old(searchInterval), starts[n - 1])
      ensures forall m :: 0 < m <= n ==> (stopped && m == n <==> IsEnough(e, algo, starts, old(searchInterval), old(results), m))
      ensures stopped ==> MayStopEarly(e) && CountIn(results, searchInterval) >= e.minCount
      ensures !stopped ==> searchInterval == old(searchInterval)
      ensures !stopped && MayStopEarly(e) ==> NoneBehind(e.forward, results, searchInterval)
    {
      hide *;
      stopped, n := false, 0;
      ghost var iv0, results0 := searchInterval, results;
      RoundStarts(this);
      for i := 0 to |starts|
        invariant RoundSoFar(e, algo, starts, iv0, results0, i, n, stopped, searchInterval, results)
        invariant !stopped ==> searchInterval == iv0
      {
        if stopped {
          RoundStays(e, algo, starts, iv0, results0, i, n, searchInterval, results);
          continue;
        }
        ghost var found := results;
        var t := starts[i];
        results := algo(t, results);
        var count := CountResults();
        var against := (e.forward && e.earlier && !e.later) || (!e.forward && !e.earlier && e.later);
        if e.minCount > 0 && count >= e.minCount && against {
          stopped := true;
          searchInterval := if e.forward then searchInterval.(from := t) else searchInterval.(to := t + 1);
        }
        StopsIf(e);
        RoundGoesOn(e, algo, starts, iv0, results0, i, n, found, stopped, searchInterval);
        n := i + 1;
      }
      RoundEnds(e, algo, starts, iv0, results0, n, stopped, searchInterval, results);
    }

    /** Every journey that a start time of the interval yields is a result already, or
        its start time is still to be searched. */
    ghost predicate NothingMissed()
      reads this
    {
      KeepsFound(algo) && StartsFixed(startsOf) ==>
        forall t: int, j: Journey :: IsStart(startsOf, t) && searchInterval.Contains(t) && Yields(algo, t, j) ==> t in starts || j in results
    }

    /** All journeys that the start times of the interval yield are there. */
    ghost predicate Complete()
      reads this
    {
      KeepsFound(algo) && StartsFixed(startsOf) ==>
        forall t: int, j: Journey :: IsStart(startsOf, t) && searchInterval.Contains(t) && Yields(algo, t, j) ==> j in results
    }

    ghost predicate AllFound()
      reads this
    {
      forall j :: j in results ==> IsFound(algo, j)
    }

    /** The start times of the parts that an extension adds, in search order; where the
        search has to begin anew, results outside the old interval are dropped. */
    method NextStarts(next: Interval)
      requires e.Ok() && searchInterval.Ordered() && next.Includes(searchInterval) && StartsOk(e.forward, startsOf)
      requires (!e.earlier ==> next.from == searchInterval.from) && (!e.later ==> next.to == searchInterval.to)
      requires MayStopEarly(e) ==> NoneBehind(e.forward, results, searchInterval)
      modifies this`starts, this`results
      ensures forall t :: t in starts <==>
        || (next.from != searchInterval.from && t in startsOf(Interval(next.from, searchInterval.from), !e.forward))
        || (next.to != searchInterval.to && t in startsOf(Interval(searchInterval.to, next.to), e.forward))
      ensures var anew := if e.forward then next.to != searchInterval.to else next.from != searchInterval.from;
        forall j :: j in results <==> j in old(results) && (anew ==> searchInterval.Contains(j.start))
      ensures InSearchOrder(e.forward, starts)
      ensures MayStopEarly(e) ==> AllAhead(e.forward, results, starts) && NoneBehind(e.forward, results, next)
      ensures MayStopEarly(e) ==> forall t :: t in starts ==> if e.forward then t >= next.from else t < next.to
    {
      var front: seq<int>, back: seq<int> := [], [];
      if next.from != searchInterval.from {
        front := startsOf(Interval(next.from, searchInterval.from), !e.forward);
        if !e.forward {
          RemoveOntripResults();
        }
      }
      if next.to != searchInterval.to {
        back := startsOf(Interval(searchInterval.to, next.to), e.forward);
        if e.forward {
          RemoveOntripResults();
        }
      }
      starts := if e.forward then back + front else front + back;
      PartsInOrder(e.forward, searchInterval, next, front, back);
    }

    /** `remove_ontrip_results` */
    method RemoveOntripResults()
      modifies this`results
      ensures forall j :: j in results <==> j in old(results) && searchInterval.Contains(j.start)
    {
      var kept: seq<Journey> := [];
      for i := 0 to |results|
        invariant results == old(results)
        invariant forall j :: j in kept <==> j in results[..i] && searchInterval.Contains(j.start)
      {
        assert results[..i + 1] == results[..i] + [results[i]];
        if searchInterval.Contains(results[i].start) {
          kept := kept + [results[i]];
        }
      }
      assert results[..|results|] == results;
      results := kept;
    }
  }

  /** Inside a round: `n` start times are searched, `i` are passed; before a stop these are
      the same. */
  ghost predicate RoundSoFar(e: Estimator, algo: Algorithm, starts: seq<int>, iv0: Interval, results0: seq<Journey>,
                             i: nat, n: nat, stopped: bool, iv: Interval, results: seq<Journey>)
  {
    && n <= i <= |starts| && results == RunAll(algo, starts[..n], results0)
    && iv.Ordered() && iv0.Ordered() && iv0.Includes(iv) && AlgorithmOk(algo) && InSearchOrder(e.forward, starts)
    && (forall m :: 0 < m <= n ==> (stopped && m == n <==> IsEnough(e, algo, starts, iv0, results0, m)))
    && (MayStopEarly(e) ==> forall t :: t in starts ==> if e.forward then t >= iv0.from else t < iv0.to)
    && if stopped then n > 0 && iv == CutAt(e.forward, iv0, starts[n - 1]) && CountIn(results, iv) >= e.minCount
       else n == i && iv == iv0 && (MayStopEarly(e) ==> AllAhead(e.forward, results, starts[i..]) && NoneBehind(e.forward, results, iv))
  }

  /** After `m` start times the search may stop. */
  ghost predicate IsEnough(e: Estimator, algo: Algorithm, starts: seq<int>, iv: Interval, results: seq<Journey>, m: nat)
    requires m <= |starts|
  {
    MayStopEarly(e) && CountIn(RunAll(algo, starts[..m], results), iv) >= e.minCount
  }

  lemma StopsIf(e: Estimator)
    ensures MayStopEarly(e) <==> e.minCount > 0 && ((e.forward && e.earlier && !e.later) || (!e.forward && !e.earlier && e.later))
  {
  }

  lemma RoundStarts(s: Search)
    requires s.Consistent() && AlgorithmOk(s.algo)
    ensures RoundSoFar(s.e, s.algo, s.starts, s.searchInterval, s.results, 0, 0, false, s.searchInterval, s.results)
  {
  }

  lemma RoundStays(e: Estimator, algo: Algorithm, starts: seq<int>, iv0: Interval, results0: seq<Journey>,
                   i: nat, n: nat, iv: Interval, results: seq<Journey>)
    requires i < |starts| && RoundSoFar(e, algo, starts, iv0, results0, i, n, true, iv, results)
    ensures RoundSoFar(e, algo, starts, iv0, results0, i + 1, n, true, iv, results)
  {
  }

  lemma RoundGoesOn(e: Estimator, algo: Algorithm, starts: seq<int>, iv0: Interval, results0: seq<Journey>,
                    i: nat, n: nat, results: seq<Journey>, stopped': bool, iv': Interval)
    requires i < |starts| && RoundSoFar(e, algo, starts, iv0, results0, i, n, false, iv0, results)
    requires stopped' <==> MayStopEarly(e) && CountIn(algo(starts[i], results), iv0) >= e.minCount
    requires iv' == if !stopped' then iv0 else if e.forward then iv0.(from := starts[i]) else iv0.(to := starts[i] + 1)
    ensures RoundSoFar(e, algo, starts, iv0, results0, i + 1, i + 1, stopped', iv', algo(starts[i], results))
  {
    hide CountIn, AllAhead, InSearchOrder, NoneBehind;
    var t, now := starts[i], algo(starts[i], results);
    assert starts[..i + 1][..i] == starts[..i] && t in starts && starts[i..][0] == t;
    assert now == RunAll(algo, starts[..i + 1], results0);
    RunAhead(e.forward, algo, results, starts, i);
    if MayStopEarly(e) {
      StaysAhead(e.forward, algo, results, starts, i, iv0);
    }
    if stopped' {
      ShrunkCounts(e, now, iv0, t);
    }
  }

  lemma StaysAhead(forward: bool, algo: Algorithm, results: seq<Journey>, starts: seq<int>, i: nat, iv: Interval)
    requires AlgorithmOk(algo) && i < |starts| && AllAhead(forward, algo(starts[i], results), starts[i..])
    requires NoneBehind(forward, results, iv) && if forward then starts[i] >= iv.from else starts[i] < iv.to
    ensures NoneBehind(forward, algo(starts[i], results), iv)
    ensures forall j :: j in algo(starts[i], results) ==> !Before(forward, starts[i], j.start)
  {
    assert starts[i] == starts[i..][0] && starts[i] in starts[i..];
  }

  lemma RoundEnds(e: Estimator, algo: Algorithm, starts: seq<int>, iv0: Interval, results0: seq<Journey>,
                  n: nat, stopped: bool, iv: Interval, results: seq<Journey>)
    requires RoundSoFar(e, algo, starts, iv0, results0, |starts|, n, stopped, iv, results)
    ensures n <= |starts| && (!stopped ==> n == |starts|) && results == RunAll(algo, starts[..n], results0)
    ensures iv.Ordered() && iv0.Includes(iv) && (!stopped ==> iv == iv0)
    ensures stopped ==> n > 0 && iv == CutAt(e.forward, iv0, starts[n - 1]) && MayStopEarly(e) && CountIn(results, iv) >= e.minCount
    ensures forall m :: 0 < m <= n ==> (stopped && m == n <==> IsEnough(e, algo, starts, iv0, results0, m))
    ensures !stopped && MayStopEarly(e) ==> NoneBehind(e.forward, results, iv)
  {
    hide CountIn, RunAll;
    assert starts[..|starts|] == starts;
    assert stopped ==> IsEnough(e, algo, starts, iv0, results0, n);
  }

  lemma BehindTheCut(forward: bool, starts: seq<int>, iv: Interval, n: nat, i: nat)
    requires InSearchOrder(forward, starts) && 0 < n <= |starts| && i < |starts|
    ensures CutAt(forward, iv, starts[n - 1]).Contains(starts[i]) ==> i < n
  {
    assert n - 1 < i ==> Before(forward, starts[n - 1], starts[i]);
  }

  /** A round leaves nothing to be searched, even if it stops early: then the interval
      ends at the start time reached, and those before it in search order are done. */
  lemma RoundIsComplete(s: Search, iv: Interval, results: seq<Journey>, n: nat, stopped: bool)
    requires AlgorithmOk(s.algo) && InSearchOrder(s.e.forward, s.starts) && n <= |s.starts| && (!stopped ==> n == |s.starts|)
    requires s.results == RunAll(s.algo, s.starts[..n], results)
    requires !stopped ==> s.searchInterval == iv
    requires stopped ==> n > 0 && iv.Includes(s.searchInterval) && s.searchInterval == CutAt(s.e.forward, iv, s.starts[n - 1])
    requires KeepsFound(s.algo) && StartsFixed(s.startsOf) ==> forall t: int, j: Journey ::
      IsStart(s.startsOf, t) && iv.Contains(t) && Yields(s.algo, t, j) ==> t in s.starts || j in results
    requires forall j :: j in results ==> IsFound(s.algo, j)
    ensures s.Complete() && s.AllFound()
  {
    hide IsStart, StartsFixed, KeepsFound, AlgorithmOk, IsFound, RunAll;
    if KeepsFound(s.algo) && StartsFixed(s.startsOf) {
      forall t: int, j: Journey | IsStart(s.startsOf, t) && s.searchInterval.Contains(t) && Yields(s.algo, t, j)
        ensures j in s.results
      {
        if t in s.starts {
          var i :| 0 <= i < |s.starts| && s.starts[i] == t;
          assert i < n ==> s.starts[..n][i] == t;
          if stopped {
            BehindTheCut(s.e.forward, s.starts, iv, n, i);
          }
        }
        RunAllKeeps(s.algo, s.starts[..n], results, j);
      }
    }
    forall j | j in s.results ensures IsFound(s.algo, j) {
      RunAllIsFound(s.algo, s.starts[..n], results, j);
    }
  }

  /** What an extension adds to the interval is among the new start times, and results
      of the old interval are kept. */
  lemma NextRoundMissesNothing(s: Search, iv: Interval, results: seq<Journey>)
    requires AlgorithmOk(s.algo) && iv.Ordered() && s.searchInterval.Includes(iv)
    requires forall t ::
      || (s.searchInterval.from != iv.from && t in s.startsOf(Interval(s.searchInterval.from, iv.from), !s.e.forward))
      || (s.searchInterval.to != iv.to && t in s.startsOf(Interval(iv.to, s.searchInterval.to), s.e.forward))
      ==> t in s.starts
    requires forall j :: j in results && iv.Contains(j.start) ==> j in s.results
    requires forall j :: j in s.results ==> j in results && IsFound(s.algo, j)
    requires KeepsFound(s.algo) && StartsFixed(s.startsOf) ==>
      forall t: int, j: Journey :: IsStart(s.startsOf, t) && iv.Contains(t) && Yields(s.algo, t, j) ==> j in results
    ensures s.NothingMissed() && s.AllFound()
  {
    hide IsStart, KeepsFound, IsFound;
    if KeepsFound(s.algo) && StartsFixed(s.startsOf) {
      forall t: int, j: Journey | IsStart(s.startsOf, t) && s.searchInterval.Contains(t) && Yields(s.algo, t, j)
        ensures t in s.starts || j in s.results
      {
        assert j in s.algo(t, []);
        if t < iv.from {
          assert Interval(s.searchInterval.from, iv.from).Contains(t);
        } else if t >= iv.to {
          assert Interval(iv.to, s.searchInterval.to).Contains(t);
        }
      }
    }
  }

  lemma PartsInOrder(forward: bool, iv: Interval, next: Interval, front: seq<int>, back: seq<int>)
    requires iv.Ordered() && next.Includes(iv) && InSearchOrder(forward, front) && InSearchOrder(forward, back)
    requires forall t :: t in front ==> t < iv.from
    requires forall t :: t in back ==> t >= iv.to
    ensures InSearchOrder(forward, if forward then back + front else front + back)
  {
    var all := if forward then back + front else front + back;
    forall i, j | 0 <= i < j < |all| ensures Before(forward, all[i], all[j]) {
      var a, b := if forward then back else front, if forward then front else back;
      if i < |a| <= j {
        assert a[i] in a && b[j - |a|] in b;
      }
    }
  }

  /** A run keeps its results ahead of the start times that follow. */
  lemma RunAhead(forward: bool, algo: Algorithm, results: seq<Journey>, starts: seq<int>, i: nat)
    requires AlgorithmOk(algo) && InSearchOrder(forward, starts) && i < |starts|
    ensures AllAhead(forward, results, starts[i..]) ==>
      AllAhead(forward, algo(starts[i], results), starts[i..]) && AllAhead(forward, algo(starts[i], results), starts[i + 1..])
    ensures forall j :: j in algo(starts[i], results) ==> j in results || j.start == starts[i]
  {
    if AllAhead(forward, results, starts[i..]) {
      var now := algo(starts[i], results);
      forall j, t | j in now && t in starts[i..] ensures !Before(forward, t, j.start) {
        var k :| i <= k < |starts| && starts[k] == t;
        assert j in results || j.start == starts[i];
      }
      assert starts[i + 1..] == starts[i..][1..];
      AheadOfTail(forward, now, starts[i..]);
    }
  }

  lemma AheadOfTail(forward: bool, results: seq<Journey>, starts: seq<int>)
    requires starts != [] && AllAhead(forward, results, starts)
    ensures AllAhead(forward, results, starts[1..])
  {
    forall t | t in starts[1..] ensures t in starts {
      var k :| 0 <= k < |starts| - 1 && starts[1..][k] == t;
      assert starts[k + 1] == t;
    }
  }

  /** Cutting the interval at the start time reached loses no result that counts. */
  lemma ShrunkCounts(e: Estimator, results: seq<Journey>, iv: Interval, t: int)
    requires iv.Ordered() && MayStopEarly(e) && CountIn(results, iv) >= e.minCount
    requires if e.forward then t >= iv.from else t < iv.to
    requires forall j :: j in results ==> !Before(e.forward, t, j.start)
    ensures var cut := if e.forward then iv.(from := t) else iv.(to := t + 1);
      cut.Ordered() && iv.Includes(cut) && CountIn(results, cut) == CountIn(results, iv)
  {
    var cut := if e.forward then iv.(from := t) else iv.(to := t + 1);
    var j := CountedIsThere(results, iv);
    CountSame(results, iv, cut);
  }

  /** Why the loop ended. */
  datatype Exit = NoResults | Enough | TimedOut | Maximal

  /** The rounds so far, seen from the query's interval: it stays covered, except
      where an early stop cut it at the end that the search opens. */
  ghost predicate Covers(e: Estimator, first: Interval, now: Interval, stopped: bool) {
    if !stopped then now.Includes(first)
    else if e.forward then first.to <= now.to else now.from <= first.from
  }

  /** The intervals of the rounds: each properly contains the one before. */
  ghost predicate IsHistory(history: seq<Interval>, first: Interval, round: nat) {
    && |history| == round + 1 && history[0] == first
    && forall i :: 0 <= i < round ==> history[i + 1].Includes(history[i]) && history[i + 1] != history[i]
  }

  /** `execute` for a query with a start interval: the loop always ends; the interval
      it ends with lies within the bound of the query, covers the first one unless a
      round stopped early, and a round that stopped early is the last. However it ends,
      every journey that a start time of the final interval yields is in the results,
      and all results come out of runs from their own start time. */
  method Execute(external: Interval, q: SearchQuery, startsOf: StartsOf, algo: Algorithm, timeout: nat -> bool)
    returns (s: Search, exit: Exit, stopped: bool, round: nat, ghost first: Interval, ghost history: seq<Interval>)
    requires external.Ordered() && q.Ok() && StartsOk(q.forward, startsOf) && AlgorithmOk(algo)
    ensures fresh(s) && s.e == EstimatorFor(external, q) && s.searchInterval.Ordered()
    ensures s.algo == algo && s.startsOf == startsOf && s.Complete() && s.AllFound()
    ensures if s.e.Extends() then s.e.Bound().Includes(s.searchInterval) else q.start.Includes(s.searchInterval)
    ensures s.e.Extends() ==> s.searchInterval.to - s.searchInterval.from <= MAX_SEARCH_INTERVAL + DAY
    ensures Covers(s.e, first, s.searchInterval, stopped) && (!s.e.Extends() ==> first == q.start)
    ensures s.e.Extends() ==> first.Includes(Interval(s.e.Clamped(q.start.from), s.e.Clamped(q.start.to)))
    ensures stopped ==> exit == Enough
    ensures exit == NoResults <==> s.results == []
    ensures IsHistory(history, first, round)
    ensures if stopped then history[round].Includes(s.searchInterval) else history[round] == s.searchInterval
    ensures (forall i :: 0 <= i < round ==> !timeout(i)) && (exit == TimedOut ==> timeout(round)) && (exit == Maximal ==> !timeout(round))
    ensures exit == Enough ==> CountIn(s.results, s.searchInterval) >= q.minCount
    ensures exit == Maximal ==> CountIn(s.results, s.searchInterval) < q.minCount
    ensures exit == Maximal && s.e.Extends() ==>
      Exhausted(s.e, s.searchInterval, q.minCount - CountIn(s.results, s.searchInterval))
  {
    hide Estimator.Clamped, Estimator.Bound, Exhausted, InSearchOrder, AllAhead, CountIn, DataTypeMax;
    hide IsStart, StartsFixed, KeepsFound, IsFound, Yields, RunAll;
    var e, itv := EstimatorFor(external, q), q.start;
    s := new Search(e, startsOf, algo, itv);
    s.searchInterval := Initial(e, itv);
    first := s.searchInterval;
    s.starts := startsOf(s.searchInterval, true);
    s.FirstRound();
    round, history := 0, [first];
    exit, stopped := NoResults, false;
    ghost var bound := e.Bound();
    ghost var room := if e.Extends() then bound else s.searchInterval;
    while true
      invariant fresh(s) && s.e == e && s.startsOf == startsOf && s.algo == algo && s.Consistent() && !stopped
      invariant s.searchInterval.Includes(first) && room.Includes(s.searchInterval)
      invariant IsHistory(history, first, round) && history[round] == s.searchInterval
      invariant s.NothingMissed() && s.AllFound() && forall i :: 0 <= i < round ==> !timeout(i)
      invariant room == if e.Extends() then bound else first
      decreases (room.to - room.from) - (s.searchInterval.to - s.searchInterval.from)
    {
      ghost var before, results0 := s.searchInterval, s.results;
      ghost var searched;
      stopped, searched := s.SearchInterval();
      RoundIsComplete(s, before, results0, searched, stopped);
      var n := s.CountResults();
      if s.results == [] {
        NothingCounted(s.searchInterval);
        exit := NoResults;
        break;
      }
      if n >= e.minCount {
        exit := Enough;
        break;
      }
      if timeout(round) {
        exit := TimedOut;
        break;
      }
      if !e.earlier && !e.later {
        exit := Maximal;
        break;
      }
      var next := Extension(e, s.searchInterval, e.minCount - n);
      if next == s.searchInterval {
        exit := Maximal;
        break;
      }
      ghost var now, results1 := s.searchInterval, s.results;
      s.NextStarts(next);
      s.searchInterval := next;
      NextRoundMissesNothing(s, now, results1);
      history := history + [next];
      round := round + 1;
    }
  }
}
