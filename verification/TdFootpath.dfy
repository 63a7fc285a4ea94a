/** Lookup in time-dependent footpaths (`get_td_duration`). */
module TdFootpath {
  import opened Basics

  /** The duration that marks an entry as unusable. */
  const MAX_DURATION := 511

  const MAX_TRAVEL_TIME := 7200

  datatype Entry = Entry(validFrom: int, duration: int)

  /** Entries of one target: from its time on, each replaces the one before. */
  ghost predicate EntriesOk(c: seq<Entry>) {
    && (forall i, j :: 0 <= i < j < |c| ==> c[i].validFrom < c[j].validFrom)
    && (forall i :: 0 <= i < |c| ==> 0 <= c[i].duration < 0x8000)
  }

  /** At instant `d`, entry `i` is in force and can be walked. */
  ghost predicate Departs(c: seq<Entry>, i: nat, d: int) {
    && i < |c| && c[i].duration != MAX_DURATION
    && c[i].validFrom <= d && (i + 1 < |c| ==> d < c[i + 1].validFrom)
  }

  /** Leaving at `d` with entry `i`, one arrives by `t`. */
  ghost predicate ArrivesBy(c: seq<Entry>, i: nat, d: int, t: int) {
    Departs(c, i, d) && d + c[i].duration <= t
  }

  /** No departure at or after `t` lies before `d`. */
  ghost predicate NoneBefore(c: seq<Entry>, t: int, d: int) {
    forall j: nat, x: int :: Departs(c, j, x) && t <= x ==> d <= x
  }

  /** No departure that arrives by `t` lies after `d`. */
  ghost predicate NoneAfter(c: seq<Entry>, t: int, d: int) {
    forall j: nat, x: int :: ArrivesBy(c, j, x, t) ==> x <= d
  }

  /** Some departure arrives by `t`, and not too long before. */
  ghost predicate Reachable(c: seq<Entry>, t: int) {
    exists i: nat, d: int :: ArrivesBy(c, i, d, t) && t - (d + c[i].duration) <= MAX_TRAVEL_TIME
  }

  /** The latest departure that arrives by `t`, if there is one, arrives too long before. */
  ghost predicate FindsNothing(c: seq<Entry>, t: int) {
    forall i: nat, d: int :: ArrivesBy(c, i, d, t) && NoneAfter(c, t, d) ==> t - (d + c[i].duration) > MAX_TRAVEL_TIME
  }

  datatype Found = Found(duration: int, index: nat)

  /** Forward: the earliest departure from `t` on, unless one would have to wait for
      it too long. */
  method ForwardDuration(c: seq<Entry>, t: int) returns (r: Option<Found>)
    requires EntriesOk(c)
    ensures r == None <==> forall i: nat, d: int :: Departs(c, i, d) && t <= d ==> d > t + MAX_TRAVEL_TIME
    ensures r.Some? ==> var i := r.value.index;
      && i < |c| && Departs(c, i, Max(c[i].validFrom, t)) && NoneBefore(c, t, Max(c[i].validFrom, t))
      && (c[i].duration < 0x8000 - MAX_TRAVEL_TIME ==> r.value.duration == Max(c[i].validFrom, t) + c[i].duration - t)
  {
    for i := 0 to |c|
      invariant forall j: nat, d: int :: Departs(c, j, d) && j < i ==> d < t
    {
      if c[i].duration == MAX_DURATION || (c[i].validFrom < t && i + 1 < |c| && c[i + 1].validFrom <= t) {
        continue;
      }
      LaterEntries(c, i);
      if c[i].validFrom - t > MAX_TRAVEL_TIME {
        return None;
      }
      assert Departs(c, i, Max(c[i].validFrom, t));
      return Some(Found(Wrap16(Max(c[i].validFrom, t) + c[i].duration - t), i));
    }
    return None;
  }

  lemma LaterEntries(c: seq<Entry>, i: nat)
    requires EntriesOk(c) && i < |c|
    ensures forall j: nat, d: int :: Departs(c, j, d) && i <= j ==> c[i].validFrom <= d
    ensures forall j: nat, d: int :: Departs(c, j, d) && j < i ==> d < c[i].validFrom
  {
    forall j: nat, d: int | Departs(c, j, d) && j < i ensures d < c[i].validFrom {
      assert j + 1 < i ==> c[j + 1].validFrom < c[i].validFrom;
    }
  }

  /** The last instant at which entry `i` is in force and still arrives by `t`. */
  function LatestDeparture(c: seq<Entry>, i: nat, t: int): int
    requires i < |c|
  {
    if i + 1 == |c| then t - c[i].duration else Min(t - c[i].duration, c[i + 1].validFrom - 1)
  }

  /** Backward: the latest departure that arrives by `t`, unless it arrives too long
      before. */
  method BackwardDuration(c: seq<Entry>, t: int) returns (r: Option<Found>)
    requires EntriesOk(c)
    ensures r == None <==> FindsNothing(c, t)
    ensures r.Some? ==> var i := r.value.index;
      && i < |c| && ArrivesBy(c, i, LatestDeparture(c, i, t), t) && NoneAfter(c, t, LatestDeparture(c, i, t))
      && (c[i].duration < 0x8000 - MAX_TRAVEL_TIME ==> r.value.duration == t - LatestDeparture(c, i, t))
  {
    var k := |c|;
    while k > 0
      invariant k <= |c| && forall j: nat, d: int :: k <= j ==> !ArrivesBy(c, j, d, t)
    {
      k := k - 1;
      if c[k].duration == MAX_DURATION || c[k].validFrom + c[k].duration > t {
        continue;
      }
      var latestArr := if k + 1 == |c| then t else Min(t, c[k + 1].validFrom - 1 + c[k].duration);
      assert latestArr - c[k].duration == LatestDeparture(c, k, t);
      LatestIsLatest(c, k, t);
      if t - latestArr > MAX_TRAVEL_TIME {
        return None;
      }
      return Some(Found(Wrap16(t - (latestArr - c[k].duration)), k));
    }
    return None;
  }

  lemma LatestIsLatest(c: seq<Entry>, k: nat, t: int)
    requires EntriesOk(c) && k < |c| && c[k].duration != MAX_DURATION && c[k].validFrom + c[k].duration <= t
    requires forall j: nat, d: int :: k < j ==> !ArrivesBy(c, j, d, t)
    ensures ArrivesBy(c, k, LatestDeparture(c, k, t), t) && NoneAfter(c, t, LatestDeparture(c, k, t))
    ensures forall i: nat, d: int :: ArrivesBy(c, i, d, t) && NoneAfter(c, t, d) ==> i == k && d == LatestDeparture(c, k, t)
  {
    LaterEntries(c, k);
    var latest := LatestDeparture(c, k, t);
    assert k + 1 < |c| ==> c[k].validFrom < c[k + 1].validFrom;
    assert ArrivesBy(c, k, latest, t);
    forall i: nat, d: int | ArrivesBy(c, i, d, t) ensures d <= latest && (d == latest ==> i == k) {
      assert i <= k;
    }
  }

  // ---------- what the waiting limit hides ----------

  /** Leaving at `d` with entry `i` one is overtaken by leaving at `d'` with entry `j`,
      and whoever leaves later still arrives after both, by more than the limit after
      the overtaking one. */
  ghost predicate Overtaken(c: seq<Entry>, i: nat, d: int, j: nat, d': int) {
    && Departs(c, i, d) && Departs(c, j, d') && d < d' && d' + c[j].duration < d + c[i].duration
    && NoneAfter(c, Max(d + c[i].duration, d' + c[j].duration + MAX_TRAVEL_TIME + 1), d')
  }

  lemma SameInstantSameEntry(c: seq<Entry>, i: nat, j: nat, d: int)
    requires EntriesOk(c) && Departs(c, i, d) && Departs(c, j, d)
    ensures i == j
  {
    LaterEntries(c, i);
    LaterEntries(c, j);
  }

  /** If there is a departure that arrives by `t`, there is a latest one. */
  lemma {:induction false} LatestExists(c: seq<Entry>, t: int, k: nat) returns (j: nat, d: int)
    requires EntriesOk(c) && k <= |c| && forall j: nat, d: int :: k <= j < |c| ==> !ArrivesBy(c, j, d, t)
    requires exists j: nat, d: int :: ArrivesBy(c, j, d, t)
    ensures ArrivesBy(c, j, d, t) && NoneAfter(c, t, d)
    decreases k
  {
    if k > 0 && c[k - 1].duration != MAX_DURATION && c[k - 1].validFrom + c[k - 1].duration <= t {
      LatestIsLatest(c, k - 1, t);
      j, d := k - 1, LatestDeparture(c, k - 1, t);
    } else {
      j, d := LatestExists(c, t, k - 1);
    }
  }

  lemma HiddenIsOvertaken(c: seq<Entry>, t: int, i: nat, d: int, j: nat, d': int)
    requires EntriesOk(c) && ArrivesBy(c, i, d, t) && t - (d + c[i].duration) <= MAX_TRAVEL_TIME
    requires ArrivesBy(c, j, d', t) && NoneAfter(c, t, d') && t - (d' + c[j].duration) > MAX_TRAVEL_TIME
    ensures Overtaken(c, i, d, j, d')
  {
    if d == d' {
      SameInstantSameEntry(c, i, j, d);
    }
    NoneAfterEarlier(c, t, Max(d + c[i].duration, d' + c[j].duration + MAX_TRAVEL_TIME + 1), d');
  }

  lemma NoneAfterEarlier(c: seq<Entry>, t: int, t': int, d: int)
    requires NoneAfter(c, t, d) && t' <= t
    ensures NoneAfter(c, t', d)
  {
    forall k: nat, x: int | ArrivesBy(c, k, x, t') ensures x <= d {
      assert ArrivesBy(c, k, x, t);
    }
  }

  lemma OvertakenIsHidden(c: seq<Entry>, i: nat, d: int, j: nat, d': int) returns (t: int)
    requires EntriesOk(c) && Overtaken(c, i, d, j, d')
    ensures Reachable(c, t) && FindsNothing(c, t)
  {
    t := Max(d + c[i].duration, d' + c[j].duration + MAX_TRAVEL_TIME + 1);
    assert ArrivesBy(c, i, d, t) && ArrivesBy(c, j, d', t);
    hide Departs;
    forall k: nat, x: int | ArrivesBy(c, k, x, t) && NoneAfter(c, t, x) ensures t - (x + c[k].duration) > MAX_TRAVEL_TIME {
      SameInstantSameEntry(c, k, j, d');
    }
  }

  lemma SomeArrival(c: seq<Entry>, t: int) returns (i: nat, d: int)
    requires Reachable(c, t)
    ensures ArrivesBy(c, i, d, t) && t - (d + c[i].duration) <= MAX_TRAVEL_TIME
  {
    i, d :| ArrivesBy(c, i, d, t) && t - (d + c[i].duration) <= MAX_TRAVEL_TIME;
  }

  lemma NothingMeansTooEarly(c: seq<Entry>, t: int, j: nat, d: int)
    requires FindsNothing(c, t) && ArrivesBy(c, j, d, t) && NoneAfter(c, t, d)
    ensures t - (d + c[j].duration) > MAX_TRAVEL_TIME
  {
  }

  /** The limit looks at the latest departure alone. It hides an arrival at some time
      exactly if some departure is overtaken in this way; in particular it hides none
      if later departures never arrive earlier. */
  lemma LimitHidesIff(c: seq<Entry>)
    requires EntriesOk(c)
    ensures (exists t :: Reachable(c, t) && FindsNothing(c, t)) <==> exists i, d, j, d' :: Overtaken(c, i, d, j, d')
  {
    hide Reachable, FindsNothing, Overtaken, NoneAfter, EntriesOk, ArrivesBy;
    if t :| Reachable(c, t) && FindsNothing(c, t) {
      var i, d := SomeArrival(c, t);
      var j, d' := LatestExists(c, t, |c|);
      NothingMeansTooEarly(c, t, j, d');
      HiddenIsOvertaken(c, t, i, d, j, d');
    }
    if i, d, j, d' :| Overtaken(c, i, d, j, d') {
      var t := OvertakenIsHidden(c, i, d, j, d');
    }
  }

  /** Such entries exist: a walk of five hours, a minute later one of five minutes, then
      none. At 7300 the lookup finds nothing, although the first walk arrives 7000
      minutes before. */
  method HiddenArrival() returns (c: seq<Entry>, t: int, r: Option<Found>)
    ensures EntriesOk(c) && Reachable(c, t) && r == None
  {
    c, t := [Entry(0, 300), Entry(1, 5), Entry(2, MAX_DURATION)], 7300;
    r := BackwardDuration(c, t);
    assert ArrivesBy(c, 0, 0, t) && ArrivesBy(c, 1, 1, t);
    forall i: nat, d: int | ArrivesBy(c, i, d, t) && NoneAfter(c, t, d) ensures t - (d + c[i].duration) > MAX_TRAVEL_TIME {
      assert d >= 1;
    }
  }
}
